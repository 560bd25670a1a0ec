/** Callers of the in-memory backend that put its operations together: a
    reader that calls Read until EOF, the write-then-reopen round trip, and
    what Open and Read see of a file stored by Add. */
module MemStoreClients {
  import opened Wrappers
  import opened MemStore

  /** Calls Read with a buffer of bufLen bytes until it reports EOF and
      returns everything it copied. */
  method ReadToEnd(f: MemFile, bufLen: nat) returns (got: seq<byte>)
    requires f.Valid() && bufLen > 0
    modifies f`offset
    ensures got == f.cell.content[old(f.offset)..f.cell.size]
    ensures got == Drain(f.cell.content, f.cell.size, old(f.offset), bufLen)
    ensures f.offset == f.cell.size
  {
    ghost var content, size := f.cell.content, f.cell.size;
    ghost var rest := content[f.offset..size];
    DrainIsRest(content, size, f.offset, bufLen);
    var buf := new byte[bufLen];
    got := [];
    var done := false;
    while !done
      invariant f.offset <= size
      invariant got + content[f.offset..size] == rest
      invariant done ==> f.offset == size
      decreases size - f.offset, !done
    {
      ghost var before := f.offset;
      var n, err := f.Read(buf);
      if err.Some? {
        done := true;
      } else {
        SliceSplit(content, before, f.offset, size);
        got := got + buf[..n];
      }
    }
  }

  lemma SliceSplit(s: seq<byte>, i: nat, j: nat, k: nat)
    requires i <= j <= k <= |s|
    ensures s[i..k] == s[i..j] + s[j..k]
  {
  }

  /** TempFile, Write(a), Write(b), then Open on the handle's name and read to
      EOF through the new handle: the bytes come back as a + b, and both
      handles share one cell. */
  method WriteThenReopen(store: MemStorage, dir: string, pattern: string, rnd: seq<byte>,
                         a: seq<byte>, b: seq<byte>, bufLen: nat)
    returns (got: seq<byte>)
    requires store.Valid() && |rnd| == TokenBytes && bufLen > 0
    modifies store
    ensures store.Valid()
    ensures TempFileName(dir, pattern, rnd) in store.files
    ensures got == a + b
  {
    var w, _ := store.TempFile(dir, pattern, rnd);
    var n1, e1 := w.Write(a);
    var n2, e2 := w.Write(b);
    assert w.cell.content == a + b;
    assert store.Valid();
    var r, err := store.Open(w.Name());
    assert r.cell == w.cell;
    got := ReadToEnd(r, bufLen);
  }

  /** A file stored by Add, however many bytes it holds, reads as empty:
      the first Read through Open reports EOF. */
  method AddThenRead(store: MemStorage, path: string, data: seq<byte>, bufLen: nat)
    returns (n: nat, err: Option<Error>)
    requires store.Valid()
    modifies store
    ensures n == 0 && err == Some(EOF)
  {
    var e := store.Add(path, Success(data));
    var f, oe := store.Open(path);
    var buf := new byte[bufLen];
    n, err := f.Read(buf);
  }

  /** With the corrected Add, the stored bytes read back in full. */
  method AddCorrectedThenRead(store: MemStorage, path: string, data: seq<byte>, bufLen: nat)
    returns (got: seq<byte>)
    requires store.Valid() && bufLen > 0
    modifies store
    ensures got == data
  {
    var e := store.AddCorrected(path, Success(data));
    var f, oe := store.Open(path);
    got := ReadToEnd(f, bufLen);
    assert data[0..|data|] == data;
  }
}
