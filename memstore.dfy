/** The in-memory temporary-file backend: a map from path to data cell, handles
    that read a cell through a cursor and append to it, and the random-token
    name generator used by TempFile and TempDir. */
module MemStore {
  import opened Wrappers

  newtype byte = b: int | 0 <= b < 256

  /** The errors this backend can return. */
  datatype Error =
    | EOF                        // io.EOF: Read found no data past the cursor
    | OpenFailed(text: string)   // Open of a path that is not in the store
    | SourceFailed(cause: string) // what the file-reading collaborator of Add reported

  // ---------------------------------------------------------------------------
  // Name generation
  // ---------------------------------------------------------------------------

  /** Number of random bytes drawn for every generated name. */
  const TokenBytes: nat := 6

  /** The digit table of Go's hexadecimal encoder (lower case). */
  const HexTable: string := "0123456789abcdef"

  predicate IsLowerHex(c: char) {
    '0' <= c <= '9' || 'a' <= c <= 'f'
  }

  predicate IsHexString(s: string) {
    |s| % 2 == 0 && forall i :: 0 <= i < |s| ==> IsLowerHex(s[i])
  }

  /** The numeric value of one lower-case hex digit (inverse of HexDigit). */
  function DigitValue(c: char): (n: nat)
    requires IsLowerHex(c)
    ensures n < 16
  {
    if c <= '9' then c as int - '0' as int else c as int - 'a' as int + 10
  }

  function HexDigit(n: nat): (c: char)
    requires n < 16
    ensures IsLowerHex(c) && DigitValue(c) == n
  {
    HexTable[n]
  }

  /** Hexadecimal encoding, two lower-case digits per byte, high nibble first. */
  function Encode(bs: seq<byte>): (s: string)
    ensures IsHexString(s)
    ensures |s| == 2 * |bs|
  {
    if bs == [] then ""
    else [HexDigit(bs[0] as int / 16), HexDigit(bs[0] as int % 16)] + Encode(bs[1..])
  }

  /** Reference decoder for Encode: two digits back to one byte. */
  function Decode(s: string): (bs: seq<byte>)
    requires IsHexString(s)
    ensures 2 * |bs| == |s|
    decreases |s|
  {
    if s == "" then []
    else
      assert IsHexString(s[2..]) by {
        forall i | 0 <= i < |s| - 2 ensures IsLowerHex(s[2..][i]) {
          assert s[2..][i] == s[i + 2];
        }
      }
      [(DigitValue(s[0]) * 16 + DigitValue(s[1])) as byte] + Decode(s[2..])
  }

  lemma {:induction false} DecodeEncode(bs: seq<byte>)
    ensures Decode(Encode(bs)) == bs
  {
    if bs != [] {
      var s := Encode(bs);
      assert s[2..] == Encode(bs[1..]);
      DecodeEncode(bs[1..]);
      assert DigitValue(s[0]) * 16 + DigitValue(s[1]) == bs[0] as int;
    }
  }

  /** Different random bytes never give the same token. */
  lemma EncodeInjective(a: seq<byte>, b: seq<byte>)
    requires Encode(a) == Encode(b)
    ensures a == b
  {
    DecodeEncode(a);
    DecodeEncode(b);
  }

  /** The token of a generated name: the given random bytes, hex-encoded. */
  function RandomToken(rnd: seq<byte>): (t: string)
    ensures IsHexString(t) && |t| == 2 * |rnd|
    ensures Decode(t) == rnd
  {
    DecodeEncode(rnd);
    Encode(rnd)
  }

  /** The generated name for a pattern: the pattern followed by a 12-digit token. */
  function TempName(pattern: string, rnd: seq<byte>): (r: string)
    requires |rnd| == TokenBytes
    ensures |r| == |pattern| + 2 * TokenBytes
    ensures r[..|pattern|] == pattern
    ensures IsHexString(r[|pattern|..]) && Decode(r[|pattern|..]) == rnd
  {
    var t := RandomToken(rnd);
    assert (pattern + t)[|pattern|..] == t;
    pattern + t
  }

  /** The key under which TempFile stores its cell. */
  function TempFileName(dir: string, pattern: string, rnd: seq<byte>): (r: string)
    requires |rnd| == TokenBytes
    ensures |r| == |dir| + 1 + |pattern| + 2 * TokenBytes
    ensures r[..|dir|] == dir && r[|dir|] == '/'
    ensures r[|dir| + 1..] == TempName(pattern, rnd)
  {
    var t := TempName(pattern, rnd);
    assert (dir + "/" + t)[|dir| + 1..] == t;
    dir + "/" + t
  }

  /** For a fixed directory and pattern, two TempFile names collide only when
      the random bytes drawn for them are the same. */
  lemma TempFileNameInjective(dir: string, pattern: string, a: seq<byte>, b: seq<byte>)
    requires |a| == TokenBytes && |b| == TokenBytes
    requires TempFileName(dir, pattern, a) == TempFileName(dir, pattern, b)
    ensures a == b
  {
  }

  /** The text of the error Open returns for an absent path. */
  function OpenFailedText(path: string): (t: string)
    ensures |t| >= |path| && t[|t| - |path|..] == path
  {
    var t := "Cannot open the file " + path;
    assert t[|t| - |path|..] == path;
    t
  }

  // ---------------------------------------------------------------------------
  // Reading a cell through a cursor
  // ---------------------------------------------------------------------------

  /** What one Read call finds: the end of the data, or a chunk of it and the
      cursor position that follows the chunk. */
  datatype ReadOutcome = AtEnd | Chunk(data: seq<byte>, next: nat)

  /** One Read: `size` marks the end of the data, not the length of `content`. */
  function ReadStep(content: seq<byte>, size: nat, offset: nat, bufLen: nat): (o: ReadOutcome)
    requires size <= |content|
    ensures o.AtEnd? <==> offset >= size
    ensures o.Chunk? ==> offset <= o.next <= size && o.data == content[offset..o.next]
    ensures o.Chunk? ==> |o.data| <= bufLen && (|o.data| == bufLen || o.next == size)
  {
    if offset >= size then AtEnd
    else
      var e := Min(offset + bufLen, size);
      Chunk(content[offset..e], e)
  }

  /** An empty buffer before the end reads zero bytes and no error. */
  lemma ReadStepEmptyBuffer(content: seq<byte>, size: nat, offset: nat)
    requires size <= |content| && offset < size
    ensures ReadStep(content, size, offset, 0) == Chunk([], offset)
  {
  }

  /** Reading with a non-empty buffer always makes progress before the end. */
  lemma ReadStepProgress(content: seq<byte>, size: nat, offset: nat, bufLen: nat)
    requires size <= |content| && offset < size && bufLen > 0
    ensures ReadStep(content, size, offset, bufLen).next > offset
  {
  }

  /** The bytes a reader collects by calling Read with buffers of bufLen bytes
      until the end of the data. */
  function Drain(content: seq<byte>, size: nat, offset: nat, bufLen: nat): seq<byte>
    requires size <= |content| && bufLen > 0
    decreases size - offset
  {
    match ReadStep(content, size, offset, bufLen)
    case AtEnd => []
    case Chunk(data, next) => data + Drain(content, size, next, bufLen)
  }

  /** Reading until EOF yields exactly the data between the cursor and `size`,
      whatever the buffer length. */
  lemma {:induction false} DrainIsRest(content: seq<byte>, size: nat, offset: nat, bufLen: nat)
    requires size <= |content| && offset <= size && bufLen > 0
    ensures Drain(content, size, offset, bufLen) == content[offset..size]
    decreases size - offset
  {
    match ReadStep(content, size, offset, bufLen)
    case AtEnd =>
    case Chunk(data, next) =>
      DrainIsRest(content, size, next, bufLen);
      assert content[offset..size] == content[offset..next] + content[next..size];
  }

  // ---------------------------------------------------------------------------
  // The store and its handles
  // ---------------------------------------------------------------------------

  /** memDataCell: one stored file. `size` is kept apart from `content`. */
  class MemDataCell {
    var name: string
    var content: seq<byte>
    var size: nat

    /** Read slices content[..size], so size never passes the content's end. */
    ghost predicate Valid()
      reads this
    {
      size <= |content|
    }

    /** A cell literal that sets only name and content: its size starts at 0. */
    constructor (name: string, content: seq<byte>)
      ensures this.name == name && this.content == content && size == 0
      ensures Valid()
    {
      this.name := name;
      this.content := content;
      size := 0;
    }
  }

  /** memFile: an open handle, a cell shared with the store and a read cursor. */
  class MemFile {
    const cell: MemDataCell
    var offset: nat

    constructor (cell: MemDataCell)
      ensures this.cell == cell && offset == 0
    {
      this.cell := cell;
      offset := 0;
    }

    ghost predicate Valid()
      reads this, cell
    {
      cell.Valid() && offset <= cell.size
    }

    /** Appends p to the cell, whatever the cursor; the cursor does not move. */
    method Write(p: seq<byte>) returns (n: nat, err: Option<Error>)
      modifies cell
      ensures cell.content == old(cell.content) + p
      ensures cell.size == old(cell.size) + |p|
      ensures cell.name == old(cell.name)
      ensures offset == old(offset)
      ensures n == |p| && err == None
      ensures old(cell.Valid()) ==> cell.Valid()
      ensures old(Valid()) ==> Valid()
    {
      cell.content := cell.content + p;
      cell.size := cell.size + |p|;
      return |p|, None;
    }

    /** Copies the bytes between the cursor and the cell's size into the front
        of p, as many as fit, and moves the cursor past them; at or past the
        size it reports EOF and moves nothing. */
    method Read(p: array<byte>) returns (n: nat, err: Option<Error>)
      requires cell.Valid()
      modifies this`offset, p
      ensures var o := ReadStep(cell.content, cell.size, old(offset), p.Length);
        && (o.AtEnd? ==>
              n == 0 && err == Some(EOF) && offset == old(offset) && p[..] == old(p[..]))
        && (o.Chunk? ==>
              err == None && n == |o.data| && offset == o.next
              && p[..n] == o.data && p[n..] == old(p[n..]))
    {
      var start := offset;
      var size := cell.size;
      var limit := p.Length;
      if limit > size {
        limit := size;  // the destination slice is shortened to this length
      }
      if start >= size {
        return 0, Some(EOF);
      }
      var end := start + limit;
      if end >= size {
        end := size;
      }
      var src := cell.content[start..end];
      // copy moves as many bytes as the shorter of destination and source holds
      var count := Min(limit, |src|);
      forall i | 0 <= i < count {
        p[i] := src[i];
      }
      offset := end;
      return count, None;
    }

    /** The path of the cell this handle is bound to. */
    function Name(): (r: string)
      reads this, cell
      ensures r == cell.name
    {
      cell.name
    }

    /** Releases nothing: the cell stays in the store. */
    method Close() returns (err: Option<Error>)
      ensures err == None
    {
      return None;
    }
  }

  /** memStorage: the path-to-cell map shared by every handle. */
  class MemStorage {
    var files: map<string, MemDataCell>

    /** Every cell is stored under its own name and keeps size within content. */
    ghost predicate Valid()
      reads this, files.Values
    {
      forall path | path in files :: files[path].name == path && files[path].Valid()
    }

    constructor ()
      ensures Valid() && files == map[]
    {
      files := map[];
    }

    /** Stores the bytes the collaborator read from `path` under `path`,
        replacing any earlier entry; size is left at 0. */
    method Add(path: string, source: Result<seq<byte>, Error>) returns (err: Option<Error>)
      requires Valid()
      modifies this
      ensures Valid()
      ensures source.Failure? ==> err == Some(source.error) && files == old(files)
      ensures source.Success? ==>
        && err == None && path in files && fresh(files[path])
        && files == old(files)[path := files[path]]
        && files[path].name == path && files[path].content == source.value
        && files[path].size == 0
    {
      if source.Failure? {
        return Some(source.error);
      }
      var cell := new MemDataCell(path, source.value);
      files := files[path := cell];
      return None;
    }

    /** Add as evidently intended: the stored cell's size is the length of the
        bytes read, so the file reads back in full. */
    method AddCorrected(path: string, source: Result<seq<byte>, Error>) returns (err: Option<Error>)
      requires Valid()
      modifies this
      ensures Valid()
      ensures source.Failure? ==> err == Some(source.error) && files == old(files)
      ensures source.Success? ==>
        && err == None && path in files && fresh(files[path])
        && files == old(files)[path := files[path]]
        && files[path].name == path && files[path].content == source.value
        && files[path].size == |source.value|
    {
      if source.Failure? {
        return Some(source.error);
      }
      var cell := new MemDataCell(path, source.value);
      cell.size := |source.value|;
      files := files[path := cell];
      return None;
    }

    /** A new handle at offset 0 on the stored cell, or an error naming the path. */
    method Open(path: string) returns (f: MemFile?, err: Option<Error>)
      requires Valid()
      ensures path !in files ==> f == null && err == Some(OpenFailed(OpenFailedText(path)))
      ensures path in files ==>
        && err == None && f != null && fresh(f)
        && f.cell == files[path] && f.offset == 0 && f.Valid() && f.Name() == path
    {
      if path !in files {
        return null, Some(OpenFailed(OpenFailedText(path)));
      }
      f := new MemFile(files[path]);
      err := None;
    }

    /** Stores a new empty cell under dir + "/" + pattern + token and returns a
        handle on it; every other entry stays as it was. */
    method TempFile(dir: string, pattern: string, rnd: seq<byte>) returns (f: MemFile, err: Option<Error>)
      requires Valid()
      requires |rnd| == TokenBytes
      modifies this
      ensures Valid()
      ensures var name := TempFileName(dir, pattern, rnd);
        && files == old(files)[name := f.cell]
        && fresh(f) && fresh(f.cell)
        && f.cell.name == name && f.cell.content == [] && f.cell.size == 0
        && f.offset == 0 && f.Name() == name
      ensures err == None
    {
      var name := dir + "/" + TempName(pattern, rnd);
      var cell := new MemDataCell(name, []);
      f := new MemFile(cell);
      files := files[name := cell];
      err := None;
    }

    /** Only reserves a name: the store is not touched. */
    method TempDir(pattern: string, rnd: seq<byte>) returns (name: string, err: Option<Error>)
      requires |rnd| == TokenBytes
      ensures name == TempName(pattern, rnd) && err == None
    {
      return TempName(pattern, rnd), None;
    }

    /** Deletes every entry, whatever `dir` is. */
    method RemoveAll(dir: string) returns (err: Option<Error>)
      requires Valid()
      modifies this
      ensures Valid()
      ensures files == map[] && err == None
    {
      while files != map[]
        decreases files.Keys
      {
        var path :| path in files;
        files := files - {path};
      }
      return None;
    }
  }
}
