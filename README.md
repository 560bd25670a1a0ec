# In-memory temporary storage and document runs, modelled in Dafny

This project models two parts of a Go library that generates office documents.

**The in-memory temporary-storage backend** (`common/tempstorage/memstore/memstore.go`).
A store (`MemStorage`) maps paths to data cells (`MemDataCell`: name, content, size).
Open handles (`MemFile`) share a cell with the store and keep their own read offset.
Handles and cells are Dafny objects, so two handles on one path see one cell and each other's writes.
The model covers:
- the store operations `Add`, `Open`, `TempFile`, `TempDir` and `RemoveAll`;
- the handle operations `Read`, `Write`, `Name` and `Close`;
- the name generator: `pattern + token`, where the token is the lower-case hex encoding of 6 random bytes.

The cell's `size` is a field of its own, apart from `content`.
`Read` treats `size` as the end of the data.
`Write` appends to `content` and increases `size`.
`Add` sets only the name and the content, so its cell has size 0.
The store invariant `MemStorage.Valid()` says that every cell is stored under its own name and has `size <= |content|`.
The constructor establishes it, and every store operation and every `Write` keeps it.
A cell made by `TempFile` also keeps `size == |content|`.

`MemStoreClients` holds callers that combine these operations:
- a reader that calls `Read` until EOF;
- the round trip TempFile, Write(a), Write(b), Open(Name()), read to EOF, which yields `a + b`;
- what is read back from a file stored by `Add`.

**A run of a paragraph** (`document/run.go`).
A `Run` holds a list of inner-content entries: text, tab, break, field character, field instruction and drawing.
It also holds optional run properties, whose first base carries the bold and italic flags.
The read-only loops of the source (`Text`, `IsBold`, `IsItalic`, `DrawingAnchored` and the image search of `AddDrawingAnchored`) are methods with loops.
Each is proved equal to a specification function: `TextOf`, `AnyBold`, `AnyItalic`, `AnchorsOf` or `LastIndexOf`.
The `Add*`, `EnsureRPR` and `Set*` methods update the run in place.
Their postconditions give the new entry list or properties exactly.
Lemmas about the specification functions give the effect on the text, on the anchors and on the flags.

Files: `wrappers.dfy` (Option, Result, Min), `memstore.dfy`, `memstore_clients.dfy`, `run.dfy`.

Inputs that came from outside the core are parameters:
- the bytes from the random source (`rnd`);
- the outcome of reading the source file in `Add` (`source`);
- the random 32-bit number drawn by `AddDrawingAnchored` (`rnd`);
- the document-relationship lookup of an image's relationship ID (`ridForIndex`).

## Model

| member | source | states |
|---|---|---|
| MemStore.Encode | common/tempstorage/memstore/memstore.go:29 | the token is lower-case hex, two digits per random byte |
| MemStore.DecodeEncode | common/tempstorage/memstore/memstore.go:29 | decoding the hex token gives back exactly the random bytes |
| MemStore.EncodeInjective | common/tempstorage/memstore/memstore.go:29 | different random bytes give different tokens |
| MemStore.RandomToken | common/tempstorage/memstore/memstore.go:29 | the token of n random bytes is 2n lower-case hex digits that decode to those bytes |
| MemStore.TempName | common/tempstorage/memstore/memstore.go:17 | a generated name is the pattern, then 12 hex digits that encode the 6 random bytes |
| MemStore.TempFileName | common/tempstorage/memstore/memstore.go:41 | a TempFile key is dir, then '/', then the generated name for the pattern |
| MemStore.TempFileNameInjective | common/tempstorage/memstore/memstore.go:41 | for one dir and pattern, two TempFile keys are equal only when their random bytes are equal |
| MemStore.OpenFailedText | common/tempstorage/memstore/memstore.go:44 | the text of Open's not-found error ends with the requested path |
| MemStore.ReadStep | common/tempstorage/memstore/memstore.go:32 | one read hits the end exactly when offset >= size; otherwise it yields content[offset..next] with next <= size, at most the buffer's length, and stops short only at size |
| MemStore.ReadStepEmptyBuffer | common/tempstorage/memstore/memstore.go:32 | a zero-length buffer before the end reads 0 bytes, with no EOF, and leaves the offset where it was |
| MemStore.ReadStepProgress | common/tempstorage/memstore/memstore.go:32 | a non-empty buffer before the end always advances the offset |
| MemStore.DrainIsRest | common/tempstorage/memstore/memstore.go:32 | reading until EOF with any buffer length yields exactly content[offset..size] |
| MemStore.MemDataCell.constructor | common/tempstorage/memstore/memstore.go:38-41 | the cell literal of Add and TempFile sets name and content and leaves size at 0 |
| MemStore.MemFile.constructor | common/tempstorage/memstore/memstore.go:44 | a new handle is bound to the given cell at offset 0 |
| MemStore.MemFile.Write | common/tempstorage/memstore/memstore.go:17 | content becomes old content + p, size grows by the length of p, name and offset are unchanged, and the call returns the length of p and no error; it keeps size <= the content length and offset <= size |
| MemStore.MemFile.Read | common/tempstorage/memstore/memstore.go:32 | at or past size: 0 bytes, EOF, offset and buffer unchanged; before size: the ReadStep chunk is copied to the buffer's front, the rest of the buffer is untouched, the count is returned with no error, and the offset moves to the chunk's end |
| MemStore.MemFile.Name | common/tempstorage/memstore/memstore.go:26 | the handle's name is its cell's name |
| MemStore.MemFile.Close | common/tempstorage/memstore/memstore.go:35 | Close changes nothing and returns no error |
| MemStore.MemStorage.constructor | common/tempstorage/memstore/memstore.go:20 | a new store is empty and valid |
| MemStore.MemStorage.Add | common/tempstorage/memstore/memstore.go:38 | a failed source read is returned unchanged and the store stays as it was; otherwise a fresh cell named path, holding the bytes read, with size 0, replaces the entry for path and nothing else changes |
| MemStore.MemStorage.AddCorrected | common/tempstorage/memstore/memstore.go:38 | as Add, except that the new cell's size is the number of bytes read |
| MemStore.MemStorage.Open | common/tempstorage/memstore/memstore.go:44 | an absent path gives no handle and an error whose text ends with the path; a present path gives a fresh handle at offset 0 on the stored cell, whose Name() is the path; the store is not changed |
| MemStore.MemStorage.TempFile | common/tempstorage/memstore/memstore.go:41 | a fresh empty cell is stored under dir + "/" + pattern + token and every other key is unchanged; the returned handle is at offset 0 on that cell, its Name() is the key, and there is no error |
| MemStore.MemStorage.TempDir | common/tempstorage/memstore/memstore.go:29 | returns pattern + token and no error, and does not touch the store |
| MemStore.MemStorage.RemoveAll | common/tempstorage/memstore/memstore.go:23 | the store is empty afterwards, whatever dir is, and no error is returned |
| MemStoreClients.ReadToEnd | common/tempstorage/memstore/memstore.go:32 | calling Read until EOF returns exactly the bytes between the handle's offset and its cell's size, and leaves the offset at size |
| MemStoreClients.WriteThenReopen | common/tempstorage/memstore/memstore.go:17-44 | TempFile, Write(a), Write(b), then Open(Name()) and read to EOF through the new handle yields exactly a + b; the store stays valid |
| MemStoreClients.AddThenRead | common/tempstorage/memstore/memstore.go:32-38 | after Add of any bytes, the first Read through Open returns 0 bytes and EOF |
| MemStoreClients.AddCorrectedThenRead | common/tempstorage/memstore/memstore.go:32-38 | after the corrected Add, reading to EOF through Open returns exactly the bytes read from the source |
| DocumentRun.TextOfConcat | document/run.go:38-52 | the text of two entry lists joined is the text of the first followed by the text of the second |
| DocumentRun.TextOfAppend | document/run.go:38-52 | appending entries adds their text to the end; appending entries with neither text nor tab leaves the text unchanged |
| DocumentRun.TextOfSingle | document/run.go:43-50 | a single entry's text is its text content followed by a tab character when it holds a tab |
| DocumentRun.TextOfSilent | document/run.go:43-50 | entries that are neither text nor tab contribute nothing, and an empty list gives "" |
| DocumentRun.AnchorsOfConcat | document/run.go:311-322 | the anchors of two entry lists joined are the first list's anchors followed by the second's |
| DocumentRun.EnsureRPr | document/run.go:101-107 | when there are no properties, the result has exactly one empty base; existing properties are returned untouched |
| DocumentRun.EnsureRPrIdempotent | document/run.go:101-107 | applying ensureRPR twice is the same as applying it once |
| DocumentRun.WithBold | document/run.go:144-153 | B and BCs of base 0 become present or absent as asked; the italic flags of base 0 and every other base are unchanged |
| DocumentRun.WithItalic | document/run.go:169-178 | I and ICs of base 0 become present or absent as asked; the bold flags of base 0 and every other base are unchanged |
| DocumentRun.SetBoldThenIsBold | document/run.go:130-153 | after SetBold(true) the run is bold; after SetBold(false) it is bold exactly when some later base carries B; italic is unaffected |
| DocumentRun.SetItalicThenIsItalic | document/run.go:155-178 | after SetItalic(true) the run is italic; after SetItalic(false) it is italic exactly when some later base carries I; bold is unaffected |
| DocumentRun.MaskId | document/run.go:358-360 | the drawing identifier is at most 0x7FFFFFFF and differs from the random number only in its top bit |
| DocumentRun.LastIndexOf | document/run.go:367-372 | the result is -1 exactly when the reference is absent; otherwise it is an index holding the reference, and no later index holds it |
| DocumentRun.Run.constructor | document/run.go:26-30 | a new run belongs to the given document, has no entries and no properties |
| DocumentRun.Run.Text | document/run.go:38-52 | returns the run's text, as TextOf defines it, "" for no entries |
| DocumentRun.Run.AddText | document/run.go:55-60 | exactly one text entry with content s is appended, and the text becomes the old text followed by s |
| DocumentRun.Run.NewIC | document/run.go:62-66 | exactly one empty entry is appended, and its index is returned |
| DocumentRun.Run.AddTab | document/run.go:69-72 | exactly one tab entry is appended, and the text gains "\t" |
| DocumentRun.Run.AddBreak | document/run.go:305-308 | exactly one break entry is appended, and the text is unchanged |
| DocumentRun.Run.AddFieldWithFormatting | document/run.go:76-94 | exactly three entries are appended: a dirty begin character, the instruction code + " " + fmt (just code when fmt is ""), and an end character; the text is unchanged |
| DocumentRun.Run.AddField | document/run.go:97-99 | the same three entries with the bare code as instruction; the text is unchanged |
| DocumentRun.Run.EnsureRPR | document/run.go:101-107 | the properties become EnsureRPr of the old properties |
| DocumentRun.Run.IsBold | document/run.go:131-141 | true exactly when there are properties and some base carries B; false when there are none |
| DocumentRun.Run.SetBold | document/run.go:144-153 | the properties become WithBold of the ensured properties; SetBold(true) makes the run bold, SetBold(false) on a single base makes it not bold, and italic is unchanged |
| DocumentRun.Run.IsItalic | document/run.go:156-166 | true exactly when there are properties and some base carries I; false when there are none |
| DocumentRun.Run.SetItalic | document/run.go:169-178 | the properties become WithItalic of the ensured properties; SetItalic(true) makes the run italic, SetItalic(false) on a single base makes it not italic, and bold is unchanged |
| DocumentRun.Run.DrawingAnchored | document/run.go:311-322 | returns the anchors of all drawing entries, in entry order and then anchor order |
| DocumentRun.Run.FindImageIndex | document/run.go:367-372 | returns the last index of the document's image references that equals the given one, or -1 |
| DocumentRun.Run.AddDrawingAnchored | document/run.go:325-401 | one drawing entry with one anchor is appended on every path, even on the two lookup errors; the image chosen is the last match; the masked identifier is used for both the DocPr ID and the picture ID; the picture with the relationship ID is attached only on success; the anchor list gains that anchor; the text is unchanged |

## Left out

- Concurrency: the store is a `sync.Map` in the source. Here the map is a plain field and the operations run one at a time. The accepted races of `RemoveAll` and of concurrent appends to one cell are not modelled.
- Reading the source file in `Add` (`ioutil.ReadFile`) is disk I/O. Its outcome is the `source` parameter: the bytes, or the error that `Add` passes on.
- Randomness: `math/rand` in the token generator and `rand.Uint32` in `AddDrawingAnchored` are replaced by parameters. The name generator ignores any error of the random source, so `TempFile` and `TempDir` never fail here either.
- `SetAsStorage` registers the backend process-wide. That registration is not modelled; the store constructor stands for the empty store it creates.
- Integer widths: cell sizes and read offsets are `int64` in the source and `nat` here. An overflow would need more than 2^63 bytes in memory, so it is not modelled.
- `MemStore.MemFile.Name`: its contract only says that the name is the cell's name, which is all the source does. The property that matters, that `Name()` equals the store key, is stated by `Open` and `TempFile`.
- The hex encoding of the standard library is modelled by `MemStore.Encode`, which uses the same digit table.
- Floating-point and unit arithmetic in the run: anchor extents (document/run.go:352-353) and `SetFontSize`.
- Foreign calls: `FindRIDForN` is the `ridForIndex` parameter. `AsRGBString` and the generated schema constructors become plain datatypes.
- Anchor attributes with nothing to state: position offsets, wrap type, extents, blip fill and shape properties. The model keeps the simple-position and allow-overlap flags, the graphic-data URI, the DocPr ID and the picture (its ID and relationship ID). An anchored drawing's back-pointer to its document is not modelled.
- Formatting setters that only assign one attribute: `SetFontFamily`, `SetUnderline`, `SetColor`, `ClearColor`, `SetHighlight`, `SetEffect`, and the caps, strike, outline, shadow, emboss and imprint setters.
- On/off elements are modelled by presence only. `IsBold` and `IsItalic` test presence, so the value attribute does not matter to them.
- `SetBold` and `SetItalic` require that the run has no properties or properties with at least one base. When a record with no base exists, the source indexes base 0 and panics.
- Cell size and content length: `Write` (common/tempstorage/memstore/memstore.go:17) raises `_feg` by `len(p)` as it appends, and `Read` (common/tempstorage/memstore/memstore.go:32) ends the data at `_feg`. `Add` (common/tempstorage/memstore/memstore.go:38) never sets `_feg`, so only `size <= |content|` holds, not equality (see Findings).
- The doc comment of `RemoveAll` (common/tempstorage/memstore/memstore.go:22) speaks of a directory prefix. The code deletes every entry.
- `_eb` (common/tempstorage/memstore/memstore.go:17) discards the error of `_efc`, so the model has no name-generation failure path.

## Findings

| source | as written | input that shows it | evidently intended | confidence | as-written member | corrected member |
|---|---|---|---|---|---|---|
| common/tempstorage/memstore/memstore.go:38 | `Add` stores a cell with the bytes read but never sets its size, and `Read` ends the data at the size | `Add("p")` where the file holds bytes [1, 2]; then `Open("p")` and `Read` into a 2-byte buffer return 0 bytes and EOF | the size is the number of bytes read, so an added file reads back in full | medium, not executed | MemStoreClients.AddThenRead | MemStoreClients.AddCorrectedThenRead |

`MemStore.MemStorage.Add` models the code as written. `MemStore.MemStorage.AddCorrected` sets the size, and `MemStoreClients.AddCorrectedThenRead` proves that the added bytes then read back exactly.
