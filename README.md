# DBI stream decoder, modelled in Dafny

This project models the decoder for the DBI ("debug information") stream
of a Microsoft PDB file, as written in `pdbparse/dbi.py`. The decoder does
the following, in order:

1. It reads the fixed 64-byte header. The header starts with the
   `FF FF FF FF` sentinel and carries a `Machine` enumeration and the
   byte sizes of the regions that follow.
2. It cuts out the window of per-module records (`DBIExHeader`). Each
   record ends in two NUL-terminated names and is padded to a multiple
   of 4.
3. It skips the section-contribution and section-map regions.
4. It reads the file-info region. This region holds the `sstFileIndex`
   counts, the `modStart` and `cRefCnt` arrays, the `NameRef` offsets and
   a blob of names.
5. It resolves every module's file names through these arrays. Indices
   past the end of `NameRef` are skipped and counted. A module stops
   early once the count passes ten.
6. It skips the TSM and EC regions.
7. It reads the debug sub-stream table (`DbiDbgHeader`).

The model has three layers.

- **Record decoders.** Each record layout is a pure decoder and encoder
  pair over `seq<Byte>`, in modules `Wire`, `Layout` and `Records`. The
  lemmas in `RecordLaws` prove that encoding then decoding gives back the
  record, and that decoding then encoding gives back the bytes, with
  padding bytes zeroed.
- **Loops as methods.** The two loops of `parse_stream` are methods with
  loop invariants:
  - `ModuleScan.ScanModuleRecords` scans the module records.
  - `FileInfo.ResolveFileNames` and `FileInfo.ResolveModule` resolve the
    file names.

  Each is proved equal to a reference definition: `ModuleScan.ScanModules`
  and `FileInfo.Resolve` respectively. The properties the decoder promises
  are proved as lemmas about those definitions.
- **Stream and orchestrator.**
  - `Streams.Stream` is a class over the input bytes. Its cursor behaves
    like Python's in-memory `StringIO`. A read near or past the end
    returns what is there. A negative count reads to the end. A relative
    seek clamps at 0.
  - `DbiStream.ParseStream` follows `dbi.py`'s order of reads and
    seeks on a `Stream`. The two plain reads go through `Stream.Read`:
    the module window (`dbi.py:94`) and the name blob (`dbi.py:121`).
    Each fixed-width record read is done as a decode of the input at the
    cursor. After the header and the file-info records, a relative seek
    moves past the record. The final debug-table decode leaves the cursor
    where it is. `ParseStream` is proved equal to the pure decoder
    `DbiStream.DecodeDbiAt`.
  - The lemmas in `DbiLaws` state what a successful parse implies about
    the input bytes. The lemmas in `DbiTables` state that the parse's file
    names are the resolution of the file table as it lies in the input.

Errors are values rather than exceptions: `Truncated` for a short read,
`BadMagic`, `UnknownMachine`, and `MissingTerminator` for a name with no
NUL.

Some behaviours of `dbi.py` that the model keeps:

- An unknown `Machine` value fails the parse. The `Enum` at
  `dbi.py:44-49` has no default, so it raises.
- A trailing module record shorter than its 64-byte fixed part fails the
  parse (`dbi.py:100`).
- Padding included, the scan may consume up to 3 bytes more than
  `module_size`, because `dbiexhdr_data[sz:]` (`dbi.py:103`) can
  overshoot the window. See `ModuleScan.ScanEnd`.
- A module's name count plus its skipped count is at most its
  `cRefCnt`, not always equal to it, because of the break at
  `dbi.py:141-142`.

## Model

| member | source | states |
|---|---|---|
| Records.ParsedSize | pdbparse/dbi.py:9-10 | the size of a rebuilt module record is its fixed 64 bytes plus both names and their terminators |
| Records.EncodeHeader | pdbparse/dbi.py:9-10 | a rebuilt header is 64 bytes, so `pos` becomes 64 after the header |
| Records.EncodeSymbolRange | pdbparse/dbi.py:12-23 | a symbol range occupies 28 bytes, its two 2-byte paddings included |
| RecordLaws.SymbolRangeDecodes | pdbparse/dbi.py:12-23 | the bytes of an encoded symbol range decode back to that range, at any offset |
| RecordLaws.SymbolRangeReencodes | pdbparse/dbi.py:12-23 | re-encoding a decoded symbol range gives back the input bytes, with the padding bytes zeroed |
| Wire.I16Decodes | pdbparse/dbi.py:14 | a little-endian signed 16-bit field decodes back to the value encoded |
| Wire.I32Decodes | pdbparse/dbi.py:16-17 | a little-endian signed 32-bit field decodes back to the value encoded |
| Wire.U32Decodes | pdbparse/dbi.py:18 | a little-endian unsigned 32-bit field decodes back to the value encoded |
| Wire.U16Decodes | pdbparse/dbi.py:30 | a little-endian unsigned 16-bit field decodes back to the value encoded |
| Wire.I16Reencodes | pdbparse/dbi.py:14 | re-encoding a decoded signed 16-bit field gives back its two bytes |
| Wire.I32Reencodes | pdbparse/dbi.py:16-17 | re-encoding a decoded signed 32-bit field gives back its four bytes |
| Wire.U32Reencodes | pdbparse/dbi.py:18 | re-encoding a decoded unsigned 32-bit field gives back its four bytes |
| Wire.U16Reencodes | pdbparse/dbi.py:30 | re-encoding a decoded unsigned 16-bit field gives back its two bytes |
| Records.DecodeHeader | pdbparse/dbi.py:25-51 | the header decodes exactly when there are 64 bytes, the first four are `FF FF FF FF` and the code at offset 58 is a known machine; a wrong sentinel, and only that, gives `BadMagic`; after a good sentinel an unknown code gives `UnknownMachine` exactly when the input reaches offset 60; the decoded machine has the code at offset 58 |
| RecordLaws.HeaderDecodes | pdbparse/dbi.py:25-51 | an encoded header, followed by anything, decodes back to that header |
| RecordLaws.HeaderReencodes | pdbparse/dbi.py:25-51 | re-encoding a decoded header gives back its 64 input bytes |
| RecordLaws.HeaderFieldsAt | pdbparse/dbi.py:26-50 | each field of a decoded header is read at its own offset with its own width and sign: `version` and `age` as 32-bit at 4 and 8, the three stream numbers as signed 16-bit at 12, 16, 20 with `vers`, `pdbver`, `pdbver2` unsigned at 14, 18, 22, the eight sizes from `module_size` to `ecinfoSize` as 32-bit at 24, 28, ..., 52, `flags` at 56, the machine code at 58, `resvd` at 60 |
| Records.DecodeMachine | pdbparse/dbi.py:44-49 | exactly the codes 0x0, 0x014c, 0x0200 and 0x8664 map to a machine, and back to that code; any other code is `UnknownMachine` |
| RecordLaws.MachineRoundTrip | pdbparse/dbi.py:44-49 | every machine's code decodes back to that machine |
| Wire.CStringAt | pdbparse/dbi.py:66-67 | a string read from `off` ends before the end of the input; a read with no terminator fails with `MissingTerminator` |
| Wire.CStringNoNul | pdbparse/dbi.py:66-67 | a string read contains no NUL |
| Wire.CStringSlice | pdbparse/dbi.py:66-67 | a string read is the bytes from `off` up to a NUL |
| Wire.CStringMissing | pdbparse/dbi.py:66-67 | a string read fails if and only if no NUL follows `off` |
| Wire.CStringDecodes | pdbparse/dbi.py:66-67 | a NUL-free name written with its terminator is read back |
| Wire.CStringShift | pdbparse/dbi.py:144 | reading a name from a slice of the blob is reading the blob at the slice's start plus the offset |
| Records.DecodeModuleRecord | pdbparse/dbi.py:53-68 | a decoded module record fits in its input, and a record fails as truncated exactly when the input is shorter than its 64-byte fixed part |
| Records.EncodeModuleRecord | pdbparse/dbi.py:53-68 | an encoded module record is as long as its record length |
| RecordLaws.ModuleRecordDecodes | pdbparse/dbi.py:53-68 | an encoded module record with NUL-free names, followed by anything, decodes back to that record |
| RecordLaws.ModuleRecordReencodes | pdbparse/dbi.py:53-68 | re-encoding a decoded module record gives back its input bytes up to the objName terminator, with the padding zeroed |
| RecordLaws.ModuleRecordParts | pdbparse/dbi.py:53-68 | a decoded module record's names are the two strings read after its 64-byte fixed part, one after the other |
| RecordLaws.ModuleRecordRange | pdbparse/dbi.py:53-55 | a decoded module record's `range` is the symbol range read at offset 4, right after the 4-byte `opened` field |
| RecordLaws.ModuleRecordNames | pdbparse/dbi.py:66-67 | a decoded module record's names contain no NUL |
| Records.DecodeDbgHeader | pdbparse/dbi.py:70-82 | the debug table decodes exactly when 22 bytes remain from `off`, and fails only as truncated |
| RecordLaws.DbgHeaderDecodes | pdbparse/dbi.py:70-82 | an encoded debug table decodes back to that table wherever it sits |
| RecordLaws.DbgHeaderReencodes | pdbparse/dbi.py:70-82 | re-encoding a decoded debug table gives back its 22 input bytes |
| Records.DecodeFileIndex | pdbparse/dbi.py:84-87 | the file-index counts decode exactly when 4 bytes remain from `off`, and fail only as truncated |
| RecordLaws.FileIndexDecodes | pdbparse/dbi.py:84-87 | encoded file-index counts decode back to those counts wherever they sit |
| RecordLaws.FileIndexReencodes | pdbparse/dbi.py:84-87 | re-encoding decoded file-index counts gives back their 4 input bytes |
| Records.DecodeU16Array | pdbparse/dbi.py:116-117 | an array of `n` 16-bit values decodes exactly when `2n` bytes remain, has `n` elements, and fails only as truncated |
| Records.U16ArrayAt | pdbparse/dbi.py:116-117 | element `k` of a decoded 16-bit array is the value at `off + 2k` |
| Records.DecodeU32Array | pdbparse/dbi.py:118 | an array of `n` 32-bit values decodes exactly when `4n` bytes remain, has `n` elements, and fails only as truncated |
| Records.U32ArrayAt | pdbparse/dbi.py:118 | element `k` of a decoded 32-bit array is the value at `off + 4k` |
| Records.AlignedSize | pdbparse/dbi.py:101-102 | a record's padded size is the least multiple of 4 not below its length |
| ModuleScan.PaddedSize | pdbparse/dbi.py:101-102 | the size computed by rounding up the parsed size is the record's padded size |
| ModuleScan.ScanModules | pdbparse/dbi.py:98-103 | an empty window gives no records, a non-empty window that scans gives at least one, and a scan fails only on a truncated record or a missing terminator |
| ModuleScan.ScanModuleRecords | pdbparse/dbi.py:98-103 | the loop that decodes a record, rounds its size up to 4 and drops that many bytes returns the reference scan of the window |
| ModuleScan.ScanStep | pdbparse/dbi.py:99-103 | a window whose first record decodes, and whose remainder past the padded record scans, scans to that record followed by the rest |
| ModuleScan.ScanSuffix | pdbparse/dbi.py:99-103 | after `k` records the window, cut at the sum of their padded sizes, scans to the remaining records |
| ModuleScan.ScanPlacement | pdbparse/dbi.py:99-103 | record `k` of a scan lies, whole, at the sum of the padded sizes of the records before it |
| ModuleScan.ScanEnd | pdbparse/dbi.py:99-103 | the padded sizes of all scanned records add up to at least the window's length and less than that plus 4 |
| ModuleScan.ScanEncoded | pdbparse/dbi.py:98-103 | records with NUL-free names, laid out with padding to multiples of 4, scan back to those records |
| Streams.ReadEnd | pdbparse/dbi.py:94 | a read leaves the cursor `n` bytes on, or at the end of the input if that comes first or if `n` is negative |
| Streams.ReadBytes | pdbparse/dbi.py:121 | a read returns at most `n` bytes; it returns exactly the `n` bytes at the cursor when they are there, the bytes up to the new cursor otherwise, and nothing from past the end |
| Streams.Stream.constructor | pdbparse/dbi.py:166-167 | a new stream holds the input with its cursor at 0 |
| Streams.Stream.Tell | pdbparse/dbi.py:114 | the cursor is returned |
| Streams.Stream.Seek | pdbparse/dbi.py:93 | an absolute seek moves the cursor to the offset, clamped at 0 |
| Streams.Stream.SeekRelative | pdbparse/dbi.py:106-108 | a relative seek moves the cursor by the offset, clamped at 0 |
| Streams.Stream.Read | pdbparse/dbi.py:94 | a read returns the bytes read from the cursor and moves the cursor to the end of the read |
| FileInfo.NameFrom | pdbparse/dbi.py:144 | reading a name from the blob sliced at an offset fails only on a missing terminator |
| FileInfo.NameFromAt | pdbparse/dbi.py:144 | reading from the sliced blob is reading the blob at the offset, an offset past the end included |
| FileInfo.NamesBetween | pdbparse/dbi.py:135-146 | the names for a run of indices fail only on a missing terminator |
| FileInfo.NamesBetweenAt | pdbparse/dbi.py:135-146 | the names for indices `lo` up to `hi` number `hi - lo`, and name `m` is the string at `NameRef[lo + m]` |
| FileInfo.NamesOkIff | pdbparse/dbi.py:144 | a module's names resolve if and only if every one of its in-range offsets has a terminated string |
| FileInfo.ResolvePrefix | pdbparse/dbi.py:133-147 | resolving the first `n` modules fails only on a missing terminator |
| FileInfo.PrefixAt | pdbparse/dbi.py:133-147 | resolving the first `n` modules gives `n` lists, list `i` being module `i`'s names |
| FileInfo.PrefixOkIff | pdbparse/dbi.py:133-147 | the first `n` modules resolve if and only if each of them does |
| FileInfo.ResolvedModule | pdbparse/dbi.py:133-147 | in a resolution there is one list per module; module `i`'s list has one name per index from `modStart[i]` below the end of `NameRef`, so at most `cRefCnt[i]` names, and name `m` is the string at `NameRef[modStart[i] + m]` |
| FileInfo.FlattenAt | pdbparse/dbi.py:145-146 | name `m` of module `i` sits in the flat list after all names of the modules before `i` |
| FileInfo.ResolveModule | pdbparse/dbi.py:134-147 | the inner loop, with its skip counter and its break once the counter passes ten, returns the module's names, appends them to the flat list and advances the counter by its closed form |
| FileInfo.ResolveFileNames | pdbparse/dbi.py:131-147 | the two nested loops return the resolution defined without the counter, with the flat list the modules' lists joined in order, and the counter at its closed form |
| FileInfo.SkipsAtMostTotal | pdbparse/dbi.py:131-142 | the counter never exceeds the number of out-of-range indices |
| FileInfo.SkipsExact | pdbparse/dbi.py:131-142 | while there are at most eleven out-of-range indices, the counter counts every one |
| FileInfo.SkipsAtLeast | pdbparse/dbi.py:131-142 | the counter reaches at least the number of out-of-range indices, or eleven |
| DbiStream.DecodeFileInfo | pdbparse/dbi.py:114-121 | a file-info region that decodes has one `cRefCnt` per `modStart` |
| DbiStream.ParseFileInfo | pdbparse/dbi.py:114-121 | the reads of the counts, the three arrays and the name blob up to the region's declared end give the decoded region, and leave the cursor where the blob read ends |
| DbiStream.ParseStream | pdbparse/dbi.py:89-164 | the whole sequence of reads and seeks, from any cursor, gives the pure decode: the header from the cursor, everything after it from offset 64 |
| DbiStream.ParseBody | pdbparse/dbi.py:92-103 | seeking to the rebuilt header's size, reading `module_size` bytes and scanning them, then the rest, gives the pure decode after the header |
| DbiStream.ParseAfterScan | pdbparse/dbi.py:105-108 | a failed scan fails the parse; otherwise the two skipped regions are passed and the rest decoded |
| DbiStream.ParseRegions | pdbparse/dbi.py:113-121 | the file-info region is read from the cursor up to `filinfSize` bytes on, then its names and the debug table |
| DbiStream.ParseNamed | pdbparse/dbi.py:131-164 | the names are resolved, the TSM and EC regions passed, and the debug table read, as in the pure decode |
| DbiStream.Parse | pdbparse/dbi.py:166-167 | parsing bytes held in memory is the pure decode of the whole input |
| DbiStream.AtStart | pdbparse/dbi.py:166-167 | a parse from a cursor at 0 is the decode of the whole input |
| DbiLaws.FileInfoParts | pdbparse/dbi.py:114-121 | a decoded file-info region holds `cMod` starts and `cMod` counts after the 4-byte counts, then `cRef` offsets, then the blob from there up to the declared end, and the cursor is left where the blob read ends |
| DbiLaws.FileInfoWhole | pdbparse/dbi.py:114-121 | if the input goes on past the file-info region, its arrays fit within the declared size and the cursor is left exactly at the declared end |
| DbiLaws.FileInfoNames | pdbparse/dbi.py:121 | in that case the name blob is exactly the bytes from the end of the arrays to the declared end |
| DbiLaws.NamedParts | pdbparse/dbi.py:131-164 | a parse that gets past the names keeps the header and module records, holds the resolution of the file table, and reads the debug table `tsmapSize + ecinfoSize` bytes after the file-info read, inside the input |
| DbiLaws.RegionsParts | pdbparse/dbi.py:113-158 | a successful parse of the regions read the file-info region and left the cursor at its declared end |
| DbiLaws.RegionsFileIndex | pdbparse/dbi.py:114-118 | a successful parse of the regions had the counts and arrays inside the declared file-info size |
| DbiLaws.NamedDbgTable | pdbparse/dbi.py:153-158 | a parse that gets past the names read the debug table `tsmapSize + ecinfoSize` bytes after the end of the file-info read |
| DbiLaws.RegionsDbgTable | pdbparse/dbi.py:152-158 | a successful parse of the regions read the debug table `filinfSize + tsmapSize + ecinfoSize` bytes after the file-info region's start |
| DbiLaws.RegionsNames | pdbparse/dbi.py:131-147 | a successful parse of the regions has one name list per declared module, and the flat list is those lists joined |
| DbiLaws.AfterScanParts | pdbparse/dbi.py:105-108 | a successful parse after the scan had a full `module_size` window and read the file-info region at `64 + module_size + secconSize + secmapSize` |
| DbiLaws.HeaderParts | pdbparse/dbi.py:89-103 | a successful parse decoded the header and scanned the window after it |
| DbiLaws.Stages | pdbparse/dbi.py:89-158 | a successful parse's header and module records are those decoded and scanned from the input, the window was read in full, and the regions decode at the offset the header's sizes give |
| DbiLaws.DbiSentinel | pdbparse/dbi.py:26 | a successful parse has at least 64 bytes starting with `FF FF FF FF`; another sentinel gives `BadMagic`, fewer than 4 bytes `Truncated` |
| DbiLaws.DbiModules | pdbparse/dbi.py:92-103 | a successful parse's module records are the scan of the `module_size` bytes at offset 64, all of which are present |
| DbiLaws.DbiNoModules | pdbparse/dbi.py:94-99 | with `module_size` 0 there are no module records |
| DbiLaws.DbiFileInfo | pdbparse/dbi.py:106-118 | a successful parse read the file-index counts at `64 + module_size + secconSize + secmapSize`, and the arrays fit inside `filinfSize` |
| DbiLaws.DbiDbgTable | pdbparse/dbi.py:152-158 | a successful parse's debug table is the one at `DbgTableStart`, `filinfSize + tsmapSize + ecinfoSize` bytes past the file-info region's start |
| DbiLaws.DbiNames | pdbparse/dbi.py:131-147 | a successful parse has one name list per module the file index declares, and its flat list is those lists joined in module order |
| DbiTables.FileInfoTable | pdbparse/dbi.py:114-121 | if the input goes on past the file-info region, the table read is the one laid out in the input: the `cMod` starts and `cMod` counts after the 4-byte counts, the `cRef` offsets after them, and the blob from there up to the declared end |
| DbiTables.RegionsTable | pdbparse/dbi.py:114-147 | a successful parse of the regions has as its names the resolution of the file table laid out in the input from the region's start, with the blob ending at the declared end |
| DbiTables.DbiTable | pdbparse/dbi.py:106-147 | a successful parse's names are the resolution of the file table laid out at `64 + module_size + secconSize + secmapSize`, with the blob ending `filinfSize` bytes on |

## Left out

- The `_DEBUG` diagnostics only print, so they are not modelled.
- The `construct` library is not part of this model. The behaviour of
  `Struct`, `Const`, `Enum`, `CString`, `Array` and `Padding` that the
  decoder relies on is written out: field order, widths, signedness,
  little-endianness, a short read failing, and padding bytes not checked
  on parse and written as zeros on build.
- Which exception class the library raises is not kept. Every failure is
  one of four `Error` values.
- `get_parsed_size` is modelled only for the two records it is applied
  to: `Records.EncodeHeader` for the header and `Records.ParsedSize` for
  module records.
- The contents of the section-contribution, section-map, TSM and EC
  regions are not modelled, because the decoder only seeks past them.
- `DbiStream.ParseStream` does not state the cursor position after the
  parse, because the caller never uses it.
- Fixed-width records are decoded from the input at the cursor instead
  of through `Stream.Read`. The cursor is moved past each one by a
  relative seek, except the debug table at `dbi.py:158`, which is the
  last read. So the model does not capture where the cursor ends after a
  failed record read, or after the debug table.
- `FileInfo.ResolveFileNames` returns `skipped_names` as a second
  result. `dbi.py` keeps it in a local variable that it only prints.
  The counter's value is stated only for a successful resolution.
- The result is the `Dbi` datatype rather than a `Container`. Its
  `names` field holds the `modules` and `files` lists.
- Python 2 strings are modelled as sequences of bytes. Names are not
  decoded as text.
- Integers in the input are unbounded in the model, as they are in
  Python. Each field is read with its declared width and sign.
