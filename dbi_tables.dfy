/** The file table of a successful parse as it lies in the input: the
    names the parse returns are the resolution of that table. */
module DbiTables {
  import opened Wire
  import opened Records
  import opened FileInfo
  import opened DbiStream
  import opened DbiLaws

  /** The file table laid out in the input from `start`: the `cMod` starts
      and `cMod` counts after the summary, then the `cRef` name offsets, then
      the name blob up to `end`. */
  function TableAt(data: seq<Byte>, start: nat, end: nat, f: FileIndex): (t: FileTable)
    requires NamesStart(start, f) <= end <= |data|
    ensures WellShaped(t) && |t.modStart| == f.cMod && |t.nameRef| == f.cRef
  {
    FileTable(U16s(data, start + FileIndexSize, f.cMod),
              U16s(data, start + FileIndexSize + 2 * f.cMod, f.cMod),
              U32s(data, start + FileIndexSize + 4 * f.cMod, f.cRef),
              data[NamesStart(start, f)..end])
  }

  /** In a file-info region read whole, the table read is the one laid out
      in the input up to the region's end. */
  lemma FileInfoTable(data: seq<Byte>, start: nat, end: nat)
    requires DecodeFileInfo(data, start, end).Ok?
    requires DecodeFileInfo(data, start, end).value.next < |data|
    ensures DecodeFileIndex(data, start).Ok?
    ensures NamesStart(start, DecodeFileIndex(data, start).value) <= end < |data|
    ensures DecodeFileInfo(data, start, end).value.table == TableAt(data, start, end, DecodeFileIndex(data, start).value)
  {
    FileInfoParts(data, start, end);
    FileInfoNames(data, start, end);
  }

  /** The regions from `start`: the names are the resolution of the file
      table laid out in the input, its blob ending at the region's end. */
  lemma RegionsTable(data: seq<Byte>, h: DbiHeader, ex: seq<ModuleRecord>, start: nat, d: Dbi)
    requires DecodeRegions(data, h, ex, start) == Ok(d)
    ensures DecodeFileIndex(data, start).Ok?
    ensures NamesStart(start, DecodeFileIndex(data, start).value) <= start + h.filinfSize < |data|
    ensures Resolve(TableAt(data, start, start + h.filinfSize, DecodeFileIndex(data, start).value)).Ok?
    ensures Resolve(TableAt(data, start, start + h.filinfSize, DecodeFileIndex(data, start).value)).value == d.names
  {
    RegionsParts(data, h, ex, start, d);
    var info := DecodeFileInfo(data, start, start + h.filinfSize).value;
    NamedParts(data, h, ex, info, d);
    FileInfoTable(data, start, start + h.filinfSize);
    var t := TableAt(data, start, start + h.filinfSize, DecodeFileIndex(data, start).value);
    assert t == info.table;
    assert Resolve(t) == Ok(d.names);
  }

  /** The parse's names are the resolution of the file table laid out in the
      input at the file-info region, so module `i`'s names are the strings
      the blob holds at the offsets `NameRef[modStart[i] + m]` (by
      `FileInfo.ResolvedModule`). */
  lemma DbiTable(data: seq<Byte>, d: Dbi)
    requires DecodeDbi(data) == Ok(d)
    ensures DecodeFileIndex(data, FileInfoStart(d.header)).Ok?
    ensures NamesStart(FileInfoStart(d.header), DecodeFileIndex(data, FileInfoStart(d.header)).value)
            <= FileInfoStart(d.header) + d.header.filinfSize < |data|
    ensures Resolve(TableAt(data, FileInfoStart(d.header), FileInfoStart(d.header) + d.header.filinfSize,
                            DecodeFileIndex(data, FileInfoStart(d.header)).value)).Ok?
    ensures Resolve(TableAt(data, FileInfoStart(d.header), FileInfoStart(d.header) + d.header.filinfSize,
                            DecodeFileIndex(data, FileInfoStart(d.header)).value)).value == d.names
  {
    Stages(data, d);
    var start := RegionsStart(data, d.header);
    RegionsTable(data, d.header, d.exHeaders, start, d);
    var t := TableAt(data, start, start + d.header.filinfSize, DecodeFileIndex(data, start).value);
    assert start == FileInfoStart(d.header);
    var u := TableAt(data, FileInfoStart(d.header), FileInfoStart(d.header) + d.header.filinfSize,
                     DecodeFileIndex(data, FileInfoStart(d.header)).value);
    assert u == t;
    assert Resolve(u) == Ok(d.names);
  }
}
