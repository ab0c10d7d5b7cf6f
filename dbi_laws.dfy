/** What a successful parse of a DBI stream says about its bytes: where
    each region lies, and which bytes every part of the result was read
    from. */
module DbiLaws {
  import opened Wire
  import opened Records
  import opened ModuleScan
  import opened FileInfo
  import opened Streams
  import opened DbiStream

  /** Where the file-info region starts when no read was cut short: past
      the header, the module records and the section-contribution and
      section-map regions. */
  function FileInfoStart(h: DbiHeader): nat
  {
    HeaderSize + h.moduleSize + h.secconSize + h.secmapSize
  }

  /** Where the debug table starts when no read was cut short: past the
      file-info, type-server-map and EC-info regions. */
  function DbgTableStart(h: DbiHeader): nat
  {
    FileInfoStart(h) + h.filinfSize + h.tsmapSize + h.ecinfoSize
  }

  /** Where the name blob starts in a file-info region at `start`: past the
      summary, two 16-bit arrays of `cMod` entries and a 32-bit array of
      `cRef` entries. */
  function NamesStart(start: nat, f: FileIndex): nat
  {
    start + FileIndexSize + 4 * f.cMod + 4 * f.cRef
  }

  // ---------------------------------------------------------------------
  // The file-info region

  /** A file-info region that decodes has its summary at `start`, the three
      arrays right after it, and the name blob from the end of the arrays
      up to `end`, cut short where the input ends. */
  lemma FileInfoParts(data: seq<Byte>, start: nat, end: nat)
    requires DecodeFileInfo(data, start, end).Ok?
    ensures DecodeFileIndex(data, start).Ok?
    ensures var f := DecodeFileIndex(data, start).value;
      var p4 := NamesStart(start, f);
      var info := DecodeFileInfo(data, start, end).value;
      p4 <= |data| &&
      info.table == FileTable(U16s(data, start + FileIndexSize, f.cMod),
                              U16s(data, start + FileIndexSize + 2 * f.cMod, f.cMod),
                              U32s(data, start + FileIndexSize + 4 * f.cMod, f.cRef),
                              ReadBytes(data, p4, end - p4)) &&
      info.next == ReadEnd(|data|, p4, end - p4)
  {
    var f := DecodeFileIndex(data, start).value;
    var cMod, cRef := f.cMod as nat, f.cRef as nat;
    var p1 := start + FileIndexSize;
    var p2 := p1 + 2 * cMod;
    var p3 := p2 + 2 * cMod;
    assert DecodeU32Array(data, p3, cRef).Ok?;
    assert p3 + 4 * cRef == NamesStart(start, f);
  }

  /** A file-info region after which the input goes on was read whole: the
      arrays fit inside the declared size and the cursor is left at the
      region's end. */
  lemma FileInfoWhole(data: seq<Byte>, start: nat, end: nat)
    requires DecodeFileInfo(data, start, end).Ok?
    requires DecodeFileInfo(data, start, end).value.next < |data|
    ensures DecodeFileIndex(data, start).Ok?
    ensures NamesStart(start, DecodeFileIndex(data, start).value) <= end < |data|
    ensures DecodeFileInfo(data, start, end).value.next == end
  {
    FileInfoParts(data, start, end);
  }

  /** In a file-info region read whole, the name blob is exactly the bytes
      from the end of the arrays to the end of the region. */
  lemma FileInfoNames(data: seq<Byte>, start: nat, end: nat)
    requires DecodeFileInfo(data, start, end).Ok?
    requires DecodeFileInfo(data, start, end).value.next < |data|
    ensures DecodeFileIndex(data, start).Ok?
    ensures NamesStart(start, DecodeFileIndex(data, start).value) <= end < |data|
    ensures DecodeFileInfo(data, start, end).value.table.names
            == data[NamesStart(start, DecodeFileIndex(data, start).value)..end]
  {
    FileInfoParts(data, start, end);
  }

  // ---------------------------------------------------------------------
  // The stages of the parse

  /** After the file-info region: the names resolved from its table, and
      the debug table read `tsmapSize` + `ecinfoSize` bytes past the cursor,
      which is therefore before the end of the input. */
  lemma NamedParts(data: seq<Byte>, h: DbiHeader, ex: seq<ModuleRecord>, info: FileInfoRead, d: Dbi)
    requires WellShaped(info.table) && DecodeNamed(data, h, ex, info) == Ok(d)
    ensures d.header == h && d.exHeaders == ex
    ensures Resolve(info.table) == Ok(d.names)
    ensures DecodeDbgHeader(data, info.next + h.tsmapSize + h.ecinfoSize) == Ok(d.dbgHeader)
    ensures info.next < |data|
  {
    var resolved := Resolve(info.table);
    assert resolved.Ok?;
    assert DecodeDbgHeader(data, info.next + h.tsmapSize + h.ecinfoSize).Ok?;
  }

  /** The regions from `start` read a file-info region, then the rest from it. */
  lemma RegionsInfo(data: seq<Byte>, h: DbiHeader, ex: seq<ModuleRecord>, start: nat, d: Dbi)
    requires DecodeRegions(data, h, ex, start) == Ok(d)
    ensures DecodeFileInfo(data, start, start + h.filinfSize).Ok?
    ensures DecodeNamed(data, h, ex, DecodeFileInfo(data, start, start + h.filinfSize).value) == Ok(d)
  {
    assert DecodeFileInfo(data, start, start + h.filinfSize).Ok?;
  }

  /** The regions from `start`: the file-info region read whole, then the rest. */
  lemma RegionsParts(data: seq<Byte>, h: DbiHeader, ex: seq<ModuleRecord>, start: nat, d: Dbi)
    requires DecodeRegions(data, h, ex, start) == Ok(d)
    ensures DecodeFileInfo(data, start, start + h.filinfSize).Ok?
    ensures DecodeFileInfo(data, start, start + h.filinfSize).value.next == start + h.filinfSize
    ensures WellShaped(DecodeFileInfo(data, start, start + h.filinfSize).value.table)
    ensures DecodeNamed(data, h, ex, DecodeFileInfo(data, start, start + h.filinfSize).value) == Ok(d)
  {
    RegionsInfo(data, h, ex, start, d);
    NamedParts(data, h, ex, DecodeFileInfo(data, start, start + h.filinfSize).value, d);
    FileInfoWhole(data, start, start + h.filinfSize);
  }

  /** The regions from `start`: the summary read there, and the arrays
      within the region's `filinfSize` bytes. */
  lemma RegionsFileIndex(data: seq<Byte>, h: DbiHeader, ex: seq<ModuleRecord>, start: nat, d: Dbi)
    requires DecodeRegions(data, h, ex, start) == Ok(d)
    ensures DecodeFileIndex(data, start).Ok?
    ensures NamesStart(start, DecodeFileIndex(data, start).value) <= start + h.filinfSize
  {
    RegionsParts(data, h, ex, start, d);
    var info := DecodeFileInfo(data, start, start + h.filinfSize).value;
    NamedParts(data, h, ex, info, d);
    FileInfoWhole(data, start, start + h.filinfSize);
  }

  /** The debug table is read at `at`, `tsmapSize` + `ecinfoSize` bytes
      past the end of the file-info region. */
  lemma NamedDbgTable(data: seq<Byte>, h: DbiHeader, ex: seq<ModuleRecord>, info: FileInfoRead, d: Dbi, at: nat)
    requires WellShaped(info.table) && DecodeNamed(data, h, ex, info) == Ok(d)
    requires at == info.next + h.tsmapSize + h.ecinfoSize
    ensures DecodeDbgHeader(data, at).Ok?
    ensures DecodeDbgHeader(data, at).value == d.dbgHeader
  {
    assert DecodeDbgHeader(data, at).Ok?;
  }

  /** The regions from `start`: the debug table read `tsmapSize` +
      `ecinfoSize` bytes past the end of the file-info region. */
  lemma RegionsDbgTable(data: seq<Byte>, h: DbiHeader, ex: seq<ModuleRecord>, start: nat, d: Dbi, at: nat)
    requires DecodeRegions(data, h, ex, start) == Ok(d)
    requires at == start + h.filinfSize + h.tsmapSize + h.ecinfoSize
    ensures DecodeDbgHeader(data, at).Ok?
    ensures DecodeDbgHeader(data, at).value == d.dbgHeader
  {
    RegionsParts(data, h, ex, start, d);
    NamedDbgTable(data, h, ex, DecodeFileInfo(data, start, start + h.filinfSize).value, d, at);
  }

  /** The regions from `start`: one name list per module the summary
      declares, and all the names in one list, joined in module order. */
  lemma RegionsNames(data: seq<Byte>, h: DbiHeader, ex: seq<ModuleRecord>, start: nat, d: Dbi)
    requires DecodeRegions(data, h, ex, start) == Ok(d)
    ensures DecodeFileIndex(data, start).Ok?
    ensures |d.names.modules| == DecodeFileIndex(data, start).value.cMod
    ensures d.names.files == Flatten(d.names.modules)
  {
    RegionsParts(data, h, ex, start, d);
    var info := DecodeFileInfo(data, start, start + h.filinfSize).value;
    NamedParts(data, h, ex, info, d);
    FileInfoParts(data, start, start + h.filinfSize);
    PrefixAt(info.table, |info.table.modStart|, 0);
  }

  /** After a successful scan: the regions start at `FileInfoStart`, which
      means the module window before them was not cut short. */
  lemma AfterScanParts(data: seq<Byte>, h: DbiHeader, scanned: Result<seq<ModuleRecord>>, d: Dbi)
    requires AfterScan(data, h, scanned) == Ok(d)
    ensures scanned.Ok?
    ensures DecodeRegions(data, h, scanned.value, RegionsStart(data, h)) == Ok(d)
    ensures HeaderSize + h.moduleSize <= |data|
    ensures RegionsStart(data, h) == FileInfoStart(h)
  {
    assert scanned.Ok?;
    var start := RegionsStart(data, h);
    assert DecodeRegions(data, h, scanned.value, start) == Ok(d);
    RegionsParts(data, h, scanned.value, start, d);
    assert DecodeFileIndex(data, start).Ok?;
    // The summary lies before the end of the input, so the window before it was read whole.
    assert ReadEnd(|data|, HeaderSize, h.moduleSize) < |data|;
  }

  /** The header is the first stage, and the rest is parsed with it. */
  lemma HeaderParts(data: seq<Byte>, d: Dbi)
    requires DecodeDbi(data) == Ok(d)
    ensures DecodeHeader(data).Ok?
    ensures AfterScan(data, DecodeHeader(data).value,
                      ScanModules(ReadBytes(data, HeaderSize, DecodeHeader(data).value.moduleSize))) == Ok(d)
  {
  }

  /** Every stage of a successful parse, as the decoding functions name them:
      the header, the scanned module window, the file-info region at the
      end of the skipped regions, and what follows it. */
  lemma Stages(data: seq<Byte>, d: Dbi)
    requires DecodeDbi(data) == Ok(d)
    ensures DecodeHeader(data) == Ok(d.header)
    ensures ScanModules(ReadBytes(data, HeaderSize, d.header.moduleSize)) == Ok(d.exHeaders)
    ensures HeaderSize + d.header.moduleSize <= |data|
    ensures RegionsStart(data, d.header) == FileInfoStart(d.header)
    ensures DecodeRegions(data, d.header, d.exHeaders, RegionsStart(data, d.header)) == Ok(d)
  {
    HeaderParts(data, d);
    var h := DecodeHeader(data).value;
    var scanned := ScanModules(ReadBytes(data, HeaderSize, h.moduleSize));
    AfterScanParts(data, h, scanned, d);
    var start := RegionsStart(data, h);
    RegionsParts(data, h, scanned.value, start, d);
    NamedParts(data, h, scanned.value, DecodeFileInfo(data, start, start + h.filinfSize).value, d);
  }

  // ---------------------------------------------------------------------
  // What a successful parse says about the stream

  /** The stream starts with the sentinel; a stream whose first four bytes
      are something else is rejected as having a bad sentinel, before any
      other field is looked at. */
  lemma DbiSentinel(data: seq<Byte>)
    ensures DecodeDbi(data).Ok? ==> HeaderSize <= |data| && data[..4] == Magic
    ensures 4 <= |data| && data[..4] != Magic ==> DecodeDbi(data) == Err(BadMagic)
    ensures |data| < 4 ==> DecodeDbi(data) == Err(Truncated)
  {
  }

  /** A successful parse returns the header at the start of the stream,
      and the module records are the scan of exactly `moduleSize` bytes
      from offset 64, which the stream holds in full. */
  lemma DbiModules(data: seq<Byte>, d: Dbi)
    requires DecodeDbi(data) == Ok(d)
    ensures DecodeHeader(data) == Ok(d.header)
    ensures HeaderSize + d.header.moduleSize <= |data|
    ensures ScanModules(data[HeaderSize..HeaderSize + d.header.moduleSize]) == Ok(d.exHeaders)
  {
    Stages(data, d);
    assert ReadBytes(data, HeaderSize, d.header.moduleSize) == data[HeaderSize..HeaderSize + d.header.moduleSize];
  }

  /** A stream that declares no module bytes has no module records. */
  lemma DbiNoModules(data: seq<Byte>, d: Dbi)
    requires DecodeDbi(data) == Ok(d) && d.header.moduleSize == 0
    ensures d.exHeaders == []
  {
    DbiModules(data, d);
    assert data[HeaderSize..HeaderSize + d.header.moduleSize] == [];
  }

  /** The file-info region lies at 64 + `moduleSize` + `secconSize` +
      `secmapSize`, where its summary is read, and holds its arrays within
      its `filinfSize` bytes. */
  lemma DbiFileInfo(data: seq<Byte>, d: Dbi)
    requires DecodeDbi(data) == Ok(d)
    ensures DecodeFileIndex(data, FileInfoStart(d.header)).Ok?
    ensures NamesStart(FileInfoStart(d.header), DecodeFileIndex(data, FileInfoStart(d.header)).value)
            <= FileInfoStart(d.header) + d.header.filinfSize
  {
    Stages(data, d);
    RegionsFileIndex(data, d.header, d.exHeaders, RegionsStart(data, d.header), d);
  }

  /** The debug table is read `tsmapSize` + `ecinfoSize` bytes past the end
      of the file-info region. */
  lemma DbiDbgTable(data: seq<Byte>, d: Dbi)
    requires DecodeDbi(data) == Ok(d)
    ensures DecodeDbgHeader(data, DbgTableStart(d.header)).Ok?
    ensures DecodeDbgHeader(data, DbgTableStart(d.header)).value == d.dbgHeader
  {
    Stages(data, d);
    RegionsDbgTable(data, d.header, d.exHeaders, RegionsStart(data, d.header), d, DbgTableStart(d.header));
  }

  /** The parse's file names: one name list per module, as many lists as
      the file-info summary declares modules, and all the names in one
      list, the lists joined in module order. */
  lemma DbiNames(data: seq<Byte>, d: Dbi)
    requires DecodeDbi(data) == Ok(d)
    ensures DecodeFileIndex(data, FileInfoStart(d.header)).Ok?
    ensures |d.names.modules| == DecodeFileIndex(data, FileInfoStart(d.header)).value.cMod
    ensures d.names.files == Flatten(d.names.modules)
  {
    Stages(data, d);
    RegionsNames(data, d.header, d.exHeaders, RegionsStart(data, d.header), d);
  }
}
