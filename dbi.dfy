/** The DBI stream parser: the header, the window of module records, the
    skipped section-contribution and section-map regions, the file-info
    region with its name table, the skipped TSM and EC regions, and the
    debug sub-stream table. */
module DbiStream {
  import opened Wire
  import opened Records
  import opened ModuleScan
  import opened FileInfo
  import opened Streams

  /** What a parse returns: the header, the module records, the debug
      table, each module's file names and all file names in one list. */
  datatype Dbi = Dbi(header: DbiHeader, exHeaders: seq<ModuleRecord>, dbgHeader: DbgHeader,
                     names: Resolution)

  /** The file-info arrays and name blob, and where the cursor is left. */
  datatype FileInfoRead = FileInfoRead(table: FileTable, next: nat)

  /** The file-info region read from `start`, declared to end at `end`: the
      two counts, the per-module starts and counts, the name offsets, and
      the name blob from there up to `end` (to the end of the input when
      `end` lies before the blob's start). */
  function DecodeFileInfo(data: seq<Byte>, start: nat, end: nat): (r: Result<FileInfoRead>)
    ensures r.Ok? ==> WellShaped(r.value.table)
  {
    var index := DecodeFileIndex(data, start);
    if index.Err? then Err(index.error) else
    var cMod, cRef := index.value.cMod as nat, index.value.cRef as nat;
    var p1 := start + FileIndexSize;
    var modStart := DecodeU16Array(data, p1, cMod);
    if modStart.Err? then Err(modStart.error) else
    var p2 := p1 + 2 * cMod;
    var cRefCnt := DecodeU16Array(data, p2, cMod);
    if cRefCnt.Err? then Err(cRefCnt.error) else
    var p3 := p2 + 2 * cMod;
    var nameRef := DecodeU32Array(data, p3, cRef);
    if nameRef.Err? then Err(nameRef.error) else
    var p4 := p3 + 4 * cRef;
    var names := ReadBytes(data, p4, end - p4);
    Ok(FileInfoRead(FileTable(modStart.value, cRefCnt.value, nameRef.value, names), ReadEnd(|data|, p4, end - p4)))
  }

  /** The parse of a whole DBI stream, region after region, each region
      starting where the cursor was left by the one before: the header,
      then the rest. */
  function DecodeDbi(data: seq<Byte>): Result<Dbi>
  {
    var header := DecodeHeader(data);
    if header.Err? then Err(header.error) else DecodeBody(data, header.value)
  }

  /** The parse of a stream whose cursor is at `start`: the header is read
      from the cursor, but what follows it is read from offset 64 of the
      whole input, wherever the header was. */
  function DecodeDbiAt(data: seq<Byte>, start: nat): Result<Dbi>
  {
    var header := DecodeHeader(ReadBytes(data, start, -1));
    if header.Err? then Err(header.error) else DecodeBody(data, header.value)
  }

  /** From a cursor at the start of the input, the parse is `DecodeDbi`. */
  lemma AtStart(data: seq<Byte>)
    ensures DecodeDbiAt(data, 0) == DecodeDbi(data)
  {
    assert ReadBytes(data, 0, -1) == data;
  }

  /** Everything after the header: `moduleSize` bytes of module records
      from offset 64 (fewer where the input ends), scanned, then the
      regions that follow them. */
  function DecodeBody(data: seq<Byte>, header: DbiHeader): Result<Dbi>
  {
    AfterScan(data, header, ScanModules(ReadBytes(data, HeaderSize, header.moduleSize)))
  }

  /** Where the regions after the module records start. */
  function RegionsStart(data: seq<Byte>, header: DbiHeader): nat
  {
    ReadEnd(|data|, HeaderSize, header.moduleSize) + header.secconSize + header.secmapSize
  }

  /** What follows the scan of the module records: its failure, or the
      regions after the window and the two skipped regions. */
  function AfterScan(data: seq<Byte>, header: DbiHeader, scanned: Result<seq<ModuleRecord>>): Result<Dbi>
  {
    if scanned.Err? then Err(scanned.error)
    else DecodeRegions(data, header, scanned.value, RegionsStart(data, header))
  }

  /** The regions after the module records, the section-contribution and
      section-map regions skipped: the file-info region from `start`, its
      names resolved, then the debug table after the TSM and EC regions. */
  function DecodeRegions(data: seq<Byte>, header: DbiHeader, exHeaders: seq<ModuleRecord>, start: nat): Result<Dbi>
  {
    var info := DecodeFileInfo(data, start, start + header.filinfSize);
    if info.Err? then Err(info.error) else DecodeNamed(data, header, exHeaders, info.value)
  }

  /** The file names resolved against the file-info table just read, then
      the debug table after the TSM and EC regions. */
  function DecodeNamed(data: seq<Byte>, header: DbiHeader, exHeaders: seq<ModuleRecord>, info: FileInfoRead): Result<Dbi>
    requires WellShaped(info.table)
  {
    var resolved := Resolve(info.table);
    if resolved.Err? then Err(resolved.error)
    else
      var dbgHeader := DecodeDbgHeader(data, info.next + header.tsmapSize + header.ecinfoSize);
      if dbgHeader.Err? then Err(dbgHeader.error)
      else Ok(Dbi(header, exHeaders, dbgHeader.value, resolved.value))
  }

  // ---------------------------------------------------------------------
  // The parser, on a stream

  /** Reads the file-info region from the cursor, up to `end`. */
  method ParseFileInfo(stream: Stream, end: nat) returns (r: Result<FileInfoRead>)
    modifies stream
    ensures r == DecodeFileInfo(stream.data, old(stream.pos), end)
    ensures r.Ok? ==> stream.pos == r.value.next
  {
    ghost var start := stream.pos;
    var fileIndex := DecodeFileIndex(stream.data, stream.pos);
    if fileIndex.Err? {
      return Err(fileIndex.error);
    }
    stream.SeekRelative(FileIndexSize);
    var cMod, cRef := fileIndex.value.cMod as nat, fileIndex.value.cRef as nat;
    assert stream.pos == start + FileIndexSize;
    var modStart := DecodeU16Array(stream.data, stream.pos, cMod);
    if modStart.Err? {
      return Err(modStart.error);
    }
    stream.SeekRelative(2 * cMod);
    assert stream.pos == start + FileIndexSize + 2 * cMod;
    var cRefCnt := DecodeU16Array(stream.data, stream.pos, cMod);
    if cRefCnt.Err? {
      return Err(cRefCnt.error);
    }
    stream.SeekRelative(2 * cMod);
    assert stream.pos == start + FileIndexSize + 2 * cMod + 2 * cMod;
    var nameRef := DecodeU32Array(stream.data, stream.pos, cRef);
    if nameRef.Err? {
      return Err(nameRef.error);
    }
    stream.SeekRelative(4 * cRef);
    var here := stream.Tell();
    assert here == start + FileIndexSize + 2 * cMod + 2 * cMod + 4 * cRef;
    var names := stream.Read(end - here);
    r := Ok(FileInfoRead(FileTable(modStart.value, cRefCnt.value, nameRef.value, names), stream.pos));
  }

  /** Parses a DBI stream from its cursor. */
  method ParseStream(stream: Stream) returns (r: Result<Dbi>)
    modifies stream
    ensures r == DecodeDbiAt(stream.data, old(stream.pos))
  {
    var dbihdr := DecodeHeader(ReadBytes(stream.data, stream.pos, -1));
    if dbihdr.Err? {
      return Err(dbihdr.error);
    }
    stream.SeekRelative(HeaderSize);
    r := ParseBody(stream, dbihdr.value);
  }

  /** The module records, from offset 64 whatever the cursor, then the
      regions after them. */
  method ParseBody(stream: Stream, hdr: DbiHeader) returns (r: Result<Dbi>)
    modifies stream
    ensures r == DecodeBody(stream.data, hdr)
  {
    var pos := |EncodeHeader(hdr)|;
    stream.Seek(pos);
    var window := stream.Read(hdr.moduleSize);
    var dbiexhdrs := ScanModuleRecords(window);
    r := ParseAfterScan(stream, hdr, dbiexhdrs);
  }

  /** Stops at a failed scan of the module records; otherwise skips the
      section-contribution and section-map regions and parses the rest. */
  method ParseAfterScan(stream: Stream, hdr: DbiHeader, dbiexhdrs: Result<seq<ModuleRecord>>) returns (r: Result<Dbi>)
    requires stream.pos == ReadEnd(|stream.data|, HeaderSize, hdr.moduleSize)
    modifies stream
    ensures r == AfterScan(stream.data, hdr, dbiexhdrs)
  {
    if dbiexhdrs.Err? {
      return Err(dbiexhdrs.error);
    }
    stream.SeekRelative(hdr.secconSize);
    stream.SeekRelative(hdr.secmapSize);
    assert stream.pos == RegionsStart(stream.data, hdr);
    r := ParseRegions(stream, hdr, dbiexhdrs.value);
  }

  /** The rest of the parse, from the end of the section-map region. */
  method ParseRegions(stream: Stream, hdr: DbiHeader, exHeaders: seq<ModuleRecord>) returns (r: Result<Dbi>)
    modifies stream
    ensures r == DecodeRegions(stream.data, hdr, exHeaders, old(stream.pos))
  {
    var here := stream.Tell();
    var end := here + hdr.filinfSize;
    var info := ParseFileInfo(stream, end);
    assert info == DecodeFileInfo(stream.data, old(stream.pos), old(stream.pos) + hdr.filinfSize);
    if info.Err? {
      return Err(info.error);
    }
    r := ParseNamed(stream, hdr, exHeaders, info.value);
    assert r == DecodeNamed(stream.data, hdr, exHeaders, info.value);
  }

  /** Resolves the file names of a file-info table read up to the cursor,
      then reads the debug table after the TSM and EC regions. */
  method ParseNamed(stream: Stream, hdr: DbiHeader, exHeaders: seq<ModuleRecord>, info: FileInfoRead)
    returns (r: Result<Dbi>)
    requires WellShaped(info.table) && stream.pos == info.next
    modifies stream
    ensures r == DecodeNamed(stream.data, hdr, exHeaders, info)
  {
    var resolved, skipped := ResolveFileNames(info.table);
    if resolved.Err? {
      return Err(resolved.error);
    }
    stream.SeekRelative(hdr.tsmapSize);
    stream.SeekRelative(hdr.ecinfoSize);
    var dbghdr := DecodeDbgHeader(stream.data, stream.pos);
    if dbghdr.Err? {
      return Err(dbghdr.error);
    }
    return Ok(Dbi(hdr, exHeaders, dbghdr.value, resolved.value));
  }

  /** Parses a DBI stream held in memory. */
  method Parse(data: seq<Byte>) returns (r: Result<Dbi>)
    ensures r == DecodeDbi(data)
  {
    var stream := new Stream(data);
    r := ParseStream(stream);
    AtStart(data);
  }
}
