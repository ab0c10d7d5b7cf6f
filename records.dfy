/** The fixed-layout records of the DBI stream: the 64-byte stream header,
    the symbol-range sub-record, the per-module record (a 64-byte fixed
    prefix and two NUL-terminated names), the debug sub-stream table, the
    file-index summary and the flat index arrays of the file-info region.
    Every multi-byte field is little-endian. Each record is described by a
    layout (see module Layout): decoding reads the layout's values and
    names them; encoding lists the record's values and writes the layout. */
module Records {
  import opened Wire
  import opened Layout

  const HeaderSize := 64
  const SymbolRangeSize := 28
  const ModuleFixedSize := 64
  const DbgHeaderSize := 22
  const FileIndexSize := 4
  /** Module records are padded to a multiple of this many bytes. */
  const Align := 4

  const Magic: seq<Byte> := [0xFF, 0xFF, 0xFF, 0xFF]

  // ---------------------------------------------------------------------
  // Symbol range: 28 bytes, with 2 unused bytes after `section` and after `module`

  datatype SymbolRange = SymbolRange(
    section: I16, offset: I32, size: I32, flags: U32, moduleIndex: I16, dataCRC: U32, relocCRC: U32)

  const SymbolRangeLayout: seq<FieldKind> :=
    [I16Field, Padding(2), I32Field, I32Field, U32Field, I16Field, Padding(2), U32Field, U32Field]

  lemma SymbolRangeWidth()
    ensures LayoutWidth(SymbolRangeLayout) == SymbolRangeSize
  {
  }

  function SymbolRangeFrom(vs: seq<int>): SymbolRange
    requires FitsEach(SymbolRangeLayout, vs)
  {
    SymbolRange(vs[0], vs[2], vs[3], vs[4], vs[5], vs[7], vs[8])
  }

  function SymbolRangeValues(x: SymbolRange): (vs: seq<int>)
    ensures FitsEach(SymbolRangeLayout, vs) && AllFit(SymbolRangeLayout, vs)
  {
    var vs := [x.section, 0, x.offset, x.size, x.flags, x.moduleIndex, 0, x.dataCRC, x.relocCRC];
    SymbolRangeFits(vs);
    AllFitEach(SymbolRangeLayout, vs);
    vs
  }

  lemma SymbolRangeFits(vs: seq<int>)
    requires |vs| == 9 && -0x8000 <= vs[0] < 0x8000 && vs[1] == 0
    requires -0x8000_0000 <= vs[2] < 0x8000_0000 && -0x8000_0000 <= vs[3] < 0x8000_0000
    requires 0 <= vs[4] < 0x1_0000_0000 && -0x8000 <= vs[5] < 0x8000 && vs[6] == 0
    requires 0 <= vs[7] < 0x1_0000_0000 && 0 <= vs[8] < 0x1_0000_0000
    ensures FitsEach(SymbolRangeLayout, vs)
  {
    forall k | 0 <= k < 9 ensures Fits(SymbolRangeLayout[k], vs[k]) {
      if k == 0 {} else if k == 1 {} else if k == 2 {} else if k == 3 {} else if k == 4 {}
      else if k == 5 {} else if k == 6 {} else if k == 7 {} else {}
    }
  }

  /** The symbol range whose 28 bytes start at `i`. */
  function SymbolRangeAt(s: seq<Byte>, i: nat): SymbolRange
    requires i + SymbolRangeSize <= |s|
  {
    SymbolRangeWidth();
    var vs := ReadFields(s, i, SymbolRangeLayout);
    AllFitEach(SymbolRangeLayout, vs);
    SymbolRangeFrom(vs)
  }

  function EncodeSymbolRange(x: SymbolRange): (r: seq<Byte>)
    ensures |r| == SymbolRangeSize
  {
    SymbolRangeWidth();
    WriteFields(SymbolRangeLayout, SymbolRangeValues(x))
  }

  // ---------------------------------------------------------------------
  // Stream header: 64 bytes starting with the FF FF FF FF sentinel

  /** The machine types the header's `Machine` field may name. */
  datatype Machine = MachineUnknown | I386 | IA64 | Amd64

  function MachineCode(m: Machine): U16
  {
    match m
    case MachineUnknown => 0x0
    case I386 => 0x014c
    case IA64 => 0x0200
    case Amd64 => 0x8664
  }

  function DecodeMachine(code: U16): (r: Result<Machine>)
    ensures r.Ok? <==> code == 0x0 || code == 0x014c || code == 0x0200 || code == 0x8664
    ensures r.Ok? ==> MachineCode(r.value) == code
    ensures r.Err? ==> r.error == UnknownMachine
  {
    if code == 0x0 then Ok(MachineUnknown)
    else if code == 0x014c then Ok(I386)
    else if code == 0x0200 then Ok(IA64)
    else if code == 0x8664 then Ok(Amd64)
    else Err(UnknownMachine)
  }

  datatype DbiHeader = DbiHeader(
    version: U32, age: U32,
    gssymStream: I16, vers: U16, pssymStream: I16, pdbver: U16, symrecStream: I16, pdbver2: U16,
    moduleSize: U32, secconSize: U32, secmapSize: U32, filinfSize: U32, tsmapSize: U32,
    mfcIndex: U32, dbghdrSize: U32, ecinfoSize: U32,
    flags: U16, machine: Machine, resvd: U32)

  /** Stream numbers and versions, from `version` at offset 4 to `pdbver2` at offset 22. */
  const HeaderStreamsLayout: seq<FieldKind> :=
    [U32Field, U32Field, I16Field, U16Field, I16Field, U16Field, I16Field, U16Field]

  /** The eight sub-stream sizes, from `module_size` at offset 24 to `ecinfoSize` at offset 52. */
  const HeaderSizesLayout: seq<FieldKind> :=
    [U32Field, U32Field, U32Field, U32Field, U32Field, U32Field, U32Field, U32Field]

  /** The 54 bytes between the sentinel and the machine code, `flags` last. */
  const HeaderLeadLayout: seq<FieldKind> := HeaderStreamsLayout + HeaderSizesLayout + [U16Field]

  lemma HeaderLeadWidth()
    ensures LayoutWidth(HeaderLeadLayout) == 54 && |HeaderLeadLayout| == 17
  {
    assert LayoutWidth(HeaderStreamsLayout) == 20;
    assert LayoutWidth(HeaderSizesLayout) == 32;
    LayoutWidthAppend(HeaderStreamsLayout, HeaderSizesLayout);
    LayoutWidthAppend(HeaderStreamsLayout + HeaderSizesLayout, [U16Field]);
  }

  lemma HeaderStreamsFits(vs: seq<int>)
    requires |vs| == 8 && 0 <= vs[0] < 0x1_0000_0000 && 0 <= vs[1] < 0x1_0000_0000
    requires -0x8000 <= vs[2] < 0x8000 && 0 <= vs[3] < 0x1_0000 && -0x8000 <= vs[4] < 0x8000
    requires 0 <= vs[5] < 0x1_0000 && -0x8000 <= vs[6] < 0x8000 && 0 <= vs[7] < 0x1_0000
    ensures FitsEach(HeaderStreamsLayout, vs)
  {
    forall k | 0 <= k < 8 ensures Fits(HeaderStreamsLayout[k], vs[k]) {
      if k == 0 {} else if k == 1 {} else if k == 2 {} else if k == 3 {} else if k == 4 {}
      else if k == 5 {} else if k == 6 {} else {}
    }
  }

  function HeaderFrom(vs: seq<int>, machine: Machine, resvd: U32): DbiHeader
    requires FitsEach(HeaderLeadLayout, vs)
  {
    DbiHeader(vs[0], vs[1], vs[2], vs[3], vs[4], vs[5], vs[6], vs[7],
              vs[8], vs[9], vs[10], vs[11], vs[12], vs[13], vs[14], vs[15], vs[16], machine, resvd)
  }

  function HeaderLeadValues(h: DbiHeader): (vs: seq<int>)
    ensures FitsEach(HeaderLeadLayout, vs) && AllFit(HeaderLeadLayout, vs)
  {
    var streams := [h.version as int, h.age as int, h.gssymStream as int, h.vers as int,
                    h.pssymStream as int, h.pdbver as int, h.symrecStream as int, h.pdbver2 as int];
    var sizes: seq<U32> := [h.moduleSize, h.secconSize, h.secmapSize, h.filinfSize, h.tsmapSize,
                            h.mfcIndex, h.dbghdrSize, h.ecinfoSize];
    var vs := streams + sizes + [h.flags as int];
    HeaderStreamsFits(streams);
    assert FitsEach(HeaderSizesLayout, sizes);
    FitsEachAppend(HeaderStreamsLayout, streams, HeaderSizesLayout, sizes);
    assert FitsEach([U16Field], [h.flags as int]);
    FitsEachAppend(HeaderStreamsLayout + HeaderSizesLayout, streams + sizes, [U16Field], [h.flags as int]);
    AllFitEach(HeaderLeadLayout, vs);
    vs
  }

  /** The header at the start of `s`, read field by field as the stream
      is: the sentinel first, so a stream too short for it fails as
      truncated and a wrong one fails before anything else is read; then
      the fields up to the machine code, which is mapped to a machine type
      as soon as it is read; then the last field. */
  function DecodeHeader(s: seq<Byte>): (r: Result<DbiHeader>)
    ensures r.Ok? <==> HeaderSize <= |s| && s[..4] == Magic && DecodeMachine(U16At(s, 58)).Ok?
    ensures 4 <= |s| && s[..4] != Magic <==> r == Err(BadMagic)
    ensures r.Err? && r.error != BadMagic ==>
              (r.error == UnknownMachine <==> 60 <= |s| && DecodeMachine(U16At(s, 58)).Err?)
    ensures r.Ok? ==> MachineCode(r.value.machine) == U16At(s, 58)
  {
    if 4 > |s| then Err(Truncated)
    else if s[..4] != Magic then Err(BadMagic)
    else if 60 > |s| then Err(Truncated)
    else
      var machine :- DecodeMachine(U16At(s, 58));
      if HeaderSize > |s| then Err(Truncated)
      else
        HeaderLeadWidth();
        var vs := ReadFields(s, 4, HeaderLeadLayout);
        AllFitEach(HeaderLeadLayout, vs);
        Ok(HeaderFrom(vs, machine, U32At(s, 60)))
  }

  function EncodeHeader(h: DbiHeader): (r: seq<Byte>)
    ensures |r| == HeaderSize
  {
    HeaderLeadWidth();
    Magic + WriteFields(HeaderLeadLayout, HeaderLeadValues(h)) + EncodeU16(MachineCode(h.machine)) + EncodeU32(h.resvd)
  }

  // ---------------------------------------------------------------------
  // Module record: a 64-byte fixed prefix, then the module and object names

  datatype ModuleRecord = ModuleRecord(
    openFlag: U32, range: SymbolRange, flags: U16, stream: I16,
    symSize: U32, oldLineSize: U32, lineSize: U32, nSrcFiles: I16,
    offsets: U32, niSource: U32, niCompiler: U32,
    modName: seq<Byte>, objName: seq<Byte>)

  /** The fields after the symbol range; the 2 bytes after `nSrcFiles` are unused. */
  const ModuleTailLayout: seq<FieldKind> := ModuleSizesLayout + ModuleIndexLayout

  /** `flags`, `stream` and the three sizes of the module's symbol and line data. */
  const ModuleSizesLayout: seq<FieldKind> := [U16Field, I16Field, U32Field, U32Field, U32Field]

  /** `nSrcFiles`, the unused 2 bytes, `offsets`, `niSource` and `niCompiler`. */
  const ModuleIndexLayout: seq<FieldKind> := [I16Field, Padding(2), U32Field, U32Field, U32Field]

  /** The 64 fixed bytes: `opened`, the symbol range, and the rest. */
  const ModuleLayout: seq<FieldKind> := [U32Field] + SymbolRangeLayout + ModuleTailLayout

  lemma ModuleTailWidth()
    ensures LayoutWidth(ModuleTailLayout) == 32 && |ModuleTailLayout| == 10
  {
    LayoutWidthAppend(ModuleSizesLayout, ModuleIndexLayout);
  }

  lemma ModuleWidth()
    ensures LayoutWidth(ModuleLayout) == ModuleFixedSize && |ModuleLayout| == 20
  {
    SymbolRangeWidth();
    ModuleTailWidth();
    LayoutWidthAppend([U32Field], SymbolRangeLayout);
    LayoutWidthAppend([U32Field] + SymbolRangeLayout, ModuleTailLayout);
  }

  /** Entries 1 to 9 of the fixed part are the symbol range; entry 15 is `nSrcFiles`. */
  lemma ModuleEntries()
    ensures |ModuleLayout| == 20 && ModuleLayout[1..10] == SymbolRangeLayout
    ensures ModuleLayout[15] == I16Field
  {
    ModuleTailWidth();
    assert ModuleTailLayout[5] == ModuleIndexLayout[0];
  }

  function ModuleFieldsFrom(vs: seq<int>, modName: seq<Byte>, objName: seq<Byte>): ModuleRecord
    requires FitsEach(ModuleLayout, vs)
  {
    ModuleEntries();
    FitsEachSlice(ModuleLayout, vs, 1, 10);
    ModuleRecord(vs[0], SymbolRangeFrom(vs[1..10]), vs[10], vs[11], vs[12], vs[13], vs[14], vs[15],
                 vs[17], vs[18], vs[19], modName, objName)
  }

  lemma ModuleTailFits(vs: seq<int>)
    requires |vs| == 10 && 0 <= vs[0] < 0x1_0000 && -0x8000 <= vs[1] < 0x8000
    requires 0 <= vs[2] < 0x1_0000_0000 && 0 <= vs[3] < 0x1_0000_0000 && 0 <= vs[4] < 0x1_0000_0000
    requires -0x8000 <= vs[5] < 0x8000 && vs[6] == 0
    requires 0 <= vs[7] < 0x1_0000_0000 && 0 <= vs[8] < 0x1_0000_0000 && 0 <= vs[9] < 0x1_0000_0000
    ensures FitsEach(ModuleTailLayout, vs)
  {
    forall k | 0 <= k < 10 ensures Fits(ModuleTailLayout[k], vs[k]) {
      if k == 0 {} else if k == 1 {} else if k == 2 {} else if k == 3 {} else if k == 4 {}
      else if k == 5 {} else if k == 6 {} else if k == 7 {} else if k == 8 {} else {}
    }
  }

  function ModuleTailValues(m: ModuleRecord): (vs: seq<int>)
    ensures FitsEach(ModuleTailLayout, vs)
  {
    var vs := [m.flags, m.stream, m.symSize, m.oldLineSize, m.lineSize, m.nSrcFiles, 0,
               m.offsets, m.niSource, m.niCompiler];
    ModuleTailFits(vs);
    vs
  }

  function ModuleValues(m: ModuleRecord): (vs: seq<int>)
    ensures FitsEach(ModuleLayout, vs) && AllFit(ModuleLayout, vs)
  {
    var vs := [m.openFlag as int] + SymbolRangeValues(m.range) + ModuleTailValues(m);
    assert FitsEach([U32Field], [m.openFlag as int]);
    FitsEachAppend([U32Field], [m.openFlag as int], SymbolRangeLayout, SymbolRangeValues(m.range));
    FitsEachAppend([U32Field] + SymbolRangeLayout, [m.openFlag as int] + SymbolRangeValues(m.range),
                   ModuleTailLayout, ModuleTailValues(m));
    AllFitEach(ModuleLayout, vs);
    vs
  }

  /** The record whose 64 fixed bytes open `s`, carrying the given names. */
  function ModuleFieldsAt(s: seq<Byte>, modName: seq<Byte>, objName: seq<Byte>): ModuleRecord
    requires ModuleFixedSize <= |s|
  {
    ModuleWidth();
    var vs := ReadFields(s, 0, ModuleLayout);
    AllFitEach(ModuleLayout, vs);
    ModuleFieldsFrom(vs, modName, objName)
  }

  /** The record at the start of `s`. The fixed prefix is read first, so a
      window too short for it fails as truncated; then the two names, each
      up to its terminator. */
  function DecodeModuleRecord(s: seq<Byte>): (r: Result<ModuleRecord>)
    ensures r.Ok? ==> RecordLength(r.value) <= |s|
    ensures r.Err? ==> (r.error == Truncated <==> ModuleFixedSize > |s|)
  {
    if ModuleFixedSize > |s| then Err(Truncated)
    else
      var modName :- CStringAt(s, ModuleFixedSize);
      var objName :- CStringAt(s, ModuleFixedSize + |modName| + 1);
      Ok(ModuleFieldsAt(s, modName, objName))
  }

  /** The 64 fixed bytes of a record. */
  function EncodeModuleFields(m: ModuleRecord): (r: seq<Byte>)
    ensures |r| == ModuleFixedSize
  {
    ModuleWidth();
    WriteFields(ModuleLayout, ModuleValues(m))
  }

  function EncodeModuleRecord(m: ModuleRecord): (r: seq<Byte>)
    ensures |r| == RecordLength(m)
  {
    EncodeModuleFields(m) + (m.modName + [0]) + (m.objName + [0])
  }

  /** The bytes a record spans: its fixed prefix and both names with their terminators. */
  function RecordLength(m: ModuleRecord): nat
  {
    ModuleFixedSize + |m.modName| + 1 + |m.objName| + 1
  }

  /** The size of a parsed record, measured as the length of its re-encoding. */
  function ParsedSize(m: ModuleRecord): (n: nat)
    ensures n == RecordLength(m)
  {
    |EncodeModuleRecord(m)|
  }

  /** The record's size rounded up to the alignment: where the next record starts. */
  function AlignedSize(m: ModuleRecord): (r: nat)
    ensures r % Align == 0 && RecordLength(m) <= r < RecordLength(m) + Align
    ensures r >= ModuleFixedSize + 2
  {
    var sz := RecordLength(m);
    if sz % Align != 0 then sz + (Align - sz % Align) else sz
  }

  // ---------------------------------------------------------------------
  // Debug sub-stream table: eleven signed stream numbers, 22 bytes

  datatype DbgHeader = DbgHeader(
    snFPO: I16, snException: I16, snFixup: I16, snOmapToSrc: I16, snOmapFromSrc: I16,
    snSectionHdr: I16, snTokenRidMap: I16, snXdata: I16, snPdata: I16, snNewFPO: I16,
    snSectionHdrOrig: I16)

  const DbgStreamsLow: seq<FieldKind> := [I16Field, I16Field, I16Field, I16Field, I16Field, I16Field]
  const DbgStreamsHigh: seq<FieldKind> := [I16Field, I16Field, I16Field, I16Field, I16Field]
  const DbgHeaderLayout: seq<FieldKind> := DbgStreamsLow + DbgStreamsHigh

  lemma DbgHeaderWidth()
    ensures LayoutWidth(DbgHeaderLayout) == DbgHeaderSize
  {
    assert LayoutWidth(DbgStreamsLow) == 12;
    assert LayoutWidth(DbgStreamsHigh) == 10;
    LayoutWidthAppend(DbgStreamsLow, DbgStreamsHigh);
  }

  lemma DbgHeaderUnpadded()
    ensures forall j :: 0 <= j < |DbgHeaderLayout| ==> !DbgHeaderLayout[j].Padding?
  {
  }

  function DbgHeaderFrom(vs: seq<int>): DbgHeader
    requires FitsEach(DbgHeaderLayout, vs)
  {
    DbgHeader(vs[0], vs[1], vs[2], vs[3], vs[4], vs[5], vs[6], vs[7], vs[8], vs[9], vs[10])
  }

  function DbgHeaderValues(d: DbgHeader): (vs: seq<int>)
    ensures FitsEach(DbgHeaderLayout, vs) && AllFit(DbgHeaderLayout, vs)
  {
    var vs: seq<I16> := [d.snFPO, d.snException, d.snFixup, d.snOmapToSrc, d.snOmapFromSrc, d.snSectionHdr,
                         d.snTokenRidMap, d.snXdata, d.snPdata, d.snNewFPO, d.snSectionHdrOrig];
    AllFitEach(DbgHeaderLayout, vs);
    vs
  }

  function DecodeDbgHeader(s: seq<Byte>, off: nat): (r: Result<DbgHeader>)
    ensures r.Ok? <==> off + DbgHeaderSize <= |s|
    ensures r.Err? ==> r.error == Truncated
  {
    if off + DbgHeaderSize > |s| then Err(Truncated)
    else
      DbgHeaderWidth();
      var vs := ReadFields(s, off, DbgHeaderLayout);
      AllFitEach(DbgHeaderLayout, vs);
      Ok(DbgHeaderFrom(vs))
  }

  function EncodeDbgHeader(d: DbgHeader): (r: seq<Byte>)
    ensures |r| == DbgHeaderSize
  {
    DbgHeaderWidth();
    WriteFields(DbgHeaderLayout, DbgHeaderValues(d))
  }

  // ---------------------------------------------------------------------
  // File-index summary and the index arrays that follow it

  datatype FileIndex = FileIndex(cMod: U16, cRef: U16)

  const FileIndexLayout: seq<FieldKind> := [U16Field, U16Field]

  function DecodeFileIndex(s: seq<Byte>, off: nat): (r: Result<FileIndex>)
    ensures r.Ok? <==> off + FileIndexSize <= |s|
    ensures r.Err? ==> r.error == Truncated
  {
    if off + FileIndexSize > |s| then Err(Truncated)
    else
      var vs := ReadFields(s, off, FileIndexLayout);
      AllFitEach(FileIndexLayout, vs);
      Ok(FileIndex(vs[0], vs[1]))
  }

  function EncodeFileIndex(f: FileIndex): (r: seq<Byte>)
    ensures |r| == FileIndexSize
  {
    var vs := [f.cMod as int, f.cRef as int];
    AllFitEach(FileIndexLayout, vs);
    WriteFields(FileIndexLayout, vs)
  }

  /** `n` consecutive 16-bit entries starting at `off`. */
  function DecodeU16Array(s: seq<Byte>, off: nat, n: nat): (r: Result<seq<U16>>)
    ensures r.Ok? <==> off + 2 * n <= |s|
    ensures r.Ok? ==> |r.value| == n
    ensures r.Err? ==> r.error == Truncated
  {
    if off + 2 * n > |s| then Err(Truncated) else Ok(U16s(s, off, n))
  }

  /** The entries of a 16-bit array that fits, first to last. */
  function U16s(s: seq<Byte>, off: nat, n: nat): (r: seq<U16>)
    requires off + 2 * n <= |s|
    ensures |r| == n
    decreases n
  {
    if n == 0 then [] else [U16At(s, off)] + U16s(s, off + 2, n - 1)
  }

  /** `n` consecutive 32-bit entries starting at `off`. */
  function DecodeU32Array(s: seq<Byte>, off: nat, n: nat): (r: Result<seq<U32>>)
    ensures r.Ok? <==> off + 4 * n <= |s|
    ensures r.Ok? ==> |r.value| == n
    ensures r.Err? ==> r.error == Truncated
  {
    if off + 4 * n > |s| then Err(Truncated) else Ok(U32s(s, off, n))
  }

  /** The entries of a 32-bit array that fits, first to last. */
  function U32s(s: seq<Byte>, off: nat, n: nat): (r: seq<U32>)
    requires off + 4 * n <= |s|
    ensures |r| == n
    decreases n
  {
    if n == 0 then [] else [U32At(s, off)] + U32s(s, off + 4, n - 1)
  }

  /** The `k`-th entry of a 16-bit array is the two bytes at `off + 2k`. */
  lemma {:induction false} U16ArrayAt(s: seq<Byte>, off: nat, n: nat, k: nat)
    requires DecodeU16Array(s, off, n).Ok? && k < n
    ensures DecodeU16Array(s, off, n).value[k] == U16At(s, off + 2 * k)
    decreases k
  {
    if k > 0 {
      U16ArrayAt(s, off + 2, n - 1, k - 1);
    }
  }

  /** The `k`-th entry of a 32-bit array is the four bytes at `off + 4k`. */
  lemma {:induction false} U32ArrayAt(s: seq<Byte>, off: nat, n: nat, k: nat)
    requires DecodeU32Array(s, off, n).Ok? && k < n
    ensures DecodeU32Array(s, off, n).value[k] == U32At(s, off + 4 * k)
    decreases k
  {
    if k > 0 {
      U32ArrayAt(s, off + 4, n - 1, k - 1);
    }
  }
}
