/** Round trips of the fixed-layout records: decoding what an encoder laid
    out gives back the record, wherever it sits in the stream; encoding what
    a decoder read gives back the bytes it was read from, except that the
    unused padding bytes, which no decoder inspects, come back as zeros. */
module RecordLaws {
  import opened Wire
  import opened Layout
  import opened Records

  lemma {:induction false} MachineRoundTrip(m: Machine)
    ensures DecodeMachine(MachineCode(m)) == Ok(m)
  {
    match m
    case MachineUnknown =>
    case I386 =>
    case IA64 =>
    case Amd64 =>
  }

  // ---------------------------------------------------------------------
  // Symbol range

  /** Naming the values read and listing them again loses nothing: the
      padding entries can only hold 0. */
  lemma {:induction false} SymbolRangeValuesFrom(vs: seq<int>)
    requires FitsEach(SymbolRangeLayout, vs)
    ensures SymbolRangeValues(SymbolRangeFrom(vs)) == vs
  {
    assert Fits(SymbolRangeLayout[1], vs[1]) && Fits(SymbolRangeLayout[6], vs[6]);
    assert vs == [vs[0], vs[1], vs[2], vs[3], vs[4], vs[5], vs[6], vs[7], vs[8]];
  }

  /** A symbol range is read back from wherever its encoding sits. */
  lemma {:induction false} SymbolRangeDecodes(s: seq<Byte>, i: nat, x: SymbolRange)
    requires i + SymbolRangeSize <= |s| && s[i..i + SymbolRangeSize] == EncodeSymbolRange(x)
    ensures SymbolRangeAt(s, i) == x
  {
    SymbolRangeWidth();
    ReadWrittenAt(s, i, SymbolRangeLayout, SymbolRangeValues(x));
  }

  /** Re-encoding a decoded symbol range gives back its 28 bytes with the
      two unused pairs cleared. */
  lemma {:induction false} SymbolRangeReencodes(s: seq<Byte>, i: nat)
    requires i + SymbolRangeSize <= |s|
    ensures EncodeSymbolRange(SymbolRangeAt(s, i)) == Blanked(s, i, SymbolRangeLayout)
  {
    SymbolRangeWidth();
    var vs := ReadFields(s, i, SymbolRangeLayout);
    AllFitEach(SymbolRangeLayout, vs);
    WriteRead(s, i, SymbolRangeLayout);
    SymbolRangeValuesFrom(vs);
  }

  // ---------------------------------------------------------------------
  // Stream header

  /** A header laid out by the encoder decodes to itself, whatever follows
      it: the sentinel is there, the machine code is one of the four, and
      every field is read from where it was written. */
  lemma {:induction false} HeaderDecodes(h: DbiHeader, rest: seq<Byte>)
    ensures DecodeHeader(EncodeHeader(h) + rest) == Ok(h)
  {
    HeaderLeadWidth();
    var lead := WriteFields(HeaderLeadLayout, HeaderLeadValues(h));
    var code := EncodeU16(MachineCode(h.machine));
    var s := EncodeHeader(h) + rest;
    assert s == Magic + lead + code + EncodeU32(h.resvd) + rest;
    PartsAt(Magic, lead, code, EncodeU32(h.resvd), rest, 4, 58, 60);
    ReadWrittenAt(s, 4, HeaderLeadLayout, HeaderLeadValues(h));
    U16From(s, 58, MachineCode(h.machine));
    U32From(s, 60, h.resvd);
    MachineRoundTrip(h.machine);
    HeaderFromValues(h);
    assert DecodeHeader(s).Ok?;
  }

  /** Listing a header's fields and naming them again gives the header back. */
  lemma {:induction false} HeaderFromValues(h: DbiHeader)
    ensures HeaderFrom(HeaderLeadValues(h), h.machine, h.resvd) == h
  {
    var vs := HeaderLeadValues(h);
    assert vs[0] == h.version && vs[1] == h.age && vs[2] == h.gssymStream && vs[3] == h.vers;
    assert vs[4] == h.pssymStream && vs[5] == h.pdbver && vs[6] == h.symrecStream && vs[7] == h.pdbver2;
    assert vs[8] == h.moduleSize && vs[9] == h.secconSize && vs[10] == h.secmapSize && vs[11] == h.filinfSize;
    assert vs[12] == h.tsmapSize && vs[13] == h.mfcIndex && vs[14] == h.dbghdrSize && vs[15] == h.ecinfoSize;
    assert vs[16] == h.flags;
  }

  lemma {:induction false} HeaderLeadValuesFrom(vs: seq<int>, machine: Machine, resvd: U32)
    requires FitsEach(HeaderLeadLayout, vs)
    ensures HeaderLeadValues(HeaderFrom(vs, machine, resvd)) == vs
  {
    HeaderLeadWidth();
    assert vs == vs[..8] + vs[8..16] + vs[16..];
    assert vs[..8] == [vs[0], vs[1], vs[2], vs[3], vs[4], vs[5], vs[6], vs[7]];
    assert vs[8..16] == [vs[8], vs[9], vs[10], vs[11], vs[12], vs[13], vs[14], vs[15]];
    assert vs[16..] == [vs[16]];
  }

  /** No field of the header is padding. */
  lemma {:induction false} HeaderLeadUnpadded()
    ensures forall j :: 0 <= j < |HeaderLeadLayout| ==> !HeaderLeadLayout[j].Padding?
  {
    forall j | 0 <= j < |HeaderLeadLayout| ensures !HeaderLeadLayout[j].Padding? {
      if j < 8 {
        assert HeaderLeadLayout[j] == HeaderStreamsLayout[j];
        if j == 0 {} else if j == 1 {} else if j == 2 {} else if j == 3 {} else if j == 4 {}
        else if j == 5 {} else if j == 6 {} else {}
      } else if j < 16 {
        assert HeaderLeadLayout[j] == HeaderSizesLayout[j - 8];
      }
    }
  }

  /** Re-encoding a decoded header reproduces the 64 bytes it came from:
      the header has no unused bytes. */
  lemma {:induction false} HeaderReencodes(s: seq<Byte>)
    requires DecodeHeader(s).Ok?
    ensures EncodeHeader(DecodeHeader(s).value) == s[..HeaderSize]
  {
    HeaderLeadWidth();
    var h := DecodeHeader(s).value;
    var vs := ReadFields(s, 4, HeaderLeadLayout);
    AllFitEach(HeaderLeadLayout, vs);
    HeaderLeadValuesFrom(vs, h.machine, h.resvd);
    WriteRead(s, 4, HeaderLeadLayout);
    HeaderLeadUnpadded();
    BlankedUnpadded(s, 4, HeaderLeadLayout);
    U16Reencodes(s, 58);
    U32Reencodes(s, 60);
    assert WriteFields(HeaderLeadLayout, HeaderLeadValues(h)) == s[4..58];
    assert h.resvd == U32At(s, 60);
    assert EncodeU16(MachineCode(h.machine)) == s[58..60];
    assert EncodeU32(h.resvd) == s[60..64];
    SliceCut(s, 0, 4, 58);
    SliceCut(s, 0, 58, 60);
    SliceCut(s, 0, 60, 64);
    assert s[..4] == s[0..4];
  }

  /** The kinds of the 17 fields between the sentinel and the machine code. */
  predicate LeadKinds(ks: seq<FieldKind>)
  {
    |ks| == 17 &&
    ks[0] == U32Field && ks[1] == U32Field && ks[2] == I16Field && ks[3] == U16Field &&
    ks[4] == I16Field && ks[5] == U16Field && ks[6] == I16Field && ks[7] == U16Field &&
    ks[8] == U32Field && ks[9] == U32Field && ks[10] == U32Field && ks[11] == U32Field &&
    ks[12] == U32Field && ks[13] == U32Field && ks[14] == U32Field && ks[15] == U32Field &&
    ks[16] == U16Field
  }

  lemma HeaderLeadKinds()
    ensures LeadKinds(HeaderLeadLayout)
  {
  }

  /** The offsets, from the first field, of the stream and version fields. */
  lemma {:induction false} LeadStreamsOffsets(ks: seq<FieldKind>)
    requires LeadKinds(ks)
    ensures FieldOffset(ks, 0) == 0 && FieldOffset(ks, 1) == 4 && FieldOffset(ks, 2) == 8
    ensures FieldOffset(ks, 3) == 10 && FieldOffset(ks, 4) == 12 && FieldOffset(ks, 5) == 14
    ensures FieldOffset(ks, 6) == 16 && FieldOffset(ks, 7) == 18 && FieldOffset(ks, 8) == 20
  {
    assert ks[..0] == [];
    FieldOffsetNext(ks, 0); FieldOffsetNext(ks, 1); FieldOffsetNext(ks, 2); FieldOffsetNext(ks, 3);
    FieldOffsetNext(ks, 4); FieldOffsetNext(ks, 5); FieldOffsetNext(ks, 6); FieldOffsetNext(ks, 7);
  }

  /** The offsets, from the first field, of the sizes and `flags`. */
  lemma {:induction false} LeadSizesOffsets(ks: seq<FieldKind>)
    requires LeadKinds(ks)
    ensures FieldOffset(ks, 8) == 20 && FieldOffset(ks, 9) == 24 && FieldOffset(ks, 10) == 28
    ensures FieldOffset(ks, 11) == 32 && FieldOffset(ks, 12) == 36 && FieldOffset(ks, 13) == 40
    ensures FieldOffset(ks, 14) == 44 && FieldOffset(ks, 15) == 48 && FieldOffset(ks, 16) == 52
  {
    LeadStreamsOffsets(ks);
    FieldOffsetNext(ks, 8); FieldOffsetNext(ks, 9); FieldOffsetNext(ks, 10); FieldOffsetNext(ks, 11);
    FieldOffsetNext(ks, 12); FieldOffsetNext(ks, 13); FieldOffsetNext(ks, 14); FieldOffsetNext(ks, 15);
  }

  /** The stream and version fields, read 4 bytes into the header. */
  lemma {:induction false} LeadStreamsAt(s: seq<Byte>, ks: seq<FieldKind>)
    requires LeadKinds(ks) && 58 <= |s| && 4 + LayoutWidth(ks) <= |s|
    ensures var vs := ReadFields(s, 4, ks);
      |vs| == 17 &&
      vs[0] == U32At(s, 4) && vs[1] == U32At(s, 8) && vs[2] == I16At(s, 12) && vs[3] == U16At(s, 14) &&
      vs[4] == I16At(s, 16) && vs[5] == U16At(s, 18) && vs[6] == I16At(s, 20) && vs[7] == U16At(s, 22)
  {
    LeadStreamsOffsets(ks);
    ReadFieldAs(s, 4, ks, 0, 4, U32Field); ReadFieldAs(s, 4, ks, 1, 8, U32Field);
    ReadFieldAs(s, 4, ks, 2, 12, I16Field); ReadFieldAs(s, 4, ks, 3, 14, U16Field);
    ReadFieldAs(s, 4, ks, 4, 16, I16Field); ReadFieldAs(s, 4, ks, 5, 18, U16Field);
    ReadFieldAs(s, 4, ks, 6, 20, I16Field); ReadFieldAs(s, 4, ks, 7, 22, U16Field);
  }

  /** The eight sizes and `flags`, read 4 bytes into the header. */
  lemma {:induction false} LeadSizesAt(s: seq<Byte>, ks: seq<FieldKind>)
    requires LeadKinds(ks) && 58 <= |s| && 4 + LayoutWidth(ks) <= |s|
    ensures var vs := ReadFields(s, 4, ks);
      |vs| == 17 &&
      vs[8] == U32At(s, 24) && vs[9] == U32At(s, 28) && vs[10] == U32At(s, 32) && vs[11] == U32At(s, 36) &&
      vs[12] == U32At(s, 40) && vs[13] == U32At(s, 44) && vs[14] == U32At(s, 48) && vs[15] == U32At(s, 52) &&
      vs[16] == U16At(s, 56)
  {
    LeadSizesOffsets(ks);
    ReadFieldAs(s, 4, ks, 8, 24, U32Field); ReadFieldAs(s, 4, ks, 9, 28, U32Field);
    ReadFieldAs(s, 4, ks, 10, 32, U32Field); ReadFieldAs(s, 4, ks, 11, 36, U32Field);
    ReadFieldAs(s, 4, ks, 12, 40, U32Field); ReadFieldAs(s, 4, ks, 13, 44, U32Field);
    ReadFieldAs(s, 4, ks, 14, 48, U32Field); ReadFieldAs(s, 4, ks, 15, 52, U32Field);
    ReadFieldAs(s, 4, ks, 16, 56, U16Field);
  }

  /** Each field of a decoded header is the value at its own offset, read
      with its own width and signedness. */
  lemma {:induction false} HeaderFieldsAt(s: seq<Byte>)
    requires DecodeHeader(s).Ok?
    ensures HeaderSize <= |s|
    ensures var h := DecodeHeader(s).value;
      h.version == U32At(s, 4) && h.age == U32At(s, 8) &&
      h.gssymStream == I16At(s, 12) && h.vers == U16At(s, 14) &&
      h.pssymStream == I16At(s, 16) && h.pdbver == U16At(s, 18) &&
      h.symrecStream == I16At(s, 20) && h.pdbver2 == U16At(s, 22)
    ensures var h := DecodeHeader(s).value;
      h.moduleSize == U32At(s, 24) && h.secconSize == U32At(s, 28) &&
      h.secmapSize == U32At(s, 32) && h.filinfSize == U32At(s, 36) &&
      h.tsmapSize == U32At(s, 40) && h.mfcIndex == U32At(s, 44) &&
      h.dbghdrSize == U32At(s, 48) && h.ecinfoSize == U32At(s, 52)
    ensures var h := DecodeHeader(s).value;
      h.flags == U16At(s, 56) && MachineCode(h.machine) == U16At(s, 58) && h.resvd == U32At(s, 60)
  {
    HeaderLeadWidth();
    var vs := ReadFields(s, 4, HeaderLeadLayout);
    AllFitEach(HeaderLeadLayout, vs);
    var h := DecodeHeader(s).value;
    assert h == HeaderFrom(vs, h.machine, U32At(s, 60));
    HeaderLeadKinds();
    LeadStreamsAt(s, HeaderLeadLayout);
    LeadSizesAt(s, HeaderLeadLayout);
  }

  // ---------------------------------------------------------------------
  // Module record

  lemma {:induction false} ModuleTailValuesFrom(vs: seq<int>, modName: seq<Byte>, objName: seq<Byte>)
    requires FitsEach(ModuleLayout, vs)
    ensures |vs| == 20 && ModuleTailValues(ModuleFieldsFrom(vs, modName, objName)) == vs[10..]
  {
    ModuleEntries();
    assert Fits(ModuleLayout[16], vs[16]) by {
      ModuleTailWidth();
      assert ModuleTailLayout[6] == ModuleIndexLayout[1];
    }
    assert vs[10..] == [vs[10], vs[11], vs[12], vs[13], vs[14], vs[15], vs[16], vs[17], vs[18], vs[19]];
  }

  lemma {:induction false} ModuleValuesFrom(vs: seq<int>, modName: seq<Byte>, objName: seq<Byte>)
    requires FitsEach(ModuleLayout, vs)
    ensures ModuleValues(ModuleFieldsFrom(vs, modName, objName)) == vs
  {
    ModuleEntries();
    FitsEachSlice(ModuleLayout, vs, 1, 10);
    SymbolRangeValuesFrom(vs[1..10]);
    ModuleTailValuesFrom(vs, modName, objName);
    assert vs[..1] == [vs[0]];
    SliceCut(vs, 0, 10, 20);
    SliceCut(vs, 0, 1, 10);
    assert vs[..1] == vs[0..1] && vs[10..] == vs[10..20] && vs == vs[0..20];
  }

  lemma {:induction false} ModuleFromValues(m: ModuleRecord)
    ensures ModuleFieldsFrom(ModuleValues(m), m.modName, m.objName) == m
  {
    ModuleEntries();
    var vs := ModuleValues(m);
    assert vs[1..10] == SymbolRangeValues(m.range);
  }

  /** The fixed part of a record is read back from its encoding. */
  lemma {:induction false} ModuleFieldsFound(s: seq<Byte>, m: ModuleRecord)
    requires ModuleFixedSize <= |s| && s[..ModuleFixedSize] == EncodeModuleFields(m)
    ensures ModuleFieldsAt(s, m.modName, m.objName) == m
  {
    ModuleWidth();
    assert s[0..ModuleFixedSize] == s[..ModuleFixedSize];
    ReadWrittenAt(s, 0, ModuleLayout, ModuleValues(m));
    ModuleFromValues(m);
  }

  /** Once both names are found, the record is its fixed fields. */
  lemma {:induction false} ModuleRecordFound(s: seq<Byte>, modName: seq<Byte>, objName: seq<Byte>)
    requires ModuleFixedSize <= |s|
    requires CStringAt(s, ModuleFixedSize) == Ok(modName)
    requires CStringAt(s, ModuleFixedSize + |modName| + 1) == Ok(objName)
    ensures DecodeModuleRecord(s) == Ok(ModuleFieldsAt(s, modName, objName))
  {
  }

  /** A record whose names hold no NUL decodes to itself, whatever follows it. */
  lemma {:induction false} ModuleRecordDecodes(m: ModuleRecord, rest: seq<Byte>)
    requires NoNul(m.modName) && NoNul(m.objName)
    ensures DecodeModuleRecord(EncodeModuleRecord(m) + rest) == Ok(m)
  {
    var s := EncodeModuleRecord(m) + rest;
    NamesAfter(EncodeModuleFields(m), m.modName, m.objName, rest);
    ModuleFieldsFound(s, m);
    ModuleRecordFound(s, m.modName, m.objName);
  }

  /** A decoded record is made of the fixed prefix and the two names read at
      their places. */
  lemma {:induction false} ModuleRecordParts(s: seq<Byte>)
    requires DecodeModuleRecord(s).Ok?
    ensures var m := DecodeModuleRecord(s).value;
      ModuleFixedSize <= |s| && m == ModuleFieldsAt(s, m.modName, m.objName) &&
      CStringAt(s, ModuleFixedSize) == Ok(m.modName) &&
      CStringAt(s, ModuleFixedSize + |m.modName| + 1) == Ok(m.objName)
  {
  }

  lemma DropHead(v: int, rest: seq<int>, whole: seq<int>, n: nat)
    requires whole == [v] + rest && n <= |rest|
    ensures whole[1..n + 1] == rest[..n]
  {
  }

  /** The range a decoded record carries is the symbol range read at offset
      4, just after the `opened` field. */
  lemma {:induction false} ModuleRecordRange(s: seq<Byte>)
    requires DecodeModuleRecord(s).Ok?
    ensures 4 + SymbolRangeSize <= |s|
    ensures DecodeModuleRecord(s).value.range == SymbolRangeAt(s, 4)
  {
    ModuleRecordParts(s);
    ModuleWidth();
    SymbolRangeWidth();
    ModuleEntries();
    var vs := ReadFields(s, 0, ModuleLayout);
    var j := 0 + Width(ModuleLayout[0]);
    assert j == 4;
    ReadFieldsCons(s, 0, ModuleLayout);
    ReadFieldsTake(s, j, ModuleLayout[1..], 9);
    assert ModuleLayout[1..][..9] == SymbolRangeLayout;
    DropHead(FieldAt(s, 0, ModuleLayout[0]), ReadFields(s, j, ModuleLayout[1..]), vs, 9);
  }

  /** Neither name of a decoded record holds a terminator. */
  lemma {:induction false} ModuleRecordNames(s: seq<Byte>)
    requires DecodeModuleRecord(s).Ok?
    ensures NoNul(DecodeModuleRecord(s).value.modName) && NoNul(DecodeModuleRecord(s).value.objName)
  {
    var m := DecodeModuleRecord(s).value;
    ModuleRecordParts(s);
    CStringNoNul(s, ModuleFixedSize);
    CStringNoNul(s, ModuleFixedSize + |m.modName| + 1);
  }

  /** The fixed prefix re-encodes as the bytes it was read from, padding zeroed. */
  lemma {:induction false} ModuleFieldsReencode(s: seq<Byte>, modName: seq<Byte>, objName: seq<Byte>)
    requires ModuleFixedSize <= |s|
    ensures LayoutWidth(ModuleLayout) == ModuleFixedSize
    ensures EncodeModuleFields(ModuleFieldsAt(s, modName, objName)) == Blanked(s, 0, ModuleLayout)
  {
    ModuleWidth();
    var vs := ReadFields(s, 0, ModuleLayout);
    AllFitEach(ModuleLayout, vs);
    ModuleValuesFrom(vs, modName, objName);
    WriteRead(s, 0, ModuleLayout);
  }

  /** Re-encoding a decoded record gives back the bytes it spans, with the
      padding of its fixed prefix zeroed. */
  lemma {:induction false} ModuleRecordReencodes(s: seq<Byte>)
    requires DecodeModuleRecord(s).Ok?
    ensures LayoutWidth(ModuleLayout) == ModuleFixedSize
    ensures var m := DecodeModuleRecord(s).value;
      ModuleFixedSize <= RecordLength(m) <= |s| &&
      EncodeModuleRecord(m) == Blanked(s, 0, ModuleLayout) + s[ModuleFixedSize..RecordLength(m)]
  {
    var m := DecodeModuleRecord(s).value;
    ModuleRecordParts(s);
    ModuleFieldsReencode(s, m.modName, m.objName);
    var b := Blanked(s, 0, ModuleLayout);
    var k := ModuleFixedSize + |m.modName| + 1;
    var n := RecordLength(m);
    CStringSpan(s, ModuleFixedSize, m.modName, k);
    CStringSpan(s, k, m.objName, n);
    SliceCut(s, ModuleFixedSize, k, n);
    AppendAssoc(b, s[ModuleFixedSize..k], s[k..n]);
    assert EncodeModuleFields(m) == b;
    assert s[ModuleFixedSize..n] == (m.modName + [0]) + (m.objName + [0]);
    assert EncodeModuleRecord(m) == b + s[ModuleFixedSize..n];
  }


  // ---------------------------------------------------------------------
  // Debug sub-stream table and file-index summary

  lemma {:induction false} DbgHeaderDecodes(a: seq<Byte>, d: DbgHeader, b: seq<Byte>)
    ensures DecodeDbgHeader(a + EncodeDbgHeader(d) + b, |a|) == Ok(d)
  {
    DbgHeaderWidth();
    var s := a + EncodeDbgHeader(d) + b;
    assert s[|a|..|a| + DbgHeaderSize] == EncodeDbgHeader(d);
    ReadWrittenAt(s, |a|, DbgHeaderLayout, DbgHeaderValues(d));
  }

  lemma {:induction false} DbgHeaderValuesFrom(vs: seq<int>)
    requires FitsEach(DbgHeaderLayout, vs)
    ensures DbgHeaderValues(DbgHeaderFrom(vs)) == vs
  {
    assert vs == [vs[0], vs[1], vs[2], vs[3], vs[4], vs[5], vs[6], vs[7], vs[8], vs[9], vs[10]];
  }

  /** The table has no unused bytes: re-encoding gives back its 22 bytes. */
  lemma {:induction false} DbgHeaderReencodes(s: seq<Byte>, off: nat)
    requires DecodeDbgHeader(s, off).Ok?
    ensures EncodeDbgHeader(DecodeDbgHeader(s, off).value) == s[off..off + DbgHeaderSize]
  {
    DbgHeaderWidth();
    var vs := ReadFields(s, off, DbgHeaderLayout);
    AllFitEach(DbgHeaderLayout, vs);
    DbgHeaderValuesFrom(vs);
    WriteRead(s, off, DbgHeaderLayout);
    DbgHeaderUnpadded();
    assert off + LayoutWidth(DbgHeaderLayout) <= |s|;
    assert forall j :: 0 <= j < |DbgHeaderLayout| ==> !DbgHeaderLayout[j].Padding?;
    BlankedUnpadded(s, off, DbgHeaderLayout);
  }

  lemma {:induction false} FileIndexDecodes(a: seq<Byte>, f: FileIndex, b: seq<Byte>)
    ensures DecodeFileIndex(a + EncodeFileIndex(f) + b, |a|) == Ok(f)
  {
    var s := a + EncodeFileIndex(f) + b;
    var vs := [f.cMod as int, f.cRef as int];
    AllFitEach(FileIndexLayout, vs);
    assert s[|a|..|a| + FileIndexSize] == EncodeFileIndex(f);
    ReadWrittenAt(s, |a|, FileIndexLayout, vs);
  }

  lemma {:induction false} FileIndexReencodes(s: seq<Byte>, off: nat)
    requires DecodeFileIndex(s, off).Ok?
    ensures EncodeFileIndex(DecodeFileIndex(s, off).value) == s[off..off + FileIndexSize]
  {
    var vs := ReadFields(s, off, FileIndexLayout);
    AllFitEach(FileIndexLayout, vs);
    WriteRead(s, off, FileIndexLayout);
    BlankedUnpadded(s, off, FileIndexLayout);
  }
}
