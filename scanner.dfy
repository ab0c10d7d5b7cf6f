/** The module-record scanner: the window of `moduleSize` bytes that
    follows the stream header holds one record after another, each padded
    so that the next starts at a multiple of four bytes from the window's
    start. */
module ModuleScan {
  import opened Wire
  import opened Records
  import opened RecordLaws

  /** The records of a window, in byte order. An empty window holds none;
      otherwise a record is decoded from the window's start, and the rest of
      the window after its aligned size (or nothing, when the aligned size
      runs past the end) is scanned in turn. */
  function ScanModules(w: seq<Byte>): (r: Result<seq<ModuleRecord>>)
    decreases |w|
    ensures w == [] ==> r == Ok([])
    ensures r.Ok? ==> (|r.value| == 0 <==> w == [])
    ensures r.Err? ==> r.error == Truncated || r.error == MissingTerminator
  {
    if w == [] then Ok([])
    else
      var rec :- DecodeModuleRecord(w);
      var rest :- ScanModules(w[Min(AlignedSize(rec), |w|)..]);
      Ok([rec] + rest)
  }

  /** One step of the scan, for a window that starts with a record. */
  lemma ScanStep(w: seq<Byte>, rec: ModuleRecord, rest: seq<ModuleRecord>)
    requires w != [] && DecodeModuleRecord(w) == Ok(rec)
    requires ScanModules(w[Min(AlignedSize(rec), |w|)..]) == Ok(rest)
    ensures ScanModules(w) == Ok([rec] + rest)
  {
  }

  /** Where the `k`-th record starts in the window: the aligned sizes of the
      records before it, added up. */
  function Offset(recs: seq<ModuleRecord>, k: nat): nat
    requires k <= |recs|
  {
    if k == 0 then 0 else Offset(recs, k - 1) + AlignedSize(recs[k - 1])
  }

  lemma {:induction false} OffsetCons(rec: ModuleRecord, recs: seq<ModuleRecord>, k: nat)
    requires k <= |recs|
    ensures Offset([rec] + recs, k + 1) == AlignedSize(rec) + Offset(recs, k)
  {
    if k > 0 {
      OffsetCons(rec, recs, k - 1);
      assert ([rec] + recs)[k] == recs[k - 1];
    }
  }

  /** A successful scan of a non-empty window starts with the record at its start. */
  lemma ScanUnfold(w: seq<Byte>)
    requires w != [] && ScanModules(w).Ok?
    ensures DecodeModuleRecord(w).Ok?
    ensures var rec := DecodeModuleRecord(w).value;
      var w' := w[Min(AlignedSize(rec), |w|)..];
      ScanModules(w').Ok? && ScanModules(w).value == [rec] + ScanModules(w').value
  {
  }

  /** A successful non-empty scan, taken apart into its first step. */
  lemma ScanSplit(w: seq<Byte>, recs: seq<ModuleRecord>)
    requires ScanModules(w) == Ok(recs) && recs != []
    ensures w != [] && DecodeModuleRecord(w) == Ok(recs[0])
    ensures ScanModules(w[Min(AlignedSize(recs[0]), |w|)..]) == Ok(recs[1..])
  {
    var rec := DecodeModuleRecord(w).value;
    var w' := w[Min(AlignedSize(rec), |w|)..];
    var rest := ScanModules(w').value;
    DropAppend([rec], rest, 1);
  }

  /** A scan that found more than one record moved past the first. */
  lemma ScanMoved(w: seq<Byte>, a: nat, rest: seq<ModuleRecord>)
    requires ScanModules(w[Min(a, |w|)..]) == Ok(rest) && rest != []
    ensures a < |w| && w[Min(a, |w|)..] == w[a..]
  {
  }

  lemma OffsetNext(recs: seq<ModuleRecord>, j: nat, k: nat)
    requires k == j + 1 && k <= |recs|
    ensures Offset(recs, k) == Offset(recs, j) + AlignedSize(recs[j])
  {
  }

  /** One record further into a successful scan. */
  lemma SuffixStep(w: seq<Byte>, recs: seq<ModuleRecord>, j: nat, k: nat)
    requires k == j + 1 && k < |recs|
    requires Offset(recs, j) <= |w| && ScanModules(w[Offset(recs, j)..]) == Ok(recs[j..])
    ensures Offset(recs, k) <= |w| && ScanModules(w[Offset(recs, k)..]) == Ok(recs[k..])
  {
    var v := w[Offset(recs, j)..];
    var a := AlignedSize(recs[j]);
    ScanSplit(v, recs[j..]);
    assert recs[j..][0] == recs[j];
    assert recs[j..][1..] == recs[k..];
    ScanMoved(v, a, recs[k..]);
    OffsetNext(recs, j, k);
    DropDrop(w, Offset(recs, j), a, Offset(recs, k));
  }

  /** What is left of the window at the `k`-th record's offset scans as the
      records from the `k`-th on. */
  lemma {:induction false} ScanSuffix(w: seq<Byte>, recs: seq<ModuleRecord>, k: nat)
    requires ScanModules(w) == Ok(recs) && k < |recs|
    ensures Offset(recs, k) <= |w| && ScanModules(w[Offset(recs, k)..]) == Ok(recs[k..])
    decreases k
  {
    if k == 0 {
      assert w[0..] == w;
      assert recs[0..] == recs;
    } else {
      ScanSuffix(w, recs, k - 1);
      SuffixStep(w, recs, k - 1, k);
    }
  }

  /** The `k`-th record the scanner emits is the one decoded at its offset,
      and lies inside the window; as the offsets only grow, the records come
      out in byte order. */
  lemma {:induction false} ScanPlacement(w: seq<Byte>, recs: seq<ModuleRecord>, k: nat)
    requires ScanModules(w) == Ok(recs) && k < |recs|
    ensures Offset(recs, k) + RecordLength(recs[k]) <= |w|
    ensures DecodeModuleRecord(w[Offset(recs, k)..]) == Ok(recs[k])
  {
    ScanSuffix(w, recs, k);
    ScanSplit(w[Offset(recs, k)..], recs[k..]);
    assert recs[k..][0] == recs[k];
  }

  /** The end of the last record, rounded up to the alignment, is the end of
      the window or at most three bytes past it: the window may cut off the
      last record's padding, and nothing else is left over. */
  lemma {:induction false} ScanEnd(w: seq<Byte>)
    requires ScanModules(w).Ok?
    ensures var recs := ScanModules(w).value;
      |w| <= Offset(recs, |recs|) < |w| + Align
    decreases |w|
  {
    if w != [] {
      ScanUnfold(w);
      var rec := DecodeModuleRecord(w).value;
      var w' := w[Min(AlignedSize(rec), |w|)..];
      ScanEnd(w');
      var rest := ScanModules(w').value;
      OffsetCons(rec, rest, |rest|);
      if |w| < AlignedSize(rec) {
        assert |rest| == 0;
      }
    }
  }

  /** The bytes of a run of records, each followed by padding that brings
      it to a multiple of four bytes; the padding's content is arbitrary. */
  function EncodeModules(recs: seq<ModuleRecord>, pads: seq<seq<Byte>>): seq<Byte>
    requires |pads| == |recs|
  {
    if recs == [] then []
    else EncodeModuleRecord(recs[0]) + pads[0] + EncodeModules(recs[1..], pads[1..])
  }

  /** Records whose names hold no NUL, each with padding that brings it to
      its aligned size. */
  predicate Encodable(recs: seq<ModuleRecord>, pads: seq<seq<Byte>>)
  {
    |pads| == |recs| &&
    forall k :: 0 <= k < |recs| ==>
      NoNul(recs[k].modName) && NoNul(recs[k].objName) &&
      RecordLength(recs[k]) + |pads[k]| == AlignedSize(recs[k])
  }

  lemma EncodableTail(recs: seq<ModuleRecord>, pads: seq<seq<Byte>>)
    requires Encodable(recs, pads) && recs != []
    ensures NoNul(recs[0].modName) && NoNul(recs[0].objName)
    ensures RecordLength(recs[0]) + |pads[0]| == AlignedSize(recs[0])
    ensures Encodable(recs[1..], pads[1..])
  {
    assert forall k :: 0 <= k < |recs| - 1 ==> recs[1..][k] == recs[k + 1] && pads[1..][k] == pads[k + 1];
  }

  /** Scanning the encoding of a run of records gives the records back,
      whatever the padding bytes hold. */
  lemma {:induction false} ScanEncoded(recs: seq<ModuleRecord>, pads: seq<seq<Byte>>)
    requires Encodable(recs, pads)
    ensures ScanModules(EncodeModules(recs, pads)) == Ok(recs)
  {
    if recs != [] {
      var rec, pad := recs[0], pads[0];
      var e := EncodeModuleRecord(rec);
      var tail := EncodeModules(recs[1..], pads[1..]);
      var w := e + (pad + tail);
      var a := AlignedSize(rec);
      EncodableTail(recs, pads);
      assert EncodeModules(recs, pads) == e + pad + tail;
      AppendAssoc(e, pad, tail);
      ModuleRecordDecodes(rec, pad + tail);
      DropAppend(e + pad, tail, a);
      assert Min(a, |w|) == a;
      ScanEncoded(recs[1..], pads[1..]);
      ScanStep(w, rec, recs[1..]);
      HeadRest(recs);
    }
  }

  /** `recs` put in front of the records of a successful scan; a failed scan stays failed. */
  function Prepend(recs: seq<ModuleRecord>, r: Result<seq<ModuleRecord>>): Result<seq<ModuleRecord>>
  {
    if r.Ok? then Ok(recs + r.value) else r
  }

  lemma ScanCons(w: seq<Byte>)
    requires w != [] && DecodeModuleRecord(w).Ok?
    ensures var rec := DecodeModuleRecord(w).value;
      ScanModules(w) == Prepend([rec], ScanModules(w[Min(AlignedSize(rec), |w|)..]))
  {
  }

  lemma PrependNothing(r: Result<seq<ModuleRecord>>)
    ensures Prepend([], r) == r
  {
    if r.Ok? {
      assert [] + r.value == r.value;
    }
  }

  lemma PrependTwice(recs: seq<ModuleRecord>, rec: ModuleRecord, r: Result<seq<ModuleRecord>>)
    ensures Prepend(recs, Prepend([rec], r)) == Prepend(recs + [rec], r)
  {
    if r.Ok? {
      assert recs + ([rec] + r.value) == recs + [rec] + r.value;
    }
  }

  /** A record's size as measured by re-encoding it, rounded up to the
      alignment when it is not already a multiple of it. */
  method PaddedSize(m: ModuleRecord) returns (sz: nat)
    ensures sz == AlignedSize(m)
  {
    sz := ParsedSize(m);
    if sz % Align != 0 {
      sz := sz + (Align - sz % Align);
    }
  }

  /** The scanning loop: records are decoded from the front of the window
      and the window shrinks by each record's size rounded up to the
      alignment, until it is empty. */
  method ScanModuleRecords(window: seq<Byte>) returns (r: Result<seq<ModuleRecord>>)
    ensures r == ScanModules(window)
  {
    var data := window;
    var recs: seq<ModuleRecord> := [];
    PrependNothing(ScanModules(window));
    while data != []
      invariant Prepend(recs, ScanModules(data)) == ScanModules(window)
      decreases |data|
    {
      var rec := DecodeModuleRecord(data);
      if rec.Err? {
        return Err(rec.error);
      }
      var sz := PaddedSize(rec.value);
      var next := data[Min(sz, |data|)..];
      ScanCons(data);
      PrependTwice(recs, rec.value, ScanModules(next));
      recs := recs + [rec.value];
      data := next;
    }
    assert recs + [] == recs;
    return Ok(recs);
  }
}
