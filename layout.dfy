/** Fixed-width record layouts: a record is a list of little-endian fields
    and unused padding, read one after another from a start offset. Reading
    a layout gives one integer per entry (0 for padding, whose bytes are
    skipped and never inspected); writing one lays the fields out in order
    and fills padding with zeros. */
module Layout {
  import opened Wire

  datatype FieldKind = U16Field | I16Field | U32Field | I32Field | Padding(n: nat)

  function Width(k: FieldKind): nat
  {
    match k
    case U16Field => 2
    case I16Field => 2
    case U32Field => 4
    case I32Field => 4
    case Padding(n) => n
  }

  /** The values a field of kind `k` can hold; padding holds nothing but 0. */
  predicate Fits(k: FieldKind, v: int)
  {
    match k
    case U16Field => 0 <= v < 0x1_0000
    case I16Field => -0x8000 <= v < 0x8000
    case U32Field => 0 <= v < 0x1_0000_0000
    case I32Field => -0x8000_0000 <= v < 0x8000_0000
    case Padding(_) => v == 0
  }

  function FieldAt(s: seq<Byte>, i: nat, k: FieldKind): (v: int)
    requires i + Width(k) <= |s|
    ensures Fits(k, v)
  {
    match k
    case U16Field => U16At(s, i)
    case I16Field => I16At(s, i)
    case U32Field => U32At(s, i)
    case I32Field => I32At(s, i)
    case Padding(_) => 0
  }

  function Zeros(n: nat): (r: seq<Byte>)
    ensures |r| == n && forall j :: 0 <= j < n ==> r[j] == 0
  {
    seq(n, _ => 0)
  }

  function EncodeField(k: FieldKind, v: int): (r: seq<Byte>)
    requires Fits(k, v)
    ensures |r| == Width(k)
  {
    match k
    case U16Field => EncodeU16(v)
    case I16Field => EncodeI16(v)
    case U32Field => EncodeU32(v)
    case I32Field => EncodeI32(v)
    case Padding(n) => Zeros(n)
  }

  function LayoutWidth(ks: seq<FieldKind>): nat
  {
    if ks == [] then 0 else Width(ks[0]) + LayoutWidth(ks[1..])
  }

  /** Each value fits its entry of the layout, stated head first so that the
      recursive readers and writers below can carry it without a quantifier. */
  predicate AllFit(ks: seq<FieldKind>, vs: seq<int>)
    decreases |ks|
  {
    |vs| == |ks| && (ks != [] ==> Fits(ks[0], vs[0]) && AllFit(ks[1..], vs[1..]))
  }

  /** `AllFit`, entry by entry, as the record constructors use it;
      `AllFitEach` shows the two agree. */
  predicate FitsEach(ks: seq<FieldKind>, vs: seq<int>)
  {
    |vs| == |ks| && forall k :: 0 <= k < |ks| ==> Fits(ks[k], vs[k])
  }

  /** The values of a layout read from `i` on. */
  function ReadFields(s: seq<Byte>, i: nat, ks: seq<FieldKind>): (vs: seq<int>)
    requires i + LayoutWidth(ks) <= |s|
    ensures AllFit(ks, vs)
    decreases |ks|
  {
    if ks == [] then []
    else [FieldAt(s, i, ks[0])] + ReadFields(s, i + Width(ks[0]), ks[1..])
  }

  /** The bytes a layout is written as. */
  function WriteFields(ks: seq<FieldKind>, vs: seq<int>): (r: seq<Byte>)
    requires AllFit(ks, vs)
    ensures |r| == LayoutWidth(ks)
    decreases |ks|
  {
    if ks == [] then []
    else EncodeField(ks[0], vs[0]) + WriteFields(ks[1..], vs[1..])
  }

  /** The bytes from `i` on that a layout covers, with its padding zeroed. */
  function Blanked(s: seq<Byte>, i: nat, ks: seq<FieldKind>): (r: seq<Byte>)
    requires i + LayoutWidth(ks) <= |s|
    ensures |r| == LayoutWidth(ks)
    decreases |ks|
  {
    if ks == [] then []
    else
      var w := Width(ks[0]);
      (if ks[0].Padding? then Zeros(w) else s[i..i + w]) + Blanked(s, i + w, ks[1..])
  }

  /** Where the `k`-th entry of a layout starts. */
  function FieldOffset(ks: seq<FieldKind>, k: nat): nat
    requires k <= |ks|
  {
    LayoutWidth(ks[..k])
  }

  // ---------------------------------------------------------------------
  // Laws

  lemma FieldDecodes(a: seq<Byte>, k: FieldKind, v: int, b: seq<Byte>)
    requires Fits(k, v)
    ensures FieldAt(a + EncodeField(k, v) + b, |a|, k) == v
  {
    match k
    case U16Field => U16Decodes(a, v, b);
    case I16Field => I16Decodes(a, v, b);
    case U32Field => U32Decodes(a, v, b);
    case I32Field => I32Decodes(a, v, b);
    case Padding(_) =>
  }

  lemma FieldReencodes(s: seq<Byte>, i: nat, k: FieldKind)
    requires i + Width(k) <= |s| && !k.Padding?
    ensures EncodeField(k, FieldAt(s, i, k)) == s[i..i + Width(k)]
  {
    match k
    case U16Field => U16Reencodes(s, i);
    case I16Field => I16Reencodes(s, i);
    case U32Field => U32Reencodes(s, i);
    case I32Field => I32Reencodes(s, i);
  }

  lemma ReadFieldsCons(s: seq<Byte>, i: nat, ks: seq<FieldKind>)
    requires ks != [] && i + LayoutWidth(ks) <= |s|
    ensures ReadFields(s, i, ks) == [FieldAt(s, i, ks[0])] + ReadFields(s, i + Width(ks[0]), ks[1..])
  {
  }

  lemma HeadTail(vs: seq<int>)
    requires vs != []
    ensures vs == [vs[0]] + vs[1..]
  {
  }

  /** A slice made of two parts, cut where the first part ends. */
  lemma SliceParts(s: seq<Byte>, i: nat, j: nat, n: nat, x: seq<Byte>, y: seq<Byte>)
    requires i + |x| == j && j + |y| == n && n <= |s| && s[i..n] == x + y
    ensures s[i..j] == x && s[j..n] == y
  {
    assert s[i..j] == s[i..n][..|x|];
    assert s[j..n] == s[i..n][|x|..];
  }

  lemma FieldFrom(s: seq<Byte>, i: nat, k: FieldKind, v: int)
    requires Fits(k, v) && i + Width(k) <= |s| && s[i..i + Width(k)] == EncodeField(k, v)
    ensures FieldAt(s, i, k) == v
  {
    assert s == s[..i] + EncodeField(k, v) + s[i + Width(k)..];
    FieldDecodes(s[..i], k, v, s[i + Width(k)..]);
  }

  lemma {:induction false} AllFitEach(ks: seq<FieldKind>, vs: seq<int>)
    ensures AllFit(ks, vs) <==> FitsEach(ks, vs)
    decreases |ks|
  {
    if ks != [] && |vs| == |ks| {
      AllFitEach(ks[1..], vs[1..]);
      if FitsEach(ks, vs) {
        assert FitsEach(ks[1..], vs[1..]) by {
          forall k | 0 <= k < |ks| - 1 ensures Fits(ks[1..][k], vs[1..][k]) {
            assert ks[1..][k] == ks[k + 1];
          }
        }
      }
      if AllFit(ks, vs) {
        forall k | 0 <= k < |ks| ensures Fits(ks[k], vs[k]) {
          if k > 0 {
            assert ks[1..][k - 1] == ks[k];
          }
        }
      }
    }
  }

  /** A run of entries inside a layout fits its run of values. */
  lemma FitsEachSlice(ks: seq<FieldKind>, vs: seq<int>, a: nat, b: nat)
    requires FitsEach(ks, vs) && a <= b <= |ks|
    ensures FitsEach(ks[a..b], vs[a..b])
  {
    forall k | 0 <= k < b - a ensures Fits(ks[a..b][k], vs[a..b][k]) {
      assert ks[a..b][k] == ks[a + k];
    }
  }

  /** Values that fit two layouts fit the two side by side. */
  lemma FitsEachAppend(ks1: seq<FieldKind>, vs1: seq<int>, ks2: seq<FieldKind>, vs2: seq<int>)
    requires FitsEach(ks1, vs1) && FitsEach(ks2, vs2)
    ensures FitsEach(ks1 + ks2, vs1 + vs2)
  {
    forall k | 0 <= k < |ks1| + |ks2| ensures Fits((ks1 + ks2)[k], (vs1 + vs2)[k]) {
      if k >= |ks1| {
        assert (ks1 + ks2)[k] == ks2[k - |ks1|];
      }
    }
  }

  /** Layouts side by side take their widths added up. */
  lemma {:induction false} LayoutWidthAppend(xs: seq<FieldKind>, ys: seq<FieldKind>)
    ensures LayoutWidth(xs + ys) == LayoutWidth(xs) + LayoutWidth(ys)
    decreases |xs|
  {
    if xs == [] {
      assert xs + ys == ys;
    } else {
      LayoutWidthAppend(xs[1..], ys);
      assert (xs + ys)[0] == xs[0] && (xs + ys)[1..] == xs[1..] + ys;
    }
  }

  /** The first field of a written layout reads back, and with it the whole
      layout once the rest does. */
  lemma ReadWrittenStep(s: seq<Byte>, i: nat, j: nat, ks: seq<FieldKind>, vs: seq<int>)
    requires ks != [] && AllFit(ks, vs) && i + LayoutWidth(ks) <= |s| && j == i + Width(ks[0])
    requires s[i..j] == EncodeField(ks[0], vs[0])
    requires ReadFields(s, j, ks[1..]) == vs[1..]
    ensures ReadFields(s, i, ks) == vs
  {
    FieldFrom(s, i, ks[0], vs[0]);
    ReadFieldsCons(s, i, ks);
    HeadTail(vs);
  }

  /** A layout reads back as the values written, wherever the bytes sit. */
  lemma {:induction false} ReadWrittenAt(s: seq<Byte>, i: nat, ks: seq<FieldKind>, vs: seq<int>)
    requires AllFit(ks, vs) && i + LayoutWidth(ks) <= |s|
    requires s[i..i + LayoutWidth(ks)] == WriteFields(ks, vs)
    ensures ReadFields(s, i, ks) == vs
    decreases |ks|
  {
    if ks != [] {
      var j, n := i + Width(ks[0]), i + LayoutWidth(ks);
      var e := EncodeField(ks[0], vs[0]);
      var tail := WriteFields(ks[1..], vs[1..]);
      assert WriteFields(ks, vs) == e + tail;
      assert n == j + LayoutWidth(ks[1..]);
      SliceParts(s, i, j, n, e, tail);
      ReadWrittenAt(s, j, ks[1..], vs[1..]);
      ReadWrittenStep(s, i, j, ks, vs);
    }
  }

  /** One field written back as read: its bytes, or zeros for padding. */
  lemma FieldBlanked(s: seq<Byte>, i: nat, j: nat, k: FieldKind)
    requires j == i + Width(k) && j <= |s|
    ensures EncodeField(k, FieldAt(s, i, k)) == if k.Padding? then Zeros(Width(k)) else s[i..j]
  {
    if !k.Padding? {
      FieldReencodes(s, i, k);
    }
  }

  lemma WriteReadStep(s: seq<Byte>, i: nat, j: nat, ks: seq<FieldKind>)
    requires ks != [] && i + LayoutWidth(ks) <= |s| && j == i + Width(ks[0])
    requires WriteFields(ks[1..], ReadFields(s, j, ks[1..])) == Blanked(s, j, ks[1..])
    ensures WriteFields(ks, ReadFields(s, i, ks)) == Blanked(s, i, ks)
  {
    var vs := ReadFields(s, i, ks);
    var head := if ks[0].Padding? then Zeros(Width(ks[0])) else s[i..j];
    ReadFieldsCons(s, i, ks);
    assert vs[0] == FieldAt(s, i, ks[0]) && vs[1..] == ReadFields(s, j, ks[1..]);
    FieldBlanked(s, i, j, ks[0]);
    assert WriteFields(ks, vs) == EncodeField(ks[0], vs[0]) + WriteFields(ks[1..], vs[1..]);
    assert Blanked(s, i, ks) == head + Blanked(s, j, ks[1..]);
  }

  /** Writing the values read from a layout gives back the bytes read, with
      the padding zeroed. */
  lemma {:induction false} WriteRead(s: seq<Byte>, i: nat, ks: seq<FieldKind>)
    requires i + LayoutWidth(ks) <= |s|
    ensures WriteFields(ks, ReadFields(s, i, ks)) == Blanked(s, i, ks)
    decreases |ks|
  {
    if ks != [] {
      var j := i + Width(ks[0]);
      WriteRead(s, j, ks[1..]);
      WriteReadStep(s, i, j, ks);
    }
  }


  lemma FieldOffsetStep(ks: seq<FieldKind>, k: nat)
    requires 0 < k <= |ks|
    ensures FieldOffset(ks, k) == Width(ks[0]) + FieldOffset(ks[1..], k - 1)
  {
    assert ks[..k][0] == ks[0] && ks[..k][1..] == ks[1..][..k - 1];
  }

  /** Each entry starts where the one before it ends. */
  lemma FieldOffsetNext(ks: seq<FieldKind>, k: nat)
    requires k < |ks|
    ensures FieldOffset(ks, k + 1) == FieldOffset(ks, k) + Width(ks[k])
  {
    assert ks[..k + 1] == ks[..k] + [ks[k]];
    LayoutWidthAppend(ks[..k], [ks[k]]);
  }

  /** The `k`-th value read is the field at the `k`-th entry's offset. */
  lemma {:induction false} ReadFieldsAt(s: seq<Byte>, i: nat, ks: seq<FieldKind>, k: nat)
    requires i + LayoutWidth(ks) <= |s| && k < |ks|
    ensures i + FieldOffset(ks, k) + Width(ks[k]) <= |s|
    ensures ReadFields(s, i, ks)[k] == FieldAt(s, i + FieldOffset(ks, k), ks[k])
    decreases k
  {
    ReadFieldsCons(s, i, ks);
    if k == 0 {
      assert ks[..0] == [];
    } else {
      ReadFieldsAt(s, i + Width(ks[0]), ks[1..], k - 1);
      FieldOffsetStep(ks, k);
    }
  }

  /** `ReadFieldsAt` with the offset and the kind of the entry named by the caller. */
  lemma ReadFieldAs(s: seq<Byte>, i: nat, ks: seq<FieldKind>, k: nat, at: nat, kind: FieldKind)
    requires i + LayoutWidth(ks) <= |s| && k < |ks|
    requires at == i + FieldOffset(ks, k) && kind == ks[k]
    ensures at + Width(kind) <= |s| && k < |ReadFields(s, i, ks)|
    ensures ReadFields(s, i, ks)[k] == FieldAt(s, at, kind)
  {
    ReadFieldsAt(s, i, ks, k);
  }

  lemma ConsTake(v: int, rest: seq<int>, n: nat)
    requires 1 <= n <= |rest| + 1
    ensures ([v] + rest)[..n] == [v] + rest[..n - 1]
  {
  }

  /** The first `n` values read are the values of the first `n` entries. */
  lemma {:induction false} ReadFieldsTake(s: seq<Byte>, i: nat, ks: seq<FieldKind>, n: nat)
    requires i + LayoutWidth(ks) <= |s| && n <= |ks|
    ensures i + LayoutWidth(ks[..n]) <= |s|
    ensures ReadFields(s, i, ks)[..n] == ReadFields(s, i, ks[..n])
    decreases n
  {
    if n == 0 {
      assert ks[..0] == [];
    } else {
      var j := i + Width(ks[0]);
      ReadFieldsTake(s, j, ks[1..], n - 1);
      assert ks[..n][0] == ks[0] && ks[..n][1..] == ks[1..][..n - 1];
      ReadFieldsCons(s, i, ks);
      ReadFieldsCons(s, i, ks[..n]);
      ConsTake(FieldAt(s, i, ks[0]), ReadFields(s, j, ks[1..]), n);
    }
  }

  /** A layout without padding is re-encoded byte for byte. */
  lemma {:induction false} BlankedUnpadded(s: seq<Byte>, i: nat, ks: seq<FieldKind>)
    requires i + LayoutWidth(ks) <= |s|
    requires forall j :: 0 <= j < |ks| ==> !ks[j].Padding?
    ensures Blanked(s, i, ks) == s[i..i + LayoutWidth(ks)]
    decreases |ks|
  {
    if ks != [] {
      var w := Width(ks[0]);
      assert !ks[0].Padding?;
      BlankedUnpadded(s, i + w, ks[1..]);
      assert s[i..i + LayoutWidth(ks)] == s[i..i + w] + s[i + w..i + LayoutWidth(ks)];
    }
  }

}
