/** Byte-level vocabulary of the DBI decoder: little-endian integer fields,
    NUL-terminated strings, and the errors a decode can end in. */
module Wire {

  type Byte = x: int | 0 <= x < 0x100
  type U16 = x: int | 0 <= x < 0x1_0000
  type U32 = x: int | 0 <= x < 0x1_0000_0000
  type I16 = x: int | -0x8000 <= x < 0x8000
  type I32 = x: int | -0x8000_0000 <= x < 0x8000_0000

  /** The ways a decode fails: a fixed-width read that came up short, the
      header sentinel mismatching, a machine code outside the enumeration,
      and a NUL-terminated string running off the end of its buffer. */
  datatype Error = Truncated | BadMagic | UnknownMachine | MissingTerminator

  datatype Result<+T> = Ok(value: T) | Err(error: Error) {
    predicate IsFailure() { Err? }

    function PropagateFailure<U>(): Result<U>
      requires Err?
    {
      Err(error)
    }

    function Extract(): T
      requires Ok?
    {
      value
    }
  }

  function Min(a: int, b: int): int { if a <= b then a else b }
  function Max(a: int, b: int): int { if a <= b then b else a }

  // ---------------------------------------------------------------------
  // Sequences, cut and joined

  lemma SliceCut<T>(s: seq<T>, a: nat, b: nat, c: nat)
    requires a <= b <= c <= |s|
    ensures s[a..c] == s[a..b] + s[b..c]
  {
  }

  lemma AppendAssoc<T>(x: seq<T>, y: seq<T>, z: seq<T>)
    ensures x + y + z == x + (y + z)
  {
  }

  lemma HeadRest<T>(s: seq<T>)
    requires s != []
    ensures s == [s[0]] + s[1..]
  {
  }

  lemma DropDrop<T>(s: seq<T>, i: nat, j: nat, n: nat)
    requires n == i + j && n <= |s|
    ensures s[i..][j..] == s[n..]
  {
  }

  lemma DropAppend<T>(x: seq<T>, y: seq<T>, k: nat)
    requires k == |x|
    ensures (x + y)[k..] == y
  {
  }

  /** Four parts laid out one after the other, then anything: each part is
      the slice at the offsets where it was put. */
  lemma PartsAt<T>(a: seq<T>, b: seq<T>, c: seq<T>, d: seq<T>, e: seq<T>, i: nat, j: nat, k: nat)
    requires i == |a| && j == i + |b| && k == j + |c|
    ensures var s := a + b + c + d + e;
      k + |d| <= |s| && s[..i] == a && s[i..j] == b && s[j..k] == c && s[k..k + |d|] == d
  {
  }

  lemma LeadOf<T>(x: seq<T>, y: seq<T>, z: seq<T>, w: seq<T>)
    ensures (x + y + z + w)[..|x|] == x
  {
    assert x + y + z + w == x + (y + z + w);
  }

  // ---------------------------------------------------------------------
  // Little-endian fields

  function U16At(s: seq<Byte>, i: nat): U16
    requires i + 2 <= |s|
  {
    s[i] as int + 0x100 * s[i + 1] as int
  }

  function U32At(s: seq<Byte>, i: nat): U32
    requires i + 4 <= |s|
  {
    U16At(s, i) as int + 0x1_0000 * U16At(s, i + 2) as int
  }

  /** Two's-complement reading of a 16-bit pattern. */
  function ToI16(u: U16): I16 { if u < 0x8000 then u else u - 0x1_0000 }

  function ToI32(u: U32): I32 { if u < 0x8000_0000 then u else u - 0x1_0000_0000 }

  function FromI16(v: I16): U16 { if v < 0 then v + 0x1_0000 else v }

  function FromI32(v: I32): U32 { if v < 0 then v + 0x1_0000_0000 else v }

  function I16At(s: seq<Byte>, i: nat): I16
    requires i + 2 <= |s|
  {
    ToI16(U16At(s, i))
  }

  function I32At(s: seq<Byte>, i: nat): I32
    requires i + 4 <= |s|
  {
    ToI32(U32At(s, i))
  }

  function EncodeU16(v: U16): (r: seq<Byte>)
    ensures |r| == 2
  {
    [v % 0x100, v / 0x100]
  }

  function EncodeU32(v: U32): (r: seq<Byte>)
    ensures |r| == 4
  {
    EncodeU16(v % 0x1_0000) + EncodeU16(v / 0x1_0000)
  }

  function EncodeI16(v: I16): (r: seq<Byte>)
    ensures |r| == 2
  {
    EncodeU16(FromI16(v))
  }

  function EncodeI32(v: I32): (r: seq<Byte>)
    ensures |r| == 4
  {
    EncodeU32(FromI32(v))
  }

  /** Reading a 16-bit field back from its encoding, wherever it sits. */
  lemma U16Decodes(a: seq<Byte>, v: U16, b: seq<Byte>)
    ensures U16At(a + EncodeU16(v) + b, |a|) == v
  {
    var s := a + EncodeU16(v) + b;
    assert s[|a|] == v % 0x100 && s[|a| + 1] == v / 0x100;
  }

  lemma U32Decodes(a: seq<Byte>, v: U32, b: seq<Byte>)
    ensures U32At(a + EncodeU32(v) + b, |a|) == v
  {
    var lo, hi := v % 0x1_0000, v / 0x1_0000;
    assert a + EncodeU32(v) + b == a + EncodeU16(lo) + (EncodeU16(hi) + b);
    assert a + EncodeU32(v) + b == (a + EncodeU16(lo)) + EncodeU16(hi) + b;
    U16Decodes(a, lo, EncodeU16(hi) + b);
    U16Decodes(a + EncodeU16(lo), hi, b);
  }

  lemma I16Decodes(a: seq<Byte>, v: I16, b: seq<Byte>)
    ensures I16At(a + EncodeI16(v) + b, |a|) == v
  {
    U16Decodes(a, FromI16(v), b);
  }

  lemma I32Decodes(a: seq<Byte>, v: I32, b: seq<Byte>)
    ensures I32At(a + EncodeI32(v) + b, |a|) == v
  {
    U32Decodes(a, FromI32(v), b);
  }

  /** A field reads as `v` wherever the bytes under it are the encoding of `v`. */
  lemma U16From(s: seq<Byte>, i: nat, v: U16)
    requires i + 2 <= |s| && s[i..i + 2] == EncodeU16(v)
    ensures U16At(s, i) == v
  {
    assert s == s[..i] + EncodeU16(v) + s[i + 2..];
    U16Decodes(s[..i], v, s[i + 2..]);
  }

  lemma U32From(s: seq<Byte>, i: nat, v: U32)
    requires i + 4 <= |s| && s[i..i + 4] == EncodeU32(v)
    ensures U32At(s, i) == v
  {
    assert s == s[..i] + EncodeU32(v) + s[i + 4..];
    U32Decodes(s[..i], v, s[i + 4..]);
  }

  /** Re-encoding a decoded field gives back the bytes it was read from. */
  lemma U16Reencodes(s: seq<Byte>, i: nat)
    requires i + 2 <= |s|
    ensures EncodeU16(U16At(s, i)) == s[i..i + 2]
  {
  }

  lemma U32Reencodes(s: seq<Byte>, i: nat)
    requires i + 4 <= |s|
    ensures EncodeU32(U32At(s, i)) == s[i..i + 4]
  {
    var lo: int, hi: int := U16At(s, i), U16At(s, i + 2);
    assert (lo + 0x1_0000 * hi) % 0x1_0000 == lo;
    assert (lo + 0x1_0000 * hi) / 0x1_0000 == hi;
    U16Reencodes(s, i);
    U16Reencodes(s, i + 2);
    assert s[i..i + 4] == s[i..i + 2] + s[i + 2..i + 4];
  }

  lemma I16Reencodes(s: seq<Byte>, i: nat)
    requires i + 2 <= |s|
    ensures EncodeI16(I16At(s, i)) == s[i..i + 2]
  {
    U16Reencodes(s, i);
  }

  lemma I32Reencodes(s: seq<Byte>, i: nat)
    requires i + 4 <= |s|
    ensures EncodeI32(I32At(s, i)) == s[i..i + 4]
  {
    U32Reencodes(s, i);
  }

  // ---------------------------------------------------------------------
  // NUL-terminated strings

  /** True when no byte of `s` is the terminator. */
  predicate NoNul(s: seq<Byte>) { forall k :: 0 <= k < |s| ==> s[k] != 0 }

  /** The string starting at `off`: the bytes up to, not including, the
      first 0 at or after `off`; it fails when there is no such 0. */
  function CStringAt(s: seq<Byte>, off: nat): (r: Result<seq<Byte>>)
    decreases |s| - off
    ensures r.Ok? ==> off + |r.value| < |s|
    ensures r.Err? ==> r.error == MissingTerminator
  {
    if off >= |s| then Err(MissingTerminator)
    else if s[off] == 0 then Ok([])
    else
      match CStringAt(s, off + 1)
      case Err(e) => Err(e)
      case Ok(rest) => Ok([s[off]] + rest)
  }

  /** A string found holds no terminator. */
  lemma {:induction false} CStringNoNul(s: seq<Byte>, off: nat)
    requires CStringAt(s, off).Ok?
    ensures NoNul(CStringAt(s, off).value)
    decreases |s| - off
  {
    if s[off] != 0 {
      CStringNoNul(s, off + 1);
    }
  }

  /** A string found is the bytes from `off` up to its terminator. */
  lemma {:induction false} CStringSlice(s: seq<Byte>, off: nat)
    requires CStringAt(s, off).Ok?
    ensures var v := CStringAt(s, off).value;
      off + |v| < |s| && v == s[off..off + |v|] && s[off + |v|] == 0
    decreases |s| - off
  {
    if s[off] != 0 {
      CStringSlice(s, off + 1);
    }
  }

  /** A string found spans its bytes and its terminator. */
  lemma CStringSpan(s: seq<Byte>, off: nat, v: seq<Byte>, end: nat)
    requires CStringAt(s, off) == Ok(v) && end == off + |v| + 1
    ensures end <= |s| && s[off..end] == v + [0]
  {
    CStringSlice(s, off);
    assert s[off..off + |v| + 1] == s[off..off + |v|] + [s[off + |v|]];
  }

  /** A string is missing its terminator exactly when no byte from `off` on is 0. */
  lemma {:induction false} CStringMissing(s: seq<Byte>, off: nat)
    ensures CStringAt(s, off).Err? <==> forall k :: off <= k < |s| ==> s[k] != 0
    decreases |s| - off
  {
    if off < |s| && s[off] != 0 {
      CStringMissing(s, off + 1);
    }
  }

  /** A string is read back from bytes that spell it out, followed by a terminator. */
  lemma {:induction false} CStringIndexed(s: seq<Byte>, i: nat, name: seq<Byte>)
    requires NoNul(name) && i + |name| < |s|
    requires forall j :: 0 <= j < |name| ==> s[i + j] == name[j]
    requires s[i + |name|] == 0
    ensures CStringAt(s, i) == Ok(name)
    decreases |name|
  {
    if name != [] {
      assert s[i] == name[0];
      CStringIndexed(s, i + 1, name[1..]);
      assert name == [name[0]] + name[1..];
    }
  }

  /** A string is found the same way inside a suffix of the buffer. */
  lemma {:induction false} CStringShift(s: seq<Byte>, a: nat, off: nat)
    requires a <= |s|
    ensures CStringAt(s[a..], off) == CStringAt(s, a + off)
    decreases |s| - a - off
  {
    if a + off < |s| && s[a + off] != 0 {
      CStringShift(s, a, off + 1);
    }
  }

  /** A string followed by a terminator reads back as itself, whatever follows. */
  lemma {:induction false} CStringDecodes(a: seq<Byte>, name: seq<Byte>, b: seq<Byte>)
    requires NoNul(name)
    ensures CStringAt(a + name + [0] + b, |a|) == Ok(name)
    decreases |name|
  {
    var s := a + name + [0] + b;
    if name == [] {
      assert s[|a|] == 0;
    } else {
      assert s == (a + [name[0]]) + name[1..] + [0] + b;
      CStringDecodes(a + [name[0]], name[1..], b);
      assert s[|a|] == name[0];
      assert name == [name[0]] + name[1..];
    }
  }

  /** Where the bytes of two terminated strings laid out one after the other sit. */
  lemma CStringPairLaidOut(a: seq<Byte>, x: seq<Byte>, y: seq<Byte>, b: seq<Byte>)
    ensures var s := a + (x + [0]) + (y + [0]) + b;
      |a| + |x| + 1 + |y| < |s| && s[|a| + |x|] == 0 && s[|a| + |x| + 1 + |y|] == 0 &&
      (forall j :: 0 <= j < |x| ==> s[|a| + j] == x[j]) &&
      (forall j :: 0 <= j < |y| ==> s[|a| + |x| + 1 + j] == y[j])
  {
  }

  /** Two strings spelled out one after the other from `i` on, each with its
      terminator, are read back in turn. */
  lemma CStringPairAt(s: seq<Byte>, i: nat, x: seq<Byte>, y: seq<Byte>)
    requires NoNul(x) && NoNul(y)
    requires i + |x| + 1 + |y| < |s|
    requires s[i + |x|] == 0 && s[i + |x| + 1 + |y|] == 0
    requires forall j :: 0 <= j < |x| ==> s[i + j] == x[j]
    requires forall j :: 0 <= j < |y| ==> s[i + |x| + 1 + j] == y[j]
    ensures CStringAt(s, i) == Ok(x) && CStringAt(s, i + |x| + 1) == Ok(y)
  {
    CStringIndexed(s, i, x);
    CStringIndexed(s, i + |x| + 1, y);
  }

  /** Two strings, each with its terminator, laid out after a prefix: the
      prefix is read back, then the two strings. */
  lemma NamesAfter(a: seq<Byte>, x: seq<Byte>, y: seq<Byte>, b: seq<Byte>)
    requires NoNul(x) && NoNul(y)
    ensures var s := a + (x + [0]) + (y + [0]) + b;
      |a| + |x| + 1 + |y| < |s| && s[..|a|] == a &&
      CStringAt(s, |a|) == Ok(x) && CStringAt(s, |a| + |x| + 1) == Ok(y)
  {
    var s := a + (x + [0]) + (y + [0]) + b;
    LeadOf(a, x + [0], y + [0], b);
    CStringPairLaidOut(a, x, y, b);
    CStringPairAt(s, |a|, x, y);
  }
}
