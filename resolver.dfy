/** The file-info resolver: for every module, the names of its source
    files, looked up through two parallel 16-bit arrays (`modStart`,
    `cRefCnt`), a 32-bit offset array (`nameRef`) and a blob of
    NUL-terminated names. Indices that fall past the end of `nameRef` are
    skipped and counted; once the count exceeds ten, the rest of that
    module's indices are abandoned. */
module FileInfo {
  import opened Wire

  /** The count of skipped indices beyond which a module's inner loop stops. */
  const MaxSkips := 10

  /** What the resolver reads: the arrays of the file-info region and the
      name blob that follows them. */
  datatype FileTable = FileTable(modStart: seq<U16>, cRefCnt: seq<U16>, nameRef: seq<U32>, names: seq<Byte>)

  /** One start and one count per module. */
  predicate WellShaped(t: FileTable)
  {
    |t.modStart| == |t.cRefCnt|
  }

  /** The name read from the blob sliced at `off`: the bytes up to the first
      NUL. A slice past the blob's end is empty, so the read fails. */
  function NameFrom(names: seq<Byte>, off: nat): (r: Result<seq<Byte>>)
    ensures r.Err? ==> r.error == MissingTerminator
  {
    if off <= |names| then CStringAt(names[off..], 0) else CStringAt([], 0)
  }

  /** Slicing the blob first and reading from its start is reading the blob at `off`. */
  lemma NameFromAt(names: seq<Byte>, off: nat)
    ensures NameFrom(names, off) == CStringAt(names, off)
  {
    if off <= |names| {
      CStringShift(names, off, 0);
    }
  }

  /** Module `i`'s indices are `[ModuleStart(t, i), ModuleEnd(t, i))`. */
  function ModuleStart(t: FileTable, i: nat): nat
    requires WellShaped(t) && i < |t.modStart|
  {
    t.modStart[i]
  }

  function ModuleEnd(t: FileTable, i: nat): nat
    requires WellShaped(t) && i < |t.modStart|
  {
    t.modStart[i] as int + t.cRefCnt[i] as int
  }

  /** Where module `i`'s indices leave `nameRef`: the indices below this
      bound (and not below the start) are looked up, the rest are skipped. */
  function InRangeEnd(t: FileTable, i: nat): nat
    requires WellShaped(t) && i < |t.modStart|
  {
    Min(ModuleEnd(t, i), |t.nameRef|)
  }

  /** The names for indices `lo <= j < hi`, in increasing `j`; the first
      name that cannot be read fails the whole list. */
  function NamesBetween(t: FileTable, lo: nat, hi: nat): (r: Result<seq<seq<Byte>>>)
    requires hi <= |t.nameRef|
    ensures r.Err? ==> r.error == MissingTerminator
    decreases hi
  {
    if hi <= lo then Ok([])
    else
      var init :- NamesBetween(t, lo, hi - 1);
      var name :- NameFrom(t.names, t.nameRef[hi - 1]);
      Ok(init + [name])
  }

  /** The names module `i` lists: one per in-range index. */
  function ModuleNames(t: FileTable, i: nat): Result<seq<seq<Byte>>>
    requires WellShaped(t) && i < |t.modStart|
  {
    NamesBetween(t, ModuleStart(t, i), InRangeEnd(t, i))
  }

  /** The name lists of the first `n` modules. */
  function ResolvePrefix(t: FileTable, n: nat): (r: Result<seq<seq<seq<Byte>>>>)
    requires WellShaped(t) && n <= |t.modStart|
    ensures r.Err? ==> r.error == MissingTerminator
  {
    if n == 0 then Ok([])
    else
      var ms :- ResolvePrefix(t, n - 1);
      var these :- ModuleNames(t, n - 1);
      Ok(ms + [these])
  }

  /** The lists joined end to end, in order. */
  function Flatten<T>(ms: seq<seq<T>>): seq<T>
  {
    if ms == [] then [] else Flatten(ms[..|ms| - 1]) + ms[|ms| - 1]
  }

  /** The resolver's output: one name list per module, and all the names
      in one list. */
  datatype Resolution = Resolution(modules: seq<seq<seq<Byte>>>, files: seq<seq<Byte>>)

  /** The resolution of a file table, defined without the skip counter:
      every in-range index of every module is looked up. */
  function Resolve(t: FileTable): Result<Resolution>
    requires WellShaped(t)
  {
    var ms :- ResolvePrefix(t, |t.modStart|);
    Ok(Resolution(ms, Flatten(ms)))
  }

  // ---------------------------------------------------------------------
  // The skip counter

  /** How many of module `i`'s indices fall at or past the end of `nameRef`. */
  function OutOfRange(t: FileTable, i: nat): nat
    requires WellShaped(t) && i < |t.modStart|
  {
    var b := Max(ModuleStart(t, i), |t.nameRef|);
    if ModuleEnd(t, i) <= b then 0 else ModuleEnd(t, i) - b
  }

  /** The counter after a module with `oor` out-of-range indices, from `s`:
      below the cap the module counts its indices until the counter passes
      ten; once past ten, a module with any such index adds exactly one. */
  function SkipStep(s: nat, oor: nat): nat
  {
    if oor == 0 then s
    else if s > MaxSkips then s + 1
    else Min(s + oor, MaxSkips + 1)
  }

  /** The counter after the first `n` modules. */
  function SkipsUpTo(t: FileTable, n: nat): nat
    requires WellShaped(t) && n <= |t.modStart|
  {
    if n == 0 then 0 else SkipStep(SkipsUpTo(t, n - 1), OutOfRange(t, n - 1))
  }

  /** All out-of-range indices of the first `n` modules. */
  function TotalOutOfRange(t: FileTable, n: nat): nat
    requires WellShaped(t) && n <= |t.modStart|
  {
    if n == 0 then 0 else TotalOutOfRange(t, n - 1) + OutOfRange(t, n - 1)
  }

  // ---------------------------------------------------------------------
  // The loop

  /** The inner loop, for module `i`: it visits the module's indices in
      order, appends the name of each in-range one to `files`, skips and
      counts the out-of-range ones and gives up on the module once the
      counter passes ten. As out-of-range indices only follow in-range ones,
      giving up never loses a name. */
  method ResolveModule(t: FileTable, i: nat, files: seq<seq<Byte>>, skipped: nat)
    returns (r: Result<seq<seq<Byte>>>, files': seq<seq<Byte>>, skipped': nat)
    requires WellShaped(t) && i < |t.modStart|
    ensures r == ModuleNames(t, i)
    ensures r.Ok? ==> files' == files + r.value
    ensures r.Ok? ==> skipped' == SkipStep(skipped, OutOfRange(t, i))
  {
    var these: seq<seq<Byte>> := [];
    files', skipped' := files, skipped;
    var lenNameRef := |t.nameRef|;
    var lo, hi := t.modStart[i] as nat, t.modStart[i] as nat + t.cRefCnt[i] as nat;
    ghost var b := Max(lo, lenNameRef);
    var j := lo;
    while j < hi
      invariant lo <= j <= hi
      invariant NamesBetween(t, lo, Min(j, lenNameRef)) == Ok(these)
      invariant files' == files + these
      invariant skipped' == skipped + (if j <= b then 0 else j - b)
      invariant j > b ==> skipped' <= MaxSkips
    {
      if j >= lenNameRef {
        skipped' := skipped' + 1;
        if skipped' > MaxSkips {
          break;
        }
        j := j + 1;
        continue;
      }
      var name := NameFrom(t.names, t.nameRef[j]);
      if name.Err? {
        NamesErrGrows(t, lo, j + 1, InRangeEnd(t, i));
        return Err(name.error), files', skipped';
      }
      NamesStep(t, lo, j, these, name.value);
      AppendAssoc(files, these, [name.value]);
      files' := files' + [name.value];
      these := these + [name.value];
      j := j + 1;
    }
    return Ok(these), files', skipped';
  }

  /** The outer loop: one name list per module, in module order, and every
      name also in one flat list. The result is the resolution defined
      without the counter, and the counter ends at its closed form. */
  method ResolveFileNames(t: FileTable) returns (r: Result<Resolution>, skipped: nat)
    requires WellShaped(t)
    ensures r == Resolve(t)
    ensures r.Ok? ==> skipped == SkipsUpTo(t, |t.modStart|)
  {
    var modules: seq<seq<seq<Byte>>> := [];
    var files: seq<seq<Byte>> := [];
    skipped := 0;
    var i := 0;
    while i < |t.modStart|
      invariant 0 <= i <= |t.modStart|
      invariant ResolvePrefix(t, i) == Ok(modules)
      invariant files == Flatten(modules)
      invariant skipped == SkipsUpTo(t, i)
    {
      var these;
      these, files, skipped := ResolveModule(t, i, files, skipped);
      if these.Err? {
        PrefixErrGrows(t, i + 1, |t.modStart|);
        return Err(these.error), skipped;
      }
      FlattenSnoc(modules, these.value);
      modules := modules + [these.value];
      i := i + 1;
    }
    return Ok(Resolution(modules, files)), skipped;
  }

  // ---------------------------------------------------------------------
  // Lemmas

  lemma FlattenSnoc<T>(ms: seq<seq<T>>, m: seq<T>)
    ensures Flatten(ms + [m]) == Flatten(ms) + m
  {
    assert (ms + [m])[..|ms|] == ms;
  }

  lemma NamesStep(t: FileTable, lo: nat, j: nat, these: seq<seq<Byte>>, name: seq<Byte>)
    requires lo <= j < |t.nameRef| && NamesBetween(t, lo, j) == Ok(these)
    requires NameFrom(t.names, t.nameRef[j]) == Ok(name)
    ensures NamesBetween(t, lo, j + 1) == Ok(these + [name])
  {
  }

  /** A name that cannot be read fails every longer list that contains it. */
  lemma {:induction false} NamesErrGrows(t: FileTable, lo: nat, k: nat, hi: nat)
    requires k <= hi <= |t.nameRef| && NamesBetween(t, lo, k).Err?
    ensures NamesBetween(t, lo, hi).Err?
    decreases hi
  {
    if hi > k {
      NamesErrGrows(t, lo, k, hi - 1);
    }
  }

  /** A module whose names cannot be read fails every longer prefix. */
  lemma {:induction false} PrefixErrGrows(t: FileTable, k: nat, n: nat)
    requires WellShaped(t) && k <= n <= |t.modStart| && ResolvePrefix(t, k).Err?
    ensures ResolvePrefix(t, n).Err?
    decreases n
  {
    if n > k {
      PrefixErrGrows(t, k, n - 1);
    }
  }

  /** A successful list has one name per index, and the `m`-th is the
      string read at the `(lo + m)`-th offset. */
  lemma {:induction false} NamesBetweenAt(t: FileTable, lo: nat, hi: nat, m: nat)
    requires hi <= |t.nameRef| && NamesBetween(t, lo, hi).Ok?
    ensures |NamesBetween(t, lo, hi).value| == if hi <= lo then 0 else hi - lo
    ensures m < |NamesBetween(t, lo, hi).value| ==>
      CStringAt(t.names, t.nameRef[lo + m]) == Ok(NamesBetween(t, lo, hi).value[m])
    decreases hi
  {
    if hi > lo {
      NamesBetweenAt(t, lo, hi - 1, m);
      if m == hi - 1 - lo {
        NameFromAt(t.names, t.nameRef[hi - 1]);
      }
    }
  }

  /** The list succeeds exactly when every string it refers to is terminated. */
  lemma {:induction false} NamesOkIff(t: FileTable, lo: nat, hi: nat)
    requires hi <= |t.nameRef|
    ensures NamesBetween(t, lo, hi).Ok? <==>
      forall j :: lo <= j < hi ==> CStringAt(t.names, t.nameRef[j]).Ok?
    decreases hi
  {
    if hi > lo {
      NamesOkIff(t, lo, hi - 1);
      NameFromAt(t.names, t.nameRef[hi - 1]);
    }
  }

  /** A successful prefix has one list per module, each the module's names. */
  lemma {:induction false} PrefixAt(t: FileTable, n: nat, i: nat)
    requires WellShaped(t) && n <= |t.modStart| && ResolvePrefix(t, n).Ok?
    ensures |ResolvePrefix(t, n).value| == n
    ensures i < n ==> ModuleNames(t, i).Ok? && ResolvePrefix(t, n).value[i] == ModuleNames(t, i).value
    decreases n
  {
    if n > 0 {
      PrefixAt(t, n - 1, i);
    }
  }

  /** A successful resolution lists exactly one name list per module, in
      module order; module `i` gets one name per in-range index, never more
      than its declared count, and the `m`-th is the string at the offset
      `nameRef[modStart[i] + m]`. */
  lemma ResolvedModule(t: FileTable, i: nat, m: nat)
    requires WellShaped(t) && Resolve(t).Ok? && i < |t.modStart|
    ensures |Resolve(t).value.modules| == |t.modStart|
    ensures var names := Resolve(t).value.modules[i];
      |names| == (if InRangeEnd(t, i) <= ModuleStart(t, i) then 0 else InRangeEnd(t, i) - ModuleStart(t, i)) &&
      |names| <= t.cRefCnt[i] &&
      (m < |names| ==> CStringAt(t.names, t.nameRef[t.modStart[i] + m]) == Ok(names[m]))
  {
    PrefixAt(t, |t.modStart|, i);
    NamesBetweenAt(t, ModuleStart(t, i), InRangeEnd(t, i), m);
  }

  /** The resolution succeeds exactly when every in-range index of every
      module refers to a terminated string. */
  lemma {:induction false} PrefixOkIff(t: FileTable, n: nat)
    requires WellShaped(t) && n <= |t.modStart|
    ensures ResolvePrefix(t, n).Ok? <==> forall i :: 0 <= i < n ==> ModuleNames(t, i).Ok?
    decreases n
  {
    if n > 0 {
      PrefixOkIff(t, n - 1);
    }
  }

  /** The `m`-th entry of list `i` sits in the flattened list after all the
      entries of the lists before it. */
  lemma {:induction false} FlattenAt<T>(ms: seq<seq<T>>, i: nat, m: nat)
    requires i < |ms| && m < |ms[i]|
    ensures |Flatten(ms[..i])| + m < |Flatten(ms)|
    ensures Flatten(ms)[|Flatten(ms[..i])| + m] == ms[i][m]
    decreases |ms|
  {
    var last := |ms| - 1;
    var init := ms[..last];
    assert Flatten(ms) == Flatten(init) + ms[last];
    if i < last {
      assert init[i] == ms[i];
      assert init[..i] == ms[..i];
      FlattenAt(init, i, m);
    } else {
      assert ms[..i] == init;
    }
  }

  /** The counter never exceeds the number of out-of-range indices. */
  lemma {:induction false} SkipsAtMostTotal(t: FileTable, n: nat)
    requires WellShaped(t) && n <= |t.modStart|
    ensures SkipsUpTo(t, n) <= TotalOutOfRange(t, n)
    decreases n
  {
    if n > 0 {
      SkipsAtMostTotal(t, n - 1);
    }
  }

  /** With at most eleven out-of-range indices in all, every one is counted. */
  lemma {:induction false} SkipsExact(t: FileTable, n: nat)
    requires WellShaped(t) && n <= |t.modStart| && TotalOutOfRange(t, n) <= MaxSkips + 1
    ensures SkipsUpTo(t, n) == TotalOutOfRange(t, n)
    decreases n
  {
    if n > 0 {
      SkipsExact(t, n - 1);
    }
  }

  /** The counter reaches eleven whenever there are that many out-of-range
      indices in all. */
  lemma {:induction false} SkipsAtLeast(t: FileTable, n: nat)
    requires WellShaped(t) && n <= |t.modStart|
    ensures SkipsUpTo(t, n) >= Min(TotalOutOfRange(t, n), MaxSkips + 1)
    decreases n
  {
    if n > 0 {
      SkipsAtLeast(t, n - 1);
    }
  }
}
