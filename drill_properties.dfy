/** What the drill manifest promises about its entries, proved of the
    functions that `CreateDrillManifest` is specified by. */
module DrillProperties {
  import opened Text
  import opened DrillManifest

  /** The `j`-th entry of ranks `1..n` was built at some rank `1..n` from
      the drill at that rank, which has text. */
  lemma {:induction false} RankedAt(unit: int, top: seq<Drill>, n: nat, j: nat)
    requires n <= |top| && j < |RankedEntries(unit, top, n)|
    ensures 1 <= RankedEntries(unit, top, n)[j].rank <= n
    ensures HasText(top[RankedEntries(unit, top, n)[j].rank - 1])
    ensures RankedEntries(unit, top, n)[j] == MakeEntry(unit, RankedEntries(unit, top, n)[j].rank, top[RankedEntries(unit, top, n)[j].rank - 1])
  {
    var prev := RankedEntries(unit, top, n - 1);
    if HasText(top[n - 1]) {
      var e := MakeEntry(unit, n, top[n - 1]);
      assert RankedEntries(unit, top, n) == prev + [e];
      if j < |prev| {
        RankedAt(unit, top, n - 1, j);
        assert RankedEntries(unit, top, n)[j] == prev[j];
      } else {
        assert RankedEntries(unit, top, n)[j] == e;
      }
    } else {
      RankedAt(unit, top, n - 1, j);
    }
  }

  lemma {:induction false} RankedLength(unit: int, top: seq<Drill>, n: nat)
    requires n <= |top|
    ensures |RankedEntries(unit, top, n)| <= n
  {
    if n > 0 {
      RankedLength(unit, top, n - 1);
    }
  }

  /** Ranks strictly increase along the entries. */
  lemma {:induction false} RankedIncreasing(unit: int, top: seq<Drill>, n: nat, j: nat, k: nat)
    requires n <= |top| && j < k < |RankedEntries(unit, top, n)|
    ensures RankedEntries(unit, top, n)[j].rank < RankedEntries(unit, top, n)[k].rank
  {
    var prev := RankedEntries(unit, top, n - 1);
    if HasText(top[n - 1]) {
      var e := MakeEntry(unit, n, top[n - 1]);
      assert RankedEntries(unit, top, n) == prev + [e];
      assert RankedEntries(unit, top, n)[j] == prev[j];
      if k < |prev| {
        assert RankedEntries(unit, top, n)[k] == prev[k];
        RankedIncreasing(unit, top, n - 1, j, k);
      } else {
        assert RankedEntries(unit, top, n)[k] == e;
        RankedAt(unit, top, n - 1, j);
      }
    } else {
      RankedIncreasing(unit, top, n - 1, j, k);
    }
  }

  /** Ranks are not renumbered: when the first of two ranked drills has
      only blank French text, the second keeps rank 2. */
  lemma RankGapExample()
    ensures RankedEntries(9, [Drill("a", Some(9), Some(2.0), Some(" "), Some("o")),
                              Drill("b", Some(9), Some(1.0), Some("d"), Some("t"))], 2)
            == [Entry("b", 9, 2, 1.0, "d", "t", 1, 1)]
  {
    var top := [Drill("a", Some(9), Some(2.0), Some(" "), Some("o")),
                Drill("b", Some(9), Some(1.0), Some("d"), Some("t"))];
    assert !IsSpace('d') && !IsSpace('t');
    assert TrimStart(" ") == "";
    assert Strip("d") == "d" && Strip("t") == "t";
    assert !HasText(top[0]) && HasText(top[1]);
  }

  /** A ranked drill that has text is never skipped. */
  lemma {:induction false} RankedComplete(unit: int, top: seq<Drill>, n: nat, r: nat)
    requires 1 <= r <= n <= |top| && HasText(top[r - 1])
    ensures MakeEntry(unit, r, top[r - 1]) in RankedEntries(unit, top, n)
  {
    if r < n {
      RankedComplete(unit, top, n - 1, r);
    }
  }

  /** The condition every manifest entry meets, in terms of the inputs: a
      unit in 9..24, a rank in 1..20, an id without audio, non-empty stripped
      texts with their lengths, and a drill of the catalogue it was built from. */
  predicate WellFormedEntry(e: Entry, drills: seq<Drill>, mapped: set<string>)
  {
    FirstUnit <= e.unit <= LastUnit && 1 <= e.rank <= DrillsPerUnit
    && e.id !in mapped
    && e.french != [] && e.english != []
    && e.charsFr == |e.french| && e.charsEn == |e.english|
    && exists d :: d in drills && d.id == e.id && d.unit == Some(e.unit)
                   && Commonality(d) == e.commonality
                   && FrenchText(d) == e.french && EnglishText(d) == e.english
  }

  /** `a` may come before `b` in the manifest: an earlier unit, or the same
      unit, a lower rank and no smaller commonality. */
  predicate InManifestOrder(a: Entry, b: Entry)
  {
    a.unit < b.unit || (a.unit == b.unit && a.rank < b.rank && a.commonality >= b.commonality)
  }

  lemma TopIsSortedCandidates(drills: seq<Drill>, mapped: set<string>, unit: int)
    ensures NonIncreasing(TopOfUnit(drills, mapped, unit))
    ensures forall d :: d in TopOfUnit(drills, mapped, unit) ==> d in drills && Selected(d, mapped, unit)
  {
    var cands := Candidates(drills, mapped, unit);
    var sorted := SortByCommonality(cands);
    var top := TopOfUnit(drills, mapped, unit);
    SortSorted(cands);
    SortPermutes(cands);
    CandidatesMembers(drills, mapped, unit);
    forall d | d in top ensures d in drills && Selected(d, mapped, unit) {
      assert d in multiset(sorted);
    }
  }

  /** The `j`-th entry of a unit's block is well formed and of that unit. */
  lemma UnitEntryAt(drills: seq<Drill>, mapped: set<string>, unit: int, j: nat)
    requires FirstUnit <= unit <= LastUnit && j < |UnitEntries(drills, mapped, unit)|
    ensures UnitEntries(drills, mapped, unit)[j].unit == unit
    ensures WellFormedEntry(UnitEntries(drills, mapped, unit)[j], drills, mapped)
  {
    var top := TopOfUnit(drills, mapped, unit);
    var e := UnitEntries(drills, mapped, unit)[j];
    RankedAt(unit, top, |top|, j);
    TopIsSortedCandidates(drills, mapped, unit);
    var d := top[e.rank - 1];
    assert d in top;
    assert e == MakeEntry(unit, e.rank, d);
  }

  /** Two entries of a unit's block are in manifest order. */
  lemma UnitOrderedAt(drills: seq<Drill>, mapped: set<string>, unit: int, j: nat, k: nat)
    requires j < k < |UnitEntries(drills, mapped, unit)|
    ensures InManifestOrder(UnitEntries(drills, mapped, unit)[j], UnitEntries(drills, mapped, unit)[k])
  {
    var top := TopOfUnit(drills, mapped, unit);
    var es := UnitEntries(drills, mapped, unit);
    TopIsSortedCandidates(drills, mapped, unit);
    RankedAt(unit, top, |top|, j);
    RankedAt(unit, top, |top|, k);
    RankedIncreasing(unit, top, |top|, j, k);
    assert es[j].commonality == Commonality(top[es[j].rank - 1]);
    assert es[k].commonality == Commonality(top[es[k].rank - 1]);
  }

  lemma {:induction false} WithCommonalityConcat(a: seq<Drill>, b: seq<Drill>, k: real)
    ensures WithCommonality(a + b, k) == WithCommonality(a, k) + WithCommonality(b, k)
  {
    if a == [] {
      assert a + b == b;
    } else {
      var h := if Commonality(a[0]) == k then [a[0]] else [];
      assert (a + b)[0] == a[0] && (a + b)[1..] == a[1..] + b;
      assert WithCommonality(a + b, k) == h + WithCommonality(a[1..] + b, k);
      WithCommonalityConcat(a[1..], b, k);
      assert h + (WithCommonality(a[1..], k) + WithCommonality(b, k))
          == (h + WithCommonality(a[1..], k)) + WithCommonality(b, k);
    }
  }

  /** Among the drills of one commonality, a unit's top-twenty list keeps the
      first of that unit's drills without audio with that value, in catalogue
      order. */
  lemma TiesKeepInputOrder(drills: seq<Drill>, mapped: set<string>, unit: int, k: real)
    ensures |WithCommonality(TopOfUnit(drills, mapped, unit), k)| <= |WithCommonality(Candidates(drills, mapped, unit), k)|
    ensures WithCommonality(TopOfUnit(drills, mapped, unit), k) ==
              WithCommonality(Candidates(drills, mapped, unit), k)[..|WithCommonality(TopOfUnit(drills, mapped, unit), k)|]
  {
    var cands := Candidates(drills, mapped, unit);
    var sorted := SortByCommonality(cands);
    var top := TopOfUnit(drills, mapped, unit);
    assert sorted == top + sorted[|top|..];
    WithCommonalityConcat(top, sorted[|top|..], k);
    SortStable(cands, k);
  }

  /** One unit's block: at most twenty entries, all well formed, of that
      unit, in increasing rank and non-increasing commonality. */
  lemma UnitShape(drills: seq<Drill>, mapped: set<string>, unit: int)
    requires FirstUnit <= unit <= LastUnit
    ensures |UnitEntries(drills, mapped, unit)| <= DrillsPerUnit
    ensures forall e :: e in UnitEntries(drills, mapped, unit) ==> e.unit == unit && WellFormedEntry(e, drills, mapped)
    ensures forall j, k :: 0 <= j < k < |UnitEntries(drills, mapped, unit)| ==>
              InManifestOrder(UnitEntries(drills, mapped, unit)[j], UnitEntries(drills, mapped, unit)[k])
  {
    var top := TopOfUnit(drills, mapped, unit);
    var es := UnitEntries(drills, mapped, unit);
    RankedLength(unit, top, |top|);
    forall e | e in es ensures e.unit == unit && WellFormedEntry(e, drills, mapped) {
      var j :| 0 <= j < |es| && es[j] == e;
      UnitEntryAt(drills, mapped, unit, j);
    }
    forall j, k | 0 <= j < k < |es| ensures InManifestOrder(es[j], es[k]) {
      UnitOrderedAt(drills, mapped, unit, j, k);
    }
  }

  // ---------------------------------------------------------------------
  // Concatenated blocks

  /** Block `k` holds only entries of unit `FirstUnit + k`. */
  predicate BlockUnits(bs: seq<seq<Entry>>)
  {
    forall k, e :: 0 <= k < |bs| && e in bs[k] ==> e.unit == FirstUnit + k
  }

  /** Each block is in manifest order. */
  predicate BlocksOrdered(bs: seq<seq<Entry>>)
  {
    forall k, i, j :: 0 <= k < |bs| && 0 <= i < j < |bs[k]| ==> InManifestOrder(bs[k][i], bs[k][j])
  }

  lemma {:induction false} FlattenMembers(bs: seq<seq<Entry>>)
    ensures forall e :: e in Flatten(bs) <==> exists k :: 0 <= k < |bs| && e in bs[k]
  {
    if bs != [] {
      var n := |bs| - 1;
      FlattenMembers(bs[..n]);
      forall e ensures e in Flatten(bs) <==> exists k :: 0 <= k < |bs| && e in bs[k] {
        if e in Flatten(bs[..n]) {
          var k :| 0 <= k < n && e in bs[..n][k];
          assert e in bs[k];
        }
        if exists k :: 0 <= k < |bs| && e in bs[k] {
          var k :| 0 <= k < |bs| && e in bs[k];
          if k < n {
            assert e in bs[..n][k];
          }
        }
      }
    }
  }

  lemma {:induction false} FlattenOrdered(bs: seq<seq<Entry>>)
    requires BlockUnits(bs) && BlocksOrdered(bs)
    ensures forall i, j :: 0 <= i < j < |Flatten(bs)| ==> InManifestOrder(Flatten(bs)[i], Flatten(bs)[j])
  {
    if bs != [] {
      var n := |bs| - 1;
      var a := Flatten(bs[..n]);
      var b := bs[n];
      assert BlockUnits(bs[..n]) by {
        forall k, e | 0 <= k < n && e in bs[..n][k] ensures e.unit == FirstUnit + k {
          assert bs[..n][k] == bs[k];
        }
      }
      assert BlocksOrdered(bs[..n]) by {
        forall k, i, j | 0 <= k < n && 0 <= i < j < |bs[..n][k]|
          ensures InManifestOrder(bs[..n][k][i], bs[..n][k][j])
        {
          assert bs[..n][k] == bs[k];
        }
      }
      FlattenOrdered(bs[..n]);
      FlattenMembers(bs[..n]);
      var es := a + b;
      assert Flatten(bs) == es;
      forall i, j | 0 <= i < j < |es| ensures InManifestOrder(es[i], es[j]) {
        if j < |a| {
          assert es[i] == a[i] && es[j] == a[j];
        } else if i < |a| {
          assert es[i] == a[i] && es[j] == b[j - |a|];
          assert a[i] in a;
          var k :| 0 <= k < n && a[i] in bs[..n][k];
          assert bs[..n][k] == bs[k];
          assert b[j - |a|] in bs[n];
        } else {
          assert es[i] == b[i - |a|] && es[j] == b[j - |a|];
        }
      }
    }
  }

  // ---------------------------------------------------------------------
  // Per-unit blocks

  /** The entries of `es` that belong to unit `u`, in order. */
  function OfUnit(es: seq<Entry>, u: int): seq<Entry>
  {
    if es == [] then []
    else (if es[0].unit == u then [es[0]] else []) + OfUnit(es[1..], u)
  }

  lemma {:induction false} OfUnitConcat(a: seq<Entry>, b: seq<Entry>, u: int)
    ensures OfUnit(a + b, u) == OfUnit(a, u) + OfUnit(b, u)
  {
    if a == [] {
      assert a + b == b;
    } else {
      var h := if a[0].unit == u then [a[0]] else [];
      assert (a + b)[0] == a[0] && (a + b)[1..] == a[1..] + b;
      assert OfUnit(a + b, u) == h + OfUnit(a[1..] + b, u);
      OfUnitConcat(a[1..], b, u);
      assert h + (OfUnit(a[1..], u) + OfUnit(b, u)) == (h + OfUnit(a[1..], u)) + OfUnit(b, u);
    }
  }

  lemma {:induction false} OfUnitUniform(es: seq<Entry>, u: int)
    requires forall e :: e in es ==> e.unit == u
    ensures OfUnit(es, u) == es
  {
    if es != [] {
      assert forall e :: e in es[1..] ==> e in es;
      OfUnitUniform(es[1..], u);
    }
  }

  lemma {:induction false} OfUnitNone(es: seq<Entry>, u: int)
    requires forall e :: e in es ==> e.unit != u
    ensures OfUnit(es, u) == []
  {
    if es != [] {
      assert forall e :: e in es[1..] ==> e in es;
      OfUnitNone(es[1..], u);
    }
  }

  lemma {:induction false} OfUnitFlatten(bs: seq<seq<Entry>>, u: int)
    requires BlockUnits(bs)
    ensures OfUnit(Flatten(bs), u) == if 0 <= u - FirstUnit < |bs| then bs[u - FirstUnit] else []
  {
    if bs != [] {
      var n := |bs| - 1;
      var a := Flatten(bs[..n]);
      var b := bs[n];
      assert BlockUnits(bs[..n]) by {
        forall k, e | 0 <= k < n && e in bs[..n][k] ensures e.unit == FirstUnit + k {
          assert bs[..n][k] == bs[k];
        }
      }
      OfUnitFlatten(bs[..n], u);
      OfUnitConcat(a, b, u);
      if u - FirstUnit == n {
        OfUnitUniform(b, u);
        assert [] + b == b;
      } else {
        OfUnitNone(b, u);
        assert OfUnit(a, u) + [] == OfUnit(a, u);
        if 0 <= u - FirstUnit < n {
          assert bs[..n][u - FirstUnit] == bs[u - FirstUnit];
        }
      }
    }
  }

  // ---------------------------------------------------------------------
  // The manifest's entries

  /** The blocks of the manifest: block `k` is unit `FirstUnit + k`'s,
      well formed and ordered, of at most twenty entries. */
  lemma BlocksShape(drills: seq<Drill>, mapped: set<string>)
    ensures BlockUnits(Blocks(drills, mapped)) && BlocksOrdered(Blocks(drills, mapped))
    ensures forall k, e :: 0 <= k < |Blocks(drills, mapped)| && e in Blocks(drills, mapped)[k] ==> WellFormedEntry(e, drills, mapped)
  {
    var bs: seq<seq<Entry>> := Blocks(drills, mapped);
    forall k | 0 <= k < |bs|
      ensures forall e :: e in bs[k] ==> e.unit == FirstUnit + k && WellFormedEntry(e, drills, mapped)
      ensures forall i, j :: 0 <= i < j < |bs[k]| ==> InManifestOrder(bs[k][i], bs[k][j])
    {
      assert bs[k] == UnitEntries(drills, mapped, FirstUnit + k);
      UnitShape(drills, mapped, FirstUnit + k);
    }
  }

  lemma BlocksUnits(drills: seq<Drill>, mapped: set<string>)
    ensures BlockUnits(Blocks(drills, mapped))
  {
    BlocksShape(drills, mapped);
  }

  /** Every entry of the drill manifest is well formed. */
  lemma EntriesWellFormed(drills: seq<Drill>, mapped: set<string>)
    ensures forall e :: e in AllEntries(drills, mapped) ==> WellFormedEntry(e, drills, mapped)
  {
    BlocksShape(drills, mapped);
    FlattenMembers(Blocks(drills, mapped));
  }

  /** Entries are grouped by ascending unit; within a unit ranks strictly
      increase (with gaps where a drill had no text) and commonality does not
      increase. */
  lemma EntriesOrdered(drills: seq<Drill>, mapped: set<string>)
    ensures forall i, j :: 0 <= i < j < |AllEntries(drills, mapped)| ==>
              InManifestOrder(AllEntries(drills, mapped)[i], AllEntries(drills, mapped)[j])
  {
    BlocksShape(drills, mapped);
    FlattenOrdered(Blocks(drills, mapped));
  }

  /** The entries of each unit form the block that unit's selection
      produced; units outside 9..24 have none. */
  lemma UnitBlocks(drills: seq<Drill>, mapped: set<string>, u: int)
    ensures OfUnit(AllEntries(drills, mapped), u) ==
              if FirstUnit <= u <= LastUnit then UnitEntries(drills, mapped, u) else []
  {
    var bs: seq<seq<Entry>> := Blocks(drills, mapped);
    assert OfUnit(Flatten(bs), u) == if 0 <= u - FirstUnit < |bs| then bs[u - FirstUnit] else [] by {
      BlocksUnits(drills, mapped);
      OfUnitFlatten(bs, u);
    }
    if FirstUnit <= u <= LastUnit {
      assert bs[u - FirstUnit] == UnitEntries(drills, mapped, u);
    }
  }

  /** No unit contributes more than twenty entries. */
  lemma AtMostTwentyPerUnit(drills: seq<Drill>, mapped: set<string>, u: int)
    ensures |OfUnit(AllEntries(drills, mapped), u)| <= DrillsPerUnit
  {
    UnitBlocks(drills, mapped, u);
    if FirstUnit <= u <= LastUnit {
      UnitShape(drills, mapped, u);
    }
  }

  // ---------------------------------------------------------------------
  // The top-twenty cut

  lemma PlaceInSorted(s: seq<Drill>, d: Drill) returns (p: nat)
    requires d in s
    ensures p < |SortByCommonality(s)| && SortByCommonality(s)[p] == d
  {
    SortPermutes(s);
    assert d in multiset(SortByCommonality(s));
    p :| 0 <= p < |SortByCommonality(s)| && SortByCommonality(s)[p] == d;
  }

  /** A selected drill with at most twenty drills of its unit at least as
      common sits at some place of the unit's top-twenty list. */
  lemma PlaceInTop(drills: seq<Drill>, mapped: set<string>, u: int, d: Drill) returns (p: nat)
    requires d in drills && Selected(d, mapped, u)
    requires CountAtLeast(Candidates(drills, mapped, u), Commonality(d)) <= DrillsPerUnit
    ensures p < |TopOfUnit(drills, mapped, u)| && TopOfUnit(drills, mapped, u)[p] == d
  {
    var cands := Candidates(drills, mapped, u);
    var sorted := SortByCommonality(cands);
    CandidatesMembers(drills, mapped, u);
    p := PlaceInSorted(cands, d);
    SortSorted(cands);
    PositionBelowCount(sorted, p);
    SortCount(cands, Commonality(d));
  }

  /** A drill that sorts within the top twenty of its unit's selection and
      has text gets an entry in that unit's block. */
  lemma UnitIncludes(drills: seq<Drill>, mapped: set<string>, u: int, d: Drill) returns (r: int)
    requires d in drills && Selected(d, mapped, u) && HasText(d)
    requires CountAtLeast(Candidates(drills, mapped, u), Commonality(d)) <= DrillsPerUnit
    ensures 1 <= r <= DrillsPerUnit && MakeEntry(u, r, d) in UnitEntries(drills, mapped, u)
  {
    var top := TopOfUnit(drills, mapped, u);
    var p := PlaceInTop(drills, mapped, u, d);
    RankedComplete(u, top, |top|, p + 1);
    r := p + 1;
  }

  /** A drill of unit `u` without audio and with text is in the manifest,
      at the rank its place in the sorted list gives, whenever at most twenty
      drills of that unit without audio are at least as common as it. */
  lemma CommonDrillIncluded(drills: seq<Drill>, mapped: set<string>, u: int, d: Drill)
    requires FirstUnit <= u <= LastUnit
    requires d in drills && Selected(d, mapped, u) && HasText(d)
    requires CountAtLeast(Candidates(drills, mapped, u), Commonality(d)) <= DrillsPerUnit
    ensures exists r :: 1 <= r <= DrillsPerUnit && MakeEntry(u, r, d) in AllEntries(drills, mapped)
  {
    var r := UnitIncludes(drills, mapped, u, d);
    var bs: seq<seq<Entry>> := Blocks(drills, mapped);
    assert bs[u - FirstUnit] == UnitEntries(drills, mapped, u);
    FlattenMembers(bs);
    assert MakeEntry(u, r, d) in AllEntries(drills, mapped);
  }
}
