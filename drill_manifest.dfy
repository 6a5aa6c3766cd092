/** The drill manifest: the most common drills of units 9 to 24 that have
    no recorded audio yet, ranked per unit, with character totals for the
    text-to-speech budget. */
module DrillManifest {
  import opened Text

  datatype Option<T> = None | Some(value: T)

  /** One record of the drill catalogue; a key other than `id` missing from
      the record is `None`. */
  datatype Drill = Drill(
    id: string,
    unit: Option<int>,
    commonality: Option<real>,
    frenchFormal: Option<string>,
    english: Option<string>)

  /** One entry of the manifest's `drills` list. */
  datatype Entry = Entry(
    id: string,
    unit: int,
    rank: int,
    commonality: real,
    french: string,
    english: string,
    charsFr: nat,
    charsEn: nat)

  datatype Manifest = Manifest(
    description: string,
    units: seq<int>,
    drillsPerUnit: nat,
    totalDrills: nat,
    totalCharsFr: nat,
    totalCharsEn: nat,
    totalChars: nat,
    drills: seq<Entry>)

  const FirstUnit: int := 9
  const LastUnit: int := 24
  const DrillsPerUnit: nat := 20
  const Description: string := "Top 20 most common drills per unit (9-24), French + English"

  /** The unit numbers 9, 10, ..., 24 listed in the manifest. */
  function UnitRange(): seq<int>
  {
    seq(LastUnit - FirstUnit + 1, k => FirstUnit + k)
  }

  /** The unit list names each unit of 9..24, and nothing else, in strictly
      ascending order. */
  lemma UnitRangeMeaning()
    ensures forall u :: u in UnitRange() <==> FirstUnit <= u <= LastUnit
    ensures forall i, j :: 0 <= i < j < |UnitRange()| ==> UnitRange()[i] < UnitRange()[j]
  {
    forall u | FirstUnit <= u <= LastUnit ensures u in UnitRange() {
      assert UnitRange()[u - FirstUnit] == u;
    }
  }

  /** The sort key: the drill's commonality, 0 when it has none. */
  function Commonality(d: Drill): real
  {
    if d.commonality.Some? then d.commonality.value else 0.0
  }

  /** The stripped French text; a missing `french_formal` reads as empty. */
  function FrenchText(d: Drill): string
  {
    Strip(if d.frenchFormal.Some? then d.frenchFormal.value else "")
  }

  /** The stripped English text; a missing `english` reads as empty. */
  function EnglishText(d: Drill): string
  {
    Strip(if d.english.Some? then d.english.value else "")
  }

  /** A drill takes part in `unit`'s selection when it belongs to that unit
      and its id is not a key of the audio mapping. */
  predicate Selected(d: Drill, mapped: set<string>, unit: int)
  {
    d.unit == Some(unit) && d.id !in mapped
  }

  /** The drills of `unit` without audio, in catalogue order. */
  function Candidates(drills: seq<Drill>, mapped: set<string>, unit: int): seq<Drill>
  {
    if drills == [] then []
    else (if Selected(drills[0], mapped, unit) then [drills[0]] else [])
         + Candidates(drills[1..], mapped, unit)
  }

  lemma {:induction false} CandidatesMembers(drills: seq<Drill>, mapped: set<string>, unit: int)
    ensures forall d :: d in Candidates(drills, mapped, unit) <==> d in drills && Selected(d, mapped, unit)
  {
    if drills != [] {
      CandidatesMembers(drills[1..], mapped, unit);
      assert drills == [drills[0]] + drills[1..];
    }
  }

  // ---------------------------------------------------------------------
  // The stable sort by descending commonality (`list.sort(key=..., reverse=True)`)

  /** Places `x` after every drill of strictly greater commonality and before
      the rest, so that among equal keys `x` keeps its earlier place. */
  function Insert(x: Drill, t: seq<Drill>): seq<Drill>
  {
    if t == [] || Commonality(t[0]) <= Commonality(x) then [x] + t
    else [t[0]] + Insert(x, t[1..])
  }

  /** Insertion sort by descending commonality; stable. */
  function SortByCommonality(s: seq<Drill>): seq<Drill>
  {
    if s == [] then [] else Insert(s[0], SortByCommonality(s[1..]))
  }

  predicate NonIncreasing(s: seq<Drill>)
  {
    forall i, j :: 0 <= i < j < |s| ==> Commonality(s[i]) >= Commonality(s[j])
  }

  /** The drills of `s` whose commonality is `k`, in the order of `s`. */
  function WithCommonality(s: seq<Drill>, k: real): seq<Drill>
  {
    if s == [] then []
    else (if Commonality(s[0]) == k then [s[0]] else []) + WithCommonality(s[1..], k)
  }

  /** How many drills of `s` have commonality at least `k`. */
  function CountAtLeast(s: seq<Drill>, k: real): nat
  {
    if s == [] then 0
    else (if Commonality(s[0]) >= k then 1 else 0) + CountAtLeast(s[1..], k)
  }

  /** Inserting a drill no more common than `c` into drills no more common
      than `c` gives drills no more common than `c`. */
  lemma {:induction false} InsertBelow(x: Drill, t: seq<Drill>, c: real)
    requires Commonality(x) <= c
    requires forall i :: 0 <= i < |t| ==> Commonality(t[i]) <= c
    ensures forall i :: 0 <= i < |Insert(x, t)| ==> Commonality(Insert(x, t)[i]) <= c
  {
    if t != [] && Commonality(t[0]) > Commonality(x) {
      var rest := Insert(x, t[1..]);
      assert forall i :: 0 <= i < |t[1..]| ==> Commonality(t[1..][i]) <= c by {
        forall i | 0 <= i < |t[1..]| ensures Commonality(t[1..][i]) <= c {
          assert t[1..][i] == t[i + 1];
        }
      }
      InsertBelow(x, t[1..], c);
      assert Insert(x, t) == [t[0]] + rest;
      forall i | 0 <= i < |Insert(x, t)| ensures Commonality(Insert(x, t)[i]) <= c {
        if i > 0 {
          assert Insert(x, t)[i] == rest[i - 1];
        }
      }
    }
  }

  lemma {:induction false} InsertSorted(x: Drill, t: seq<Drill>)
    requires NonIncreasing(t)
    ensures NonIncreasing(Insert(x, t))
  {
    if t != [] && Commonality(t[0]) > Commonality(x) {
      var r := Insert(x, t);
      var rest := Insert(x, t[1..]);
      var c := Commonality(t[0]);
      assert NonIncreasing(t[1..]);
      InsertSorted(x, t[1..]);
      forall i | 0 <= i < |t[1..]| ensures Commonality(t[1..][i]) <= c {
        assert t[1..][i] == t[i + 1];
      }
      InsertBelow(x, t[1..], c);
      assert r == [t[0]] + rest;
      forall i, j | 0 <= i < j < |r|
        ensures Commonality(r[i]) >= Commonality(r[j])
      {
        assert r[j] == rest[j - 1];
        if i > 0 {
          assert r[i] == rest[i - 1];
        }
      }
    }
  }

  lemma {:induction false} InsertPermutes(x: Drill, t: seq<Drill>)
    ensures multiset(Insert(x, t)) == multiset([x] + t)
  {
    if t != [] && Commonality(t[0]) > Commonality(x) {
      InsertPermutes(x, t[1..]);
      assert t == [t[0]] + t[1..];
    }
  }

  lemma {:induction false} InsertStable(x: Drill, t: seq<Drill>, k: real)
    requires NonIncreasing(t)
    ensures WithCommonality(Insert(x, t), k) == WithCommonality([x] + t, k)
  {
    if t != [] && Commonality(t[0]) > Commonality(x) {
      assert NonIncreasing(t[1..]);
      InsertStable(x, t[1..], k);
      assert ([x] + t)[1..] == t;
      assert ([x] + t[1..])[1..] == t[1..];
      assert Insert(x, t)[1..] == Insert(x, t[1..]);
    }
  }

  lemma {:induction false} InsertCount(x: Drill, t: seq<Drill>, k: real)
    ensures CountAtLeast(Insert(x, t), k) == CountAtLeast([x] + t, k)
  {
    if t != [] && Commonality(t[0]) > Commonality(x) {
      InsertCount(x, t[1..], k);
      assert ([x] + t)[1..] == t;
      assert ([x] + t[1..])[1..] == t[1..];
      assert Insert(x, t)[1..] == Insert(x, t[1..]);
    }
  }

  lemma {:induction false} SortSorted(s: seq<Drill>)
    ensures NonIncreasing(SortByCommonality(s))
  {
    if s != [] {
      SortSorted(s[1..]);
      InsertSorted(s[0], SortByCommonality(s[1..]));
    }
  }

  lemma {:induction false} SortPermutes(s: seq<Drill>)
    ensures multiset(SortByCommonality(s)) == multiset(s)
  {
    if s != [] {
      SortPermutes(s[1..]);
      InsertPermutes(s[0], SortByCommonality(s[1..]));
      assert s == [s[0]] + s[1..];
    }
  }

  lemma {:induction false} SortStable(s: seq<Drill>, k: real)
    ensures WithCommonality(SortByCommonality(s), k) == WithCommonality(s, k)
  {
    if s != [] {
      var t := SortByCommonality(s[1..]);
      SortStable(s[1..], k);
      SortSorted(s[1..]);
      InsertStable(s[0], t, k);
      assert ([s[0]] + t)[1..] == t;
    }
  }

  lemma {:induction false} SortCount(s: seq<Drill>, k: real)
    ensures CountAtLeast(SortByCommonality(s), k) == CountAtLeast(s, k)
  {
    if s != [] {
      var t := SortByCommonality(s[1..]);
      SortCount(s[1..], k);
      InsertCount(s[0], t, k);
      assert ([s[0]] + t)[1..] == t;
    }
  }

  /** Summary of the sort: it orders by non-increasing commonality, is a
      permutation of its input, keeps the input order of drills with equal
      commonality and keeps every threshold count. The proofs below call the
      four narrower lemmas directly. */
  lemma SortProperties(s: seq<Drill>)
    ensures NonIncreasing(SortByCommonality(s))
    ensures multiset(SortByCommonality(s)) == multiset(s)
    ensures forall k :: WithCommonality(SortByCommonality(s), k) == WithCommonality(s, k)
    ensures forall k :: CountAtLeast(SortByCommonality(s), k) == CountAtLeast(s, k)
  {
    SortSorted(s);
    SortPermutes(s);
    forall k ensures WithCommonality(SortByCommonality(s), k) == WithCommonality(s, k) {
      SortStable(s, k);
    }
    forall k ensures CountAtLeast(SortByCommonality(s), k) == CountAtLeast(s, k) {
      SortCount(s, k);
    }
  }

  /** In a non-increasing sequence, the drill at position `p` is preceded
      only by drills at least as common, so at least `p + 1` drills are. */
  lemma {:induction false} PositionBelowCount(s: seq<Drill>, p: nat)
    requires NonIncreasing(s) && p < |s|
    ensures p < CountAtLeast(s, Commonality(s[p]))
  {
    if p > 0 {
      assert NonIncreasing(s[1..]);
      assert s[1..][p - 1] == s[p];
      PositionBelowCount(s[1..], p - 1);
    }
  }

  // ---------------------------------------------------------------------
  // The entries, as a function of the inputs

  /** The first twenty drills of the sorted list (`unit_drills[:20]`). */
  function Top(s: seq<Drill>): (r: seq<Drill>)
    ensures |r| <= DrillsPerUnit && |r| <= |s| && r == s[..|r|]
    ensures |s| <= DrillsPerUnit ==> r == s
    ensures |s| > DrillsPerUnit ==> |r| == DrillsPerUnit
  {
    if |s| <= DrillsPerUnit then s else s[..DrillsPerUnit]
  }

  /** The sorted top-twenty list of `unit`. */
  function TopOfUnit(drills: seq<Drill>, mapped: set<string>, unit: int): seq<Drill>
  {
    Top(SortByCommonality(Candidates(drills, mapped, unit)))
  }

  predicate HasText(d: Drill)
  {
    FrenchText(d) != [] && EnglishText(d) != []
  }

  function MakeEntry(unit: int, rank: int, d: Drill): Entry
  {
    var french := FrenchText(d);
    var english := EnglishText(d);
    Entry(d.id, unit, rank, Commonality(d), french, english, |french|, |english|)
  }

  /** The entries that ranks `1..n` of `top` produce: rank `r` goes to
      `top[r - 1]` and drills without text are skipped, ranks not renumbered. */
  function RankedEntries(unit: int, top: seq<Drill>, n: nat): seq<Entry>
    requires n <= |top|
  {
    if n == 0 then []
    else if HasText(top[n - 1]) then RankedEntries(unit, top, n - 1) + [MakeEntry(unit, n, top[n - 1])]
    else RankedEntries(unit, top, n - 1)
  }

  function UnitEntries(drills: seq<Drill>, mapped: set<string>, unit: int): seq<Entry>
  {
    var top := TopOfUnit(drills, mapped, unit);
    RankedEntries(unit, top, |top|)
  }

  /** The blocks of units 9, 10, ..., 24, one per pass of the unit loop. */
  function Blocks(drills: seq<Drill>, mapped: set<string>): seq<seq<Entry>>
  {
    seq(LastUnit - FirstUnit + 1, k => UnitEntries(drills, mapped, FirstUnit + k))
  }

  /** The blocks of `bs` one after another. */
  function Flatten(bs: seq<seq<Entry>>): seq<Entry>
  {
    if bs == [] then [] else Flatten(bs[..|bs| - 1]) + bs[|bs| - 1]
  }

  /** Every entry of the drill manifest. */
  function AllEntries(drills: seq<Drill>, mapped: set<string>): seq<Entry>
  {
    Flatten(Blocks(drills, mapped))
  }

  function SumFr(es: seq<Entry>): nat
  {
    if es == [] then 0 else es[0].charsFr + SumFr(es[1..])
  }

  function SumEn(es: seq<Entry>): nat
  {
    if es == [] then 0 else es[0].charsEn + SumEn(es[1..])
  }

  lemma FlattenStep(bs: seq<seq<Entry>>, i: nat)
    requires i < |bs|
    ensures Flatten(bs[..i + 1]) == Flatten(bs[..i]) + bs[i]
  {
    assert bs[..i + 1][..i] == bs[..i];
  }

  lemma RankedStep(unit: int, top: seq<Drill>, i: nat, before: seq<Entry>)
    requires i < |top| && HasText(top[i])
    ensures before + RankedEntries(unit, top, i + 1) == (before + RankedEntries(unit, top, i)) + [MakeEntry(unit, i + 1, top[i])]
  {
  }

  lemma {:induction false} SumsAppend(es: seq<Entry>, e: Entry)
    ensures SumFr(es + [e]) == SumFr(es) + e.charsFr
    ensures SumEn(es + [e]) == SumEn(es) + e.charsEn
  {
    if es != [] {
      SumsAppend(es[1..], e);
      assert (es + [e])[1..] == es[1..] + [e];
    }
  }

  lemma {:induction false} SumsConcat(a: seq<Entry>, b: seq<Entry>)
    ensures SumFr(a + b) == SumFr(a) + SumFr(b)
    ensures SumEn(a + b) == SumEn(a) + SumEn(b)
  {
    if a != [] {
      SumsConcat(a[1..], b);
      assert (a + b)[1..] == a[1..] + b;
    } else {
      assert a + b == b;
    }
  }

  // ---------------------------------------------------------------------
  // The builder

  /** One pass of the `for unit in range(9, 25)` loop: selects, sorts and
      cuts the unit's drills, then appends the entry of every ranked drill
      that has text and adds its lengths to the running totals. */
  method AppendUnit(drills: seq<Drill>, mapped: set<string>, unit: int,
                    entries: seq<Entry>, totalFr: nat, totalEn: nat)
    returns (entries': seq<Entry>, totalFr': nat, totalEn': nat)
    ensures entries' == entries + UnitEntries(drills, mapped, unit)
    ensures totalFr' == totalFr + SumFr(UnitEntries(drills, mapped, unit))
    ensures totalEn' == totalEn + SumEn(UnitEntries(drills, mapped, unit))
  {
    var unitDrills := Candidates(drills, mapped, unit);
    unitDrills := SortByCommonality(unitDrills);
    var top := if |unitDrills| <= DrillsPerUnit then unitDrills else unitDrills[..DrillsPerUnit];
    entries', totalFr', totalEn' := entries, totalFr, totalEn;
    assert entries + [] == entries;
    var i := 0;
    while i < |top|
      invariant 0 <= i <= |top|
      invariant entries' == entries + RankedEntries(unit, top, i)
      invariant totalFr' == totalFr + SumFr(RankedEntries(unit, top, i))
      invariant totalEn' == totalEn + SumEn(RankedEntries(unit, top, i))
    {
      var rank := i + 1;
      var drill := top[i];
      var french := FrenchText(drill);
      var english := EnglishText(drill);
      if french != [] && english != [] {
        var entry := Entry(drill.id, unit, rank, Commonality(drill), french, english, |french|, |english|);
        assert entry == MakeEntry(unit, i + 1, top[i]);
        RankedStep(unit, top, i, entries);
        SumsAppend(RankedEntries(unit, top, i), entry);
        entries' := entries' + [entry];
        totalFr' := totalFr' + |french|;
        totalEn' := totalEn' + |english|;
      }
      i := i + 1;
    }
    assert top == TopOfUnit(drills, mapped, unit);
  }

  /** `create_drill_manifest`, with the catalogue and the ids of the audio
      mapping given as values. */
  method CreateDrillManifest(drills: seq<Drill>, mapped: set<string>) returns (m: Manifest)
    ensures m.drills == AllEntries(drills, mapped)
    ensures m.totalDrills == |m.drills|
    ensures m.totalCharsFr == SumFr(m.drills) && m.totalCharsEn == SumEn(m.drills)
    ensures m.totalChars == m.totalCharsFr + m.totalCharsEn
    ensures m.description == Description && m.units == UnitRange() && m.drillsPerUnit == DrillsPerUnit
  {
    var entries: seq<Entry> := [];
    var totalFr: nat, totalEn: nat := 0, 0;
    ghost var blocks := Blocks(drills, mapped);
    var unit := FirstUnit;
    while unit <= LastUnit
      invariant FirstUnit <= unit <= LastUnit + 1
      invariant entries == Flatten(blocks[..unit - FirstUnit])
      invariant totalFr == SumFr(entries) && totalEn == SumEn(entries)
    {
      FlattenStep(blocks, unit - FirstUnit);
      assert blocks[unit - FirstUnit] == UnitEntries(drills, mapped, unit);
      SumsConcat(entries, UnitEntries(drills, mapped, unit));
      entries, totalFr, totalEn := AppendUnit(drills, mapped, unit, entries, totalFr, totalEn);
      unit := unit + 1;
    }
    assert blocks[..LastUnit + 1 - FirstUnit] == blocks;
    m := Manifest(Description, UnitRange(), DrillsPerUnit, |entries|, totalFr, totalEn, totalFr + totalEn, entries);
  }
}
