/** The dialogue manifest: every unit's dialogue lines in English, the
    metadata lines skipped, the speaker named only on the first two lines. */
module DialogueManifest {

  /** One line of a unit's dialogue, as extracted from the course script. */
  datatype Line = Line(speaker: string, fr: string, en: string)

  /** One entry of a unit's `lines` list. */
  datatype LineEntry = LineEntry(
    index: nat,
    speaker: string,
    originalEnglish: string,
    textToSpeak: string,
    hasSpeakerLabel: bool,
    chars: nat)

  /** One entry of the manifest's `units` list. */
  datatype UnitEntry = UnitEntry(unit: int, lines: seq<LineEntry>, totalChars: nat)

  datatype Manifest = Manifest(
    description: string,
    totalUnits: nat,
    totalLines: nat,
    totalChars: nat,
    units: seq<UnitEntry>)

  const Description: string := "English dialogue audio - speaker labels on first 2 lines only"

  /** Lines at a position below this are spoken with their speaker's name. */
  const LabelledLines: nat := 2

  // ---------------------------------------------------------------------
  // `sorted(dialogues.keys())`

  predicate StrictlyIncreasing(s: seq<int>)
  {
    forall i, j :: 0 <= i < j < |s| ==> s[i] < s[j]
  }

  lemma {:induction false} MinExists(s: set<int>)
    requires s != {}
    ensures exists m :: m in s && forall y :: y in s ==> m <= y
    decreases |s|
  {
    assert (forall y :: y !in s) ==> s == {};
    var x :| x in s;
    if s != {x} {
      MinExists(s - {x});
      var m :| m in s - {x} && forall y :: y in s - {x} ==> m <= y;
      if x < m {
        forall y | y in s ensures x <= y {
          if y != x { assert y in s - {x}; }
        }
      } else {
        forall y | y in s ensures m <= y {
          if y != x { assert y in s - {x}; }
        }
      }
    }
  }

  /** The unit numbers in ascending order. */
  function SortedKeys(s: set<int>): seq<int>
    decreases |s|
  {
    if s == {} then []
    else
      MinExists(s);
      var m :| m in s && forall y :: y in s ==> m <= y;
      [m] + SortedKeys(s - {m})
  }

  /** The sorted keys list each key once, in strictly increasing order. */
  lemma {:induction false} SortedKeysProperties(s: set<int>)
    ensures StrictlyIncreasing(SortedKeys(s))
    ensures forall k :: k in SortedKeys(s) <==> k in s
    ensures |SortedKeys(s)| == |s|
    decreases |s|
  {
    if s != {} {
      var r := SortedKeys(s);
      var m := r[0];
      assert m in s && forall y :: y in s ==> m <= y;
      var rest := SortedKeys(s - {m});
      assert r == [m] + rest;
      SortedKeysProperties(s - {m});
      forall i, j | 0 <= i < j < |r| ensures r[i] < r[j] {
        assert r[j] == rest[j - 1];
        if i > 0 {
          assert r[i] == rest[i - 1];
        } else {
          assert rest[j - 1] in s - {m};
        }
      }
    }
  }

  lemma SortedKeysWithin(s: set<int>)
    ensures forall k :: k in SortedKeys(s) ==> k in s
  {
    SortedKeysProperties(s);
  }

  // ---------------------------------------------------------------------
  // One unit

  /** A line whose English text is wrapped in parentheses is metadata and
      is not spoken (`startswith('(') and endswith(')')`). */
  predicate IsMetadata(en: string)
  {
    |en| > 0 && en[0] == '(' && en[|en| - 1] == ')'
  }

  /** What is spoken for line `i`: the first two lines name their speaker. */
  function SpokenText(i: nat, line: Line): string
  {
    if i < LabelledLines then line.speaker + ": " + line.en else line.en
  }

  function MakeLineEntry(i: nat, line: Line): LineEntry
  {
    var text := SpokenText(i, line);
    LineEntry(i, line.speaker, line.en, text, i < LabelledLines, |text|)
  }

  /** The entries that lines `0..n - 1` produce, metadata skipped and
      indices kept as in the dialogue. */
  function LineEntries(lines: seq<Line>, n: nat): seq<LineEntry>
    requires n <= |lines|
  {
    if n == 0 then []
    else if IsMetadata(lines[n - 1].en) then LineEntries(lines, n - 1)
    else LineEntries(lines, n - 1) + [MakeLineEntry(n - 1, lines[n - 1])]
  }

  function SumChars(es: seq<LineEntry>): nat
  {
    if es == [] then 0 else es[0].chars + SumChars(es[1..])
  }

  function MakeUnit(unit: int, lines: seq<Line>): UnitEntry
  {
    var es := LineEntries(lines, |lines|);
    UnitEntry(unit, es, SumChars(es))
  }

  // ---------------------------------------------------------------------
  // The units, as a function of the inputs

  /** The unit entries of `keys` in that order; a unit with no spoken line
      is left out. */
  function UnitsOf(dialogues: map<int, seq<Line>>, keys: seq<int>): seq<UnitEntry>
    requires forall k :: k in keys ==> k in dialogues
  {
    if keys == [] then []
    else
      var k := keys[|keys| - 1];
      var u := MakeUnit(k, dialogues[k]);
      if u.lines == [] then UnitsOf(dialogues, keys[..|keys| - 1])
      else UnitsOf(dialogues, keys[..|keys| - 1]) + [u]
  }

  ghost function ManifestUnits(dialogues: map<int, seq<Line>>): seq<UnitEntry>
  {
    SortedKeysWithin(dialogues.Keys);
    UnitsOf(dialogues, SortedKeys(dialogues.Keys))
  }

  function LineCount(units: seq<UnitEntry>): nat
  {
    if units == [] then 0 else |units[0].lines| + LineCount(units[1..])
  }

  function CharCount(units: seq<UnitEntry>): nat
  {
    if units == [] then 0 else units[0].totalChars + CharCount(units[1..])
  }

  lemma {:induction false} SumCharsAppend(es: seq<LineEntry>, e: LineEntry)
    ensures SumChars(es + [e]) == SumChars(es) + e.chars
  {
    if es != [] {
      SumCharsAppend(es[1..], e);
      assert (es + [e])[1..] == es[1..] + [e];
    }
  }

  lemma {:induction false} CountsAppend(units: seq<UnitEntry>, u: UnitEntry)
    ensures LineCount(units + [u]) == LineCount(units) + |u.lines|
    ensures CharCount(units + [u]) == CharCount(units) + u.totalChars
  {
    if units != [] {
      CountsAppend(units[1..], u);
      assert (units + [u])[1..] == units[1..] + [u];
    }
  }

  lemma UnitsOfStep(dialogues: map<int, seq<Line>>, keys: seq<int>, i: nat)
    requires forall k :: k in keys ==> k in dialogues
    requires i < |keys|
    ensures forall k :: k in keys[..i] ==> k in dialogues
    ensures UnitsOf(dialogues, keys[..i + 1]) ==
              var u := MakeUnit(keys[i], dialogues[keys[i]]);
              if u.lines == [] then UnitsOf(dialogues, keys[..i]) else UnitsOf(dialogues, keys[..i]) + [u]
  {
    assert keys[..i + 1][..i] == keys[..i];
  }

  // ---------------------------------------------------------------------
  // The builder

  /** The `for i, line in enumerate(lines)` loop of one unit. */
  method BuildUnit(unit: int, lines: seq<Line>) returns (entry: UnitEntry)
    ensures entry == MakeUnit(unit, lines)
  {
    var es: seq<LineEntry> := [];
    var total: nat := 0;
    var i := 0;
    while i < |lines|
      invariant 0 <= i <= |lines|
      invariant es == LineEntries(lines, i)
      invariant total == SumChars(es)
    {
      var speaker := lines[i].speaker;
      var english := lines[i].en;
      if !(|english| > 0 && english[0] == '(' && english[|english| - 1] == ')') {
        var text := if i < LabelledLines then speaker + ": " + english else english;
        var lineEntry := LineEntry(i, speaker, english, text, i < LabelledLines, |text|);
        assert lineEntry == MakeLineEntry(i, lines[i]);
        SumCharsAppend(es, lineEntry);
        es := es + [lineEntry];
        total := total + |text|;
      }
      i := i + 1;
    }
    entry := UnitEntry(unit, es, total);
  }

  /** `create_dialogue_manifest`, with the extracted dialogues given as a
      map from unit number to lines. */
  method CreateDialogueManifest(dialogues: map<int, seq<Line>>) returns (m: Manifest)
    ensures m.units == ManifestUnits(dialogues)
    ensures m.totalUnits == |dialogues|
    ensures m.totalLines == LineCount(m.units) && m.totalChars == CharCount(m.units)
    ensures m.description == Description
  {
    SortedKeysWithin(dialogues.Keys);
    var keys := SortedKeys(dialogues.Keys);
    var units: seq<UnitEntry> := [];
    var totalLines: nat, totalChars: nat := 0, 0;
    var i := 0;
    while i < |keys|
      invariant 0 <= i <= |keys|
      invariant forall k :: k in keys[..i] ==> k in dialogues
      invariant units == UnitsOf(dialogues, keys[..i])
      invariant totalLines == LineCount(units) && totalChars == CharCount(units)
    {
      var unitNum := keys[i];
      UnitsOfStep(dialogues, keys, i);
      var entry := BuildUnit(unitNum, dialogues[unitNum]);
      if entry.lines != [] {
        CountsAppend(units, entry);
        units := units + [entry];
        totalLines := totalLines + |entry.lines|;
        totalChars := totalChars + entry.totalChars;
      }
      i := i + 1;
    }
    assert keys[..|keys|] == keys;
    m := Manifest(Description, |dialogues|, totalLines, totalChars, units);
  }
}
