/** What the dialogue manifest promises about its units and lines, proved
    of the functions that `CreateDialogueManifest` is specified by. */
module DialogueProperties {
  import opened DialogueManifest

  /** `e` stands for line `e.index` of `lines`, which is not metadata: it
      copies its speaker and English text, carries the speaker label exactly
      when it is one of the first two lines, and counts what it speaks. */
  predicate DescribesLine(e: LineEntry, lines: seq<Line>)
  {
    e.index < |lines| && !IsMetadata(lines[e.index].en)
    && e.speaker == lines[e.index].speaker && e.originalEnglish == lines[e.index].en
    && (e.hasSpeakerLabel <==> e.index < LabelledLines)
    && e.textToSpeak == (if e.hasSpeakerLabel then e.speaker + ": " + e.originalEnglish else e.originalEnglish)
    && e.chars == |e.textToSpeak|
  }

  /** Some line of `lines` is spoken. */
  predicate HasSpokenLine(lines: seq<Line>)
  {
    exists i :: 0 <= i < |lines| && !IsMetadata(lines[i].en)
  }

  // ---------------------------------------------------------------------
  // The lines of one unit

  lemma {:induction false} LineEntryAt(lines: seq<Line>, n: nat, j: nat)
    requires n <= |lines| && j < |LineEntries(lines, n)|
    ensures LineEntries(lines, n)[j].index < n
    ensures !IsMetadata(lines[LineEntries(lines, n)[j].index].en)
    ensures LineEntries(lines, n)[j] == MakeLineEntry(LineEntries(lines, n)[j].index, lines[LineEntries(lines, n)[j].index])
  {
    var prev := LineEntries(lines, n - 1);
    if IsMetadata(lines[n - 1].en) {
      LineEntryAt(lines, n - 1, j);
    } else {
      assert LineEntries(lines, n) == prev + [MakeLineEntry(n - 1, lines[n - 1])];
      if j < |prev| {
        LineEntryAt(lines, n - 1, j);
        assert LineEntries(lines, n)[j] == prev[j];
      }
    }
  }

  lemma {:induction false} LineIndicesIncreasing(lines: seq<Line>, n: nat, j: nat, k: nat)
    requires n <= |lines| && j < k < |LineEntries(lines, n)|
    ensures LineEntries(lines, n)[j].index < LineEntries(lines, n)[k].index
  {
    var prev := LineEntries(lines, n - 1);
    if IsMetadata(lines[n - 1].en) {
      LineIndicesIncreasing(lines, n - 1, j, k);
    } else {
      assert LineEntries(lines, n) == prev + [MakeLineEntry(n - 1, lines[n - 1])];
      assert LineEntries(lines, n)[j] == prev[j];
      if k < |prev| {
        assert LineEntries(lines, n)[k] == prev[k];
        LineIndicesIncreasing(lines, n - 1, j, k);
      } else {
        LineEntryAt(lines, n - 1, j);
      }
    }
  }

  /** A line that is not metadata is never skipped. */
  lemma {:induction false} LineEntriesComplete(lines: seq<Line>, n: nat, i: nat)
    requires i < n <= |lines| && !IsMetadata(lines[i].en)
    ensures MakeLineEntry(i, lines[i]) in LineEntries(lines, n)
  {
    if i < n - 1 {
      LineEntriesComplete(lines, n - 1, i);
    }
  }

  /** Labels follow the original position: after a skipped metadata line
      at position 0, the line at position 1 is still labelled and the one at
      position 2 is not. */
  lemma LabelExample()
    ensures LineEntries([Line("A", "", "(x)"), Line("B", "", "Hi"), Line("A", "", "Yo")], 3)
            == [LineEntry(1, "B", "Hi", "B: Hi", true, 5), LineEntry(2, "A", "Yo", "Yo", false, 2)]
  {
    var lines := [Line("A", "", "(x)"), Line("B", "", "Hi"), Line("A", "", "Yo")];
    assert IsMetadata(lines[0].en) && !IsMetadata(lines[1].en) && !IsMetadata(lines[2].en);
    assert SpokenText(1, lines[1]) == "B: Hi";
  }

  /** One unit's entry: its lines describe the spoken lines of the dialogue
      in dialogue order, every spoken line is there, and its total is the
      sum of their character counts. */
  lemma UnitLines(unit: int, lines: seq<Line>)
    ensures MakeUnit(unit, lines).unit == unit
    ensures MakeUnit(unit, lines).totalChars == SumChars(MakeUnit(unit, lines).lines)
    ensures forall e :: e in MakeUnit(unit, lines).lines ==> DescribesLine(e, lines)
    ensures forall j, k :: 0 <= j < k < |MakeUnit(unit, lines).lines| ==>
              MakeUnit(unit, lines).lines[j].index < MakeUnit(unit, lines).lines[k].index
    ensures forall i :: 0 <= i < |lines| && !IsMetadata(lines[i].en) ==>
              MakeLineEntry(i, lines[i]) in MakeUnit(unit, lines).lines
  {
    var es := MakeUnit(unit, lines).lines;
    forall e | e in es ensures DescribesLine(e, lines) {
      var j :| 0 <= j < |es| && es[j] == e;
      LineEntryAt(lines, |lines|, j);
    }
    forall j, k | 0 <= j < k < |es| ensures es[j].index < es[k].index {
      LineIndicesIncreasing(lines, |lines|, j, k);
    }
    forall i | 0 <= i < |lines| && !IsMetadata(lines[i].en) ensures MakeLineEntry(i, lines[i]) in es {
      LineEntriesComplete(lines, |lines|, i);
    }
  }

  /** A unit's entry has lines exactly when its dialogue has a spoken line. */
  lemma UnitNonEmptyIff(unit: int, lines: seq<Line>)
    ensures MakeUnit(unit, lines).lines != [] <==> HasSpokenLine(lines)
  {
    var es := MakeUnit(unit, lines).lines;
    if es != [] {
      LineEntryAt(lines, |lines|, 0);
    }
    if HasSpokenLine(lines) {
      var i :| 0 <= i < |lines| && !IsMetadata(lines[i].en);
      LineEntriesComplete(lines, |lines|, i);
    }
  }

  // ---------------------------------------------------------------------
  // The units of a list of keys

  lemma {:induction false} UnitsOfMembers(dialogues: map<int, seq<Line>>, keys: seq<int>)
    requires forall k :: k in keys ==> k in dialogues
    ensures |UnitsOf(dialogues, keys)| <= |keys|
    ensures forall u :: u in UnitsOf(dialogues, keys) ==>
              u.unit in keys && u == MakeUnit(u.unit, dialogues[u.unit]) && u.lines != []
    ensures forall k :: k in keys && MakeUnit(k, dialogues[k]).lines != [] ==>
              MakeUnit(k, dialogues[k]) in UnitsOf(dialogues, keys)
  {
    if keys != [] {
      var n := |keys| - 1;
      var k := keys[n];
      var u := MakeUnit(k, dialogues[k]);
      var prev := UnitsOf(dialogues, keys[..n]);
      assert keys == keys[..n] + [k];
      UnitsOfMembers(dialogues, keys[..n]);
      if u.lines != [] {
        assert UnitsOf(dialogues, keys) == prev + [u];
      }
    }
  }

  lemma {:induction false} UnitsOfIncreasing(dialogues: map<int, seq<Line>>, keys: seq<int>, i: nat, j: nat)
    requires forall k :: k in keys ==> k in dialogues
    requires StrictlyIncreasing(keys)
    requires i < j < |UnitsOf(dialogues, keys)|
    ensures UnitsOf(dialogues, keys)[i].unit < UnitsOf(dialogues, keys)[j].unit
  {
    var n := |keys| - 1;
    var k := keys[n];
    var u := MakeUnit(k, dialogues[k]);
    var prev := UnitsOf(dialogues, keys[..n]);
    assert forall a :: a in keys[..n] ==> a in keys;
    assert StrictlyIncreasing(keys[..n]);
    if u.lines == [] {
      UnitsOfIncreasing(dialogues, keys[..n], i, j);
    } else {
      assert UnitsOf(dialogues, keys) == prev + [u];
      assert UnitsOf(dialogues, keys)[i] == prev[i];
      if j < |prev| {
        assert UnitsOf(dialogues, keys)[j] == prev[j];
        UnitsOfIncreasing(dialogues, keys[..n], i, j);
      } else {
        UnitsOfMembers(dialogues, keys[..n]);
        assert prev[i] in prev;
        var p :| 0 <= p < n && keys[..n][p] == prev[i].unit;
        assert keys[p] == prev[i].unit;
      }
    }
  }

  // ---------------------------------------------------------------------
  // The manifest's units

  /** Every unit of the manifest is a unit of the dialogues whose entry is
      built from its lines, and every line entry describes its line. */
  lemma ManifestLinesDescribed(dialogues: map<int, seq<Line>>)
    ensures forall u :: u in ManifestUnits(dialogues) ==>
              u.unit in dialogues && u == MakeUnit(u.unit, dialogues[u.unit]) && u.lines != []
              && u.totalChars == SumChars(u.lines)
              && forall e :: e in u.lines ==> DescribesLine(e, dialogues[u.unit])
  {
    var keys := SortedKeys(dialogues.Keys);
    SortedKeysProperties(dialogues.Keys);
    UnitsOfMembers(dialogues, keys);
    forall u | u in ManifestUnits(dialogues)
      ensures forall e :: e in u.lines ==> DescribesLine(e, dialogues[u.unit])
    {
      UnitLines(u.unit, dialogues[u.unit]);
    }
  }

  /** The manifest lists its units in strictly ascending unit order. */
  lemma ManifestUnitsAscending(dialogues: map<int, seq<Line>>)
    ensures forall i, j :: 0 <= i < j < |ManifestUnits(dialogues)| ==>
              ManifestUnits(dialogues)[i].unit < ManifestUnits(dialogues)[j].unit
  {
    var keys := SortedKeys(dialogues.Keys);
    SortedKeysProperties(dialogues.Keys);
    forall i, j | 0 <= i < j < |ManifestUnits(dialogues)|
      ensures ManifestUnits(dialogues)[i].unit < ManifestUnits(dialogues)[j].unit
    {
      UnitsOfIncreasing(dialogues, keys, i, j);
    }
  }

  /** A unit appears in the manifest exactly when it is a unit of the
      dialogues with at least one spoken line. */
  lemma ManifestUnitPresent(dialogues: map<int, seq<Line>>, k: int)
    ensures (exists u :: u in ManifestUnits(dialogues) && u.unit == k) <==>
              k in dialogues && HasSpokenLine(dialogues[k])
  {
    var keys := SortedKeys(dialogues.Keys);
    SortedKeysProperties(dialogues.Keys);
    UnitsOfMembers(dialogues, keys);
    if exists u :: u in ManifestUnits(dialogues) && u.unit == k {
      var u :| u in ManifestUnits(dialogues) && u.unit == k;
      UnitNonEmptyIff(k, dialogues[k]);
    }
    if k in dialogues && HasSpokenLine(dialogues[k]) {
      UnitNonEmptyIff(k, dialogues[k]);
      assert MakeUnit(k, dialogues[k]) in ManifestUnits(dialogues);
    }
  }

  /** Every spoken line of the dialogues has its entry in its unit. */
  lemma ManifestLineComplete(dialogues: map<int, seq<Line>>, k: int, i: nat)
    requires k in dialogues && i < |dialogues[k]| && !IsMetadata(dialogues[k][i].en)
    ensures exists u :: u in ManifestUnits(dialogues) && u.unit == k && MakeLineEntry(i, dialogues[k][i]) in u.lines
  {
    var keys := SortedKeys(dialogues.Keys);
    SortedKeysProperties(dialogues.Keys);
    UnitsOfMembers(dialogues, keys);
    UnitLines(k, dialogues[k]);
    assert MakeUnit(k, dialogues[k]) in ManifestUnits(dialogues);
  }

  /** The manifest has no more units than the dialogues (`total_units`
      counts them all, including those left out). */
  lemma ManifestUnitCount(dialogues: map<int, seq<Line>>)
    ensures |ManifestUnits(dialogues)| <= |dialogues|
  {
    var keys := SortedKeys(dialogues.Keys);
    SortedKeysProperties(dialogues.Keys);
    UnitsOfMembers(dialogues, keys);
    assert |dialogues| == |dialogues.Keys|;
  }
}
