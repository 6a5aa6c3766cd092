# Audio manifest builder, modelled in Dafny

This project models the manifest builder of the French course's audio
pipeline (`scripts/generate_manifests.py`). The builder writes two lists of
what should be sent to text-to-speech:

- **The drill manifest** (`create_drill_manifest`). It covers units 9 to 24.
  For each unit it:
  - keeps the drills of that unit whose id has no recorded audio;
  - sorts them by descending commonality, with a stable sort;
  - keeps the first twenty and ranks them 1..20 by position;
  - skips every ranked drill whose stripped French or English text is empty,
    without renumbering the ranks;
  - adds each entry's character counts to the French and English totals.
- **The dialogue manifest** (`create_dialogue_manifest`). It visits the
  units in ascending order. For each unit it:
  - skips the lines whose English text is wrapped in parentheses;
  - prefixes `speaker: ` on the lines whose original position is 0 or 1;
  - counts the characters to be spoken;
  - leaves out a unit with no spoken line.

Both builders are imperative methods. Their loops keep invariants that tie
the accumulated list and the running totals to specification functions of
the inputs. Lemmas then prove what the manifests promise about those
functions.

Modules and files:

- `text.dfy`, module `Text`: Python's `str.strip()`, using the whitespace
  set of `str.isspace()`.
- `drill_manifest.dfy`, module `DrillManifest`: the drill records, the
  stable sort, the per-unit selection, and the builder methods
  `AppendUnit` and `CreateDrillManifest`.
- `drill_properties.dfy`, module `DrillProperties`: entry well-formedness,
  ordering, the per-unit blocks, the top-twenty cut, and tie order.
- `dialogue_manifest.dfy`, module `DialogueManifest`: the dialogue lines,
  the sorted unit keys, and the builder methods `BuildUnit` and
  `CreateDialogueManifest`.
- `dialogue_properties.dfy`, module `DialogueProperties`: line entries,
  metadata skipping, unit order, and which units appear.

The inputs are values rather than files:

- the drill catalogue is a `seq<Drill>`; every key except `id` may be absent from a record, and is then `None`;
- the ids of the audio mapping are a `set<string>`;
- the extracted dialogues are a `map<int, seq<Line>>`.

The outer drill loop over units 9..24 is `CreateDrillManifest`. Its body,
one unit's selection and rank loop, is the method `AppendUnit`, so that
each method's proof stays small. The dialogue builder is split the same
way between `CreateDialogueManifest` and `BuildUnit`.

Python's `list.sort(key=..., reverse=True)` and `sorted(dict.keys())` are
built-ins, not loops of the program. They are modelled as pure functions:

- `SortByCommonality` is a stable insertion sort;
- `SortedKeys` picks the smallest key repeatedly.

The drills that the builder accumulates are specified on the blocks of
units 9..24, concatenated (`Flatten(Blocks(...))`).

## Model

| member | source | states |
|---|---|---|
| DrillManifest.CreateDrillManifest | scripts/generate_manifests.py:82-135 | The drill list is the concatenation, in unit order 9..24, of every unit's ranked blocks. `total_drills` is its length. `total_chars_fr` and `total_chars_en` are the sums of the entries' `chars_fr` and `chars_en`, and `total_chars` is their sum. The description, the unit list and `drills_per_unit` are the fixed header. |
| DrillManifest.AppendUnit | scripts/generate_manifests.py:97-130 | One pass of the unit loop appends exactly that unit's entries, and adds exactly their French and English lengths to the running totals. |
| DrillManifest.UnitRangeMeaning | scripts/generate_manifests.py:89 | The unit list contains a number iff it is in 9..24, and lists the units in strictly ascending order. |
| DrillManifest.CandidatesMembers | scripts/generate_manifests.py:99-102 | A drill is a candidate of a unit iff it is in the catalogue, has that unit, and has an id outside the audio mapping. |
| DrillManifest.SortSorted | scripts/generate_manifests.py:105 | The sorted list has non-increasing commonality, with 0 for a drill that has none. |
| DrillManifest.SortPermutes | scripts/generate_manifests.py:105 | The sort is a permutation of its input. |
| DrillManifest.SortStable | scripts/generate_manifests.py:105 | For every commonality value, the drills with that value keep their input order (stability). |
| DrillManifest.SortCount | scripts/generate_manifests.py:105 | For every value k, the number of drills with commonality at least k is unchanged by the sort. |
| DrillManifest.SortProperties | scripts/generate_manifests.py:105 | Summary of the four sort facts above, stated together. |
| DrillManifest.InsertSorted | scripts/generate_manifests.py:105 | Inserting into a non-increasing list keeps it non-increasing. |
| DrillManifest.InsertBelow | scripts/generate_manifests.py:105 | Inserting a drill no more common than c among drills no more common than c yields drills no more common than c. |
| DrillManifest.InsertPermutes | scripts/generate_manifests.py:105 | Insertion adds exactly the inserted drill to the multiset. |
| DrillManifest.InsertStable | scripts/generate_manifests.py:105 | Insertion places the drill before the drills of equal commonality that came after it in the input. |
| DrillManifest.InsertCount | scripts/generate_manifests.py:105 | Insertion preserves, for every k, the count of drills with commonality at least k. |
| DrillManifest.PositionBelowCount | scripts/generate_manifests.py:105-108 | In a non-increasing list, at least p + 1 drills are at least as common as the drill at position p. |
| DrillManifest.Top | scripts/generate_manifests.py:108 | The cut is a prefix of its input. It is the whole list when the list has at most twenty drills, and exactly the first twenty otherwise. |
| DrillManifest.SumsConcat | scripts/generate_manifests.py:128-130 | The character totals of a concatenation are the sums of the parts' totals. |
| DrillProperties.RankedAt | scripts/generate_manifests.py:110-126 | Every entry of a unit was built from the drill at its rank, which lies in 1..n, and that drill has non-empty stripped texts. |
| DrillProperties.RankedIncreasing | scripts/generate_manifests.py:110-115 | Within a unit, ranks strictly increase along the entries. |
| DrillProperties.RankedLength | scripts/generate_manifests.py:110-115 | Ranks 1..n yield at most n entries. |
| DrillProperties.RankedComplete | scripts/generate_manifests.py:110-115 | A ranked drill with text is never skipped: its entry, at its rank, is present. |
| DrillProperties.RankGapExample | scripts/generate_manifests.py:110-115 | A concrete input where a blank first drill is skipped and the second drill keeps rank 2: ranks have gaps. |
| DrillProperties.TopIsSortedCandidates | scripts/generate_manifests.py:99-108 | The top-twenty list is non-increasing in commonality, and holds only catalogue drills of that unit without audio. |
| DrillProperties.TiesKeepInputOrder | scripts/generate_manifests.py:105-108 | For every commonality value, the top-twenty drills with that value are the first of that unit's drills without audio with that value, in catalogue order. |
| DrillProperties.UnitEntryAt | scripts/generate_manifests.py:110-126 | Each entry of a unit's block belongs to that unit and is well formed. |
| DrillProperties.UnitOrderedAt | scripts/generate_manifests.py:105-115 | Two entries of one unit's block are in increasing rank and non-increasing commonality. |
| DrillProperties.UnitShape | scripts/generate_manifests.py:97-126 | One unit's block has at most twenty entries, all well formed and of that unit, in increasing rank and non-increasing commonality. |
| DrillProperties.FlattenMembers | scripts/generate_manifests.py:128 | An entry is in the concatenated blocks iff it is in one of them. |
| DrillProperties.FlattenOrdered | scripts/generate_manifests.py:97 | Blocks of ascending units, each internally ordered, concatenate to an ordered list. |
| DrillProperties.OfUnitConcat | scripts/generate_manifests.py:128 | Selecting a unit's entries distributes over concatenation. |
| DrillProperties.OfUnitFlatten | scripts/generate_manifests.py:97 | A unit's entries in the concatenated blocks are exactly that unit's block. |
| DrillProperties.BlocksShape | scripts/generate_manifests.py:97-126 | Block k holds only entries of unit 9 + k; every block is well formed and ordered. |
| DrillProperties.EntriesWellFormed | scripts/generate_manifests.py:97-126 | Every manifest entry satisfies these conditions: <br>• its unit is in 9..24 and its rank in 1..20; <br>• its id is not in the audio mapping; <br>• its French and English are non-empty; <br>• `chars_fr` and `chars_en` are their lengths; <br>• it was built from a catalogue drill with that id, unit, commonality and stripped texts. |
| DrillProperties.EntriesOrdered | scripts/generate_manifests.py:97-115 | Entries are in ascending unit order. Within a unit, rank strictly increases and commonality does not increase. |
| DrillProperties.UnitBlocks | scripts/generate_manifests.py:97-130 | A unit's entries in the manifest are exactly that unit's block. A unit outside 9..24 has none. |
| DrillProperties.AtMostTwentyPerUnit | scripts/generate_manifests.py:108 | No unit has more than twenty entries in the manifest. |
| DrillProperties.PlaceInSorted | scripts/generate_manifests.py:105 | Every candidate occurs at some position of the sorted list. |
| DrillProperties.PlaceInTop | scripts/generate_manifests.py:105-108 | A candidate with at most twenty candidates at least as common as itself is in the top-twenty list. |
| DrillProperties.UnitIncludes | scripts/generate_manifests.py:99-126 | A drill of the catalogue with that unit and no audio, with non-empty stripped French and English, and with at most twenty drills of its unit without audio (blank or not, itself included) at least as common as itself, has an entry of rank 1..20 in its unit's block. |
| DrillProperties.CommonDrillIncluded | scripts/generate_manifests.py:97-130 | A drill of unit 9..24 that has no audio and has non-empty stripped French and English, and that has at most twenty drills of its unit without audio (blank or not, itself included) at least as common as itself, is in the manifest with a rank in 1..20. |
| Text.StripShape | scripts/generate_manifests.py:111-112 | `strip()` returns a contiguous slice with only whitespace cut from both ends. A non-empty result starts and ends with non-whitespace. |
| Text.StripEmptyIff | scripts/generate_manifests.py:114-115 | A stripped text is empty iff the original is all whitespace, the case in which the drill is skipped. |
| Text.StripIdempotent | scripts/generate_manifests.py:111-112 | Stripping twice is stripping once. |
| Text.TrimStartShape | scripts/generate_manifests.py:111-112 | Left stripping drops a whitespace-only prefix and stops at non-whitespace. |
| Text.TrimEndShape | scripts/generate_manifests.py:111-112 | Right stripping drops a whitespace-only suffix and stops at non-whitespace. |
| DialogueManifest.CreateDialogueManifest | scripts/generate_manifests.py:137-189 | The units are the non-empty unit entries in ascending key order. `total_units` is the number of extracted units. `total_lines` and `total_chars` are the sums of the units' line counts and character totals. The description is the fixed one. |
| DialogueManifest.BuildUnit | scripts/generate_manifests.py:150-182 | The line loop of one unit yields that unit's line entries, and their character sum as its total. |
| DialogueManifest.SortedKeysProperties | scripts/generate_manifests.py:149 | The sorted keys are strictly increasing, contain exactly the dialogue's units, and have one element per unit. |
| DialogueManifest.MinExists | scripts/generate_manifests.py:149 | A non-empty set of unit numbers has a least element. |
| DialogueManifest.CountsAppend | scripts/generate_manifests.py:184-187 | Appending a unit adds its line count and its character total to the manifest totals. |
| DialogueManifest.SumCharsAppend | scripts/generate_manifests.py:181-182 | Appending a line entry adds its `chars` to the unit total. |
| DialogueProperties.LineEntryAt | scripts/generate_manifests.py:158-179 | Every line entry was built from the line at its index, which is in range and not metadata. |
| DialogueProperties.LineIndicesIncreasing | scripts/generate_manifests.py:158 | Indices strictly increase along a unit's lines. They are original positions, not renumbered after skips. |
| DialogueProperties.LineEntriesComplete | scripts/generate_manifests.py:162-164 | A line that is not metadata is never skipped. |
| DialogueProperties.LabelExample | scripts/generate_manifests.py:158-179 | A concrete input: after a skipped metadata line at position 0, the line at position 1 is labelled and the line at position 2 is not. |
| DialogueProperties.UnitLines | scripts/generate_manifests.py:150-182 | Every entry of a unit describes its line: <br>• it copies the speaker and the English text; <br>• `has_speaker_label` holds iff its index is below 2; <br>• `text_to_speak` is `speaker: english` when labelled and `english` otherwise; <br>• `chars` is the length of `text_to_speak`. <br>Indices increase, every spoken line is present, and `total_chars` is the sum of `chars`. |
| DialogueProperties.UnitNonEmptyIff | scripts/generate_manifests.py:162-164 | A unit's entry has lines iff its dialogue has a line that is not metadata. |
| DialogueProperties.UnitsOfMembers | scripts/generate_manifests.py:149-187 | The units are built from listed keys, each non-empty. Every listed key whose entry has lines is among them. |
| DialogueProperties.UnitsOfIncreasing | scripts/generate_manifests.py:149 | Units built from strictly increasing keys are in strictly increasing unit order. |
| DialogueProperties.ManifestLinesDescribed | scripts/generate_manifests.py:149-187 | Every manifest unit meets these conditions: <br>• it is an extracted unit, built from that unit's lines; <br>• it is non-empty; <br>• its total is the sum of its lines' `chars`; <br>• each of its lines describes its original line. |
| DialogueProperties.ManifestUnitsAscending | scripts/generate_manifests.py:149 | Manifest units are in strictly ascending unit order. |
| DialogueProperties.ManifestUnitPresent | scripts/generate_manifests.py:184-187 | A unit appears in the manifest iff it was extracted and has a line that is not metadata. |
| DialogueProperties.ManifestLineComplete | scripts/generate_manifests.py:158-182 | Every non-metadata line of every extracted unit is in the manifest under its unit and index. |
| DialogueProperties.ManifestUnitCount | scripts/generate_manifests.py:143 | The manifest lists no more units than `total_units`, which counts every extracted unit including the omitted ones. |

## Left out

- File input and output are not modelled. This covers `load_drills`, `load_audio_mapping`, the `json.dump` calls and the printing in `main`. The catalogue, the audio mapping's keys and the dialogues are parameters instead.
- `extract_dialogues_from_js` is not modelled: it scrapes the JavaScript course file with regular expressions and a 500-character backward window. Its result is the `dialogues` parameter.
- The budget report in `main` (the 28 800-character limit and its percentages) is not modelled. It is printing plus floating-point division and changes no manifest field.
- `scripts/generate_audio.py` and `scripts/generate_dialogue_english.py` are not part of this model. `generate_audio.py` sends the two manifests to text-to-speech. `generate_dialogue_english.py` extracts and voices the dialogues itself, without the manifests. Both are network, subprocess and file plumbing.
- `id` is required. A drill without `id` raises `KeyError` at line 101 when its unit is in 9..24, and is ignored otherwise.
- Only two drill JSON inputs are modelled: absent keys other than `id`, and a `null` `english` (which reads as empty, as absent does). The calls that would raise instead of producing a manifest are not modelled, for example `.strip()` on a `null` `french_formal`.
- A `null` `commonality` is not modelled. With two or more candidates in its unit the sort raises `TypeError`. As a unit's sole candidate it gives an entry whose `commonality` is `null`. In the model, `None` means the key is absent, which reads as 0.
- `unit` is an integer or absent. A float unit such as `9.0`, which Python's `==` would match to 9, is not modelled.
- Commonality is a `real` rather than a Python float. Comparisons agree for the finite values the catalogue holds; NaN is not modelled.
- `unit_drills.sort(...)` works in place on a local list. The model computes the sorted sequence with a function and reassigns the local variable. No aliasing is involved because the list is fresh.
- Strings are sequences of Unicode scalar values, and `len` counts them as Python does. No encoding is modelled.
