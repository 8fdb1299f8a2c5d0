/**
 * The two template pieces both streaming routes build their prompts from:
 * a trait line `CATEGORY: name -- description` and a numbered observation
 * `[Observation k] note`.
 */
module PromptParts {
  import opened Text
  import opened Schemas

  /** The line both prompts open with: `SCENARIO: ` and the scenario, then a blank line. */
  function ScenarioHead(scenario: string): string {
    "SCENARIO: " + scenario + "\n\n"
  }

  /**
   * `${category.toUpperCase()}: ${trait.name} -- ${trait.description}`: the
   * category in capitals heads the line and the description ends it.
   */
  function TraitLine(category: string, t: Trait): (r: string)
    ensures |r| == |category| + |t.name| + |t.description| + 6
    ensures r[..|category| + 2] == ToUpper(category) + ": "
    ensures r[|r| - |t.description|..] == t.description
  {
    var head := ToUpper(category) + ": ";
    var r := head + t.name + " -- " + t.description;
    assert r == head + (t.name + " -- " + t.description);
    SuffixOfAppend(head + t.name + " -- ", t.description, |t.description|);
    r
  }

  /** A trait whose category, name and description are one line each gives a one-line trait line. */
  lemma TraitLineOneLine(category: string, t: Trait)
    requires '\n' !in category && '\n' !in t.name && '\n' !in t.description
    ensures '\n' !in TraitLine(category, t)
  {
    var upper := ToUpper(category);
    assert forall i :: 0 <= i < |upper| ==> upper[i] != '\n' by {
      forall i | 0 <= i < |upper| ensures upper[i] != '\n' {
        assert category[i] != '\n';
      }
    }
    assert TraitLine(category, t) == upper + ": " + t.name + " -- " + t.description;
  }

  /** Every selection, as a trait line, in input order. */
  function TraitLines(selections: seq<(string, Trait)>): (r: seq<string>)
    ensures |r| == |selections|
    ensures forall i :: 0 <= i < |r| ==> r[i] == TraitLine(selections[i].0, selections[i].1)
  {
    if selections == [] then [] else [TraitLine(selections[0].0, selections[0].1)] + TraitLines(selections[1..])
  }

  /** Lines keep the order of the selections they come from. */
  lemma TraitLinesAppend(a: seq<(string, Trait)>, b: seq<(string, Trait)>)
    ensures TraitLines(a + b) == TraitLines(a) + TraitLines(b)
  {
    var r, s := TraitLines(a + b), TraitLines(a) + TraitLines(b);
    assert |r| == |s|;
    forall i | 0 <= i < |r| ensures r[i] == s[i] {
      if i < |a| {
        assert (a + b)[i] == a[i];
      } else {
        assert (a + b)[i] == b[i - |a|];
      }
    }
  }

  /** `digits` is how `${k}` writes `k`: decimal digits with no leading zero that read back to `k`. */
  predicate Numeral(digits: string, k: nat) {
    AllDigits(digits) && DecimalValue(digits) == k && |digits| >= 1 && (|digits| == 1 || digits[0] != '0')
  }

  /** `[Observation ${k}] ${note}`: the number written in decimal with no leading zero, then the note. */
  function ObservationLine(k: nat, note: string): (r: string)
    ensures exists digits :: (Numeral(digits, k) && r == "[Observation " + digits + "] " + note)
  {
    DecimalRoundTrip(k);
    var digits := NatToString(k);
    assert Numeral(digits, k);
    "[Observation " + digits + "] " + note
  }

  /** An observation of a one-line note is itself one line. */
  lemma ObservationLineOneLine(k: nat, note: string)
    requires '\n' !in note
    ensures '\n' !in ObservationLine(k, note)
  {
    var digits := NatToString(k);
    assert forall i :: 0 <= i < |digits| ==> IsDigit(digits[i]);
  }

  /** `notes.map((note, i) => `[Observation ${i + start}] ${note}`)` */
  function Numbered(notes: seq<string>, start: nat): (r: seq<string>)
    ensures |r| == |notes|
    ensures forall i :: 0 <= i < |notes| ==> r[i] == ObservationLine(start + i, notes[i])
  {
    if notes == [] then [] else [ObservationLine(start, notes[0])] + Numbered(notes[1..], start + 1)
  }
}
