/**
 * src/components/MoodBackground.tsx: which colours the three background
 * orbs get. Strings that are not `#` plus six hex digits are dropped; fewer
 * than two survivors (or no list at all) falls back to the two defaults.
 */
module MoodBackground {
  import opened Wrappers

  const DefaultOrbColors: seq<string> := ["#1a2a3a", "#0d1f0d"]
  const OrbCount := 3

  predicate IsHexDigit(c: char) {
    '0' <= c <= '9' || 'a' <= c <= 'f' || 'A' <= c <= 'F'
  }

  /** `/^#[0-9a-fA-F]{6}$/`. */
  predicate IsHexColor(s: string) {
    |s| == 7 && s[0] == '#' && forall i :: 1 <= i < 7 ==> IsHexDigit(s[i])
  }

  /** `orbColors.filter(c => HEX_REGEX.test(c))`. */
  function ValidColors(colors: seq<string>): (r: seq<string>)
    ensures |r| <= |colors|
    ensures forall c :: c in r <==> c in colors && IsHexColor(c)
  {
    if colors == [] then []
    else (if IsHexColor(colors[0]) then [colors[0]] else []) + ValidColors(colors[1..])
  }

  /** Filtering keeps order: the survivors of a concatenation are those of each part, in turn. */
  lemma {:induction false} ValidColorsAppend(a: seq<string>, b: seq<string>)
    ensures ValidColors(a + b) == ValidColors(a) + ValidColors(b)
  {
    if a == [] {
      assert a + b == b;
    } else {
      assert (a + b)[0] == a[0];
      assert (a + b)[1..] == a[1..] + b;
      ValidColorsAppend(a[1..], b);
    }
  }

  /** The colours used: the valid ones when there are at least two, else the defaults. */
  function OrbColors(orbColors: Option<seq<string>>): (r: seq<string>)
    ensures |r| >= 2
    ensures forall i :: 0 <= i < |r| ==> IsHexColor(r[i])
    ensures orbColors.Some? && |ValidColors(orbColors.value)| >= 2 ==> r == ValidColors(orbColors.value)
    ensures orbColors.None? || |ValidColors(orbColors.value)| < 2 ==> r == DefaultOrbColors
  {
    match orbColors
    case Some(cs) =>
      var valid := ValidColors(cs);
      assert forall i :: 0 <= i < |valid| ==> valid[i] in valid;
      if |valid| >= 2 then valid else DefaultOrbColors
    case None => DefaultOrbColors
  }

  /** The inline style of orb `i`: a radial gradient of its colour, or none. */
  function OrbStyle(colors: seq<string>, i: nat): Option<string> {
    if i < |colors| && colors[i] != "" then Some(Gradient(colors[i])) else None
  }

  function Gradient(color: string): string {
    "radial-gradient(circle, " + color + " 0%, transparent 70%)"
  }

  /** The three orbs' styles. */
  function OrbStyles(orbColors: Option<seq<string>>): (r: seq<Option<string>>)
    ensures |r| == OrbCount
    ensures forall i :: 0 <= i < OrbCount ==> (r[i].Some? <==> i < |OrbColors(orbColors)|)
  {
    var colors := OrbColors(orbColors);
    assert forall i :: 0 <= i < |colors| ==> colors[i] != "" by {
      forall i | 0 <= i < |colors| ensures colors[i] != "" { assert IsHexColor(colors[i]); }
    }
    var r := [OrbStyle(colors, 0), OrbStyle(colors, 1), OrbStyle(colors, 2)];
    assert forall i :: 0 <= i < OrbCount ==> r[i] == OrbStyle(colors, i);
    r
  }

  /** With the default colours the first two orbs are styled and the third is not. */
  lemma DefaultsLeaveThirdOrbUnstyled()
    ensures OrbStyles(None) == [Some(Gradient("#1a2a3a")), Some(Gradient("#0d1f0d")), None]
  {
    assert OrbColors(None) == ["#1a2a3a", "#0d1f0d"];
  }
}
