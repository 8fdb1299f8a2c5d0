/**
 * The zod shapes of src/lib/schemas.ts as parse functions over an abstract
 * JSON body: each returns Some(record) when zod's `safeParse` succeeds and
 * None when it fails. Keys a shape does not declare are dropped, as zod's
 * object parsing strips unknown keys.
 */
module Schemas {
  import opened Wrappers
  import opened Json

  const MaxScenarioLength := 2000
  const MaxHistoryEntries := 10

  datatype Trait = Trait(name: string, description: string)

  datatype Round = Round(scenario: string, form: seq<Trait>, feature: seq<Trait>, ability: seq<Trait>, flaw: seq<Trait>)

  /** A complete judgment object. */
  datatype MicroJudgment = MicroJudgment(labMood: string, color: string, reading: string, scientistNote: string)

  /** `Partial<MicroJudgment>`: what the client holds while a judgment streams in. */
  datatype PartialJudgment = PartialJudgment(
    labMood: Option<string>, color: Option<string>, reading: Option<string>, scientistNote: Option<string>)

  datatype Verdict = Triumphant | Mediocre | Catastrophic

  datatype Creature = Creature(
    name: string, species: string, description: string, viabilityScore: real, verdict: Verdict,
    narrative: string, epitaph: string, personality: string, colorPalette: seq<string>)

  datatype MicroJudgmentRequest = MicroJudgmentRequest(
    scenario: string, selections: seq<(string, Option<Trait>)>, priorNotes: seq<string>, priorMoods: seq<string>)

  datatype BrewRequest = BrewRequest(
    scenario: string, selections: seq<(string, Trait)>, accumulatedNotes: seq<string>, moodTrajectory: seq<string>)

  function ParseString(j: Option<Json>): (r: Option<string>)
    ensures r.Some? <==> j.Some? && j.value.JString?
    ensures r.Some? ==> j.value == JString(r.value)
  {
    match j
    case Some(JString(s)) => Some(s)
    case _ => None
  }

  /** TraitSchema: an object with string `name` and `description`. */
  function ParseTrait(j: Json): (r: Option<Trait>)
    ensures r.Some? <==> j.JObject? && ParseString(Get(j.fields, "name")).Some? && ParseString(Get(j.fields, "description")).Some?
  {
    if !j.JObject? then None
    else
      var name := ParseString(Get(j.fields, "name"));
      var description := ParseString(Get(j.fields, "description"));
      if name.Some? && description.Some? then Some(Trait(name.value, description.value)) else None
  }

  function EncodeTrait(t: Trait): Json {
    JObject([("name", JString(t.name)), ("description", JString(t.description))])
  }

  lemma TraitRoundTrip(t: Trait)
    ensures ParseTrait(EncodeTrait(t)) == Some(t)
  {
    var fs := EncodeTrait(t).fields;
    GetAt(fs, 0);
    GetAt(fs, 1);
  }

  /** `z.string().min(1).max(2000)`. */
  function ParseScenario(j: Option<Json>): (r: Option<string>)
    ensures r.Some? ==> 1 <= |r.value| <= MaxScenarioLength && j == Some(JString(r.value))
    ensures (j.Some? && j.value.JString? && 1 <= |j.value.s| <= MaxScenarioLength) ==> r == Some(j.value.s)
  {
    match j
    case Some(JString(s)) => if 1 <= |s| <= MaxScenarioLength then Some(s) else None
    case _ => None
  }

  function ParseStrings(items: seq<Json>): (r: Option<seq<string>>)
    ensures r.Some? <==> forall i :: 0 <= i < |items| ==> items[i].JString?
    ensures r.Some? ==> JStrings(r.value) == items
  {
    if items == [] then Some([])
    else if !items[0].JString? then None
    else
      match ParseStrings(items[1..])
      case Some(rest) =>
        assert items == [items[0]] + items[1..];
        Some([items[0].s] + rest)
      case None => None
  }

  /** `z.array(z.string()).max(10).optional().default([])`: an absent key reads as the empty list. */
  function ParseHistory(j: Option<Json>): (r: Option<seq<string>>)
    ensures j.None? ==> r == Some([])
    ensures r.Some? ==> |r.value| <= MaxHistoryEntries
    ensures r.Some? && j.Some? ==> j.value == JArray(JStrings(r.value))
  {
    match j
    case None => Some([])
    case Some(JArray(items)) =>
      (match ParseStrings(items)
       case Some(xs) => if |xs| <= MaxHistoryEntries then Some(xs) else None
       case None => None)
    case Some(_) => None
  }

  lemma {:induction false} StringsRoundTrip(xs: seq<string>)
    ensures ParseStrings(JStrings(xs)) == Some(xs)
  {
    if xs != [] {
      assert JStrings(xs)[1..] == JStrings(xs[1..]);
      StringsRoundTrip(xs[1..]);
      assert [xs[0]] + xs[1..] == xs;
    }
  }

  /** `TraitSchema.nullable()`: Some(None) for null, Some(Some(t)) for a trait. */
  function ParseNullableTrait(j: Json): Option<Option<Trait>> {
    if j.JNull? then Some(None)
    else match ParseTrait(j)
      case Some(t) => Some(Some(t))
      case None => None
  }

  /** `z.record(z.string(), TraitSchema.nullable())`, entries in key order. */
  function ParseNullableTraits(fields: seq<(string, Json)>): (r: Option<seq<(string, Option<Trait>)>>)
    ensures r.Some? ==> |r.value| == |fields| && forall i :: 0 <= i < |fields| ==> r.value[i].0 == fields[i].0
    ensures r.Some? <==> forall i :: 0 <= i < |fields| ==> ParseNullableTrait(fields[i].1).Some?
  {
    if fields == [] then Some([])
    else if ParseNullableTrait(fields[0].1).None? then None
    else
      match ParseNullableTraits(fields[1..])
      case Some(rest) => Some([(fields[0].0, ParseNullableTrait(fields[0].1).value)] + rest)
      case None => None
  }

  /** `z.record(z.string(), TraitSchema)`: every value must be a trait; null is refused. */
  function ParseTraits(fields: seq<(string, Json)>): (r: Option<seq<(string, Trait)>>)
    ensures r.Some? ==> |r.value| == |fields| && forall i :: 0 <= i < |fields| ==> r.value[i].0 == fields[i].0
    ensures r.Some? <==> forall i :: 0 <= i < |fields| ==> ParseTrait(fields[i].1).Some?
  {
    if fields == [] then Some([])
    else if ParseTrait(fields[0].1).None? then None
    else
      match ParseTraits(fields[1..])
      case Some(rest) => Some([(fields[0].0, ParseTrait(fields[0].1).value)] + rest)
      case None => None
  }

  function EncodeNullableTraits(sel: seq<(string, Option<Trait>)>): (r: seq<(string, Json)>)
    ensures |r| == |sel|
    ensures forall i :: 0 <= i < |sel| ==> r[i].0 == sel[i].0 && (sel[i].1.None? <==> r[i].1 == JNull)
  {
    if sel == [] then []
    else [(sel[0].0, match sel[0].1 case None => JNull case Some(t) => EncodeTrait(t))] + EncodeNullableTraits(sel[1..])
  }

  function EncodeTraits(sel: seq<(string, Trait)>): (r: seq<(string, Json)>)
    ensures |r| == |sel|
  {
    if sel == [] then [] else [(sel[0].0, EncodeTrait(sel[0].1))] + EncodeTraits(sel[1..])
  }

  lemma {:induction false} NullableTraitsRoundTrip(sel: seq<(string, Option<Trait>)>)
    ensures ParseNullableTraits(EncodeNullableTraits(sel)) == Some(sel)
  {
    if sel != [] {
      if sel[0].1.Some? { TraitRoundTrip(sel[0].1.value); }
      assert EncodeNullableTraits(sel)[1..] == EncodeNullableTraits(sel[1..]);
      NullableTraitsRoundTrip(sel[1..]);
      assert [sel[0]] + sel[1..] == sel;
    }
  }

  lemma {:induction false} TraitsRoundTrip(sel: seq<(string, Trait)>)
    ensures ParseTraits(EncodeTraits(sel)) == Some(sel)
  {
    if sel != [] {
      TraitRoundTrip(sel[0].1);
      assert EncodeTraits(sel)[1..] == EncodeTraits(sel[1..]);
      TraitsRoundTrip(sel[1..]);
      assert [sel[0]] + sel[1..] == sel;
    }
  }

  /** What MicroJudgmentRequestSchema guarantees of a request it accepts. */
  /** `.filter(([, t]) => t !== null)` over selection entries: the non-null ones, in order. */
  function NonNull(entries: seq<(string, Option<Trait>)>): (r: seq<(string, Trait)>)
    ensures |r| <= |entries|
    ensures forall i :: 0 <= i < |r| ==> (r[i].0, Some(r[i].1)) in entries
    ensures forall i :: 0 <= i < |entries| && entries[i].1.Some? ==> (entries[i].0, entries[i].1.value) in r
  {
    if entries == [] then []
    else
      var rest := NonNull(entries[1..]);
      assert forall i :: 1 <= i < |entries| ==> entries[i] == entries[1..][i - 1];
      if entries[0].1.Some? then [(entries[0].0, entries[0].1.value)] + rest else rest
  }

  /** A single entry is kept, without its null case, exactly when it is not null. */
  lemma NonNullSingle(category: string, t: Option<Trait>)
    ensures NonNull([(category, t)]) == if t.Some? then [(category, t.value)] else []
  {
    assert [(category, t)][1..] == [];
  }

  /** The filter keeps order: the entries of `a + b` filter to those of `a` followed by those of `b`. */
  lemma {:induction false} NonNullAppend(a: seq<(string, Option<Trait>)>, b: seq<(string, Option<Trait>)>)
    ensures NonNull(a + b) == NonNull(a) + NonNull(b)
  {
    if a == [] {
      assert a + b == b;
    } else {
      assert (a + b)[0] == a[0];
      assert (a + b)[1..] == a[1..] + b;
      NonNullAppend(a[1..], b);
    }
  }

  predicate ValidMicroJudgmentRequest(r: MicroJudgmentRequest) {
    1 <= |r.scenario| <= MaxScenarioLength && |r.priorNotes| <= MaxHistoryEntries && |r.priorMoods| <= MaxHistoryEntries
  }

  /** What BrewRequestSchema guarantees of a request it accepts. */
  predicate ValidBrewRequest(r: BrewRequest) {
    1 <= |r.scenario| <= MaxScenarioLength && |r.accumulatedNotes| <= MaxHistoryEntries && |r.moodTrajectory| <= MaxHistoryEntries
  }

  /** MicroJudgmentRequestSchema.safeParse. */
  function ParseMicroJudgmentRequest(body: Json): (r: Option<MicroJudgmentRequest>)
    ensures r.Some? ==> ValidMicroJudgmentRequest(r.value)
  {
    if !body.JObject? then None
    else
      var fs := body.fields;
      var scenario := ParseScenario(Get(fs, "scenario"));
      var selections := Get(fs, "selections");
      var notes := ParseHistory(Get(fs, "priorNotes"));
      var moods := ParseHistory(Get(fs, "priorMoods"));
      if scenario.None? || selections.None? || !selections.value.JObject? || notes.None? || moods.None? then None
      else
        var parsed := ParseNullableTraits(selections.value.fields);
        if parsed.None? then None
        else Some(MicroJudgmentRequest(scenario.value, parsed.value, notes.value, moods.value))
  }

  /** BrewRequestSchema.safeParse. */
  function ParseBrewRequest(body: Json): (r: Option<BrewRequest>)
    ensures r.Some? ==> ValidBrewRequest(r.value)
  {
    if !body.JObject? then None
    else
      var fs := body.fields;
      var scenario := ParseScenario(Get(fs, "scenario"));
      var selections := Get(fs, "selections");
      var notes := ParseHistory(Get(fs, "accumulatedNotes"));
      var moods := ParseHistory(Get(fs, "moodTrajectory"));
      if scenario.None? || selections.None? || !selections.value.JObject? || notes.None? || moods.None? then None
      else
        var parsed := ParseTraits(selections.value.fields);
        if parsed.None? then None
        else Some(BrewRequest(scenario.value, parsed.value, notes.value, moods.value))
  }

  function EncodeMicroJudgmentRequest(r: MicroJudgmentRequest): Json {
    JObject([("scenario", JString(r.scenario)), ("selections", JObject(EncodeNullableTraits(r.selections))),
             ("priorNotes", JArray(JStrings(r.priorNotes))), ("priorMoods", JArray(JStrings(r.priorMoods)))])
  }

  function EncodeBrewRequest(r: BrewRequest): Json {
    JObject([("scenario", JString(r.scenario)), ("selections", JObject(EncodeTraits(r.selections))),
             ("accumulatedNotes", JArray(JStrings(r.accumulatedNotes))), ("moodTrajectory", JArray(JStrings(r.moodTrajectory)))])
  }

  /** Every request meeting the schema's bounds is accepted and read back unchanged. */
  lemma MicroJudgmentRequestRoundTrip(r: MicroJudgmentRequest)
    requires ValidMicroJudgmentRequest(r)
    ensures ParseMicroJudgmentRequest(EncodeMicroJudgmentRequest(r)) == Some(r)
  {
    var fs := EncodeMicroJudgmentRequest(r).fields;
    GetAt(fs, 0);
    GetAt(fs, 1);
    GetAt(fs, 2);
    GetAt(fs, 3);
    assert ParseScenario(Get(fs, "scenario")) == Some(r.scenario);
    NullableTraitsRoundTrip(r.selections);
    StringsRoundTrip(r.priorNotes);
    assert ParseHistory(Get(fs, "priorNotes")) == Some(r.priorNotes);
    StringsRoundTrip(r.priorMoods);
    assert ParseHistory(Get(fs, "priorMoods")) == Some(r.priorMoods);
  }

  lemma BrewRequestRoundTrip(r: BrewRequest)
    requires ValidBrewRequest(r)
    ensures ParseBrewRequest(EncodeBrewRequest(r)) == Some(r)
  {
    var fs := EncodeBrewRequest(r).fields;
    GetAt(fs, 0);
    GetAt(fs, 1);
    GetAt(fs, 2);
    GetAt(fs, 3);
    assert ParseScenario(Get(fs, "scenario")) == Some(r.scenario);
    TraitsRoundTrip(r.selections);
    StringsRoundTrip(r.accumulatedNotes);
    assert ParseHistory(Get(fs, "accumulatedNotes")) == Some(r.accumulatedNotes);
    StringsRoundTrip(r.moodTrajectory);
    assert ParseHistory(Get(fs, "moodTrajectory")) == Some(r.moodTrajectory);
  }

  /**
   * A key the request shape does not declare has no effect on the parse:
   * the `creatureCount` and `interruptionCount` the client sends are dropped.
   */
  lemma MicroJudgmentRequestIgnoresUndeclared(fs: seq<(string, Json)>, k: string, v: Json)
    requires k != "scenario" && k != "selections" && k != "priorNotes" && k != "priorMoods"
    ensures ParseMicroJudgmentRequest(JObject(fs + [(k, v)])) == ParseMicroJudgmentRequest(JObject(fs))
  {
    GetAppendOther(fs, k, v, "scenario");
    GetAppendOther(fs, k, v, "selections");
    GetAppendOther(fs, k, v, "priorNotes");
    GetAppendOther(fs, k, v, "priorMoods");
  }

  /** A micro-judgment request may leave a category null; a brew request may not. */
  lemma NullSelectionAcceptedOnlyByMicroJudgment(scenario: string, category: string)
    requires 1 <= |scenario| <= MaxScenarioLength
    ensures ParseMicroJudgmentRequest(JObject([("scenario", JString(scenario)), ("selections", JObject([(category, JNull)]))]))
            == Some(MicroJudgmentRequest(scenario, [(category, None)], [], []))
    ensures ParseBrewRequest(JObject([("scenario", JString(scenario)), ("selections", JObject([(category, JNull)]))])) == None
  {
    var fs := [("scenario", JString(scenario)), ("selections", JObject([(category, JNull)]))];
    GetAt(fs, 0);
    GetAt(fs, 1);
    GetAbsent(fs, "priorNotes");
    GetAbsent(fs, "priorMoods");
    GetAbsent(fs, "accumulatedNotes");
    GetAbsent(fs, "moodTrajectory");
    var sel := [(category, JNull)];
    assert sel[1..] == [];
    assert ParseNullableTraits(sel[1..]) == Some([]);
    assert ParseNullableTrait(sel[0].1) == Some(None);
    var expected: seq<(string, Option<Trait>)> := [(category, None)];
    assert expected + [] == expected;
    assert ParseNullableTraits(sel) == Some(expected);
  }

  function VerdictName(v: Verdict): string {
    match v
    case Triumphant => "triumphant"
    case Mediocre => "mediocre"
    case Catastrophic => "catastrophic"
  }

  /** `z.enum(['triumphant', 'mediocre', 'catastrophic'])`. */
  function ParseVerdict(s: string): (r: Option<Verdict>)
    ensures r.Some? <==> s == "triumphant" || s == "mediocre" || s == "catastrophic"
    ensures r.Some? ==> VerdictName(r.value) == s
  {
    if s == "triumphant" then Some(Triumphant)
    else if s == "mediocre" then Some(Mediocre)
    else if s == "catastrophic" then Some(Catastrophic)
    else None
  }

  lemma VerdictRoundTrip(v: Verdict)
    ensures ParseVerdict(VerdictName(v)) == Some(v)
  {
  }

  /** MicroJudgmentSchema: four string fields. */
  function ParseMicroJudgment(j: Json): (r: Option<MicroJudgment>)
    ensures r.Some? <==>
      j.JObject? && ParseString(Get(j.fields, "lab_mood")).Some? && ParseString(Get(j.fields, "color")).Some? &&
      ParseString(Get(j.fields, "reading")).Some? && ParseString(Get(j.fields, "scientist_note")).Some?
    ensures r.Some? ==>
      Get(j.fields, "lab_mood") == Some(JString(r.value.labMood)) && Get(j.fields, "color") == Some(JString(r.value.color)) &&
      Get(j.fields, "reading") == Some(JString(r.value.reading)) &&
      Get(j.fields, "scientist_note") == Some(JString(r.value.scientistNote))
  {
    if !j.JObject? then None
    else
      var mood := ParseString(Get(j.fields, "lab_mood"));
      var color := ParseString(Get(j.fields, "color"));
      var reading := ParseString(Get(j.fields, "reading"));
      var note := ParseString(Get(j.fields, "scientist_note"));
      if mood.None? || color.None? || reading.None? || note.None? then None
      else Some(MicroJudgment(mood.value, color.value, reading.value, note.value))
  }

  function EncodeMicroJudgment(m: MicroJudgment): Json {
    JObject([("lab_mood", JString(m.labMood)), ("color", JString(m.color)), ("reading", JString(m.reading)),
             ("scientist_note", JString(m.scientistNote))])
  }

  lemma MicroJudgmentRoundTrip(m: MicroJudgment)
    ensures ParseMicroJudgment(EncodeMicroJudgment(m)) == Some(m)
  {
    var fs := EncodeMicroJudgment(m).fields;
    GetAt(fs, 0);
    GetAt(fs, 1);
    GetAt(fs, 2);
    GetAt(fs, 3);
  }

  function ParseNumber(j: Option<Json>): (r: Option<real>)
    ensures r.Some? <==> j.Some? && j.value.JNumber?
    ensures r.Some? ==> j.value == JNumber(r.value)
  {
    match j
    case Some(JNumber(n)) => Some(n)
    case _ => None
  }

  function ParseStringArray(j: Option<Json>): (r: Option<seq<string>>)
    ensures r.Some? ==> j == Some(JArray(JStrings(r.value)))
  {
    match j
    case Some(JArray(items)) => ParseStrings(items)
    case _ => None
  }

  /** The `verdict` field: a string naming one of the three verdicts. */
  function ParseVerdictField(j: Option<Json>): (r: Option<Verdict>)
    ensures r.Some? <==> ParseString(j).Some? && ParseVerdict(ParseString(j).value).Some?
    ensures r.Some? ==> j == Some(JString(VerdictName(r.value)))
  {
    var name := ParseString(j);
    if name.None? then None else ParseVerdict(name.value)
  }

  /** CreatureSchema: eight required fields and a list of palette strings of any length. */
  function ParseCreature(j: Json): (r: Option<Creature>)
    ensures r.Some? <==>
      j.JObject? && ParseString(Get(j.fields, "name")).Some? && ParseString(Get(j.fields, "species")).Some? &&
      ParseString(Get(j.fields, "description")).Some? && ParseNumber(Get(j.fields, "viability_score")).Some? &&
      ParseVerdictField(Get(j.fields, "verdict")).Some? && ParseString(Get(j.fields, "narrative")).Some? &&
      ParseString(Get(j.fields, "epitaph")).Some? && ParseString(Get(j.fields, "personality")).Some? &&
      ParseStringArray(Get(j.fields, "color_palette")).Some?
    ensures r.Some? ==>
      Get(j.fields, "name") == Some(JString(r.value.name)) && Get(j.fields, "species") == Some(JString(r.value.species)) &&
      Get(j.fields, "description") == Some(JString(r.value.description)) &&
      Get(j.fields, "viability_score") == Some(JNumber(r.value.viabilityScore)) &&
      Get(j.fields, "verdict") == Some(JString(VerdictName(r.value.verdict))) &&
      Get(j.fields, "narrative") == Some(JString(r.value.narrative)) &&
      Get(j.fields, "epitaph") == Some(JString(r.value.epitaph)) &&
      Get(j.fields, "personality") == Some(JString(r.value.personality)) &&
      Get(j.fields, "color_palette") == Some(JArray(JStrings(r.value.colorPalette)))
  {
    if !j.JObject? then None
    else
      var fs := j.fields;
      var name := ParseString(Get(fs, "name"));
      var species := ParseString(Get(fs, "species"));
      var description := ParseString(Get(fs, "description"));
      var score := ParseNumber(Get(fs, "viability_score"));
      var verdict := ParseVerdictField(Get(fs, "verdict"));
      var narrative := ParseString(Get(fs, "narrative"));
      var epitaph := ParseString(Get(fs, "epitaph"));
      var personality := ParseString(Get(fs, "personality"));
      var palette := ParseStringArray(Get(fs, "color_palette"));
      if name.None? || species.None? || description.None? || score.None? || verdict.None? ||
         narrative.None? || epitaph.None? || personality.None? || palette.None? then None
      else Some(Creature(name.value, species.value, description.value, score.value, verdict.value,
                         narrative.value, epitaph.value, personality.value, palette.value))
  }

  function EncodeCreature(c: Creature): Json {
    JObject([("name", JString(c.name)), ("species", JString(c.species)), ("description", JString(c.description)),
             ("viability_score", JNumber(c.viabilityScore)), ("verdict", JString(VerdictName(c.verdict))),
             ("narrative", JString(c.narrative)), ("epitaph", JString(c.epitaph)),
             ("personality", JString(c.personality)), ("color_palette", JArray(JStrings(c.colorPalette)))])
  }

  /** Each key of an encoded creature holds its field. */
  lemma EncodedCreatureFields(c: Creature)
    ensures var fs := EncodeCreature(c).fields;
      Get(fs, "name") == Some(JString(c.name)) && Get(fs, "species") == Some(JString(c.species)) &&
      Get(fs, "description") == Some(JString(c.description)) &&
      Get(fs, "viability_score") == Some(JNumber(c.viabilityScore)) &&
      Get(fs, "verdict") == Some(JString(VerdictName(c.verdict))) &&
      Get(fs, "narrative") == Some(JString(c.narrative)) && Get(fs, "epitaph") == Some(JString(c.epitaph)) &&
      Get(fs, "personality") == Some(JString(c.personality)) &&
      Get(fs, "color_palette") == Some(JArray(JStrings(c.colorPalette)))
  {
    var fs := EncodeCreature(c).fields;
    GetAt(fs, 0);
    GetAt(fs, 1);
    GetAt(fs, 2);
    GetAt(fs, 3);
    GetAt(fs, 4);
    GetAt(fs, 5);
    GetAt(fs, 6);
    GetAt(fs, 7);
    GetAt(fs, 8);
  }

  lemma CreatureRoundTrip(c: Creature)
    ensures ParseCreature(EncodeCreature(c)) == Some(c)
  {
    var fs := EncodeCreature(c).fields;
    EncodedCreatureFields(c);
    VerdictRoundTrip(c.verdict);
    assert ParseVerdictField(Get(fs, "verdict")) == Some(c.verdict);
    StringsRoundTrip(c.colorPalette);
    assert ParseStringArray(Get(fs, "color_palette")) == Some(c.colorPalette);
  }
}
