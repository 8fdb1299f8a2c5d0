/**
 * src/app/api/micro-judgment/route.ts: the route that validates a
 * micro-judgment request and assembles the prompt for the streamed model
 * call. The model call itself is not part of this model; a valid request
 * yields the system prompt and prompt it would be given.
 */
module MicroJudgmentRoute {
  import opened Wrappers
  import opened Json
  import opened Text
  import opened Schemas
  import opened PromptParts
  import JudgmentTurns

  const BadRequestStatus := 400
  const InvalidBody := "Invalid request body"

  const MemoryHeader := "\n\nYOUR PRIOR OBSERVATIONS (you said these -- build on them, don't repeat):\n"
  const TrajectoryHeader := "\n\nYOUR EMOTIONAL TRAJECTORY SO FAR: "
  const AssessmentRequest := "\n\nProvide your updated assessment."
  const CrossRoundOpening := "\n\nCROSS-ROUND CONTEXT: You have catalogued "
  const CrossRoundClosing := " before this one. You are not new to this. Let that experience inflect your tone -- weariness, pattern recognition, rising standards, or the creeping suspicion that the universe is testing you."

  datatype Response = BadRequest(status: int, error: string) | Stream(system: string, prompt: string)

  /** `Object.values(selections).filter(t => t !== null).length` */
  function TraitCount(selections: seq<(string, Option<Trait>)>): (n: nat)
    ensures n <= |selections|
  {
    |NonNull(selections)|
  }

  /**
   * The filtered and mapped entries behind `traitsDescription`: one trait line
   * per non-null selection, in the order of the selections.
   */
  function TraitLines(selections: seq<(string, Option<Trait>)>): (r: seq<string>)
    ensures |r| == TraitCount(selections)
    ensures forall i :: 0 <= i < |r| ==> r[i] == TraitLine(NonNull(selections)[i].0, NonNull(selections)[i].1)
  {
    PromptParts.TraitLines(NonNull(selections))
  }

  /** Lines keep the order of the selections they come from. */
  lemma TraitLinesAppend(a: seq<(string, Option<Trait>)>, b: seq<(string, Option<Trait>)>)
    ensures TraitLines(a + b) == TraitLines(a) + TraitLines(b)
  {
    NonNullAppend(a, b);
    PromptParts.TraitLinesAppend(NonNull(a), NonNull(b));
  }

  /** A null selection contributes no line and does not count. */
  lemma NullSelectionSilent(a: seq<(string, Option<Trait>)>, category: string, b: seq<(string, Option<Trait>)>)
    ensures TraitLines(a + [(category, None)] + b) == TraitLines(a + b)
    ensures TraitCount(a + [(category, None)] + b) == TraitCount(a + b)
  {
    var unset: seq<(string, Option<Trait>)> := [(category, None)];
    NonNullAppend(a + unset, b);
    NonNullAppend(a, unset);
    NonNullAppend(a, b);
    NonNullSingle(category, None);
    assert NonNull(a + unset) == NonNull(a) + [] == NonNull(a);
    assert NonNull(a + unset + b) == NonNull(a + b);
  }

  /**
   * `memoryContext`: empty unless there are prior notes; otherwise the notes
   * numbered from 1, one per line, then the moods joined by ` -> `.
   */
  function MemoryContext(priorNotes: seq<string>, priorMoods: seq<string>): (r: string)
    ensures r == [] <==> priorNotes == []
    ensures priorNotes != [] ==> |r| > |MemoryHeader| && r[..|MemoryHeader|] == MemoryHeader
    ensures priorNotes != [] ==>
      r == MemoryHeader + Join(Numbered(priorNotes, 1), "\n") + TrajectoryHeader + Join(priorMoods, " -> ")
  {
    if |priorNotes| > 0
    then MemoryHeader + Join(Numbered(priorNotes, 1), "\n") + TrajectoryHeader + Join(priorMoods, " -> ")
    else ""
  }

  /**
   * One-line prior notes can be read back from the observation block line by
   * line: line `k` is `[Observation k]` and the `k`-th note.
   */
  lemma ObservationsOnePerLine(priorNotes: seq<string>)
    requires priorNotes != []
    requires forall i :: 0 <= i < |priorNotes| ==> '\n' !in priorNotes[i]
    ensures Split(Join(Numbered(priorNotes, 1), "\n"), '\n') == Numbered(priorNotes, 1)
  {
    var lines := Numbered(priorNotes, 1);
    forall i | 0 <= i < |lines| ensures '\n' !in lines[i] {
      ObservationLineOneLine(1 + i, priorNotes[i]);
    }
    SplitJoin(lines, '\n');
  }

  /** The memory context ends with the trajectory, and so with the latest mood. */
  lemma MemoryContextEndsWithLatestMood(priorNotes: seq<string>, priorMoods: seq<string>)
    requires priorNotes != [] && priorMoods != []
    ensures var r := MemoryContext(priorNotes, priorMoods);
      var latest := priorMoods[|priorMoods| - 1];
      |r| >= |latest| && r[|r| - |latest|..] == latest
  {
    var trajectory := Join(priorMoods, " -> ");
    JoinEnds(priorMoods, " -> ");
    var front := MemoryHeader + Join(Numbered(priorNotes, 1), "\n") + TrajectoryHeader;
    assert MemoryContext(priorNotes, priorMoods) == front + trajectory;
    var latest := priorMoods[|priorMoods| - 1];
    SuffixOfAppend(front, trajectory, |latest|);
  }

  /**
   * The cross-round system prompt, for a `creatureCount` that may be absent:
   * a positive count is written in decimal, with "specimen" in the singular
   * exactly when it is 1.
   */
  function CrossRoundSystem(base: string, creatureCount: Option<int>): (r: string)
    ensures creatureCount.None? || creatureCount.value <= 0 ==> r == base
    ensures creatureCount.Some? && creatureCount.value > 0 ==> |r| > |base| && r[..|base|] == base
    ensures creatureCount.Some? && creatureCount.value > 0 ==>
      r == base + CrossRoundOpening + NatToString(creatureCount.value)
           + (if creatureCount.value == 1 then " specimen" else " specimens") + CrossRoundClosing
  {
    if creatureCount.Some? && creatureCount.value > 0 then
      var n := creatureCount.value;
      var noun := " specimen" + (if n == 1 then "" else "s");
      assert noun == if n == 1 then " specimen" else " specimens";
      var r := base + CrossRoundOpening + NatToString(n) + noun + CrossRoundClosing;
      PrefixOfAppend(base, CrossRoundOpening + NatToString(n) + noun + CrossRoundClosing, 0);
      r
    else base
  }

  /** One catalogued creature is "1 specimen". */
  lemma CrossRoundOneSpecimen(base: string)
    ensures CrossRoundSystem(base, Some(1)) == base + CrossRoundOpening + "1 specimen" + CrossRoundClosing
  {
    var digits := NatToString(1);
    assert digits == "1";
    assert digits + " specimen" == "1 specimen";
    AppendAssoc(base + CrossRoundOpening, digits, " specimen");
  }

  /** Two catalogued creatures are "2 specimens". */
  lemma CrossRoundTwoSpecimens(base: string)
    ensures CrossRoundSystem(base, Some(2)) == base + CrossRoundOpening + "2 specimens" + CrossRoundClosing
  {
    var digits := NatToString(2);
    assert digits == "2";
    assert digits + " specimens" == "2 specimens";
    AppendAssoc(base + CrossRoundOpening, digits, " specimens");
  }

  /** The count written into the cross-round context is a decimal numeral that reads back to the count. */
  lemma CrossRoundCountReadsBack(base: string, n: int)
    requires n > 0
    ensures exists digits :: (AllDigits(digits) && DecimalValue(digits) == n &&
      CrossRoundSystem(base, Some(n)) == base + CrossRoundOpening + digits
                                         + (if n == 1 then " specimen" else " specimens") + CrossRoundClosing)
  {
    DecimalRoundTrip(n);
    var digits := NatToString(n);
    assert AllDigits(digits) && DecimalValue(digits) == n;
  }

  /**
   * The user prompt: the scenario first, then the trait block and the memory
   * context, and the request for an assessment last.
   */
  function Prompt(req: MicroJudgmentRequest): (r: string)
    ensures |r| >= |ScenarioHead(req.scenario)| && r[..|ScenarioHead(req.scenario)|] == ScenarioHead(req.scenario)
    ensures |r| >= |AssessmentRequest| && r[|r| - |AssessmentRequest|..] == AssessmentRequest
  {
    var head := ScenarioHead(req.scenario);
    var body := "CURRENTLY SELECTED TRAITS (" + NatToString(TraitCount(req.selections)) + " of 4):\n"
                + Join(TraitLines(req.selections), "\n") + MemoryContext(req.priorNotes, req.priorMoods);
    SuffixOfAppend(head + body, AssessmentRequest, |AssessmentRequest|);
    PrefixOfAppend(head, body + AssessmentRequest, 0);
    AppendAssoc(head, body, AssessmentRequest);
    head + body + AssessmentRequest
  }

  /**
   * `POST`: a body the schema refuses gets 400 and no model call; otherwise the
   * prompt is built from the parsed data, which never holds `creatureCount`,
   * so the system prompt is always the base one.
   */
  function Handle(body: Json, baseSystem: string): (r: Response)
    ensures ParseMicroJudgmentRequest(body).None? <==> r.BadRequest?
    ensures r.BadRequest? ==> r == BadRequest(BadRequestStatus, InvalidBody)
    ensures r.Stream? ==> r.system == baseSystem && r.prompt == Prompt(ParseMicroJudgmentRequest(body).value)
  {
    match ParseMicroJudgmentRequest(body)
    case None => BadRequest(BadRequestStatus, InvalidBody)
    case Some(req) => Stream(CrossRoundSystem(baseSystem, None), Prompt(req))
  }

  /**
   * The client does send a creature count, but it never reaches the system
   * prompt: a request from a player with catalogued specimens is answered
   * exactly as one from a new player.
   */
  lemma CreatureCountNeverReachesSystem(scenario: string, selections: seq<(string, Trait)>, priorNotes: seq<string>,
                                        priorMoods: seq<string>, creatureCount: nat, interruptionCount: int, baseSystem: string)
    requires 1 <= |scenario| <= MaxScenarioLength
    requires |priorNotes| <= MaxHistoryEntries && |priorMoods| <= MaxHistoryEntries
    ensures Handle(JudgmentTurns.RequestBody(scenario, selections, priorNotes, priorMoods, creatureCount, interruptionCount), baseSystem)
            == Handle(JudgmentTurns.RequestBody(scenario, selections, priorNotes, priorMoods, 0, interruptionCount), baseSystem)
    ensures Handle(JudgmentTurns.RequestBody(scenario, selections, priorNotes, priorMoods, creatureCount, interruptionCount), baseSystem)
            == Stream(baseSystem, Prompt(MicroJudgmentRequest(scenario, JudgmentTurns.AsNullable(selections), priorNotes, priorMoods)))
  {
    JudgmentTurns.RequestBodyAccepted(scenario, selections, priorNotes, priorMoods, creatureCount, interruptionCount);
    JudgmentTurns.RequestBodyAccepted(scenario, selections, priorNotes, priorMoods, 0, interruptionCount);
  }
}
