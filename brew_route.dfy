/**
 * src/app/api/brew/route.ts: the route that validates a brew request and
 * assembles the prompt for the final creature. The model call is not part
 * of this model; a valid request yields the prompt it would be given.
 */
module BrewRoute {
  import opened Wrappers
  import opened Json
  import opened Text
  import opened Schemas
  import opened PromptParts

  const BadRequestStatus := 400
  const InvalidBody := "Invalid request body"
  /** `slice(-6)`: at most this many notes reach the prompt. */
  const NoteCap := 6

  const TrajectoryHeader := "YOUR EMOTIONAL TRAJECTORY DURING THE DRAFT PHASE: "
  const ArrivedAt := "\nYOU ARRIVED AT: "
  const FreshAssessment := "No prior observations available -- this is a fresh assessment."
  const NotesHeader := "YOUR ACCUMULATED FIELD NOTES FROM THE DRAFT PHASE:\n"
  const Closing := "Synthesize the complete specimen record. Determine the viability score first, then write everything else in a tone that matches the verdict."

  datatype Response = BadRequest(status: int, error: string) | Stream(prompt: string)

  /** `moodContext`: the trajectory and the last mood, or the fresh-assessment sentence. */
  function MoodContext(moods: seq<string>): (r: string)
    ensures moods == [] ==> r == FreshAssessment
    ensures moods != [] ==> r == TrajectoryHeader + Join(moods, " -> ") + ArrivedAt + moods[|moods| - 1]
    ensures moods != [] ==> |r| >= |ArrivedAt + moods[|moods| - 1]| &&
                            r[|r| - |ArrivedAt + moods[|moods| - 1]|..] == ArrivedAt + moods[|moods| - 1]
  {
    if |moods| > 0 then
      var tail := ArrivedAt + moods[|moods| - 1];
      var r := TrajectoryHeader + Join(moods, " -> ") + tail;
      assert r == (TrajectoryHeader + Join(moods, " -> ")) + tail;
      r
    else FreshAssessment
  }

  /**
   * One more mood extends the trajectory by ` -> ` and that mood, and the mood
   * becomes the one arrived at.
   */
  lemma MoodContextExtends(moods: seq<string>, mood: string)
    requires moods != []
    ensures MoodContext(moods + [mood]) == TrajectoryHeader + (Join(moods, " -> ") + " -> " + mood) + ArrivedAt + mood
  {
    JoinSnoc(moods, mood, " -> ");
    assert (moods + [mood])[|moods + [mood]| - 1] == mood;
  }

  /** `accumulatedNotes.slice(-6)`: the last six notes, or all of them when fewer. */
  function CappedNotes(notes: seq<string>): (r: seq<string>)
    ensures |r| == if |notes| < NoteCap then |notes| else NoteCap
    ensures r == notes[|notes| - |r|..]
  {
    if |notes| <= NoteCap then notes else notes[|notes| - NoteCap..]
  }

  /** Capping drops only the oldest notes: the ledger is whatever was dropped followed by what is kept. */
  lemma CappedKeepsNewest(notes: seq<string>, newer: seq<string>)
    requires |newer| >= NoteCap
    ensures CappedNotes(notes + newer) == CappedNotes(newer)
  {
    var all := notes + newer;
    assert all[|all| - NoteCap..] == newer[|newer| - NoteCap..];
  }

  /** `notesContext`: the kept notes numbered from 1, separated by blank lines; empty with no notes. */
  function NotesContext(notes: seq<string>): (r: string)
    ensures r == [] <==> notes == []
    ensures notes != [] ==> r == NotesHeader + Join(Numbered(CappedNotes(notes), 1), "\n\n")
  {
    var capped := CappedNotes(notes);
    if |capped| > 0 then NotesHeader + Join(Numbered(capped, 1), "\n\n") else ""
  }

  /** The notes context opens with the oldest kept note as observation 1. */
  lemma NotesContextStartsWithOldestKept(notes: seq<string>)
    requires notes != []
    ensures var r := NotesContext(notes);
      var first := NotesHeader + ObservationLine(1, CappedNotes(notes)[0]);
      |r| >= |first| && r[..|first|] == first
  {
    var lines := Numbered(CappedNotes(notes), 1);
    var block := Join(lines, "\n\n");
    JoinEnds(lines, "\n\n");
    assert NotesContext(notes) == NotesHeader + block;
    PrefixOfAppend(NotesHeader, block, |lines[0]|);
  }

  /** The notes context closes with the newest note, numbered by how many notes were kept. */
  lemma NotesContextEndsWithNewest(notes: seq<string>)
    requires notes != []
    ensures var r := NotesContext(notes);
      var last := ObservationLine(|CappedNotes(notes)|, notes[|notes| - 1]);
      |r| >= |last| && r[|r| - |last|..] == last
  {
    var capped := CappedNotes(notes);
    assert capped[|capped| - 1] == notes[|notes| - 1];
    var block := Join(Numbered(capped, 1), "\n\n");
    NumberedBlockEndsWithLast(capped);
    var last := ObservationLine(|capped|, capped[|capped| - 1]);
    assert NotesContext(notes) == NotesHeader + block;
    SuffixOfAppend(NotesHeader, block, |last|);
  }

  /** The numbered block ends with the last note's observation line. */
  lemma NumberedBlockEndsWithLast(capped: seq<string>)
    requires capped != []
    ensures var block := Join(Numbered(capped, 1), "\n\n");
      var last := ObservationLine(|capped|, capped[|capped| - 1]);
      |block| >= |last| && block[|block| - |last|..] == last
  {
    var lines := Numbered(capped, 1);
    JoinEnds(lines, "\n\n");
    assert lines[|lines| - 1] == ObservationLine(|capped|, capped[|capped| - 1]);
  }

  /**
   * The user prompt: the scenario first, then the traits, the mood and note
   * contexts, and the closing instruction last.
   */
  function Prompt(req: BrewRequest): (r: string)
    ensures |r| >= |ScenarioHead(req.scenario)| && r[..|ScenarioHead(req.scenario)|] == ScenarioHead(req.scenario)
    ensures |r| >= |Closing| && r[|r| - |Closing|..] == Closing
  {
    var head := ScenarioHead(req.scenario);
    var body := "CREATURE TRAITS:\n" + Join(TraitLines(req.selections), "\n")
                + "\n\n" + MoodContext(req.moodTrajectory) + "\n\n" + NotesContext(req.accumulatedNotes) + "\n\n";
    SuffixOfAppend(head + body, Closing, |Closing|);
    PrefixOfAppend(head, body + Closing, 0);
    AppendAssoc(head, body, Closing);
    head + body + Closing
  }

  /** `POST`: a body the schema refuses gets 400 and no model call; otherwise the prompt. */
  function Handle(body: Json): (r: Response)
    ensures ParseBrewRequest(body).None? <==> r.BadRequest?
    ensures r.BadRequest? ==> r == BadRequest(BadRequestStatus, InvalidBody)
    ensures r.Stream? ==> r.prompt == Prompt(ParseBrewRequest(body).value)
  {
    match ParseBrewRequest(body)
    case None => BadRequest(BadRequestStatus, InvalidBody)
    case Some(req) => Stream(Prompt(req))
  }
}
