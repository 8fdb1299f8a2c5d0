/**
 * src/components/Game.tsx: the game screen. The pure parts are the
 * selection update and filter, the derived flags and button label, the
 * bestiary cap, the captured-note rule and the brew payload; the handlers
 * `onTraitSelect`, `onBrew`, `onPlayAgain` and the brew stream's callbacks
 * change the screen's state, the memory ledger and the turn controller.
 */
module GameScreen {
  import opened Wrappers
  import opened Json
  import opened Text
  import opened Schemas
  import MoodBackground
  import opened Memory
  import opened JudgmentTurns
  import opened InstrumentStrip

  /** `.slice(-20)` on the bestiary. */
  const BestiaryCap := 20
  /** A captured note is kept only with at least this many characters. */
  const CapturedNoteMin := 20

  datatype Phase = Loading | Drafting | Brewing | Reveal
  datatype Category = Form | Feature | Ability | Flaw

  /** The four selection slots, null until a trait is chosen. */
  datatype Selections = Selections(form: Option<Trait>, feature: Option<Trait>, ability: Option<Trait>, flaw: Option<Trait>)

  const NoSelections := Selections(None, None, None, None)

  function Key(c: Category): string {
    match c
    case Form => "form"
    case Feature => "feature"
    case Ability => "ability"
    case Flaw => "flaw"
  }

  function Slot(s: Selections, c: Category): Option<Trait> {
    match c
    case Form => s.form
    case Feature => s.feature
    case Ability => s.ability
    case Flaw => s.flaw
  }

  /** `{ ...selectionsRef.current, [category]: trait }`: the chosen slot is set and the other three are kept. */
  function Select(s: Selections, c: Category, t: Trait): (r: Selections)
    ensures Slot(r, c) == Some(t)
    ensures forall d :: d != c ==> Slot(r, d) == Slot(s, d)
  {
    match c
    case Form => s.(form := Some(t))
    case Feature => s.(feature := Some(t))
    case Ability => s.(ability := Some(t))
    case Flaw => s.(flaw := Some(t))
  }

  /** `Object.entries(selections)`, in the object's key order. */
  function Entries(s: Selections): seq<(string, Option<Trait>)> {
    [(Key(Form), s.form), (Key(Feature), s.feature), (Key(Ability), s.ability), (Key(Flaw), s.flaw)]
  }

  /** With no null entry the filter keeps everything: putting the nulls back gives the entries again. */
  lemma {:induction false} NonNullKeepsAll(entries: seq<(string, Option<Trait>)>)
    requires forall i :: 0 <= i < |entries| ==> entries[i].1.Some?
    ensures |NonNull(entries)| == |entries|
    ensures AsNullable(NonNull(entries)) == entries
  {
    if entries != [] {
      NonNullKeepsAll(entries[1..]);
      var r := NonNull(entries);
      assert r == [(entries[0].0, entries[0].1.value)] + NonNull(entries[1..]);
      assert AsNullable(r) == [(entries[0].0, Some(entries[0].1.value))] + AsNullable(NonNull(entries[1..]));
      assert [entries[0]] + entries[1..] == entries;
    }
  }

  /** The selections `onTraitSelect` hands to `debounceFetch`. */
  function Selected(s: Selections): seq<(string, Trait)> {
    NonNull(Entries(s))
  }

  function CountSome(xs: seq<Option<Trait>>): (n: nat)
    ensures n <= |xs|
    ensures n == 0 <==> forall i :: 0 <= i < |xs| ==> xs[i].None?
  {
    if xs == [] then 0 else (if xs[0].Some? then 1 else 0) + CountSome(xs[1..])
  }

  /** `[form, feature, ability, flaw].filter(Boolean).length`: how many slots are chosen. */
  function SelectedCount(s: Selections): (n: nat)
    ensures n <= 4
    ensures n == 0 <==> s == NoSelections
  {
    var xs := [s.form, s.feature, s.ability, s.flaw];
    assert (forall i :: 0 <= i < |xs| ==> xs[i].None?) ==> xs[0].None? && xs[1].None? && xs[2].None? && xs[3].None?;
    CountSome([s.form, s.feature, s.ability, s.flaw])
  }

  /** `!!(form && feature && ability && flaw)`: every category's slot is chosen. */
  predicate AllSelected(s: Selections)
    ensures AllSelected(s) <==> forall c :: Slot(s, c).Some?
  {
    assert Slot(s, Form) == s.form && Slot(s, Feature) == s.feature;
    assert Slot(s, Ability) == s.ability && Slot(s, Flaw) == s.flaw;
    s.form.Some? && s.feature.Some? && s.ability.Some? && s.flaw.Some?
  }

  /**
   * `allSelected && !labLoading && labState !== null`: the brew button pulses
   * once all four slots are chosen and the lab has finished a judgment.
   */
  predicate BrewReady(s: Selections, labLoading: bool, labState: Option<PartialJudgment>)
    ensures BrewReady(s, labLoading, labState) <==> SelectedCount(s) == 4 && !labLoading && labState.Some?
  {
    SelectionCounts(s);
    AllSelected(s) && !labLoading && labState.Some?
  }

  /**
   * The flag the instrument strip takes: it shows the authorisation banner
   * exactly when the screen is brew-ready, and the pulsing button is then
   * the enabled `BREW SPECIMEN` one.
   */
  lemma BrewReadyAuthorizesStrip(s: Selections, labLoading: bool, labState: Option<PartialJudgment>, reading: Option<string>)
    ensures StripContent(reading, BrewReady(s, labLoading, labState)).BrewAuthorized? <==>
            SelectedCount(s) == 4 && !labLoading && labState.Some?
    ensures BrewReady(s, labLoading, labState) ==> ButtonLabel(s) == "BREW SPECIMEN"
  {
    SelectionCounts(s);
  }

  /**
   * The three views of the slots agree: the filtered entries number
   * `selectedCount`, which is 4 exactly when `allSelected` holds.
   */
  lemma SelectionCounts(s: Selections)
    ensures |Selected(s)| == SelectedCount(s) <= 4
    ensures AllSelected(s) <==> SelectedCount(s) == 4
  {
    var e := Entries(s);
    assert e[1..] == [e[1], e[2], e[3]] && e[1..][1..] == [e[2], e[3]] && e[1..][1..][1..] == [e[3]];
    assert |NonNull([e[3]])| == (if s.flaw.Some? then 1 else 0);
    assert |NonNull([e[2], e[3]])| == (if s.ability.Some? then 1 else 0) + |NonNull([e[3]])|;
    assert |NonNull([e[1], e[2], e[3]])| == (if s.feature.Some? then 1 else 0) + |NonNull([e[2], e[3]])|;
    var c := [s.form, s.feature, s.ability, s.flaw];
    assert c[1..] == [s.feature, s.ability, s.flaw] && c[1..][1..] == [s.ability, s.flaw] && c[1..][1..][1..] == [s.flaw];
    assert CountSome([s.flaw]) == (if s.flaw.Some? then 1 else 0);
    assert CountSome([s.ability, s.flaw]) == (if s.ability.Some? then 1 else 0) + CountSome([s.flaw]);
    assert CountSome([s.feature, s.ability, s.flaw]) == (if s.feature.Some? then 1 else 0) + CountSome([s.ability, s.flaw]);
  }

  /** The brew button's label. */
  function ButtonLabel(s: Selections): (r: string)
    ensures AllSelected(s) ==> r == "BREW SPECIMEN"
    ensures !AllSelected(s) ==> 1 <= 4 - SelectedCount(s) <= 4 && r == "SELECT " + NatToString(4 - SelectedCount(s)) + " MORE"
  {
    SelectionCounts(s);
    if AllSelected(s) then "BREW SPECIMEN" else "SELECT " + NatToString(4 - SelectedCount(s)) + " MORE"
  }

  /** `Math.floor(Math.random() * 200) + 30` for a random draw in [0, 1). */
  function FieldLogNumber(random: real): (n: int)
    requires 0.0 <= random < 1.0
    ensures 30 <= n <= 229
  {
    (random * 200.0).Floor + 30
  }

  /** `[...prev, creature].slice(-20)`: the newest creature last, at most the last 20 kept. */
  function AppendCapped(bestiary: seq<Creature>, creature: Creature): (r: seq<Creature>)
    ensures |r| == if |bestiary| + 1 <= BestiaryCap then |bestiary| + 1 else BestiaryCap
    ensures r == (bestiary + [creature])[|bestiary| + 1 - |r|..]
    ensures r[|r| - 1] == creature
  {
    var all := bestiary + [creature];
    if |all| <= BestiaryCap then all else all[|all| - BestiaryCap..]
  }

  /** The note `onBrew` captures from the last lab state: present and at least 20 characters. */
  function CapturedNote(last: Option<PartialJudgment>): (r: Option<string>)
    ensures r.Some? <==> last.Some? && last.value.scientistNote.Some? && |last.value.scientistNote.value| >= CapturedNoteMin
    ensures r.Some? ==> r.value == last.value.scientistNote.value
  {
    if last.Some? && last.value.scientistNote.Some? && |last.value.scientistNote.value| >= CapturedNoteMin
    then last.value.scientistNote
    else None
  }

  /** `lastState?.lab_mood`, kept when it is a non-empty string. */
  function CapturedMood(last: Option<PartialJudgment>): (r: Option<string>)
    ensures r.Some? <==> last.Some? && last.value.labMood.Some? && last.value.labMood.value != []
    ensures r.Some? ==> r.value == last.value.labMood.value
  {
    if last.Some? && last.value.labMood.Some? && last.value.labMood.value != [] then last.value.labMood else None
  }

  function OptionList(x: Option<string>): seq<string> {
    if x.Some? then [x.value] else []
  }

  /** `finalNotes` and `finalMoods`: the ledger with the captured note and mood appended. */
  datatype BrewSnapshot = BrewSnapshot(notes: seq<string>, moods: seq<string>)

  function Snapshot(notes: seq<string>, moods: seq<string>, last: Option<PartialJudgment>): (r: BrewSnapshot)
    ensures |r.notes| == |notes| + (if CapturedNote(last).Some? then 1 else 0)
    ensures |r.moods| == |moods| + (if CapturedMood(last).Some? then 1 else 0)
    ensures r.notes[..|notes|] == notes && r.moods[..|moods|] == moods
    ensures CapturedNote(last).Some? ==> r.notes[|notes|] == CapturedNote(last).value
    ensures CapturedMood(last).Some? ==> r.moods[|moods|] == CapturedMood(last).value
  {
    BrewSnapshot(notes + OptionList(CapturedNote(last)), moods + OptionList(CapturedMood(last)))
  }

  /**
   * The body `brewStream.submit` posts to /api/brew. With no null slot it is
   * the encoding of the brew request holding the chosen traits.
   */
  function BrewBody(scenario: string, s: Selections, notes: seq<string>, moods: seq<string>): (r: Json)
    ensures AllSelected(s) ==> r == EncodeBrewRequest(BrewRequest(scenario, Selected(s), notes, moods))
  {
    var body := JObject([("scenario", JString(scenario)), ("selections", JObject(EncodeNullableTraits(Entries(s)))),
                         ("accumulatedNotes", JArray(JStrings(notes))), ("moodTrajectory", JArray(JStrings(moods)))]);
    if AllSelected(s) then
      NonNullKeepsAll(Entries(s));
      EncodeKeepsAll(Selected(s));
      body
    else body
  }

  /** With all four slots chosen and the lists within bounds, the brew route reads back what was sent. */
  lemma BrewBodyAccepted(scenario: string, s: Selections, notes: seq<string>, moods: seq<string>)
    requires AllSelected(s)
    requires 1 <= |scenario| <= MaxScenarioLength
    requires |notes| <= MaxHistoryEntries && |moods| <= MaxHistoryEntries
    ensures ParseBrewRequest(BrewBody(scenario, s, notes, moods)) == Some(BrewRequest(scenario, Selected(s), notes, moods))
  {
    BrewRequestRoundTrip(BrewRequest(scenario, Selected(s), notes, moods));
  }

  /** Encoding the selections with or without their nulls gives the same JSON when there are none. */
  lemma {:induction false} EncodeKeepsAll(sel: seq<(string, Trait)>)
    ensures EncodeNullableTraits(AsNullable(sel)) == EncodeTraits(sel)
  {
    if sel != [] {
      assert AsNullable(sel)[1..] == AsNullable(sel[1..]);
      EncodeKeepsAll(sel[1..]);
    }
  }

  /** A null slot makes the brew route reject the body. */
  lemma BrewBodyRejectsNull(scenario: string, s: Selections, notes: seq<string>, moods: seq<string>)
    requires !AllSelected(s)
    ensures ParseBrewRequest(BrewBody(scenario, s, notes, moods)) == None
  {
    var fs := BrewBody(scenario, s, notes, moods).fields;
    GetAt(fs, 1);
    var sel := EncodeNullableTraits(Entries(s));
    var e := Entries(s);
    assert sel == [(e[0].0, if e[0].1.Some? then EncodeTrait(e[0].1.value) else JNull)]
                + EncodeNullableTraits(e[1..]);
    assert e[1..][1..][1..][1..] == [];
    var i :| 0 <= i < 4 && e[i].1.None?;
    assert sel[i].1 == JNull;
  }

  /** The object `cancelTurn` returns, as `onBrew` reads properties off it. */
  function EncodePartial(p: PartialJudgment): Json {
    JObject(
      (if p.labMood.Some? then [("lab_mood", JString(p.labMood.value))] else []) +
      (if p.color.Some? then [("color", JString(p.color.value))] else []) +
      (if p.reading.Some? then [("reading", JString(p.reading.value))] else []) +
      (if p.scientistNote.Some? then [("scientist_note", JString(p.scientistNote.value))] else []))
  }

  function CancelResultObject(r: CancelResult): Json {
    JObject([("lastState", if r.lastState.Some? then EncodePartial(r.lastState.value) else JNull),
             ("wasActive", JBool(r.wasActive))])
  }

  /**
   * The capture as written at Game.tsx:98-100: the name `lastState` is bound
   * to `cancelTurn`'s whole result, so `scientist_note` is looked up on the
   * `{ lastState, wasActive }` object.
   */
  function CapturedNoteAsWritten(result: CancelResult): (r: Option<string>)
    ensures r.Some? ==> |r.value| >= CapturedNoteMin &&
                        Get(CancelResultObject(result).fields, "scientist_note") == Some(JString(r.value))
  {
    var field := Get(CancelResultObject(result).fields, "scientist_note");
    if field.Some? && field.value.JString? && |field.value.s| >= CapturedNoteMin then Some(field.value.s) else None
  }

  /** `lastState?.lab_mood` as written, on the same object. */
  function CapturedMoodAsWritten(result: CancelResult): (r: Option<string>)
    ensures r.Some? ==> r.value != [] && Get(CancelResultObject(result).fields, "lab_mood") == Some(JString(r.value))
  {
    var field := Get(CancelResultObject(result).fields, "lab_mood");
    if field.Some? && field.value.JString? && field.value.s != [] then Some(field.value.s) else None
  }

  /**
   * As written, a judgment interrupted by the brew never reaches the brew
   * request: whatever the lab state held, nothing is captured, while the
   * corrected reading of `result.lastState` keeps a long enough note.
   */
  lemma AsWrittenCaptureLost(result: CancelResult)
    ensures CapturedNoteAsWritten(result) == None && CapturedMoodAsWritten(result) == None
    ensures result.lastState.Some? && result.lastState.value.scientistNote.Some? &&
            |result.lastState.value.scientistNote.value| >= CapturedNoteMin
            ==> CapturedNote(result.lastState) == result.lastState.value.scientistNote
  {
    GetAbsent(CancelResultObject(result).fields, "scientist_note");
    GetAbsent(CancelResultObject(result).fields, "lab_mood");
  }

  /**
   * A note long enough for the ledger is long enough for the brew capture:
   * a completed judgment worth keeping would be captured whole, note and mood.
   */
  lemma KeptNoteIsCaptured(final: PartialJudgment)
    requires WorthKeeping(final)
    ensures CapturedNote(Some(final)) == final.scientistNote
    ensures CapturedMood(Some(final)) == final.labMood
  {
  }

  /** The ambient-mood guard: a lab colour is applied only when it is `#` and six hex digits. */
  function MoodColor(labState: Option<PartialJudgment>): (r: Option<string>)
    ensures r.Some? <==> labState.Some? && labState.value.color.Some? && MoodBackground.IsHexColor(labState.value.color.value)
    ensures r.Some? ==> r.value == labState.value.color.value
  {
    if labState.Some? && labState.value.color.Some? && MoodBackground.IsHexColor(labState.value.color.value)
    then labState.value.color
    else None
  }

  /** A colour the ambient guard accepts is one the mood background's filter keeps too. */
  lemma MoodColorSurvivesOrbFilter(labState: Option<PartialJudgment>)
    requires MoodColor(labState).Some?
    ensures MoodBackground.ValidColors([MoodColor(labState).value]) == [MoodColor(labState).value]
  {
    var c := MoodColor(labState).value;
    assert [c][1..] == [];
  }

  class Game {
    const memory: ScientistMemory
    const judgment: TurnController
    var phase: Phase
    var selections: Selections
    /** `selectionsRef.current`, refreshed by an effect after each render. */
    var selectionsRef: Selections
    var expandedCategory: Option<Category>
    var fieldLogNumber: int
    var bestiary: seq<Creature>
    /** `bestiaryRef.current`, refreshed by an effect after each render. */
    var bestiaryRef: seq<Creature>
    var brewError: bool
    /** `brewStream.isLoading`. */
    var brewLoading: bool
    /** The current round; the round hook starts from a fallback round, so there always is one. */
    var round: Round

    ghost predicate Valid()
      reads this, judgment
    {
      judgment.Valid()
    }

    /** The first render with the mount effect applied: the field log number is drawn from `random`. */
    constructor (round: Round, random: real,
                 partialParse: string -> Option<PartialJudgment>, strictParse: string -> Option<PartialJudgment>)
      requires 0.0 <= random < 1.0
      ensures Valid()
      ensures fresh(memory) && fresh(judgment)
      ensures phase == Drafting && selections == NoSelections && selectionsRef == NoSelections
      ensures expandedCategory == Some(Form) && fieldLogNumber == FieldLogNumber(random)
      ensures bestiary == [] && bestiaryRef == [] && !brewError && !brewLoading && this.round == round
      ensures memory.notes == [] && memory.moods == [] && judgment.labState == None && !judgment.labLoading
    {
      memory := new ScientistMemory();
      judgment := new TurnController(partialParse, strictParse);
      phase := Drafting;
      selections := NoSelections;
      selectionsRef := NoSelections;
      expandedCategory := Some(Form);
      fieldLogNumber := FieldLogNumber(random);
      bestiary := [];
      bestiaryRef := [];
      brewError := false;
      brewLoading := false;
      this.round := round;
    }

    /**
     * `onTraitSelect`: end the current turn, set the one chosen slot on top of
     * `selectionsRef`, and debounce a judgment for the non-null entries.
     */
    method OnTraitSelect(c: Category, t: Trait) returns (timer: nat)
      requires Valid()
      modifies this, judgment
      ensures Valid()
      ensures selections == Select(old(selectionsRef), c, t)
      ensures judgment.debounceRef == Some(timer) && judgment.timers == map[timer := Selected(selections)]
      ensures judgment.labState == None && !judgment.labLoading
      ensures judgment.aborted == old(judgment.aborted) + (if old(judgment.abortRef).Some? then {old(judgment.abortRef).value} else {})
      ensures judgment.abortRef == old(judgment.abortRef) && judgment.fetches == old(judgment.fetches)
      ensures judgment.judgmentCount == old(judgment.judgmentCount)
      ensures selectionsRef == old(selectionsRef) && phase == old(phase) && bestiary == old(bestiary)
      ensures bestiaryRef == old(bestiaryRef) && expandedCategory == old(expandedCategory)
      ensures fieldLogNumber == old(fieldLogNumber) && brewError == old(brewError)
      ensures brewLoading == old(brewLoading) && round == old(round)
    {
      var _ := judgment.CancelTurn();
      var newSelections := Select(selectionsRef, c, t);
      selections := newSelections;
      timer := judgment.DebounceFetch(Selected(newSelections));
    }

    /** `onNoteAccumulated`: the note and mood go onto the ledger. */
    method OnNoteAccumulated(note: string, mood: string)
      modifies memory
      ensures memory.notes == old(memory.notes) + [note] && memory.moods == old(memory.moods) + [mood]
      ensures memory.notesRef == old(memory.notesRef) && memory.moodsRef == old(memory.moodsRef)
    {
      memory.AddNote(note);
      memory.AddMood(mood);
    }

    /**
     * The debounce timer fires: `fetchMicroJudgment` posts the round's
     * scenario, the ledger as the memory refs hold it and the size of the
     * bestiary ref, so notes added since the last render are not sent yet.
     */
    method FireDebounce(t: nat, interruptionCount: int) returns (gen: nat, body: Json)
      requires Valid() && t in judgment.timers
      modifies judgment
      ensures Valid()
      ensures body == RequestBody(round.scenario, old(judgment.timers)[t], memory.notesRef, memory.moodsRef,
                                  |bestiaryRef|, interruptionCount)
      ensures gen == old(judgment.judgmentCount) + 1 && judgment.abortRef == Some(gen) && judgment.labLoading
      ensures judgment.fetches == old(judgment.fetches)[gen := Fetch(AwaitingResponse, [])]
      ensures judgment.timers == map[] && judgment.labState == old(judgment.labState)
    {
      gen, body := judgment.DebounceFire(t, round.scenario, memory.notesRef, memory.moodsRef, |bestiaryRef|, interruptionCount);
    }

    /** A judgment stream completes; a worthwhile note reaches the ledger exactly once. */
    method JudgmentDone(gen: nat)
      requires Valid() && gen in judgment.fetches && judgment.fetches[gen].stage == Reading
      modifies judgment, memory
      ensures Valid()
      ensures gen !in judgment.fetches
      ensures var final := judgment.strictParse(old(judgment.fetches)[gen].buffer);
        if gen !in old(judgment.aborted) && final.Some? && WorthKeeping(final.value)
        then memory.notes == old(memory.notes) + [final.value.scientistNote.value] &&
             memory.moods == old(memory.moods) + [final.value.labMood.value]
        else memory.notes == old(memory.notes) && memory.moods == old(memory.moods)
      ensures var final := judgment.strictParse(old(judgment.fetches)[gen].buffer);
        judgment.labState == (if gen in old(judgment.aborted) || final.None? then old(judgment.labState) else final)
      ensures judgment.fetches == old(judgment.fetches) - {gen}
      ensures old(judgment.abortRef) == Some(gen) ==> !judgment.labLoading && judgment.abortRef == None
      ensures old(judgment.abortRef) != Some(gen) ==>
        judgment.labLoading == old(judgment.labLoading) && judgment.abortRef == old(judgment.abortRef)
      ensures judgment.aborted == old(judgment.aborted) && judgment.judgmentCount == old(judgment.judgmentCount)
      ensures judgment.timers == old(judgment.timers) && judgment.debounceRef == old(judgment.debounceRef)
      ensures memory.notesRef == old(memory.notesRef) && memory.moodsRef == old(memory.moodsRef)
    {
      var accumulated := judgment.Done(gen);
      if accumulated.Some? {
        OnNoteAccumulated(accumulated.value.0, accumulated.value.1);
      }
    }

    /** The brew stream's `onFinish`: a creature moves to the reveal and joins the capped bestiary. */
    method OnBrewFinish(creature: Option<Creature>)
      modifies this
      ensures !brewLoading
      ensures creature.Some? ==> phase == Reveal && fieldLogNumber == old(fieldLogNumber) + 1 &&
                                 bestiary == AppendCapped(old(bestiary), creature.value)
      ensures creature.None? ==> phase == old(phase) && fieldLogNumber == old(fieldLogNumber) && bestiary == old(bestiary)
      ensures selections == old(selections) && selectionsRef == old(selectionsRef) && bestiaryRef == old(bestiaryRef)
      ensures brewError == old(brewError) && expandedCategory == old(expandedCategory) && round == old(round)
    {
      brewLoading := false;
      if creature.Some? {
        phase := Reveal;
        fieldLogNumber := fieldLogNumber + 1;
        bestiary := AppendCapped(bestiary, creature.value);
      }
    }

    /** The brew stream's `onError`. */
    method OnBrewError()
      modifies this
      ensures brewError && !brewLoading
      ensures phase == old(phase) && bestiary == old(bestiary) && selections == old(selections)
      ensures selectionsRef == old(selectionsRef) && bestiaryRef == old(bestiaryRef)
      ensures fieldLogNumber == old(fieldLogNumber) && expandedCategory == old(expandedCategory) && round == old(round)
    {
      brewError := true;
      brewLoading := false;
    }

    /**
     * `onBrew` with the capture reading `cancelTurn`'s `lastState`: the body
     * sent is built from the ledger as it stood plus the captured note and
     * mood, and equals the ledger once those are added.
     */
    method OnBrew() returns (body: Option<Json>)
      requires Valid()
      modifies this, judgment, memory
      ensures Valid()
      ensures old(brewLoading) ==> body == None && unchanged(this) && unchanged(judgment) && unchanged(memory)
      ensures !old(brewLoading) ==>
        var snap := Snapshot(old(memory.notes), old(memory.moods), old(judgment.labState));
        body == Some(BrewBody(round.scenario, selections, snap.notes, snap.moods)) &&
        memory.notes == snap.notes && memory.moods == snap.moods &&
        phase == Brewing && brewLoading && !brewError && judgment.labState == None && !judgment.labLoading &&
        judgment.timers == map[] && judgment.debounceRef == None
      ensures !old(brewLoading) ==>
        judgment.aborted == old(judgment.aborted) + (if old(judgment.abortRef).Some? then {old(judgment.abortRef).value} else {}) &&
        judgment.abortRef == old(judgment.abortRef) && judgment.fetches == old(judgment.fetches) &&
        judgment.judgmentCount == old(judgment.judgmentCount)
      ensures memory.notesRef == old(memory.notesRef) && memory.moodsRef == old(memory.moodsRef)
      ensures selections == old(selections) && round == old(round) && bestiary == old(bestiary)
      ensures selectionsRef == old(selectionsRef) && bestiaryRef == old(bestiaryRef)
      ensures expandedCategory == old(expandedCategory) && fieldLogNumber == old(fieldLogNumber)
    {
      if brewLoading {
        return None;
      }
      body := StartBrew();
    }

    /** The part of `onBrew` past the loading guard. */
    method StartBrew() returns (body: Option<Json>)
      requires Valid() && !brewLoading
      modifies this, judgment, memory
      ensures Valid()
      ensures var snap := Snapshot(old(memory.notes), old(memory.moods), old(judgment.labState));
        body == Some(BrewBody(round.scenario, selections, snap.notes, snap.moods)) &&
        memory.notes == snap.notes && memory.moods == snap.moods
      ensures phase == Brewing && brewLoading && !brewError && judgment.labState == None && !judgment.labLoading
      ensures judgment.timers == map[] && judgment.debounceRef == None
      ensures judgment.aborted == old(judgment.aborted) + (if old(judgment.abortRef).Some? then {old(judgment.abortRef).value} else {})
      ensures judgment.abortRef == old(judgment.abortRef) && judgment.fetches == old(judgment.fetches)
      ensures judgment.judgmentCount == old(judgment.judgmentCount)
      ensures memory.notesRef == old(memory.notesRef) && memory.moodsRef == old(memory.moodsRef)
      ensures selections == old(selections) && round == old(round) && bestiary == old(bestiary)
      ensures selectionsRef == old(selectionsRef) && bestiaryRef == old(bestiaryRef)
      ensures expandedCategory == old(expandedCategory) && fieldLogNumber == old(fieldLogNumber)
    {
      ghost var snap := Snapshot(memory.notes, memory.moods, judgment.labState);
      var result := judgment.CancelTurn();
      var capturedNote := CapturedNote(result.lastState);
      var capturedMood := CapturedMood(result.lastState);
      var finalNotes := memory.notes + OptionList(capturedNote);
      var finalMoods := memory.moods + OptionList(capturedMood);
      assert finalNotes == snap.notes && finalMoods == snap.moods;
      if capturedNote.Some? {
        memory.AddNote(capturedNote.value);
      }
      if capturedMood.Some? {
        memory.AddMood(capturedMood.value);
      }
      assert memory.notes == finalNotes && memory.moods == finalMoods;
      brewError := false;
      phase := Brewing;
      brewLoading := true;
      body := Some(BrewBody(round.scenario, selections, finalNotes, finalMoods));
    }

    /** `onPlayAgain`: end the turn, clear the slots and the ledger, and wait for a new round. */
    method OnPlayAgain()
      requires Valid()
      modifies this, judgment, memory
      ensures Valid()
      ensures selections == NoSelections && expandedCategory == Some(Form) && phase == Loading && !brewError
      ensures memory.notes == [] && memory.moods == []
      ensures judgment.labState == None && !judgment.labLoading && judgment.timers == map[] && judgment.debounceRef == None
      ensures judgment.aborted == old(judgment.aborted) + (if old(judgment.abortRef).Some? then {old(judgment.abortRef).value} else {})
      ensures judgment.abortRef == old(judgment.abortRef) && judgment.fetches == old(judgment.fetches)
      ensures judgment.judgmentCount == old(judgment.judgmentCount)
      ensures memory.notesRef == old(memory.notesRef) && memory.moodsRef == old(memory.moodsRef)
      ensures bestiary == old(bestiary) && round == old(round) && fieldLogNumber == old(fieldLogNumber)
      ensures selectionsRef == old(selectionsRef) && bestiaryRef == old(bestiaryRef) && brewLoading == old(brewLoading)
    {
      var _ := judgment.CancelTurn();
      selections := NoSelections;
      expandedCategory := Some(Form);
      memory.Clear();
      brewError := false;
      phase := Loading;
    }

    /** The effects that copy state into refs after a render. */
    method SyncRefs()
      modifies this, memory
      ensures selectionsRef == selections == old(selections) && bestiaryRef == bestiary == old(bestiary)
      ensures memory.notesRef == memory.notes == old(memory.notes) && memory.moodsRef == memory.moods == old(memory.moods)
    {
      selectionsRef := selections;
      bestiaryRef := bestiary;
      memory.SyncRefs();
    }
  }
}
