/**
 * src/hooks/useMicroJudgment.ts: the judgment turn controller.
 *
 * Each `AbortController` is stood for by a generation number, the value of
 * the judgment counter when the fetch started; generations are never reused
 * because the counter only grows. The awaits of `fetchMicroJudgment` become
 * events, each a method: the response arriving (`Response`), one more chunk
 * read (`Chunk`), the reader reporting done (`Done`) and the request
 * throwing (`Fail`). The tolerant parser (`partial-json`) and `JSON.parse`
 * are functions fixed at construction whose results are `Option`s.
 * `setTimeout`/`clearTimeout` become a map of pending timers with explicit
 * `DebounceFetch` and `DebounceFire` events.
 */
module JudgmentTurns {
  import opened Wrappers
  import opened Json
  import opened Schemas

  /** A note is handed to `onNoteAccumulated` only when longer than this. */
  const NoteThreshold := 50
  /** The debounce delay in milliseconds; time itself is not modelled, only the fire event. */
  const DebounceMs := 150

  /** Where a fetch is: waiting for `fetch` to resolve, or inside the read loop with its buffer. */
  datatype Stage = AwaitingResponse | Reading
  datatype Fetch = Fetch(stage: Stage, buffer: string)

  /** What `cancelTurn` returns. */
  datatype CancelResult = CancelResult(lastState: Option<PartialJudgment>, wasActive: bool)

  /** The condition on a completed judgment under which `onNoteAccumulated` runs. */
  predicate WorthKeeping(final: PartialJudgment) {
    final.scientistNote.Some? && |final.scientistNote.value| > NoteThreshold &&
    final.labMood.Some? && final.labMood.value != []
  }

  /** The selections as the request body carries them: every entry non-null. */
  function AsNullable(selections: seq<(string, Trait)>): (r: seq<(string, Option<Trait>)>)
    ensures |r| == |selections|
    ensures forall i :: 0 <= i < |r| ==> r[i] == (selections[i].0, Some(selections[i].1))
  {
    if selections == [] then [] else [(selections[0].0, Some(selections[0].1))] + AsNullable(selections[1..])
  }

  /**
   * The JSON body `fetchMicroJudgment` posts to /api/micro-judgment: the
   * declared request fields, then the creature and interruption counts.
   */
  function RequestBody(scenario: string, selections: seq<(string, Trait)>, priorNotes: seq<string>,
                       priorMoods: seq<string>, creatureCount: nat, interruptionCount: int): (r: Json)
    ensures r.JObject?
    ensures Get(r.fields, "creatureCount") == Some(JNumber(creatureCount as real))
    ensures Get(r.fields, "interruptionCount") == Some(JNumber(interruptionCount as real))
    ensures Get(r.fields, "scenario") == Some(JString(scenario))
  {
    var declared := EncodeMicroJudgmentRequest(MicroJudgmentRequest(scenario, AsNullable(selections), priorNotes, priorMoods));
    var withCount := declared.fields + [("creatureCount", JNumber(creatureCount as real))];
    var fields := withCount + [("interruptionCount", JNumber(interruptionCount as real))];
    GetAppendOther(withCount, "interruptionCount", JNumber(interruptionCount as real), "creatureCount");
    GetAppendOther(withCount, "interruptionCount", JNumber(interruptionCount as real), "scenario");
    GetAppendOther(declared.fields, "creatureCount", JNumber(creatureCount as real), "scenario");
    GetAt(declared.fields, 0);
    JObject(fields)
  }

  /**
   * The route reads back exactly what the client sent, minus the two counts
   * the request shape does not declare.
   */
  lemma RequestBodyAccepted(scenario: string, selections: seq<(string, Trait)>, priorNotes: seq<string>,
                            priorMoods: seq<string>, creatureCount: nat, interruptionCount: int)
    requires 1 <= |scenario| <= MaxScenarioLength
    requires |priorNotes| <= MaxHistoryEntries && |priorMoods| <= MaxHistoryEntries
    ensures ParseMicroJudgmentRequest(RequestBody(scenario, selections, priorNotes, priorMoods, creatureCount, interruptionCount))
            == Some(MicroJudgmentRequest(scenario, AsNullable(selections), priorNotes, priorMoods))
  {
    var req := MicroJudgmentRequest(scenario, AsNullable(selections), priorNotes, priorMoods);
    var fs := EncodeMicroJudgmentRequest(req).fields;
    MicroJudgmentRequestIgnoresUndeclared(fs + [("creatureCount", JNumber(creatureCount as real))],
                                          "interruptionCount", JNumber(interruptionCount as real));
    MicroJudgmentRequestIgnoresUndeclared(fs, "creatureCount", JNumber(creatureCount as real));
    MicroJudgmentRequestRoundTrip(req);
  }

  /**
   * The client sends every ledger note; once there are more than ten the
   * route answers 400 and the turn ends without a judgment.
   */
  lemma LongLedgerRejected(scenario: string, selections: seq<(string, Trait)>, priorNotes: seq<string>,
                           priorMoods: seq<string>, creatureCount: nat, interruptionCount: int)
    requires |priorNotes| > MaxHistoryEntries
    ensures ParseMicroJudgmentRequest(RequestBody(scenario, selections, priorNotes, priorMoods, creatureCount, interruptionCount)) == None
  {
    var req := MicroJudgmentRequest(scenario, AsNullable(selections), priorNotes, priorMoods);
    var fs := EncodeMicroJudgmentRequest(req).fields;
    MicroJudgmentRequestIgnoresUndeclared(fs + [("creatureCount", JNumber(creatureCount as real))],
                                          "interruptionCount", JNumber(interruptionCount as real));
    MicroJudgmentRequestIgnoresUndeclared(fs, "creatureCount", JNumber(creatureCount as real));
    GetAt(fs, 2);
  }

  class TurnController {
    /** `partial-json`'s parse, None when it throws or yields no object. */
    const partialParse: string -> Option<PartialJudgment>
    /** `JSON.parse`, None when it throws. */
    const strictParse: string -> Option<PartialJudgment>

    /** `labState` together with `labStateRef`: every write sets both. */
    var labState: Option<PartialJudgment>
    /** `labLoading` together with `labLoadingRef`. */
    var labLoading: bool
    /** `abortRef.current`: the generation of the current controller. */
    var abortRef: Option<nat>
    /** Generations whose controller has been aborted. */
    var aborted: set<nat>
    /** Fetches that have started and not yet run their `finally` block. */
    var fetches: map<nat, Fetch>
    /** `judgmentCountRef` (and the `judgmentKey` it is copied to). */
    var judgmentCount: nat
    /** `debounceRef.current`: the last timer scheduled, fired or not. */
    var debounceRef: Option<nat>
    /** Pending timers with the selections each will fetch for. */
    var timers: map<nat, seq<(string, Trait)>>
    var nextTimer: nat

    ghost predicate Valid()
      reads this
    {
      (forall g :: g in fetches ==> 1 <= g <= judgmentCount) &&
      (forall g :: g in aborted ==> g <= judgmentCount) &&
      (abortRef.Some? ==> abortRef.value == judgmentCount && abortRef.value in fetches) &&
      // a fetch that is not the current one has been aborted
      (forall g :: g in fetches && abortRef != Some(g) ==> g in aborted) &&
      (labLoading ==> abortRef.Some? && abortRef.value !in aborted) &&
      // the only timer that can still be pending is the one in debounceRef
      (forall t :: t in timers ==> debounceRef == Some(t)) &&
      (debounceRef.Some? ==> debounceRef.value < nextTimer)
    }

    constructor (partialParse: string -> Option<PartialJudgment>, strictParse: string -> Option<PartialJudgment>)
      ensures Valid()
      ensures this.partialParse == partialParse && this.strictParse == strictParse
      ensures labState == None && !labLoading && abortRef == None && judgmentCount == 0
      ensures fetches == map[] && aborted == {} && debounceRef == None && timers == map[]
    {
      this.partialParse := partialParse;
      this.strictParse := strictParse;
      labState := None;
      labLoading := false;
      abortRef := None;
      aborted := {};
      fetches := map[];
      judgmentCount := 0;
      debounceRef := None;
      timers := map[];
      nextTimer := 0;
    }

    /** The invariant leaves at most one timer pending. */
    lemma AtMostOnePendingTimer()
      requires Valid()
      ensures |timers.Keys| <= 1
    {
      if timers.Keys != {} {
        var t :| t in timers.Keys;
        assert timers.Keys == {t};
      }
    }

    /** `debounceFetch`: clear the previous timer, then schedule a new one. */
    method DebounceFetch(selections: seq<(string, Trait)>) returns (t: nat)
      requires Valid()
      modifies this
      ensures Valid()
      ensures t == old(nextTimer) && t !in old(timers)
      ensures debounceRef == Some(t) && timers == map[t := selections]
      ensures labState == old(labState) && labLoading == old(labLoading) && abortRef == old(abortRef)
      ensures aborted == old(aborted) && fetches == old(fetches) && judgmentCount == old(judgmentCount)
    {
      if debounceRef.Some? {
        timers := timers - {debounceRef.value};
      }
      assert timers == map[];
      t := nextTimer;
      nextTimer := nextTimer + 1;
      timers := timers[t := selections];
      debounceRef := Some(t);
    }

    /** The first half of `fetchMicroJudgment`, up to the `fetch` call. */
    method StartFetch() returns (gen: nat)
      requires Valid()
      modifies this
      ensures Valid()
      ensures gen == old(judgmentCount) + 1 && judgmentCount == gen && gen !in old(fetches)
      ensures abortRef == Some(gen) && labLoading
      ensures aborted == old(aborted) + (if old(abortRef).Some? then {old(abortRef).value} else {})
      ensures fetches == old(fetches)[gen := Fetch(AwaitingResponse, [])]
      ensures forall g :: g in fetches && g != gen ==> g in aborted
      ensures labState == old(labState) && timers == old(timers) && debounceRef == old(debounceRef)
      ensures nextTimer == old(nextTimer)
    {
      if abortRef.Some? {
        aborted := aborted + {abortRef.value};
      }
      judgmentCount := judgmentCount + 1;
      gen := judgmentCount;
      abortRef := Some(gen);
      labLoading := true;
      fetches := fetches[gen := Fetch(AwaitingResponse, [])];
    }

    /**
     * A pending timer fires and calls `fetchMicroJudgment` with the selections
     * it was scheduled with; `debounceRef` keeps the fired timer's id. The
     * scenario, the memory refs and the bestiary size are read at this point.
     */
    method DebounceFire(t: nat, scenario: string, priorNotes: seq<string>, priorMoods: seq<string>,
                        creatureCount: nat, interruptionCount: int) returns (gen: nat, body: Json)
      requires Valid() && t in timers
      modifies this
      ensures Valid()
      ensures body == RequestBody(scenario, old(timers)[t], priorNotes, priorMoods, creatureCount, interruptionCount)
      ensures timers == map[] && debounceRef == old(debounceRef) == Some(t)
      ensures gen == old(judgmentCount) + 1 && judgmentCount == gen && gen !in old(fetches)
      ensures abortRef == Some(gen) && labLoading
      ensures aborted == old(aborted) + (if old(abortRef).Some? then {old(abortRef).value} else {})
      ensures fetches == old(fetches)[gen := Fetch(AwaitingResponse, [])]
      ensures labState == old(labState)
    {
      var selections := timers[t];
      timers := timers - {t};
      assert timers == map[];
      gen := StartFetch();
      body := RequestBody(scenario, selections, priorNotes, priorMoods, creatureCount, interruptionCount);
    }

    /** The `finally` block: only the current controller resets loading and `abortRef`. */
    method Finish(gen: nat)
      requires Valid() && gen in fetches
      modifies this
      ensures Valid()
      ensures fetches == old(fetches) - {gen}
      ensures old(abortRef) == Some(gen) ==> !labLoading && abortRef == None
      ensures old(abortRef) != Some(gen) ==> labLoading == old(labLoading) && abortRef == old(abortRef)
      ensures labState == old(labState) && aborted == old(aborted) && judgmentCount == old(judgmentCount)
      ensures timers == old(timers) && debounceRef == old(debounceRef) && nextTimer == old(nextTimer)
    {
      if abortRef == Some(gen) {
        labLoading := false;
        abortRef := None;
      }
      fetches := fetches - {gen};
    }

    /** `fetch` resolves: a failed status or missing body returns straight into `finally`. */
    method Response(gen: nat, ok: bool)
      requires Valid() && gen in fetches && fetches[gen].stage == AwaitingResponse
      modifies this
      ensures Valid()
      ensures ok ==> fetches == old(fetches)[gen := Fetch(Reading, [])] && labLoading == old(labLoading) && abortRef == old(abortRef)
      ensures !ok ==> fetches == old(fetches) - {gen}
      ensures !ok && old(abortRef) == Some(gen) ==> !labLoading && abortRef == None
      ensures !ok && old(abortRef) != Some(gen) ==> labLoading == old(labLoading) && abortRef == old(abortRef)
      ensures labState == old(labState) && aborted == old(aborted) && judgmentCount == old(judgmentCount)
      ensures timers == old(timers) && debounceRef == old(debounceRef)
    {
      if ok {
        fetches := fetches[gen := Fetch(Reading, [])];
      } else {
        Finish(gen);
      }
    }

    /**
     * One `reader.read()` yields `text`. An aborted fetch leaves the loop before
     * touching the buffer; otherwise the buffer grows and the tolerant parse,
     * when it yields an object, replaces the lab state.
     */
    method Chunk(gen: nat, text: string)
      requires Valid() && gen in fetches && fetches[gen].stage == Reading
      modifies this
      ensures Valid()
      ensures gen in old(aborted) ==> labState == old(labState) && fetches == old(fetches) - {gen}
      ensures gen in old(aborted) && old(abortRef) == Some(gen) ==> !labLoading && abortRef == None
      ensures gen in old(aborted) && old(abortRef) != Some(gen) ==> labLoading == old(labLoading) && abortRef == old(abortRef)
      ensures gen !in old(aborted) ==>
        var buffer := old(fetches)[gen].buffer + text;
        fetches == old(fetches)[gen := Fetch(Reading, buffer)] &&
        labState == (if partialParse(buffer).Some? then partialParse(buffer) else old(labState)) &&
        labLoading == old(labLoading) && abortRef == old(abortRef)
      ensures old(abortRef) != Some(gen) ==> labState == old(labState)
      ensures aborted == old(aborted) && judgmentCount == old(judgmentCount)
      ensures timers == old(timers) && debounceRef == old(debounceRef)
    {
      if gen in aborted {
        Finish(gen);
      } else {
        var buffer := fetches[gen].buffer + text;
        fetches := fetches[gen := Fetch(Reading, buffer)];
        var partial := partialParse(buffer);
        if partial.Some? {
          labState := partial;
        }
      }
    }

    /**
     * The reader is done. Unless aborted, a strict parse that succeeds becomes
     * the lab state and, when worth keeping, its note and mood are returned
     * for `onNoteAccumulated`; a malformed payload changes nothing. Then `finally`.
     */
    method Done(gen: nat) returns (accumulated: Option<(string, string)>)
      requires Valid() && gen in fetches && fetches[gen].stage == Reading
      modifies this
      ensures Valid()
      ensures fetches == old(fetches) - {gen}
      ensures old(abortRef) == Some(gen) ==> !labLoading && abortRef == None
      ensures old(abortRef) != Some(gen) ==> labLoading == old(labLoading) && abortRef == old(abortRef)
      ensures var final := strictParse(old(fetches)[gen].buffer);
        if gen in old(aborted) || final.None? then labState == old(labState) && accumulated == None
        else labState == final &&
             (accumulated.Some? <==> WorthKeeping(final.value)) &&
             (accumulated.Some? ==> accumulated.value == (final.value.scientistNote.value, final.value.labMood.value))
      ensures old(abortRef) != Some(gen) ==> labState == old(labState) && accumulated == None
      ensures aborted == old(aborted) && judgmentCount == old(judgmentCount)
      ensures timers == old(timers) && debounceRef == old(debounceRef)
    {
      accumulated := None;
      if gen !in aborted {
        var final := strictParse(fetches[gen].buffer);
        if final.Some? {
          labState := final;
          if WorthKeeping(final.value) {
            accumulated := Some((final.value.scientistNote.value, final.value.labMood.value));
          }
        }
      }
      Finish(gen);
    }

    /** The request or the read throws (an `AbortError` or any other error): straight to `finally`. */
    method Fail(gen: nat)
      requires Valid() && gen in fetches
      modifies this
      ensures Valid()
      ensures fetches == old(fetches) - {gen}
      ensures old(abortRef) == Some(gen) ==> !labLoading && abortRef == None
      ensures old(abortRef) != Some(gen) ==> labLoading == old(labLoading) && abortRef == old(abortRef)
      ensures labState == old(labState) && aborted == old(aborted) && judgmentCount == old(judgmentCount)
      ensures timers == old(timers) && debounceRef == old(debounceRef)
    {
      Finish(gen);
    }

    /**
     * `cancelTurn`: capture the lab state and loading flag, abort the current
     * controller, clear the pending timer, then clear the display.
     */
    method CancelTurn() returns (result: CancelResult)
      requires Valid()
      modifies this
      ensures Valid()
      ensures result == CancelResult(old(labState), old(labLoading))
      ensures labState == None && !labLoading && debounceRef == None && timers == map[]
      ensures aborted == old(aborted) + (if old(abortRef).Some? then {old(abortRef).value} else {})
      ensures abortRef == old(abortRef) && fetches == old(fetches) && judgmentCount == old(judgmentCount)
    {
      var wasActive := labLoading;
      if abortRef.Some? {
        aborted := aborted + {abortRef.value};
      }
      if debounceRef.Some? {
        timers := timers - {debounceRef.value};
        debounceRef := None;
      }
      assert timers == map[];
      var lastState := labState;
      labState := None;
      labLoading := false;
      result := CancelResult(lastState, wasActive);
    }

    /** Two cancellations in a row: the second finds nothing to report. */
    method CancelTwice() returns (first: CancelResult, second: CancelResult)
      requires Valid()
      modifies this
      ensures Valid()
      ensures first == CancelResult(old(labState), old(labLoading))
      ensures second == CancelResult(None, false)
    {
      first := CancelTurn();
      second := CancelTurn();
    }
  }
}
