# Station 7: a Dafny model of the judgment turn, the memory ledger and their helpers

Station 7 is a browser game. The player drafts four creature traits (form, feature, ability, flaw) for an absurd scenario. After every pick a scientist streams a short "micro-judgment": a lab mood, a colour, an instrument reading and a field note. The notes and moods the scientist keeps form a memory ledger. When all four slots are filled, the player brews the creature. The ledger is then replayed to the brew route, which synthesises the final specimen.

This project models that core in Dafny:

- **`JudgmentTurns`** (`micro_judgment.dfy`) models the turn controller of `useMicroJudgment.ts` as the class `TurnController`.
  - Each `AbortController` is stood for by a generation number: the value of the judgment counter when its fetch started.
  - The awaits of `fetchMicroJudgment` become methods, one per event: `StartFetch`, `Response`, `Chunk`, `Done` and `Fail`.
  - Debouncing is a pair of events, `DebounceFetch` and `DebounceFire`, over a map of pending timers.
  - `CancelTurn` captures the lab state, then clears it.
  - The invariant `Valid` states the stale-generation discipline: a fetch other than the current one has been aborted, and only the current one may be loading. Every method keeps it.
  - Each method's postcondition states that a stale generation leaves `labState`, `labLoading` and `abortRef` alone.
- **`Memory`** (`scientist_memory.dfy`) is the ledger of `useScientistMemory.ts`. It holds two append-only lists and their ref copies, which lag behind until the effects run (`SyncRefs`).
- **`GameScreen`** (`game.dfy`) covers `Game.tsx`.
  - Pure parts: the selection update and filter, `allSelected`/`selectedCount`/`brewReady`, the button label, the bestiary cap, the captured-note rule and the brew body.
  - The `Game` class holds the handlers: `onTraitSelect`, `onBrew`, `onPlayAgain`, and the brew stream's `onFinish` and `onError`.
- **`InstrumentStrip`** is `parseReading` with its round trip, plus the placeholder/brew-ready choice and the gauge width.
- **`RateLimit`** (`middleware.dfy`) is the per-IP sliding-window limiter. It is a class over the `hits` map and `lastCleanup`.
- **Helper and route modules:**
  - `Sanitize`: the prompt-input sanitiser.
  - `Schemas`: the zod request shapes, as parse functions over an abstract `Json` body.
  - `MicroJudgmentRoute` and `BrewRoute`: validation and prompt assembly in the two streaming routes.
  - `PromptParts`: the two template lines both routes share.
  - `Session`: `value.hexsig` tokens.
  - `MoodBackground`: orb colours.
  - Shared helpers: `Text` (trim, split, join, index, decimal), `Json` and `Wrappers`.

**Parameters instead of foreign code.**

- HMAC-SHA-256 is a parameter `mac`.
- `partial-json` and `JSON.parse` are function fields of the controller that return `Option`.
- `Date.now()` and `Math.random()` are parameters.
- A model call is represented by the `system` and `prompt` it would be given.

**The source files disagree with each other in places. Each function is modelled against its own definition:**

- `useScientistMemory.ts:4-5` stores plain strings. `Game.tsx:105` maps `.text` over the notes, and `useMicroJudgment.ts:8-10` expects `NoteEntry` objects and an `interruptionCountRef`. The ledger is modelled as strings.
  - As wired, `memory.refs` has no `interruptionCountRef`, so reading `.current` at `useMicroJudgment.ts:58` throws a `TypeError` before `fetch` is called. The throw happens inside the `try` and is swallowed by the `catch` at `useMicroJudgment.ts:101-102`. So as wired no judgment request is ever sent (see "## Left out").
  - Here the interruption count is a plain parameter of the request body, so the fetch path can be modelled.
- `Game.tsx:48` calls `memory.replaceLastNote`, which the ledger does not define. The interrupt path is not modelled.
- `Game.tsx:52-55` passes two arguments to `useRoundGeneration`, which takes one. Round generation is not modelled. The round is a field that is always present.
- `Game.tsx:98-100` reads `scientist_note` and `lab_mood` off `cancelTurn()`'s result, but that result is `{ lastState, wasActive }` (`useMicroJudgment.ts:116,138`). See "## Findings".
- The client sends the whole ledger as `priorNotes` (`useMicroJudgment.ts:55`), while the route accepts at most ten (`schemas.ts:67`). From the eleventh kept note on, every judgment request is refused (`JudgmentTurns.LongLedgerRejected`).
- The micro-judgment route destructures `creatureCount` from the parsed data, but the schema does not declare it, so zod strips it. The cross-round system suffix is therefore never used (`MicroJudgmentRoute.CreatureCountNeverReachesSystem`).
- In the middleware, `cleanup()` reads the clock after the request's `now`. The two readings are separate parameters of `RateLimiter.Handle`. `RateLimit.CleanupKeepsCount` shows that cleanup does not change the count when the readings agree.

## Model

| member | source | states |
|---|---|---|
| JudgmentTurns.TurnController.constructor | src/hooks/useMicroJudgment.ts:15-26 | The controller starts idle: no lab state, not loading, no controller, counter 0, no timer. |
| JudgmentTurns.TurnController.AtMostOnePendingTimer | src/hooks/useMicroJudgment.ts:142-147 | Under the invariant, at most one debounce timer is pending. |
| JudgmentTurns.TurnController.DebounceFetch | src/hooks/useMicroJudgment.ts:142-147 | The previous timer is cleared. Exactly one timer is pending afterwards, for the given selections, and `debounceRef` names it. The fetch state is unchanged. |
| JudgmentTurns.TurnController.StartFetch | src/hooks/useMicroJudgment.ts:39-47 | The previous controller, if any, is aborted. The counter rises by exactly 1, and the new generation is the only current one and loading. Every other live fetch is aborted. |
| JudgmentTurns.TurnController.DebounceFire | src/hooks/useMicroJudgment.ts:144-146 | The pending timer fires. It starts a fetch as `StartFetch` does, posting `RequestBody` of the selections it was scheduled with. `debounceRef` keeps the fired id. |
| JudgmentTurns.TurnController.Finish | src/hooks/useMicroJudgment.ts:102-107 | The `finally` guard: loading and `abortRef` are reset only when the finishing generation is still current. A stale one changes neither. |
| JudgmentTurns.TurnController.Response | src/hooks/useMicroJudgment.ts:49-63 | A good response enters the read loop with an empty buffer. A bad one goes straight to the guarded `finally`. |
| JudgmentTurns.TurnController.Chunk | src/hooks/useMicroJudgment.ts:69-85 | An aborted fetch leaves the loop with the buffer and `labState` untouched. Otherwise the buffer grows, and `labState` changes only when the tolerant parse yields an object. A stale fetch never changes `labState`. |
| JudgmentTurns.TurnController.Done | src/hooks/useMicroJudgment.ts:87-108 | Unless the fetch was aborted, a successful strict parse becomes `labState`. A note is handed on (at most once) iff it is longer than 50 and the mood is non-empty. A malformed payload leaves the last partial state. Then the guarded `finally` runs. |
| JudgmentTurns.TurnController.Fail | src/hooks/useMicroJudgment.ts:100-108 | A throw goes to the guarded `finally` and changes nothing else. |
| JudgmentTurns.TurnController.CancelTurn | src/hooks/useMicroJudgment.ts:116-139 | Returns the lab state and loading flag from before the call. Aborts the current controller and clears the timer. Afterwards the state is null and loading is false. |
| JudgmentTurns.TurnController.CancelTwice | src/hooks/useMicroJudgment.ts:116-139 | An immediate second cancel returns `{ lastState: null, wasActive: false }`. |
| JudgmentTurns.AsNullable | src/hooks/useMicroJudgment.ts:54 | The selections as sent: same keys in order, every value present. |
| JudgmentTurns.RequestBody | src/hooks/useMicroJudgment.ts:52-59 | The body is an object carrying the scenario, the creature count and the interruption count as sent. |
| JudgmentTurns.RequestBodyAccepted | src/hooks/useMicroJudgment.ts:52-59 | Within the schema's bounds, the route parses the client's body back to exactly the scenario, selections, notes and moods sent. The two undeclared counts are dropped. |
| JudgmentTurns.LongLedgerRejected | src/hooks/useMicroJudgment.ts:55 | With more than ten prior notes, the body the client sends is refused by the request schema. |
| Memory.ScientistMemory.constructor | src/hooks/useScientistMemory.ts:4-9 | Both lists and both refs start empty. |
| Memory.ScientistMemory.AddNote | src/hooks/useScientistMemory.ts:13 | The note goes at the tail. Moods and refs are unchanged. |
| Memory.ScientistMemory.AddMood | src/hooks/useScientistMemory.ts:14 | The mood goes at the tail. Notes and refs are unchanged. |
| Memory.ScientistMemory.Clear | src/hooks/useScientistMemory.ts:16-19 | Both lists become empty. The refs keep their stale values. |
| Memory.ScientistMemory.SyncRefs | src/hooks/useScientistMemory.ts:10-11 | The refs equal the lists only once the effects run. |
| GameScreen.Select | src/components/Game.tsx:67 | The chosen slot holds the trait. The other three are unchanged. |
| Schemas.NonNull | src/components/Game.tsx:71-73 | Every kept pair was an entry and every non-null entry is kept, at most as many as the entries. |
| Schemas.NonNullSingle | src/components/Game.tsx:71-73 | One entry is kept, without its null case, exactly when it is not null. |
| Schemas.NonNullAppend | src/components/Game.tsx:71-73 | The filter keeps order: the entries of `a + b` filter to those of `a`, then those of `b`. With `NonNullSingle`, this fixes the result exactly. |
| GameScreen.NonNullKeepsAll | src/components/Game.tsx:71-73 | With no null entry, the filter keeps every entry in order. |
| GameScreen.SelectionCounts | src/components/Game.tsx:148-149 | The filtered entries number `selectedCount`, at most 4. `allSelected` holds iff that count is 4. |
| GameScreen.SelectedCount | src/components/Game.tsx:149 | At most 4 slots are chosen, and none exactly when every slot is null. |
| GameScreen.AllSelected | src/components/Game.tsx:148 | `allSelected` holds iff every category's slot is chosen. |
| GameScreen.BrewReady | src/components/Game.tsx:150 | Brew-ready iff all 4 slots are chosen, the lab is not loading and it holds a state. |
| GameScreen.BrewReadyAuthorizesStrip | src/components/Game.tsx:150 | The instrument strip shows the authorisation banner exactly when the screen is brew-ready, and a brew-ready button reads `BREW SPECIMEN`. |
| GameScreen.ButtonLabel | src/components/Game.tsx:185 | With all slots chosen: `BREW SPECIMEN`. Otherwise: `SELECT n MORE` with n = 4 - selectedCount, between 1 and 4. |
| GameScreen.FieldLogNumber | src/components/Game.tsx:25 | A draw in [0, 1) gives a field-log number in 30..229. |
| GameScreen.AppendCapped | src/components/Game.tsx:87 | The newest creature is last. The result is the last min(n+1, 20) of old bestiary plus creature. |
| GameScreen.CapturedNote | src/components/Game.tsx:99-100 | A note is captured iff the last state has one of at least 20 characters; it is that note. |
| GameScreen.CapturedMood | src/components/Game.tsx:109 | A mood is captured iff the last state has a non-empty one; it is that mood. |
| GameScreen.Snapshot | src/components/Game.tsx:105-111 | `finalNotes` is the ledger in order plus the captured note last, if any. `finalMoods` is the same with the mood. |
| GameScreen.BrewBodyAccepted | src/components/Game.tsx:119-124 | With all four slots chosen and the lists in bounds, the brew route reads back the scenario, the chosen traits in order, the notes and the moods. |
| GameScreen.BrewBody | src/components/Game.tsx:119-124 | With no null slot, the body sent is the encoding of the brew request holding the selected traits. |
| GameScreen.EncodeKeepsAll | src/components/Game.tsx:121 | Selections with no nulls encode alike whether or not they are typed as nullable. |
| GameScreen.BrewBodyRejectsNull | src/components/Game.tsx:119-124 | A body with a null slot is refused by the brew route. |
| GameScreen.AsWrittenCaptureLost | src/components/Game.tsx:98-100 | As written, neither a note nor a mood is ever captured. The corrected capture keeps a note of 20 or more characters. |
| GameScreen.CapturedNoteAsWritten | src/components/Game.tsx:98-100 | As written: a note is captured only as a string of at least 20 characters found under `scientist_note` on the object `cancelTurn` returns. |
| GameScreen.CapturedMoodAsWritten | src/components/Game.tsx:109 | As written: a mood is captured only as a non-empty string found under `lab_mood` on the object `cancelTurn` returns. |
| GameScreen.MoodColor | src/components/Game.tsx:141 | A lab colour is applied iff it is `#` and six hex digits. |
| GameScreen.MoodColorSurvivesOrbFilter | src/components/Game.tsx:141 | A colour the ambient guard applies is also kept by the mood background's filter. |
| GameScreen.Game.constructor | src/components/Game.tsx:19-31 | The first render: drafting, all slots null, form expanded, empty bestiary, the field-log number drawn from the random value. |
| GameScreen.Game.OnTraitSelect | src/components/Game.tsx:60-76 | The turn is cancelled first: the current fetch is aborted and the lab emptied, while the current controller, the running fetches and the judgment counter are unchanged. Only the chosen slot changes, on top of `selectionsRef`. The one pending timer carries exactly the non-null entries of the new selections. Phase, expanded category, field-log number, brew flags, round, bestiary and both refs are unchanged. |
| GameScreen.Game.OnNoteAccumulated | src/components/Game.tsx:36-40 | The note and the mood are appended to the ledger. |
| GameScreen.Game.JudgmentDone | src/components/Game.tsx:36-40 | A completing judgment adds its note and mood to the ledger exactly when its generation was not aborted (so not cancelled, even if still current), it parsed, and it is worth keeping. The controller ends as `Done` leaves it: the parse becomes `labState` unless aborted or malformed, the fetch is gone, loading and `abortRef` reset only for the current generation, and the abort set, counter, timers, debounce and ledger refs are unchanged. |
| GameScreen.Game.FireDebounce | src/hooks/useMicroJudgment.ts:52-57 | The fired timer posts the round's scenario, its scheduled selections, the notes and moods as the memory refs hold them, and the bestiary ref's size; a fetch for the next generation starts and no timer stays pending. |
| GameScreen.KeptNoteIsCaptured | src/hooks/useMicroJudgment.ts:94 | A judgment worth keeping (note over 50 characters, non-empty mood) would be captured whole by the brew: its note and its mood. |
| GameScreen.Game.OnBrewFinish | src/components/Game.tsx:83-89 | Loading ends. A creature moves to the reveal, bumps the field-log number and joins the capped bestiary; no creature changes nothing else. Selections, error flag, expanded category, round and both refs are unchanged. |
| GameScreen.Game.OnBrewError | src/components/Game.tsx:90-92 | The brew error flag is set and loading ends. Phase, selections, bestiary, field-log number, expanded category, round and both refs are unchanged. |
| GameScreen.Game.OnBrew | src/components/Game.tsx:95-125 | While a brew is loading, nothing happens: the screen, the turn controller and the ledger are all unchanged. Otherwise the body sent is built from the ledger as it stood plus the captured note and mood. The ledger ends equal to that snapshot and the phase is brewing. The turn is cancelled: the current fetch is aborted, its timer and debounce cleared, and the lab emptied; the current controller, the running fetches and the judgment counter are unchanged. Selections, round, bestiary, expanded category, field-log number and all refs are unchanged. |
| GameScreen.Game.StartBrew | src/components/Game.tsx:98-124 | The part past the loading guard, with the same postcondition as `OnBrew`'s second case: the current fetch is aborted, the timer and debounce are cleared, the ledger ends equal to the snapshot, the phase is brewing, and the ledger refs are unchanged. |
| GameScreen.Game.OnPlayAgain | src/components/Game.tsx:128-137 | The turn is cancelled: the current fetch is aborted, its timer and debounce cleared, the lab emptied, and the controller, running fetches and judgment counter unchanged. All slots become null, the ledger is cleared, form is expanded and the phase is loading. Bestiary, round, field-log number, brew loading and all refs are unchanged. |
| GameScreen.Game.SyncRefs | src/components/Game.tsx:28-31 | The selection, bestiary and ledger refs equal their state after the effects. |
| InstrumentStrip.MatchPercent | src/components/InstrumentStrip.tsx:20-24 | A percent exists iff the value is one or more digits then `%`. It is their decimal value, with no clamp. |
| InstrumentStrip.ParsePiece | src/components/InstrumentStrip.tsx:12-26 | A segment is produced iff the trimmed piece has a colon and both trimmed sides of the first colon are non-empty. Its name and value are those trimmed sides, and its percent is that of the value. |
| InstrumentStrip.ColonlessPieceDropped | src/components/InstrumentStrip.tsx:15-16 | A piece with no colon yields no segment. |
| InstrumentStrip.BlankPieceDropped | src/components/InstrumentStrip.tsx:12-13 | A blank piece yields no segment. |
| InstrumentStrip.ParsePieces | src/components/InstrumentStrip.tsx:14-27 | No more segments than pieces, and every segment well formed. |
| InstrumentStrip.ParseReading | src/components/InstrumentStrip.tsx:9-28 | No more segments than `|`-pieces, and every segment well formed. |
| InstrumentStrip.ParsePiecesAppend | src/components/InstrumentStrip.tsx:14-27 | Pieces are parsed independently and in order. |
| InstrumentStrip.ParsePiecesSingle | src/components/InstrumentStrip.tsx:14-27 | A lone piece gives its own segment, or nothing when the callback returns `null`. With `ParsePiecesAppend`, this fixes the result exactly. |
| InstrumentStrip.ParseReadingAppend | src/components/InstrumentStrip.tsx:9-28 | Segments keep input order: those of `a|b` are those of `a`, then those of `b`. |
| InstrumentStrip.ParseReadingSinglePiece | src/components/InstrumentStrip.tsx:9-28 | A reading without `|` gives the segment of its one piece, or none. |
| InstrumentStrip.ParseReadingSkipsNoise | src/components/InstrumentStrip.tsx:15-16 | A `|`-piece without a colon between two others adds nothing to the segments around it. |
| InstrumentStrip.RenderPieces | src/components/InstrumentStrip.tsx:9-28 | Each segment is written as `name: value`. |
| InstrumentStrip.ParseRenderedPiece | src/components/InstrumentStrip.tsx:12-26 | A renderable segment written as `name: value` parses back to itself. |
| InstrumentStrip.ParseRenderedPieces | src/components/InstrumentStrip.tsx:14-27 | The same for a list of segments. |
| InstrumentStrip.ReadingRoundTrip | src/components/InstrumentStrip.tsx:9-28 | Rendering renderable segments joined by `|` and parsing gives them back. |
| InstrumentStrip.StripContent | src/components/InstrumentStrip.tsx:40-51 | The brew banner iff brew-ready. Otherwise, no or empty reading gives the two placeholders, and a reading gives its parse. |
| InstrumentStrip.GaugeWidth | src/components/InstrumentStrip.tsx:71 | The width is max(percent, 2). |
| RateLimit.Recent | src/middleware.ts:33 | Keeps only timestamps with `now - t < 60000`, and every such timestamp, at most as many as given. |
| RateLimit.RecentSingle | src/middleware.ts:33 | One timestamp is kept exactly when it is inside the window. |
| RateLimit.RecentAppend | src/middleware.ts:33 | The filter keeps order: the timestamps of `a + b` filter to those of `a`, then those of `b`. With `RecentSingle`, this fixes the result exactly. |
| RateLimit.RecentAllFresh | src/middleware.ts:16 | A list already inside the window is unchanged by the filter. |
| RateLimit.FilterAfterLaterFilter | src/middleware.ts:16-33 | Filtering again with an earlier or equal clock reading keeps everything. |
| RateLimit.ClientIp | src/middleware.ts:26-28 | With `x-forwarded-for` present, the IP is the text before its first comma, trimmed, or the whole header trimmed when it has no comma; it has no comma and is no longer than the header. Otherwise it is `x-real-ip`, or else `127.0.0.1`. |
| RateLimit.FirstPieceShorter | src/middleware.ts:26 | The first comma piece is no longer than the header. |
| RateLimit.FirstForwardedEntry | src/middleware.ts:26 | For a header `client,rest` with no comma in `client`, the IP is `client` trimmed; later hops are ignored. |
| RateLimit.SingleForwardedEntry | src/middleware.ts:26 | A header with no comma gives the whole header, trimmed. |
| RateLimit.TrimmedForwardedEntry | src/middleware.ts:26 | An unpadded first entry is the IP exactly as it stands. |
| RateLimit.EmptyForwardedForShadowsRealIp | src/middleware.ts:26-27 | A present but empty `x-forwarded-for` gives the empty IP; `x-real-ip` is not consulted. |
| RateLimit.Cleaned | src/middleware.ts:15-22 | Cleanup adds no key, and every key's list becomes its filtered list, deleted when empty. |
| RateLimit.CleanedExactly | src/middleware.ts:15-22 | Any map that agrees with the filtered lists and stores no empty list is the cleaned map. |
| RateLimit.CleanupKeepsCount | src/middleware.ts:31-33 | With equal clock readings, cleanup does not change the count a request sees. |
| RateLimit.RateLimiter.constructor | src/middleware.ts:7-10 | No hits; the cleanup clock starts at load time. |
| RateLimit.RateLimiter.Cleanup | src/middleware.ts:11-23 | Within a window of the last pass, nothing changes. Otherwise every list is filtered, emptied keys are deleted, and `lastCleanup` is now. Every stored list keeps 1 to 30 timestamps. |
| RateLimit.RateLimiter.Handle | src/middleware.ts:25-45 | The cleanup pass runs first: `lastCleanup` moves to the cleanup reading iff a window has passed since the last pass. Then the request is rejected with 429 and `Retry-After: 60` iff the IP already has 30 or more recent timestamps; that path stores nothing. Otherwise the recent timestamps plus `now` are stored. Stored lists stay at most 30 long. |
| Sanitize.StripControl | src/lib/sanitize.ts:9 | No listed control character is left, and the result is no longer than the input. Input without them is returned unchanged. |
| Sanitize.StripControlAppend | src/lib/sanitize.ts:9 | Stripping works character by character and keeps order. |
| Sanitize.StripControlChar | src/lib/sanitize.ts:9 | One character: a listed control character disappears, any other stays. With `StripControlAppend`, this fixes the result exactly. |
| Sanitize.StripControlAround | src/lib/sanitize.ts:9 | In `a + [c] + b`, the character `c` is removed iff it is a listed control character, and the two sides are stripped separately. |
| Sanitize.CollapseNewlines | src/lib/sanitize.ts:11 | The output has no three consecutive line feeds and is no longer than the input. It is empty iff the input is, and it starts with a line feed iff the input does. |
| Sanitize.CollapseNewlinesUnchanged | src/lib/sanitize.ts:11 | A string without a triple line feed is unchanged. |
| Sanitize.CollapseNewlinesKeepsText | src/lib/sanitize.ts:11 | Only line feeds are touched: all other characters survive, in order. |
| Sanitize.CollapseNewlinesAppend | src/lib/sanitize.ts:11 | Where two strings do not meet inside a run of line feeds, they collapse separately. |
| Sanitize.CollapseRun | src/lib/sanitize.ts:11 | A run of `k` line feeds between other characters becomes exactly `\n\n` when `k >= 3`, and is kept when `k` is 1 or 2. |
| Sanitize.SliceTo | src/lib/sanitize.ts:12 | JavaScript `slice(0, n)`: a prefix of length min(n, len), counting back from the end for negative n. |
| Sanitize.SanitizePromptInput | src/lib/sanitize.ts:6-13 | The output is a prefix of the cleaned string, at most `maxLength` long. It has no stripped control character and no triple line feed. |
| Sanitize.SanitizeWithDefault | src/lib/sanitize.ts:6 | With the default limit the output has at most 500 characters, and is the whole cleaned string when that is no longer. It has no stripped control character and no triple line feed. |
| Sanitize.SanitizeUnchanged | src/lib/sanitize.ts:6-13 | Clean input within the limit is returned unchanged. |
| Sanitize.SanitizeIdempotent | src/lib/sanitize.ts:6-13 | Sanitising twice with the same non-negative limit equals sanitising once. |
| Sanitize.SanitizeArray | src/lib/sanitize.ts:15-17 | Same length; element-wise sanitisation in order. |
| Sanitize.SanitizeArrayIdempotent | src/lib/sanitize.ts:15-17 | Sanitising a list twice with the same non-negative limit equals sanitising it once. |
| Schemas.ParseString | src/lib/schemas.ts:6-7 | A string field is accepted iff it is a JSON string. |
| Schemas.ParseTrait | src/lib/schemas.ts:5-8 | A trait is accepted iff it is an object with string `name` and `description`. |
| Schemas.TraitRoundTrip | src/lib/schemas.ts:5-8 | An encoded trait parses back to itself. |
| Schemas.ParseScenario | src/lib/schemas.ts:65 | The scenario is accepted iff it is a string of 1 to 2000 characters. |
| Schemas.ParseStrings | src/lib/schemas.ts:67 | A list is accepted iff all items are strings; it is read in order. |
| Schemas.ParseHistory | src/lib/schemas.ts:67-68 | An absent list reads as `[]`. An accepted one holds at most 10 strings. |
| Schemas.StringsRoundTrip | src/lib/schemas.ts:67-68 | A list of strings encodes and parses back unchanged. |
| Schemas.ParseNullableTraits | src/lib/schemas.ts:66 | A micro-judgment record is accepted iff every value is null or a trait; its keys are kept in order. |
| Schemas.ParseTraits | src/lib/schemas.ts:73 | A brew record is accepted iff every value is a trait (null refused); its keys are kept in order. |
| Schemas.EncodeNullableTraits | src/lib/schemas.ts:66 | Keys are kept, and a slot encodes to null iff it is empty. |
| Schemas.NullableTraitsRoundTrip | src/lib/schemas.ts:66 | Nullable selections encode and parse back unchanged. |
| Schemas.TraitsRoundTrip | src/lib/schemas.ts:73 | Selections encode and parse back unchanged. |
| Schemas.ParseMicroJudgmentRequest | src/lib/schemas.ts:64-69 | An accepted request has a 1 to 2000 character scenario and at most 10 notes and moods. |
| Schemas.ParseBrewRequest | src/lib/schemas.ts:71-76 | An accepted request has a 1 to 2000 character scenario and at most 10 notes and moods. |
| Schemas.MicroJudgmentRequestRoundTrip | src/lib/schemas.ts:64-69 | Every request meeting the bounds is accepted and read back unchanged. |
| Schemas.BrewRequestRoundTrip | src/lib/schemas.ts:71-76 | Every request meeting the bounds is accepted and read back unchanged. |
| Schemas.MicroJudgmentRequestIgnoresUndeclared | src/lib/schemas.ts:64-69 | An undeclared key such as `creatureCount` does not affect the parse. |
| Schemas.NullSelectionAcceptedOnlyByMicroJudgment | src/lib/schemas.ts:64-76 | A null category is accepted by the micro-judgment shape, which defaults the lists to `[]`. The brew shape refuses it. |
| Schemas.ParseVerdict | src/lib/schemas.ts:53 | A verdict is accepted iff it is `triumphant`, `mediocre` or `catastrophic`. |
| Schemas.VerdictRoundTrip | src/lib/schemas.ts:53 | Every verdict's name parses back to it. |
| Schemas.ParseMicroJudgment | src/lib/schemas.ts:28-33 | A judgment is accepted iff the body is an object whose `lab_mood`, `color`, `reading` and `scientist_note` are all strings. Each field is the string stored under its key. |
| Schemas.MicroJudgmentRoundTrip | src/lib/schemas.ts:28-33 | Every judgment encodes and parses back unchanged. |
| Schemas.ParseCreature | src/lib/schemas.ts:48-58 | A creature is accepted iff the body is an object with string name, species, description, narrative, epitaph and personality, a numeric score, a known verdict and a list of strings as palette. Each field is the value stored under its key. |
| Schemas.ParseVerdictField | src/lib/schemas.ts:53 | The field is accepted iff it is a string naming a verdict, and it then holds that verdict's name. |
| Schemas.CreatureRoundTrip | src/lib/schemas.ts:48-58 | Every creature encodes and parses back unchanged. |
| MicroJudgmentRoute.TraitCount | src/app/api/micro-judgment/route.ts:29 | The count of non-null selections, at most the number of selections. |
| MicroJudgmentRoute.TraitLines | src/app/api/micro-judgment/route.ts:22-27 | As many lines as `traitCount`. Line `i` is the trait line of the `i`-th non-null selection, so the lines follow the selections' order. |
| MicroJudgmentRoute.TraitLinesAppend | src/app/api/micro-judgment/route.ts:22-27 | Lines keep the order of the selections. |
| MicroJudgmentRoute.NullSelectionSilent | src/app/api/micro-judgment/route.ts:22-29 | A null selection contributes no line and is not counted. |
| MicroJudgmentRoute.MemoryContext | src/app/api/micro-judgment/route.ts:32-38 | Empty iff there are no prior notes. Otherwise it is the prior-observations header, then the notes numbered from 1 and joined by line feeds, then the trajectory header and the moods joined by ` -> `. |
| MicroJudgmentRoute.ObservationsOnePerLine | src/app/api/micro-judgment/route.ts:35 | One-line notes can be read back line by line: line `k` is `[Observation k]` and the `k`-th note. |
| MicroJudgmentRoute.MemoryContextEndsWithLatestMood | src/app/api/micro-judgment/route.ts:37 | With notes and moods, the context ends with the latest mood. |
| MicroJudgmentRoute.CrossRoundSystem | src/app/api/micro-judgment/route.ts:47-49 | The base prompt unless the count is present and positive. Then the base prompt, the cross-round opening, the count in decimal, ` specimen` for a count of 1 and ` specimens` otherwise, and the closing sentence. |
| MicroJudgmentRoute.CrossRoundOneSpecimen | src/app/api/micro-judgment/route.ts:48 | A count of 1 reads `1 specimen`. |
| MicroJudgmentRoute.CrossRoundTwoSpecimens | src/app/api/micro-judgment/route.ts:48 | A count of 2 reads `2 specimens`. |
| MicroJudgmentRoute.CrossRoundCountReadsBack | src/app/api/micro-judgment/route.ts:48 | The count is written as decimal digits that read back to the count. |
| MicroJudgmentRoute.Prompt | src/app/api/micro-judgment/route.ts:40-45 | The prompt opens with `SCENARIO: `, the scenario and a blank line, and ends with `Provide your updated assessment.` |
| MicroJudgmentRoute.Handle | src/app/api/micro-judgment/route.ts:9-49 | 400 with the error iff the body fails validation. Otherwise the prompt is built from the parsed request and the system prompt is always the base one. |
| MicroJudgmentRoute.CreatureCountNeverReachesSystem | src/app/api/micro-judgment/route.ts:19-49 | A client's creature count never changes the answer: the body is handled as with count 0, with the base system prompt. |
| PromptParts.TraitLines | src/app/api/brew/route.ts:21-25 | One `CATEGORY: name -- description` line per selection, in order. |
| PromptParts.TraitLine | src/app/api/brew/route.ts:23 | The upper-cased category and `: ` open the line, the description ends it, and the length is that of the parts plus six. |
| PromptParts.TraitLineOneLine | src/app/api/brew/route.ts:23 | A trait whose parts have no line feed gives a one-line trait line. |
| PromptParts.TraitLinesAppend | src/app/api/brew/route.ts:21-25 | Lines keep the order of the selections they come from. |
| BrewRoute.MoodContext | src/app/api/brew/route.ts:28-31 | The fresh-assessment sentence for no moods. Otherwise the trajectory header, the moods joined by ` -> `, then `YOU ARRIVED AT:` and the last mood; so it ends with that mood. |
| BrewRoute.MoodContextExtends | src/app/api/brew/route.ts:28-31 | One more mood extends the trajectory by ` -> ` and that mood, and it becomes the mood arrived at. |
| BrewRoute.CappedNotes | src/app/api/brew/route.ts:34 | The last min(6, n) notes, in order. |
| BrewRoute.CappedKeepsNewest | src/app/api/brew/route.ts:34 | Capping drops only older notes. |
| BrewRoute.NotesContext | src/app/api/brew/route.ts:35-38 | Empty iff there are no notes. Otherwise the notes header, then the last six notes numbered from 1 and separated by blank lines. |
| BrewRoute.NotesContextStartsWithOldestKept | src/app/api/brew/route.ts:35-38 | After the header comes the oldest kept note, as observation 1. |
| BrewRoute.NotesContextEndsWithNewest | src/app/api/brew/route.ts:35-38 | The context ends with the newest note, numbered by how many notes were kept. |
| BrewRoute.Prompt | src/app/api/brew/route.ts:40-49 | The prompt opens with `SCENARIO: `, the scenario and a blank line, and ends with the closing instruction. |
| BrewRoute.Handle | src/app/api/brew/route.ts:9-49 | 400 with the error iff the body fails validation. Otherwise the prompt is built from the parsed request. |
| PromptParts.Numbered | src/app/api/brew/route.ts:37 | Notes are numbered `[Observation k]` from the start index, in order. |
| PromptParts.ObservationLine | src/app/api/brew/route.ts:37 | `[Observation ` then decimal digits with no leading zero that read back to the number, `] ` and the note. |
| PromptParts.ObservationLineOneLine | src/app/api/micro-judgment/route.ts:35 | An observation of a one-line note is one line. |
| Session.ToBase16 | src/lib/session.ts:28 | `toString(16)`: lowercase hex digits, one for values below 16 and two below 256. |
| Session.ByteToHex | src/lib/session.ts:28 | Every byte becomes exactly two lowercase hex digits. |
| Session.HexEncode | src/lib/session.ts:27-29 | Two lowercase hex digits per byte, with no dot. |
| Session.HexRoundTrip | src/lib/session.ts:27-29 | The hex rendering loses nothing: decoding gives the bytes back. |
| Session.Sign | src/lib/session.ts:17-31 | The token is the value, a dot, then the hex signature. |
| Session.Verify | src/lib/session.ts:33-39 | Only a token with a dot that is the signature of some value verifies. |
| Session.VerifyNeedsDot | src/lib/session.ts:34-35 | A token without a dot never verifies. |
| Session.SignVerifies | src/lib/session.ts:30-38 | Every signed value verifies, even one containing dots. |
| Session.VerifyIffSigned | src/lib/session.ts:33-39 | A token verifies iff it is the signature of some value. |
| MoodBackground.ValidColors | src/components/MoodBackground.tsx:6-17 | Exactly the `#rrggbb` strings survive the filter. |
| MoodBackground.ValidColorsAppend | src/components/MoodBackground.tsx:17 | The filter keeps order. |
| MoodBackground.OrbColors | src/components/MoodBackground.tsx:5-18 | At least two valid colours: the survivors. Otherwise, or with no list: the two defaults. |
| MoodBackground.OrbStyles | src/components/MoodBackground.tsx:26-33 | Three orbs; orb i is styled iff a colour exists for it. |
| MoodBackground.DefaultsLeaveThirdOrbUnstyled | src/components/MoodBackground.tsx:26-33 | With the defaults, the first two orbs get gradients and the third none. |
| Text.Trim | src/components/InstrumentStrip.tsx:12 | `trim()`: neither end is whitespace, and the result is no longer than the input. |
| Text.TrimPadded | src/components/InstrumentStrip.tsx:12-18 | Trimming a padded trimmed string gives the string back. |
| Text.Split | src/components/InstrumentStrip.tsx:11 | `split` on one character: at least one piece, none containing it, and joining restores the input. |
| Text.SplitAppend | src/components/InstrumentStrip.tsx:11 | Splitting distributes over a separator. |
| Text.SplitJoin | src/components/InstrumentStrip.tsx:11 | Joining separator-free pieces and splitting gives the pieces back. |
| Text.JoinEnds | src/app/api/micro-judgment/route.ts:37 | `join`: the joined string starts with the first piece and ends with the last. |
| Text.Join | src/app/api/brew/route.ts:25 | No pieces join to the empty string. Otherwise the length is that of all pieces plus one separator between each two neighbours. |
| Text.JoinSnoc | src/app/api/micro-judgment/route.ts:37 | `join` with one more piece adds the separator and that piece. With a single piece joining to itself, this fixes `Join`. |
| Text.IndexOf | src/components/InstrumentStrip.tsx:15 | `indexOf`: the first position of the character, or none iff absent. |
| Text.LastIndexOf | src/lib/session.ts:34 | `lastIndexOf`: the last position of the character, or none iff absent. |
| Text.ToUpper | src/app/api/brew/route.ts:23 | `toUpperCase` on ASCII letters: same length, letters raised, others kept. |
| Text.DecimalRoundTrip | src/components/InstrumentStrip.tsx:24 | Rendering a number in decimal and reading it back gives the number. |

## Findings

| source | as written | input that shows it | evidently intended | confidence | as-written member | corrected member |
|---|---|---|---|---|---|---|
| src/components/Game.tsx:98-100 | The name `lastState` is bound to `cancelTurn()`'s whole `{ lastState, wasActive }` result. `lastState?.scientist_note` and `lastState?.lab_mood` are therefore always undefined, and an interrupted judgment's note and mood are never sent to the brew. | Any brew pressed while a judgment with a 20+ character note is on screen, e.g. a last state with `scientist_note` of 40 characters and `lab_mood` "concerned": nothing is captured. | Read the fields off `result.lastState`: capture the note when it has at least 20 characters and the mood when it is non-empty. | not executed | GameScreen.AsWrittenCaptureLost | GameScreen.CapturedNote |

`GameScreen.CapturedNoteAsWritten` and `GameScreen.CapturedMoodAsWritten` model the capture as written. `GameScreen.Game.OnBrew` uses the corrected `CapturedNote` and `CapturedMood`.

## Left out

- Network transport is reduced to explicit events: `fetch`, the stream reader, `TextDecoder`, `streamObject` and `useObject`. Chunk boundaries and decoding of multi-byte characters are not modelled.
- `partial-json`, `JSON.parse` and HMAC-SHA-256 are uninterpreted functions. Zod is modelled only for the shapes listed.
- A request body that is not JSON makes `await req.json()` throw before validation (`src/app/api/micro-judgment/route.ts:10`, `src/app/api/brew/route.ts:10`), so the route answers with a server error, not 400. The model starts from a parsed `Json` value, so this path is not modelled. Parsed JSON that is not an object is refused with 400, as zod refuses it.
- As wired, the fetch path of `useMicroJudgment` is unreachable: the `TypeError` from reading `interruptionCountRef.current` (line 58) is swallowed by the `catch` at lines 101-102. So no request is sent, no note accumulates, and `Response`, `Chunk` and `Done` never run. The model takes the interruption count as a parameter and describes the fetch path as the code around it intends.
- JSON objects are key/value lists in which the last occurrence of a key wins. Key order and duplicate keys in the wire format are not otherwise modelled.
- Timers are events, not durations. `DebounceMs` is recorded but time does not pass. Abort is a set of aborted generations; the `AbortError` thrown into a pending read is the `Fail` event.
- React render batching, effect scheduling and `useCallback` dependencies are left out. The refs are refreshed only by the explicit `SyncRefs` methods. The CSS custom property and all DOM work are left out.
- The unmount cleanup of `useMicroJudgment` (lines 29-34) is left out. It aborts the current controller while loading stays true, which the controller's invariant excludes; after unmount the state is gone anyway.
- `brewStream.isLoading` is approximated by the `brewLoading` field, set by `OnBrew` and cleared by the stream's callbacks.
- Round generation (`useRoundGeneration`, `roundStream.submit`) is left out, and `OnPlayAgain` stops at the loading phase. The `!round` guard is dead because a round always exists.
- The interruption path (`onInterrupt`, `replaceLastNote`, the interruption count) is left out. It is defined in no modelled file.
- String lengths are counted in characters, not UTF-16 code units. `toUpperCase` is modelled on ASCII letters only.
- `parseInt` of a long digit run is an exact natural number; the loss of precision beyond 2^53 is not modelled.
- Prompt constants from the prompts module are parameters (`baseSystem`). The brew route's system prompt and model settings are not part of the response.
- The generate-image and generate-round routes and the presentational components are not part of this model.
- ParsePieces: its own ensures give only the bound and well-formedness. The exact result is fixed by `ParsePiecesSingle` and `ParsePiecesAppend`.
- ParseReading: its own ensures give only the bound and well-formedness. The exact result follows from `ParsePiecesSingle`, `ParsePiecesAppend` and `ParseReadingAppend`. Dropped pieces are covered by `ColonlessPieceDropped`, `BlankPieceDropped` and `ParseReadingSkipsNoise`.
- Recent: its own ensures give membership only. Order and repeated timestamps are fixed by `RecentSingle` and `RecentAppend`.
- NonNull: its own ensures give membership only. Order and repeats are fixed by `NonNullSingle` and `NonNullAppend`.
- StripControl: its own ensures say that no listed control character is left. That each one is removed, rather than replaced, is `StripControlChar` with `StripControlAppend`.
- MicroJudgmentRoute.Prompt: its own ensures give only the opening and the closing line. The middle is stated through `TraitCount`, `TraitLines` and `MemoryContext`.
- BrewRoute.Prompt: its own ensures give only the opening and the closing instruction. The middle is stated through `PromptParts.TraitLines`, `MoodContext` and `NotesContext`.
- Verify: its own ensures give one direction only, that a verified token is some value's signature. The other direction is `SignVerifies`, and both together are `VerifyIffSigned`.
- RequestBody: its own ensures name the scenario and the two counts only. What the route reads back from the body is `RequestBodyAccepted`.
- TraitLine: its own ensures give the head, the tail and the length. The name between them is written as the template says.
- CollapseNewlines: its own ensures say no triple line feed is left. That a run of three or more becomes exactly two, and shorter runs stay, is `CollapseRun` with `CollapseNewlinesAppend`.
