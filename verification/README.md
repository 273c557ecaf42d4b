# Verification models of Mework's stateful cores

This project models the parts of Mework whose correctness rests on invariants over whole runs, and
proves those invariants for every input and every interleaving. Each group of modules follows one
source file:

- **Chat Completions dialect** (`ChatFrames`, `ChatDialect`, `ChatStreams`, `ChatIdentity`,
  `ChatRouting`, `ChatAcceptance`, `ChatReplay`, `ChatNumbering`, `ChatLegacy`, `ChatRewriter`): the stream pass that
  gives every tool-call fragment an index and one published id. `ChatDialect` is the pass on values,
  `ChatRewriter` the class that updates the per-stream state in place and is proved equal to it,
  `ChatStreams` flattens chunks into fragments, and the others prove what the pass is for: identities
  never move, fragments are kept apart by the ids they were sent with, what has been sent and has come
  out decides which fragment is refused and under which identity the next one comes out, a second pass changes nothing,
  calls are numbered by first appearance, an accepted legacy stream becomes one call.
- **Reasoning-effort step-down** (`EffortLevels`, `EffortChains`, `EffortFallback`, `EffortRuns`,
  `EffortClient`): the bounded retry loop over a ladder of levels and the process-wide memo in front
  of it. `EffortRuns` interleaves any number of calls between their awaits; `EffortClient` is the loop.
- **Icon containers** (`Bytes`, `IcnsRle`, `IconContainers`): the run-length code of `ic04`/`ic05`
  payloads against the decoder its documentation describes, and the `.icns` and `.ico` layouts against
  readers of those formats.
- **Canonical JSON** (`JsText`, `StableJson`, `CanonicalJson`): the serializer behind the
  conversation digests, with a reader that recovers what a value means.
- **Renderer protocols** (`TurnUsage`, `LatestBounds`, `PlanSync`, `ToolPrompts`, `ThemeListener`,
  `BrowserClose`): step systems in which every `await` is a point where any other step may run.
- **Plugin directory** (`PluginDir`): publication of the context plugin, one filesystem step at a
  time, with a trace of every state a crash could leave.

`Base` holds what they share. Code that updates state in place is a class or a method here, proved
against a function on values; the theorems are about those functions and their runs.

## Where the code does less than its text suggests

- The memo of rejected levels is keyed by url, model and level joined with line breaks. Only a level
  with a line break could mislead it (`EffortRuns.MemoAgreesIff`, `EffortRuns.SharedKeyMisleads`), and
  none is sent: the host asks for one of five levels (`src-tauri/src/aisdk/step.rs:421-430`), and what
  is sent instead is one of them too (`EffortFallback.LadderIsNamed`).
- Two calls can come out under one id when the upstream sends an id of the form the normaliser makes
  up itself (`ChatIdentity.ReservedIdsCanCollide`). They do exactly when a step makes up an id already
  published for another slot (`ChatIdentity.BijectionIff`), and exactly then a second pass does
  not leave the output alone (`ChatReplay.NormalizingIsIdempotentIff`). An upstream that stays clear of the form never
  brings it about (`ChatIdentity.UpstreamNeverClashes`).
- The turns of a run add up to its usage at every moment exactly when each report meets its guard: one
  that the running turn takes is no less than that turn's baseline, and one it ignores, because its
  revision was known when the turn began, changes nothing (`TurnUsage.TelescopesIff`). Restarting a
  round (`src/lib/modelStream.ts:139-163`, `1221-1234`) takes usage back under a known revision: within
  one turn that balances (`TurnUsage.RestartInTurnBalances`), after a split the turns keep what was
  taken back (`TurnUsage.RestartAfterSplitDoesNot`). Finishing repairs such a run if the total is no
  less than what they kept, and else leaves them at that (`TurnUsage.FinishingARestartedRun`): in any
  run the turns end up at the total exactly when those before the last hold no more
  (`TurnUsage.RunConserves`).
- A plan load is taken exactly when it was not cancelled and no push, about whatever conversation, has
  arrived since it was requested (`PlanSync.AnswerIsTakenIff`), so a plan may stay undisplayed
  (`PlanSync.AnotherPushDropsTheAnswer`); a displayed plan is never stale.
- Closing takes the tab off the roster only under a current Closed intent, but the tab's own close
  button takes it off once the close has resolved, whatever intent is the newest by then
  (`src/App.tsx:2305-2321`, `BrowserClose.TabLeavesIff`, `BrowserClose.ButtonOverridesNewerIntent`).
- A digest-named plugin directory is never seen half-written, but an older copy is seen incomplete
  while it is removed (`PluginDir.Publisher.RemoveTree`), and a root already published by the process
  is returned without looking for older copies.
- Icon files read back exactly below four gibibytes; above, the length fields wrap
  (`IconContainers.IcnsReadsBackIff`, `IconContainers.IcoLayoutIff`).

## Model

| member | source | states |
|---|---|---|
| `ChatIdentity.ClaimsNeverMove` | aisdk-service/src/chat-dialect.ts:80-144 | at every moment of every accepted stream the claims are sound (known slots below the next free one, `byId` and published ids agreeing both ways), and nothing claimed or published by then is ever taken back |
| `ChatIdentity.EmittedBijection` | aisdk-service/src/chat-dialect.ts:90-143 | over every accepted stream two emitted fragments carry the same index exactly when they carry the same id, and it is the id published for that index |
| `ChatRouting.SentIdsAreKeptApart` | aisdk-service/src/chat-dialect.ts:88-143 | over every accepted stream two fragments sent with ids come out with the same index exactly when they were sent with the same id, even where the id arrives after one was made up for its call |
| `ChatRouting.OwnedStep` | aisdk-service/src/chat-dialect.ts:90-139 | after every fragment each claimed upstream id is the one upstream id of its slot, and stays so |
| `ChatRouting.OnlyIdentityChanges` | aisdk-service/src/chat-dialect.ts:80-145 | over every accepted stream, whatever its ids, fragments come out one for one with all but index and id as sent, an explicit index kept, and an id wherever a function is named |
| `ChatAcceptance.NextFragmentIff` | aisdk-service/src/chat-dialect.ts:88-143 | in every run whose upstream stays clear of the reserved form, told by what was sent and came out: a fragment with an index is refused exactly when its id came out at another index, or its index has another upstream id, or another published id and the fragment names another function; one without an index is refused exactly when it names no function and its id was never sent or, having none, not exactly one index has come out; accepted, its index and its id are determined |
| `ChatAcceptance.NextWithoutIdIff` | aisdk-service/src/chat-dialect.ts:107-119 | in every run, whatever ids were sent: a fragment without an id is accepted exactly when it has an index, or names a function, or exactly one index has come out, and then comes out at its own index, at the first free one, or at that only one |
| `ChatAcceptance.ConflictsIff` | aisdk-service/src/chat-dialect.ts:90-100 | with an index the guard of the conflict error holds exactly when the fragment contradicts what was sent and came out |
| `ChatAcceptance.OthersPass` | aisdk-service/src/chat-dialect.ts:81 | in every run what is no fragment at all is passed on as it is and teaches nothing |
| `ChatLegacy.LegacyStreamIff` | aisdk-service/src/chat-dialect.ts:54-79 | a stream whose calls all come in the legacy shape, other frames among them, is accepted if and only if all frames naming a function give the same stream id; it comes out as one call at index 0 with the names as sent, one id from the first name on, and all arguments sent, in order |
| `ChatLegacy.StreamSends` | aisdk-service/src/chat-dialect.ts:57-79 | the fragments of such a stream are exactly those of its legacy calls, in order |
| `ChatLegacy.StreamIsModernised` | aisdk-service/src/chat-dialect.ts:50-153 | over every accepted stream chunks and choices come out one for one, a finish reason `function_call` as `tool_calls` and any other as sent, a legacy call as one tool call, and no legacy call at all |
| `ChatFrames.StringifiedIs` | aisdk-service/src/chat-dialect.ts:71-73 | arguments that are no text are kept as their JSON text: a numeral that reads back, `null`, or the compact text of the value |
| `ChatLegacy.LegacyStep` | aisdk-service/src/chat-dialect.ts:58-143 | a legacy frame is refused exactly when it names a call other than the one held |
| `ChatIdentity.SyntheticSlotReadsBack` | aisdk-service/src/chat-dialect.ts:136-138 | the slot of a made-up id is read back from the text after its last underscore, whatever the stream is called |
| `ChatIdentity.SoundStep` | aisdk-service/src/chat-dialect.ts:83-143 | one fragment keeps the claims sound, takes nothing back, and comes out with its slot's index and id |
| `ChatIdentity.ClaimMovesIff` | aisdk-service/src/chat-dialect.ts:131-139 | one step, from any claims and with any upstream ids: a claimed id moves to another slot exactly when the step makes it up while another slot holds it |
| `ChatIdentity.BijectionIff` | aisdk-service/src/chat-dialect.ts:80-144 | over every accepted stream, whatever ids the upstream sends, emitted indexes and ids name the same calls if and only if no step makes up an id already published for another slot |
| `ChatIdentity.UpstreamNeverClashes` | aisdk-service/src/chat-dialect.ts:135-138 | an upstream that sends no id of the reserved form never brings that about |
| `ChatIdentity.CoherentStep` | aisdk-service/src/chat-dialect.ts:90-143 | without the assumption about upstream ids, a step that does not clash keeps the claims coherent and every published id, and emits its slot's id |
| `ChatIdentity.ReservedIdsCanCollide` | aisdk-service/src/chat-dialect.ts:135-139 | a concrete stream with an upstream id of the reserved form in which two calls share one id |
| `ChatStreams.StreamFold` | aisdk-service/src/chat-dialect.ts:50-153 | normalising chunks emits, in order, what normalising their fragments one by one emits, and refuses exactly when some fragment is refused |
| `ChatStreams.StreamChangedIff` | aisdk-service/src/chat-dialect.ts:76-153 | a chunk is reported as changed if and only if something in it has been changed, whatever was rewritten: index, id, legacy call or finish reason |
| `ChatReplay.NormalizingIsIdempotent` | aisdk-service/src/chat-dialect.ts:50-153 | a second pass over an accepted stream's own output throws nothing, changes nothing and reports no change: tool calls, legacy frames and finish reasons |
| `ChatReplay.NormalizingIsIdempotentIff` | aisdk-service/src/chat-dialect.ts:50-153 | over every accepted stream, whatever its ids, a second pass throws nothing and changes nothing if and only if no step of the first made up an id already published for another slot |
| `ChatReplay.ReplayStep` | aisdk-service/src/chat-dialect.ts:83-143 | one published fragment passes unchanged through any state that knows the same slots and ids as upstream ones |
| `ChatNumbering.CallsAreNumberedByAppearance` | aisdk-service/src/chat-dialect.ts:107-124 | any interleaving of calls with own ids and no indexes, each beginning with its function's name, is accepted, each fragment keeps all but its index, and the arguments emitted per index are exactly one call's arguments |
| `ChatNumbering.OrderIsByAppearance` | aisdk-service/src/chat-dialect.ts:109-113 | the numbers really are by first appearance: an id seen before another one's first fragment has the smaller number |
| `ChatNumbering.JoinedAgrees` | aisdk-service/src/chat-dialect.ts:120-125 | renumbered fragments, joined per index, give what was sent per call |
| `ChatRewriter.ToolCallIndexState.Place` | aisdk-service/src/chat-dialect.ts:88-124 | in place: the slot of a fragment by explicit index, known id, new call or unique owner, the next free slot kept ahead of it, and both refusals |
| `ChatRewriter.ToolCallIndexState.Inform` | aisdk-service/src/chat-dialect.ts:131-139 | the owner record after a fragment: first upstream id, first name, one stable id |
| `ChatRewriter.ToolCallIndexState.Publish` | aisdk-service/src/chat-dialect.ts:103-143 | in place: the fragment is filed under its slot in both maps and leaves with the slot's id, reporting a change exactly when it differs |
| `ChatRewriter.ToolCallIndexState.NormalizeEntry` | aisdk-service/src/chat-dialect.ts:82-143 | in place: one fragment, with nothing changed on a refusal |
| `ChatRewriter.ToolCallIndexState.NormalizeEntries` | aisdk-service/src/chat-dialect.ts:80-145 | in place: the fragments of a delta in order, up to the first refusal, equal to the pass the theorems are about |
| `ChatRewriter.ToolCallIndexState.NormalizeChunk` | aisdk-service/src/chat-dialect.ts:50-153 | in place: a parsed frame with legacy calls, fragments and finish reasons, its new state and its change flag equal to the pass the theorems are about |
| `EffortLevels.EffortNamedIsBest` | aisdk-service/src/chat-dialect.ts:358-373 | of the levels a rejection names other than the one sent, the highest not above it, else the lowest, else none |
| `EffortLevels.NamedIff` | aisdk-service/src/chat-dialect.ts:366 | a message names a level exactly when the level stands in it as a whole word, in any letter case |
| `EffortLevels.MentionsIff` | aisdk-service/src/chat-dialect.ts:355 | a message blames the field exactly when its name, with an underscore or a space, in any letter case, stands anywhere in it |
| `EffortLevels.LowerIs` | aisdk-service/src/chat-dialect.ts:366 | letter case is that of the 26 letters, and nothing else of a message changes |
| `EffortChains.RestIsUnique` | aisdk-service/src/chat-dialect.ts:401-415 | a step-down comes to rest after at most one number of steps |
| `EffortChains.RestIsWithinBound` | aisdk-service/src/chat-dialect.ts:393-405 | pigeonhole: from a ladder level, a step-down that comes to rest does so within as many steps as the ladder has levels |
| `EffortFallback.LadderIsNamed` | aisdk-service/src/chat-dialect.ts:364-373 | whatever an endpoint answers, only ladder levels are ever sent instead |
| `EffortFallback.BlamesIff` | aisdk-service/src/chat-dialect.ts:352-356 | a rejection is a 400 or a 422 whose text has the field name in it somewhere |
| `EffortFallback.KeyIsUnambiguousIff` | aisdk-service/src/chat-dialect.ts:392 | a memo key belongs to one model among all pairs with a one-line level exactly when its level is one line, whatever the model, and among all pairs exactly when the model is too |
| `EffortFallback.KeyDetermines` | aisdk-service/src/chat-dialect.ts:392 | keys with one-line urls and levels are equal only for equal urls, models and levels, whatever the models hold |
| `EffortRuns.CachedEqualsUncached` | aisdk-service/src/chat-dialect.ts:386-417 | in every run of interleaved calls no call sends more than six requests, each ends with the answer to its last one, and, where the levels asked for are one line (or the call's own level and model are), one whose step-down comes to rest within the bound sends last and is answered exactly what a client without a memo sends last and is answered: model and other fields as asked, with the level it rests at |
| `EffortRuns.OnlyTheLevelChanges` | aisdk-service/src/chat-dialect.ts:344-350 | in every run each body that a call has sent has the model and all other fields it was asked with, and as its effort the one asked for, a level of the ladder, or none |
| `EffortRuns.BoundNeverCuts` | aisdk-service/src/chat-dialect.ts:401-405 | from a ladder level the attempt bound never cuts a step-down that comes to rest |
| `EffortRuns.OneRequestOnceCached` | aisdk-service/src/chat-dialect.ts:393-400 | once a call has ended at rest, any later call for the same url, model and level sends one request: its own model and other fields, with the level the earlier one rests at |
| `EffortRuns.CandidStepDown` | aisdk-service/src/chat-dialect.ts:375-417 | against an endpoint whose rejection of the level asked for names exactly what it accepts, every call ends within two requests with the model and all other fields as asked and the level asked for if accepted, else the highest accepted not above it, else the lowest, else no level; and with success if any level is left |
| `EffortRuns.MemoAgreesIff` | aisdk-service/src/chat-dialect.ts:320-326 | in every run that asks for one-line levels, at every endpoint, the memo's entry for a model and level is what the endpoint answers to them if and only if the level is one line, whatever the model; in runs that ask for any levels, if and only if both are |
| `EffortRuns.SharedKeyMisleads` | aisdk-service/src/chat-dialect.ts:392-413 | what a level with a line break would do: two requests with one key, and after the first is refused, the memo strips the level from the second, which the endpoint would take |
| `EffortRuns.PlayIsGood` | aisdk-service/src/chat-dialect.ts:389-416 | the invariant of every run: memo entries are real rejections, every call stands on its own step-down, what the memo holds it keeps holding, finished calls stay as they are |
| `EffortClient.Client.Resume` | aisdk-service/src/chat-dialect.ts:393-400 | the loop over the memo, bounded by the ladder, reaches the body the run starts from |
| `EffortClient.Client.Answered` | aisdk-service/src/chat-dialect.ts:405-414 | one answer: final, or noted in the memo and stepped down, model and other fields kept |
| `EffortClient.Client.Fetch` | aisdk-service/src/chat-dialect.ts:386-417 | the whole loop sends the bodies, returns the response and leaves the memo of the run, with one to six requests |
| `IcnsRle.PlaneRoundTrip` | src-tauri/build.rs:567-607 | the documented decoder recovers any plane from its packets and stops exactly behind them |
| `IcnsRle.PayloadRoundTrip` | src-tauri/build.rs:567-610 | the payload of any image decodes plane by plane, with nothing left over, and its four planes give back every pixel's alpha, red, green and blue |
| `IcnsRle.PacketReadsBack` | src-tauri/build.rs:593-606 | every header is in byte range untruncated, and its packet is read back whole |
| `IcnsRle.PacketsCover` | src-tauri/build.rs:587-607 | every packet fits its header and the packets stand for exactly their plane, so none crosses into another |
| `IcnsRle.ShortLiteralMeetsRun` | src-tauri/build.rs:598-606 | a literal shorter than 128 bytes ends the plane or is followed by a run |
| `IcnsRle.LiteralHasNoTriple` | src-tauri/build.rs:599-604 | no literal holds three equal bytes in a row |
| `IcnsRle.ExpansionBound` | src-tauri/build.rs:586-607 | a plane of n bytes packs into at most n + ceil(n/128) |
| `IcnsRle.PayloadBound` | src-tauri/build.rs:583-610 | the bound for a whole payload |
| `IcnsRle.LiteralEnd` | src-tauri/build.rs:598-604 | the inner loop stops at 128 bytes, at the end, or before the next triple, whichever is first |
| `IcnsRle.WritePacket` | src-tauri/build.rs:588-606 | one turn of the loop writes the greedy packet and makes progress past it |
| `IcnsRle.PackPlane` | src-tauri/build.rs:585-607 | the loop over a plane appends exactly its packets |
| `IcnsRle.PackPlanes` | src-tauri/build.rs:584-608 | the planes are packed each on its own, in order |
| `IcnsRle.IcnsArgb` | src-tauri/build.rs:571-610 | the payload whose decoding `IcnsRle.PayloadRoundTrip` proves |
| `IconContainers.IcnsReadsBackIff` | src-tauri/build.rs:547-564 | walking type-length records from offset 8 yields the elements in order, ending at the declared length, if and only if the file is shorter than four gibibytes |
| `IconContainers.GeneratedIcnsReads` | src-tauri/build.rs:533-565 | the generated icon reads back as its ten elements if and only if it is shorter than four gibibytes; each has its slot's type and comes from the image of its slot's size: the two small ones decode to that image's planes, the other eight are its PNG |
| `IconContainers.SlotsAre` | src-tauri/build.rs:534-545 | the ten element types by name, each with its size; the first two take run-length data |
| `IconContainers.IcoLayoutIff` | src-tauri/build.rs:618-638 | each directory entry selects exactly its image, images contiguous up to the end of the file, if and only if the count fits 16 bits and every length and offset 32 |
| `IconContainers.IcoDescribesIff` | src-tauri/build.rs:621-630 | the file is an icon with its reserved fields zero whose entries give their image's width and height, one plane, 32 bits a pixel and no palette, if and only if all sizes are from 1 to 256 |
| `IconContainers.GeneratedIconReads` | src-tauri/build.rs:612-639 | the icon describes its six images as of 16, 24, 32, 48, 128 and 256 pixels, and its directory selects each whenever the file is shorter than four gibibytes |
| `IconContainers.RenderedElement` | src-tauri/build.rs:549-555 | an element takes the pixmap of its size, rendered once per size, as run-length data or PNG |
| `IconContainers.GeneratedIcns` | src-tauri/build.rs:546-564 | the loop writes the container `IconContainers.IcnsReadsBackIff` is about |
| `IconContainers.AppendDirectory` | src-tauri/build.rs:625-634 | the loop with its running 32-bit offset writes the directory |
| `IconContainers.GeneratedIcon` | src-tauri/build.rs:612-639 | header, directory and images make the file `IconContainers.IcoLayoutIff` is about |
| `JsText.QuotedReadsBack` | src/webSearchE2E.ts:434 | a quoted text reads back, whatever follows it: escapes, controls, lone and paired surrogates |
| `JsText.QuotedIsClean` | src/webSearchE2E.ts:434 | no control character and no lone surrogate stands in a quoted text |
| `JsText.PlainStandsAsItIs` | src/webSearchE2E.ts:434 | a text that needs no escape is quoted as it is |
| `JsText.EscapesAre` | src/webSearchE2E.ts:434 | the short escapes and the four-digit ones are those of JSON |
| `JsText.LessIff` | src/webSearchE2E.ts:433 | the order of keys: a proper beginning, or smaller where they first differ |
| `CanonicalJson.ShowReadsBack` | src/webSearchE2E.ts:427-437 | unique decodability: the text of a value, whatever follows it, reads back to what the value means |
| `CanonicalJson.SameMeaningSameText` | src/webSearchE2E.ts:430-435 | values equal up to key order and undefined fields have the same text |
| `CanonicalJson.CanonicalForm` | src/webSearchE2E.ts:427-437 | two values have the same text exactly when they are equal up to key order, undefined fields, and what JSON has no form for |
| `CanonicalJson.ObjectTextIs` | src/webSearchE2E.ts:430-434 | an object is shown as exactly its fields that are not undefined, joined by commas in braces, each key smaller than the next |
| `CanonicalJson.ShowIsClean` | src/webSearchE2E.ts:427-437 | no control character and no lone surrogate stands in the text of any value |
| `CanonicalJson.WordsAre` | src/webSearchE2E.ts:427-437 | the words and the marks of JSON, spelled out |
| `CanonicalJson.InOrderMeansTheSame` | src/webSearchE2E.ts:431-433 | sorting by key and dropping undefined fields leaves an object's entries as they were |
| `TurnUsage.TurnsTelescope` | src/App.tsx:4401-4609 | while usage only grows, under a new revision whenever it changes, the turns' usages net of their offsets add up to exactly the cumulative usage at every moment, after any reports and splits |
| `TurnUsage.TelescopesIff` | src/App.tsx:4401-4609 | over every run of reports and splits, whether usage grows or falls, the turns add up to the cumulative usage at every moment if and only if every report meets its guard |
| `TurnUsage.RunConserves` | src/App.tsx:4401-4649 | in every run, whatever it reports, finishing leaves no turn of the request running, the last one with the terminal status, and every other turn as it was, those of other requests as the start left them; it gives the turns exactly the total if and only if the turns before the last hold no more than that in any counter; with two or more turns, or no measured duration, each turn ends when the next starts and takes exactly that time, so together they take the time of the run; and a single turn takes the measured duration |
| `TurnUsage.GuardedRunConserves` | src/App.tsx:4401-4649 | in a run whose reports meet their guards, the turns are given exactly the total if and only if no counter of it is below the last turn's baseline |
| `TurnUsage.ReportBalancesIff` | src/App.tsx:4454-4480 | a report keeps the turns balanced exactly when it is no less than the running turn's baseline, or, where the turn ignores it, changes nothing |
| `TurnUsage.FinishBalancesIff` | src/App.tsx:4611-4649 | whatever the turns of a run hold, finishing gives them exactly the total if and only if those that run no more hold no more than that in any counter |
| `TurnUsage.FinishGives` | src/App.tsx:4625-4631 | in each counter the turns end up at the total or at what the other turns hold, whichever is more |
| `TurnUsage.FinishKeeps` | src/App.tsx:4628-4631 | finishing without a total leaves what the turns hold |
| `TurnUsage.FinishEnds` | src/App.tsx:4611-4649 | finishing gives the last running turn of the request the terminal status and the end time and leaves every other turn as it was |
| `TurnUsage.FinishNothing` | src/App.tsx:4622-4624 | where no turn of the request runs, finishing changes nothing |
| `TurnUsage.KeptLeavesOthers` | src/App.tsx:4463-4609 | reports and splits of one request leave the turns of all others as they were |
| `TurnUsage.SplitKeepsLedger` | src/App.tsx:4559-4609 | a split interrupts the running turn at its moment and gives it all that is used so far and the time of its segment, starts the next one at zero from there, and leaves every other turn as it was |
| `TurnUsage.ReportKeepsLedger` | src/App.tsx:4463-4477 | a report that meets its guard leaves a balanced ledger, whether usage has grown or fallen |
| `TurnUsage.CountersOf` | src/lib/conversationTurns.ts:224-240 | a sum has exactly the counters that some summand has, a difference those of its total, never below zero |
| `TurnUsage.StartOpensLedger` | src/App.tsx:4411-4450 | a run begins with one running turn and nothing used, among any other turns |
| `TurnUsage.StartInterrupts` | src/App.tsx:4411-4450 | a start interrupts, at its moment and with the time they have run, exactly the turns of the conversation that still ran, leaves every other turn as it was, and appends one running turn with nothing used; started again under the same request and anchor, it changes nothing |
| `TurnUsage.RestartInTurnBalances` | src/lib/modelStream.ts:1221-1234 | a round restarted within the turn that counted it meets the guard |
| `TurnUsage.RestartAfterSplitDoesNot` | src/lib/modelStream.ts:1221-1234 | the runs in which a round restarted after a split leaves the turns with all it took back |
| `TurnUsage.FinishingARestartedRun` | src/App.tsx:4611-4649 | finishing such a run gives its turns the total if that is no less than what they kept, else leaves them at what they kept |
| `TurnUsage.LastRunning` | src/App.tsx:4622-4624 | the last running turn of the request, and none of its later turns runs |
| `LatestBounds.LatestWins` | src/App.tsx:1861-1887 | over every run: of the set of requests in flight there is at most one, and one exactly while the queue is busy; a waiting one implies busy, starts in order of submission and never twice, and an idle queue has started the last one submitted |
| `LatestBounds.SettlesInTwo` | src/App.tsx:1878-1885 | after the last submission at most two completions remain, and then the queue is idle with the newest request started last |
| `LatestBounds.Sender.SendLatest` | src/App.tsx:1869-1887 | in place: starts the request or replaces the one waiting, other pages untouched |
| `LatestBounds.Sender.Settled` | src/App.tsx:1879-1884 | in place: starts the one waiting or goes idle, other pages untouched |
| `PlanSync.DisplayedPlansAreCurrent` | src/App.tsx:4096-4114 | for every interleaving of host writes, pushes and loads, a displayed plan with no push of its conversation on the way is the host's current plan |
| `PlanSync.WrittenPlansAreDisplayed` | src/App.tsx:2501-2505 | in every run a plan that the host has written is displayed, and is the host's, once no push about it is on its way |
| `PlanSync.DisplayChangesBy` | src/App.tsx:2501-2505 | a push displays its plan and leaves every other displayed plan as it was; a settled load can change only its own conversation's; nothing else changes any, and none is taken away |
| `PlanSync.StaleAnswerIsDropped` | src/App.tsx:4106-4107 | the run in which the guard stops a load from putting an old plan back |
| `PlanSync.AnswerIsTakenIff` | src/App.tsx:4102-4109 | a load requested at any moment of any run, once answered, is taken exactly when no push has arrived since it was requested and it was not cancelled; dropped, nothing changes, so its plan stays undisplayed |
| `PlanSync.AnotherPushDropsTheAnswer` | src/App.tsx:2502-2503 | a push about another conversation drops the answer and leaves this plan undisplayed |
| `PlanSync.Plans.Pushed` | src/App.tsx:2501-2505 | in place: a push counts and replaces its conversation's plan |
| `PlanSync.Plans.Answered` | src/App.tsx:4104-4109 | in place: an answer is taken only if still wanted and no push has landed since it was requested |
| `ToolPrompts.NoCallerIsLost` | src/App.tsx:1416-1476 | in every reachable state: no caller settled twice, no prompt queued twice, and an unsettled caller has an answer on its way or exactly one card in its queue once the queue updates are applied |
| `ToolPrompts.CardsFollowTheLastWord` | src/App.tsx:1416-1476 | in every run a card follows the last word on it: decided or resolved and not opened since, it is not drawn once the updates are applied; raised or opened and not left to the host since, it is |
| `ToolPrompts.WaitedForNoMore` | src/App.tsx:1424-1476 | a prompt raised here and then decided or resolved is in no queue of its conversation once the updates are applied, unless it is opened again |
| `ToolPrompts.HostedCardsIff` | src/App.tsx:7600-7629 | in every run a card of the host's is drawn once the updates are applied if and only if it was opened and since then neither decided nor resolved nor missing from what the host listed, nor has listing failed |
| `ToolPrompts.CardsKeepTheirOrder` | src/App.tsx:1416-1440 | in every run no empty queue is kept, cards keep their order, and one that comes stands last |
| `ToolPrompts.CallersAreTold` | src/App.tsx:1424-1476 | a waiting caller is settled at once only by the host resolving its prompt; decided, by the host's answer and not before; nothing else touches any caller |
| `ToolPrompts.ReconcilingKeeps` | src/App.tsx:7600-7629 | a reconciliation leaves exactly the cards the host still holds and those of waiting callers, and touches no other queue |
| `ToolPrompts.AdvanceIsSound` | src/App.tsx:7600-7630 | every step keeps that invariant, the two reconciliations included |
| `ToolPrompts.Prompts.OpenToolPrompt` | src/App.tsx:1416-1422 | in place: hands over the update that draws a card once |
| `ToolPrompts.Prompts.CloseToolPrompt` | src/App.tsx:1424-1442 | in place: tells a waiting caller, then takes the card away |
| `ToolPrompts.Prompts.AwaitManualToolApproval` | src/App.tsx:1446-1452 | in place: the caller waits and its card is on its way |
| `ToolPrompts.Prompts.DecideToolPrompt` | src/App.tsx:1457-1476 | in place: the caller moves from waiting to being answered, and closing the card does not settle it |
| `ThemeListener.OneSubscriptionAtMost` | src/theme.ts:124-200 | across every interleaving of starts, stops and connects, with no connect under way what is live natively is the store's own subscription: at most one, none when stopped |
| `ThemeListener.OldGenerationsAreSilent` | src/theme.ts:129-142 | once a generation is over, nothing of it ever changes the system theme again |
| `ThemeListener.ListensUntilStopped` | src/theme.ts:134-145 | in every run a connect that completes while its generation counts leaves its subscription live, and until a stop every callback of it sets the system theme |
| `ThemeListener.ThemeFollows` | src/theme.ts:129-175 | the system theme follows callbacks and reads of the current generation, the media query while its listener is attached, and the media query at a start, and nothing else |
| `ThemeListener.ConnectGoesOn` | src/theme.ts:124-147 | a connect goes on exactly while its generation counts, else it ends, and with it a subscription it holds |
| `ThemeListener.StartsAndStops` | src/theme.ts:159-200 | a start of a stopped store begins a new generation with its connect; a stop ends it with exactly the store's own subscription |
| `ThemeListener.AdvanceIsSound` | src/theme.ts:124-200 | every step accounts for each live subscription: the store's own, or held by a connect of its generation |
| `ThemeListener.Appearance.StartAppearance` | src/theme.ts:159-186 | in place: a new generation and its connect, nothing when started |
| `ThemeListener.Appearance.StopAppearance` | src/theme.ts:188-200 | in place: ends the generation and the store's subscription |
| `ThemeListener.Appearance.ThemeArrives` | src/theme.ts:128-133 | in place: the theme read counts only for the current generation |
| `ThemeListener.Appearance.SubscriptionArrives` | src/theme.ts:134-145 | in place: an outdated subscription is ended, a current one replaces the store's |
| `ThemeListener.Appearance.ThemeChanged` | src/theme.ts:134-138 | in place: a callback counts only for the current generation |
| `BrowserClose.CloseFences` | src/App.tsx:1704-1774 | under every interleaving, when a close resolves every open pending at its start has settled, none was started meanwhile, the page is gone, and the tab is taken off the roster exactly if its Closed intent is the newest; however it ends, at most three close calls were sent |
| `BrowserClose.CloseResolvesIff` | src/App.tsx:1734-1772 | in every run the step that ends a close resolves it if and only if there is no backend, or its last call was accepted and complete and it had no opens pending or that call was the fence; and a refusal puts the earlier intent back exactly while its own is the newest |
| `BrowserClose.CloseGoesOnIff` | src/App.tsx:1712-1768 | when a close asks, waits or fences: it asks once more exactly when its first call was refused as stale or colliding under its own current intent, waits exactly when completed with opens pending, and fences exactly when they have all settled |
| `BrowserClose.CloseEndsIff` | src/App.tsx:1734-1771 | when a close ends: on a refusal that is not asked again after, on an incomplete answer, on a complete one with no opens to wait for, on any answer to the fence; without a backend as soon as no open is pending |
| `BrowserClose.CloseBegins` | src/App.tsx:1704-1709 | asking to close declares a newest Closed intent and notes the earlier one and the opens on their way; while a close is under way it joins it |
| `BrowserClose.CloseKeeps` | src/App.tsx:1706-1732 | whatever happens, a close under way keeps what it noted, and its intent is replaced only by a newer Closed one |
| `BrowserClose.OpensAre` | src/App.tsx:1608-1625 | an open begins exactly when admitted with no close under way and its Open intent the newest, and is pending until it settles |
| `BrowserClose.TabLeavesIff` | src/App.tsx:1769-1771 | in every run the tab leaves the roster at a step exactly when a close resolves at it under a current Closed intent, its close button takes it off after a close has resolved (line 2321), an open comes to nothing under a current Open intent (lines 1997-1999), or its draft is discarded (lines 5690-5691) |
| `BrowserClose.ButtonWaits` | src/App.tsx:2305-2321 | the close button waits until the close under way ends, and takes the tab off at its next step exactly if that resolved |
| `BrowserClose.ButtonOverridesNewerIntent` | src/App.tsx:2305-2321 | the run in which the button takes the tab off although a newer Open intent is current |
| `BrowserClose.NoOpensNoFence` | src/App.tsx:1755-1768 | without pending opens a close sends at most two calls and no fence |
| `BrowserClose.FirstCloseIsNotEnough` | src/App.tsx:1757-1760 | the run in which an older open brings the page back after the first close |
| `BrowserClose.ResumedIsSound` | src/App.tsx:1710-1772 | every resumption of a close keeps the invariant and, if it ends the close, ends it well |
| `BrowserClose.Session.IssueIntent` | src/lib/browserController.ts:106-110 | in place: the newest epoch goes to the newest intent |
| `BrowserClose.Session.OpenBuiltInBrowser` | src/App.tsx:1603-1622 | in place: an open starts only for a known conversation that is not being deleted, without a close under way and under a current Open intent, and is tracked |
| `BrowserClose.Session.RequestBrowserSessionClose` | src/App.tsx:1704-1710 | in place: declares the Closed intent and notes the pending opens at once, a close under way standing for itself |
| `BrowserClose.Session.Dispose` | src/App.tsx:1734-1771 | in place: a refusal restores the earlier intent only while its own is current |
| `BrowserClose.Session.End` | src/App.tsx:1769-1771 | in place: a resolved close takes the tab off only under a current Closed intent |
| `BrowserClose.Session.ContinueClose` | src/App.tsx:1711-1771 | in place: each resumption of a close, ending well when it ends |
| `PluginDir.Publisher.ContextPluginDir` | aisdk-service/src/claude-context-plugin.ts:121-144 | every filesystem state on the way is crash-safe; it succeeds exactly if the directory is complete already or every write and the rename are done with nothing but a directory in the way of staging; when it succeeds, the directory has every file at its path with its text, and no other copy or staging of this plugin is left, unless this process had published the root before and found it complete |
| `PluginDir.CrashesNeverTear` | aisdk-service/src/claude-context-plugin.ts:115-120 | any number of crash-safe steps add up: what was absent or complete at first is so after each, and what was complete, or is not this plugin's, is as it was |
| `PluginDir.Survive` | aisdk-service/src/claude-context-plugin.ts:113-144 | publishing again and again, each time from the end of the last publication or from the state in which a crash at any of its steps left the disk: no state shows a partial directory where it was absent or complete, a complete one is never touched, and each attempt that nothing stops or refuses leaves the directory complete and nothing else of this plugin beside it |
| `PluginDir.CompleteMeans` | aisdk-service/src/claude-context-plugin.ts:89-97 | complete is a directory that has every file, by its path and with its text |
| `PluginDir.OursMeans` | aisdk-service/src/claude-context-plugin.ts:108 | this plugin's own names are those with its prefix, or with one dot before it |
| `PluginDir.Publisher.Publish` | aisdk-service/src/claude-context-plugin.ts:127-140 | writes the directory anew, crash-safe at every step, leaving no staging, and succeeds, complete, exactly if every write and the rename are done |
| `PluginDir.Publisher.Stage` | aisdk-service/src/claude-context-plugin.ts:129-139 | between staging and clean-up the directory is absent or complete in every state, and complete at the end exactly if every write and the rename are done |
| `PluginDir.Publisher.WriteFiles` | aisdk-service/src/claude-context-plugin.ts:131-135 | touches only the staging entry, and succeeds, with every file there, exactly if every write is done and nothing but a directory stood in the way |
| `PluginDir.Publisher.WriteFile` | aisdk-service/src/claude-context-plugin.ts:132-134 | one file, of which a crash may leave any prefix; it succeeds exactly if the write is done and nothing but a directory stood in the way |
| `PluginDir.Publisher.RemoveStale` | aisdk-service/src/claude-context-plugin.ts:99-111 | removes every copy and staging of this plugin but the current one, in any order, touching nothing else |
| `PluginDir.Publisher.RemoveTree` | aisdk-service/src/claude-context-plugin.ts:109 | removes one entry, which is seen empty on the way out |

## Left out

- JSON parsing and printing in the dialect files, `fetch`, `Response`, headers and line rewriting: parsed frames and bodies are values, and an endpoint is a function of url, model and level.
- `fillMissingChoices`, the `reasoning_content` backfill, `retryWithoutStreamOptionsFetch` and `chunkFromMessage`: single decisions without state across a run.
- Fields of frames and fragments that the normaliser never looks at, other than `type`: they pass through.
- Indexes that are not natural numbers: a fragment's numeric index is a natural.
- ChatRewriter.ToolCallIndexState.NormalizeChunk: the frame and the owner records are values that are replaced, where the program updates them in place; the state maps are updated in place.
- EffortFallback.LadderIsNamed: the textual test that a body mentions the field before it is parsed, and the reformatting of a body that is serialized again, are not modelled.
- EffortRuns.CachedEqualsUncached: step-downs that go in a circle end at the bound and are only counted; a level with a line break is not followed, and none is sent.
- IconContainers.IcnsReadsBackIff: the 32-bit casts and additions wrap here; a build with overflow checks would stop instead of writing the file.
- SVG rendering, demultiplication of pixels and PNG encoding: pixels and image bytes are inputs.
- CanonicalJson.CanonicalForm: finite numbers are given by their Number::toString text; sparse arrays and big integers are not modelled; an undefined array item, a number that is not finite and a function all print and count as null.
- `materializeRunTurnContexts`, resumed turns and dropped turns: turns hold usage, time and status only.
- LatestBounds.Sender.SendLatest: a request is a number, and a failed one settles like any other.
- ToolPrompts.NoCallerIsLost: a prompt id is raised here at most once, as the host mints it fresh; whether the answer granted or refused is not told apart.
- ThemeListener.OneSubscriptionAtMost: language, i18n and rendering listeners are not modelled.
- BrowserClose.CloseFences: one session; statuses, the visible session and the document store are not modelled, and the host takes a page away when it accepts and completes a close.
- PluginDir.Publisher.ContextPluginDir: deletions succeed and the folder can be read, as the program assumes one writer per session folder; a root this process already published is returned as it is, so copies that appear later stay.
- `aisdk-service/src/chat-usage.ts` and `aisdk-service/src/codex-dialect.ts`: a conversion of token counts with one branch, and a rewriting of request fields with a scan for the first terminal event.
- Everything visual, and real time: the clock is any value that does not run backwards.
