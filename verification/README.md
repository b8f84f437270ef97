# Breaking News and the tape station, modelled in Dafny

This project models the deterministic core of the "Breaking News"
escape-room games and of the RFID tape station that plays a witness's
recording when their card is laid on a reader.

**The tape station.** Two clients share one arbitration rule for deciding
which reader owns playback:

- The serial client (`rfid-tape-client/tape-client.py`) polls an Arduino
  over a serial line.
- The WebSocket client (`rfid-tape-client/tape-client.js`) hears an ESP32
  through a relay server.

Each client keeps a table of readers, the reader that owns playback, the
file it plays and the time of the last switch. Both are modelled as
classes (`SerialTapeClient.SerialClient`, `WsTapeClient.WsClient`). Their
methods change those fields in place and append to a log of player
commands (`Stop`, `Play`, `Kill`). Each method is proved equal to a pure
step function over a snapshot of the state, and the rules are lemmas over
those step functions. Where a row under "## Findings" records a bug in a
lookup, the step functions and the classes use the corrected lookup, and
the lookup as written is modelled beside it with the inputs it gets
wrong:

- removals are debounced;
- a detection switches readers only after the switch threshold;
- when the owner's card goes, ownership passes at once to the most
  recently detected reader;
- a grace period ends playback.

Reader names with no entry in the table are covered too. In the serial
client such a name raises a `KeyError` that ends the loop. In the
JavaScript client, `readerStates` is an object literal, so a reader id
that names a member it inherits from `Object.prototype` (such as
"constructor") is handled as a detection written onto that member. That
name can then own playback: the grace period and the sweep never stop it,
only the player's exit does (`WsTapeProperties.ConstructorReaderTakesOver`).
Any other unknown id is ignored. The JavaScript client's message filter,
its stale-card sweep and its player completion callback are covered as
well. Time is in integer milliseconds, with thresholds of
1000 ms (grace and switch) and 800 ms (debounce). The sound cue is chosen
in three tiers (`MediaCatalogue`): an exact match of reader and card, then
a known card on the wrong reader, then the global default.

**The game front-ends.** These are small rules, each stated as a pure
function or as a class over the state cells of a React page:

- the phone keypad of the interview game and its session state machine;
- three capped evidence toggles, with caps of 6, 3 and 4;
- the witness-quote picker of the finale;
- the finale's stage list and shallow state merge;
- the dice and prayer rules of the priory game;
- the leaderboard's number and date formatters.

Handlers that call several React setters are modelled as updates applied
in source order. A read made through a closure sees the values of the
last render.

Modules:

- `Common`: options, substring search, trimming and integer-to-text.
- `Selection`: the capped toggle shared by the three evidence pages.
- `MediaCatalogue`: the card table.
- `Arbitration`: the reader records and the most-recent-reader search.
- `SerialTapeClient`, `SerialTapeProperties`: the serial client and its
  properties.
- `WsTapeClient`, `WsTapeProperties`: the WebSocket client and its
  properties.
- `ClientAgreement`: the two clients pick the same cue, except for the
  card ids on which the JavaScript lookup as written departs.
- `InterviewInput`, `InterviewState`, `EvidenceBoard`, `EvidencePicker`,
  `FinaleApp`, `ArticleEvidence`, `WitnessQuotes`, `PrioryDice`,
  `LeaderboardFormat`: the front-end rules.

A serial line naming an unknown reader raises a `KeyError`; only
`IndexError` is caught, so the loop ends
(`SerialTapeProperties.UnknownReaderCrashes`).

## Model

| member | source | states |
|---|---|---|
| MediaCatalogue.Resolve | rfid-tape-client/tape-client.py:57-68 | the cue is the fallback or comes from a card with that UID: its correct cue on its own station, else its mismatch cue; an unknown UID gets the fallback |
| MediaCatalogue.CardsAreDistinct | rfid-tape-client/tape-client.py:26-37 | no two cards share a UID, each card's two cues differ, and the global default is the neighbour card's mismatch file |
| MediaCatalogue.CatalogueCueIsResolve | rfid-tape-client/tape-client.py:15-37 | the written-out table of cues names the same file as the card table's resolution, for every station and UID |
| Arbitration.Vacated | rfid-tape-client/tape-client.py:105-108 | an accepted removal leaves the reader inactive with no card and both removal times set to now, so an immediate second removal is debounced |
| Arbitration.Detected | rfid-tape-client/tape-client.py:126-128 | a detection makes the reader active with that card and last time now, keeping its removal times |
| Arbitration.MostRecentActive | rfid-tape-client/tape-client.py:79-89 | the reference search returns, if anything, a reader of the order that holds a card |
| Arbitration.MostRecentActiveIsMostRecent | rfid-tape-client/tape-client.py:79-89 | the reference search returns the first active reader with the strictly greatest positive last time, or none when no active reader has a positive last time |
| Arbitration.LatestAtIsUnique | rfid-tape-client/tape-client.py:84-87 | two positions that both hold the latest eligible reader are the same position |
| Arbitration.MostRecentIsUnique | rfid-tape-client/tape-client.py:79-89 | at most one answer meets the most-recent requirement |
| Arbitration.FindMostRecentActive | rfid-tape-client/tape-client.js:106-118 | the accumulator loop over the readers in table order returns the most recent active reader, equal to the reference search |
| SerialTapeClient.Initial | rfid-tape-client/tape-client.py:40-47 | start-up has three blank readers, no owner and switch time 0, and meets the client invariant |
| SerialTapeClient.OnRemoval | rfid-tape-client/tape-client.py:100-117 | the removal branch keeps the invariant and the set of readers, and touches no other reader's entry |
| SerialTapeClient.OnDetection | rfid-tape-client/tape-client.py:119-147 | the detection branch keeps the invariant and refreshes exactly the detected reader's entry |
| SerialTapeClient.GraceCheck | rfid-tape-client/tape-client.py:153-160 | the grace stop keeps the invariant, the reader table and the switch time |
| SerialTapeClient.CompletionCheck | rfid-tape-client/tape-client.py:163-165 | with the mixer idle the owner is forgotten; the table and the switch time are kept |
| SerialTapeClient.Finish | rfid-tape-client/tape-client.py:152-165 | the two closing checks never raise and keep the invariant |
| SerialTapeClient.Step | rfid-tape-client/tape-client.py:100-165 | a pass that does not raise keeps the invariant |
| SerialTapeClient.Iteration | rfid-tape-client/tape-client.py:92-167 | a loop pass that does not raise keeps the invariant |
| SerialTapeClient.Run | rfid-tape-client/tape-client.py:91-172 | a run of the loop ends in a state that meets the invariant |
| SerialTapeClient.RunUnfold | rfid-tape-client/tape-client.py:92-167 | a run is its first pass followed by the rest, or stops with no commands at the first KeyError |
| SerialTapeClient.SerialClient.constructor | rfid-tape-client/tape-client.py:40-47 | the new client is in the start-up state with an empty command log |
| SerialTapeClient.SerialClient.MostRecentActiveReader | rfid-tape-client/tape-client.py:79-89 | returns the most recent active reader of the table |
| SerialTapeClient.SerialClient.PlayMusicForReader | rfid-tape-client/tape-client.py:70-77 | returns the three-tier cue and logs a stop followed by playing it |
| SerialTapeClient.SerialClient.HandleRemoval | rfid-tape-client/tape-client.py:100-117 | the fields and the log change as the removal branch prescribes |
| SerialTapeClient.SerialClient.HandleDetection | rfid-tape-client/tape-client.py:119-147 | the fields and the log change as the detection branch prescribes, and the result is whether it switched |
| SerialTapeClient.SerialClient.CheckPlayback | rfid-tape-client/tape-client.py:152-165 | the log only grows, and the new state and commands are those of the two closing checks |
| SerialTapeClient.SerialClient.Iterate | rfid-tape-client/tape-client.py:92-167 | one loop pass; it halts exactly on a KeyError, leaving everything unchanged, and otherwise does what the pass prescribes |
| SerialTapeClient.SerialClient.Dispatch | rfid-tape-client/tape-client.py:100-165 | the branch for a classified line; it halts exactly on a KeyError |
| SerialTapeClient.SerialClient.RunLoop | rfid-tape-client/tape-client.py:91-172 | the `while True` loop over a finite list of inputs ends in the state, log and halt flag of the reference run |
| SerialTapeProperties.SplitDetection | rfid-tape-client/tape-client.py:119-123 | a detection line of the assumed shape `<reader> - Card UID: <uid>` is classified as a detection of its reader and UID |
| SerialTapeProperties.DetectionKind | rfid-tape-client/tape-client.py:100-119 | a detection line does not contain "Card removed" and does contain "Card UID:" |
| SerialTapeProperties.DetectionReader | rfid-tape-client/tape-client.py:121 | the reader is the stripped text before the first "-" |
| SerialTapeProperties.DetectionUid | rfid-tape-client/tape-client.py:122 | the UID is the stripped text after the last ":" |
| SerialTapeProperties.StripLineEnd | rfid-tape-client/tape-client.py:98 | stripping removes a CR LF line ending |
| SerialTapeProperties.SplitRemoval | rfid-tape-client/tape-client.py:100-101 | a removal line of the assumed shape `<reader> - Card removed` is classified as a removal of its reader |
| SerialTapeProperties.RemovalKind | rfid-tape-client/tape-client.py:100 | a removal line contains "Card removed" |
| SerialTapeProperties.RemovalReader | rfid-tape-client/tape-client.py:101 | the reader is the stripped text before the first " - " |
| SerialTapeProperties.GetMusicFileIsCatalogue | rfid-tape-client/tape-client.py:57-68 | on readers 1 to 3 the lookup agrees with the card table |
| SerialTapeProperties.IterationIsStep | rfid-tape-client/tape-client.py:97-119 | a pass classifies its line and then takes one step |
| SerialTapeProperties.GetMusicFileTiers | rfid-tape-client/tape-client.py:57-68 | each registered card plays its correct cue on its own reader and its default cue elsewhere; any other UID plays the global default |
| SerialTapeProperties.UnknownReaderCrashes | rfid-tape-client/tape-client.py:103 | a line naming a reader outside the table ends the run at once, with nothing changed or played |
| SerialTapeProperties.RemovalRule | rfid-tape-client/tape-client.py:103-117 | a removal inside the debounce window changes nothing; an accepted one vacates the reader; removing a non-owner leaves ownership and commands alone |
| SerialTapeProperties.HandoffToMostRecent | rfid-tape-client/tape-client.py:111-117 | an accepted removal of the owner hands playback, with no threshold, to the most recent active reader and plays its cue, or keeps the owner when there is none |
| SerialTapeProperties.DetectionRule | rfid-tape-client/tape-client.py:126-147 | a detection refreshes its reader and plays exactly when the switch rule allows; a repeat on the owner never replays |
| SerialTapeProperties.OwnerChangeJustified | rfid-tape-client/tape-client.py:111-147 | after any pass, a new owner holds a card, was chosen now and had its cue played; the old owner was absent, past the switch threshold, or just vacated |
| SerialTapeProperties.StepOwnerChange | rfid-tape-client/tape-client.py:111-147 | the same justification for a classified line |
| SerialTapeProperties.OwnerRepeatsAreSilent | rfid-tape-client/tape-client.py:131-147 | repeated detections on the owner with the mixer busy play nothing and keep the owner, over any number of passes |
| SerialTapeProperties.OwnerRepeatStep | rfid-tape-client/tape-client.py:131-147 | one such pass issues no command and keeps the owner |
| SerialTapeProperties.OwnerRepeatKind | rfid-tape-client/tape-client.py:131-147 | a detection of the owner issues no command and keeps it |
| SerialTapeProperties.RemovalBurstIsIgnored | rfid-tape-client/tape-client.py:103 | removal signals inside the debounce window of an accepted one change nothing over a whole run |
| SerialTapeProperties.IgnoredRemovalStep | rfid-tape-client/tape-client.py:103 | one removal signal inside the debounce window changes nothing |
| SerialTapeProperties.IdleIteration | rfid-tape-client/tape-client.py:153-165 | a pass with no line stops playback exactly when the grace period has run out, and forgets the owner silently when the mixer is idle |
| SerialTapeProperties.RunAppend | rfid-tape-client/tape-client.py:91-172 | a run of two input lists is the run of the first, then the run of the second from where it ended, unless the first crashed |
| SerialTapeProperties.RunCons | rfid-tape-client/tape-client.py:92-167 | a run whose first pass is known is that pass's commands followed by the rest |
| SerialTapeProperties.RunConsStep | rfid-tape-client/tape-client.py:92-167 | the same, for a pass known through its classified line |
| SerialTapeProperties.SessionPass1 | rfid-tape-client/tape-client.py:126-147 | at start-up a card on Reader 1 takes playback with its correct cue |
| SerialTapeProperties.SessionPass2 | rfid-tape-client/tape-client.py:126-147 | a second card on Reader 2 half a second later is recorded but, inside the switch threshold, plays nothing |
| SerialTapeProperties.SessionPass3 | rfid-tape-client/tape-client.py:103-117 | removing the owner's card hands playback at once to Reader 2 with its correct cue |
| SerialTapeProperties.SessionHandoff | rfid-tape-client/tape-client.py:103-117 | the removal handler of that pass vacates Reader 1, records the switch time and plays Reader 2's correct cue |
| SerialTapeProperties.SessionPass4 | rfid-tape-client/tape-client.py:103-117 | removing the second card leaves no reader to hand over to, so the owner stays |
| SerialTapeProperties.SessionPass5 | rfid-tape-client/tape-client.py:153-160 | 1.5 s after the last removal the grace period stops playback and clears the owner |
| SerialTapeProperties.TwoCardSession | rfid-tape-client/tape-client.py:91-167 | a whole two-card session, from start-up and at any start time, never halts, plays the two correct cues in turn, and ends with a stop and nothing playing |
| WsTapeClient.CallToString | rfid-tape-client/tape-client.js:195 | `toString` fails exactly on null and undefined, and otherwise gives the value's text |
| WsTapeClient.PropertyRead | rfid-tape-client/tape-client.js:59-62 | reading a key of an object literal finds an own entry first and is undefined only for keys that are neither own nor inherited |
| WsTapeClient.Initial | rfid-tape-client/tape-client.js:38-48 | start-up has four blank readers, no owner, no player process and switch time 0 |
| WsTapeClient.OnRemoval | rfid-tape-client/tape-client.js:121-143 | `handleCardRemoval` keeps the invariant and the readers, and touches no other reader's entry |
| WsTapeClient.OnDetection | rfid-tape-client/tape-client.js:146-176 | `handleCardDetection` keeps the invariant; it refreshes exactly the detected reader's entry, or, for the name of an inherited `Object.prototype` member, records the detection on that member and leaves the table alone |
| WsTapeClient.OnMessage | rfid-tape-client/tape-client.js:186-205 | the message handler keeps the invariant, also for a reader id that only an inherited member resolves |
| WsTapeClient.GraceCheck | rfid-tape-client/tape-client.js:227-242 | the grace stop keeps the invariant, the readers, the inherited members' records and the switch time |
| WsTapeClient.SweepReader | rfid-tape-client/tape-client.js:246-249 | one reader of the sweep keeps the invariant |
| WsTapeClient.Sweep | rfid-tape-client/tape-client.js:245-250 | the sweep over a list of readers keeps the invariant |
| WsTapeClient.SweepUnfold | rfid-tape-client/tape-client.js:245-250 | a sweep is its first reader's step followed by the sweep of the rest |
| WsTapeClient.TickStep | rfid-tape-client/tape-client.js:223-251 | a tick keeps the invariant |
| WsTapeClient.OnPlaybackExit | rfid-tape-client/tape-client.js:82-98 | the completion callback keeps the invariant, the readers, the switch time and the process handle |
| WsTapeClient.Handle | rfid-tape-client/tape-client.js:186-251 | every event handler keeps the invariant, whose owner may be a table entry or an inherited member |
| WsTapeClient.WsClient.constructor | rfid-tape-client/tape-client.js:38-48 | the new client is in the start-up state with an empty command log |
| WsTapeClient.WsClient.MostRecentActiveReader | rfid-tape-client/tape-client.js:106-118 | returns the most recent active reader |
| WsTapeClient.WsClient.PlayMusicForReader | rfid-tape-client/tape-client.js:72-103 | kills the running player if any, plays the cue and records it, as the pure step prescribes |
| WsTapeClient.WsClient.HandleCardRemoval | rfid-tape-client/tape-client.js:121-143 | the fields and the log change as `handleCardRemoval` prescribes |
| WsTapeClient.WsClient.HandleCardDetection | rfid-tape-client/tape-client.js:146-176 | the fields and the log change as `handleCardDetection` prescribes, for a table entry or an inherited member |
| WsTapeClient.WsClient.HandleMessage | rfid-tape-client/tape-client.js:186-205 | the fields and the log change as the message handler prescribes, inherited reader ids included |
| WsTapeClient.WsClient.Tick | rfid-tape-client/tape-client.js:223-251 | the interval callback does the grace check and then the sweep |
| WsTapeClient.WsClient.CheckGracePeriod | rfid-tape-client/tape-client.js:227-242 | the grace stop, as the pure step prescribes |
| WsTapeClient.WsClient.SweepTimeouts | rfid-tape-client/tape-client.js:245-250 | the `for…of` sweep over the readers in table order equals the reference sweep |
| WsTapeClient.WsClient.SweepOne | rfid-tape-client/tape-client.js:246-249 | a reader silent too long is passed to the removal handler |
| WsTapeClient.WsClient.PlaybackExited | rfid-tape-client/tape-client.js:82-98 | the completion callback changes the state as the pure step says and logs nothing |
| WsTapeProperties.GetMusicFileTiers | rfid-tape-client/tape-client.js:57-69 | on readers 1 to 4 the lookup agrees with the card table for the card's text |
| WsTapeProperties.KeySplits | rfid-tape-client/tape-client.js:58 | a one-character reader and a card text give key `k` exactly when they are the parts of `k` around the bar |
| WsTapeProperties.FourthReaderNeverCorrect | rfid-tape-client/tape-client.js:24-28 | a card on reader 4 always plays a default cue or the global default |
| WsTapeProperties.GetMusicFileIsCatalogue | rfid-tape-client/tape-client.js:57-69 | the lookup names the card table's file on every station |
| WsTapeProperties.PrototypeCardAsWritten | rfid-tape-client/tape-client.js:62-64 | as written, the card "constructor" hands an inherited member to the player; the corrected lookup plays the default |
| WsTapeProperties.AsWrittenAgreesOtherwise | rfid-tape-client/tape-client.js:57-69 | for every other card the lookup as written and the corrected one agree |
| WsTapeProperties.RemovalRule | rfid-tape-client/tape-client.js:125-131 | a removal is accepted iff more than 800 ms have passed since the last accepted one; an ignored one changes nothing |
| WsTapeProperties.HandoffToMostRecent | rfid-tape-client/tape-client.js:133-141 | an accepted removal of the owner hands playback at once to the most recent active reader and records the switch time; any other removal leaves ownership alone |
| WsTapeProperties.DetectionRule | rfid-tape-client/tape-client.js:146-176 | a detection refreshes its reader and switches iff there is no owner, or it is another reader past the switch threshold |
| WsTapeProperties.OwnerRepeatIsSilent | rfid-tape-client/tape-client.js:158-166 | a repeat detection on the owner issues no command |
| WsTapeProperties.MessageFilter | rfid-tape-client/tape-client.js:186-205 | messages from other devices, of other types, or with a reader id that is neither a table entry nor an inherited member change nothing; every other message is a detection on that id |
| WsTapeProperties.MessagesNeverDeactivate | rfid-tape-client/tape-client.js:194-200 | no message takes a card away from a reader or touches its removal times |
| WsTapeProperties.GraceRule | rfid-tape-client/tape-client.js:227-242 | the grace check stops playback iff the owner is a table entry whose card has been gone over 1000 ms, clearing the owner, the file and the player; an inherited owner never qualifies |
| WsTapeProperties.PlaybackExitRule | rfid-tape-client/tape-client.js:82-98 | a clean exit of the player ends ownership; any other exit changes nothing |
| WsTapeProperties.SweepReaderEffect | rfid-tape-client/tape-client.js:246-249 | one reader of the sweep changes only that reader's entry |
| WsTapeProperties.SweepEffect | rfid-tape-client/tape-client.js:245-250 | each swept reader is judged against its state before the sweep, and unvisited readers stay as they were |
| WsTapeProperties.TickSweepEffect | rfid-tape-client/tape-client.js:245-250 | each reader that timed out and passes the debounce is vacated; no other reader changes |
| WsTapeProperties.SweepKeepsAnOwner | rfid-tape-client/tape-client.js:245-250 | a sweep never clears an owner |
| WsTapeProperties.SweepWithoutOwner | rfid-tape-client/tape-client.js:245-250 | with no owner a sweep starts nothing and leaves no owner |
| WsTapeProperties.GraceBeforeSweep | rfid-tape-client/tape-client.js:227-250 | when the owner still holds its card at the start of a tick, or is an inherited member, the tick ends with an owner |
| WsTapeProperties.LaterTickStops | rfid-tape-client/tape-client.js:227-242 | once the grace period of an owner from the table has run out, the next tick stops playback and kills any player |
| WsTapeProperties.InheritedDetectionRule | rfid-tape-client/tape-client.js:146-176 | a detection on an inherited member's name leaves the table alone, records time and card on that member, and takes playback under the same switch rule as a table reader |
| WsTapeProperties.SweepKeepsInheritedOwner | rfid-tape-client/tape-client.js:245-250 | the sweep lists only the table's own entries, so an inherited owner keeps playback and its file and no command is issued |
| WsTapeProperties.InheritedOwnerOutlivesTicks | rfid-tape-client/tape-client.js:223-251 | a tick never changes an inherited owner or its file and issues no command |
| WsTapeProperties.ConstructorReaderTakesOver | rfid-tape-client/tape-client.js:186-205 | from start-up, a scan naming reader "constructor" starts playback for that name, and a later tick neither stops it nor plays anything |
| ClientAgreement.SameCueOnBothClients | rfid-tape-client/tape-client.js:57-69 | with the JavaScript lookup restricted to the tables' own entries, on readers 1 to 3 both clients pick the same cue, and it is the card table's file |
| ClientAgreement.AsWrittenAgreesOffPrototypeNames | rfid-tape-client/tape-client.js:57-69 | for a card id that names no inherited member, the JavaScript lookup as written picks the serial client's cue on readers 1 to 3 |
| ClientAgreement.ClientsDisagreeOnPrototypeNames | rfid-tape-client/tape-client.js:62-64 | for a card id such as "constructor", the serial client plays the global default while the JavaScript lookup as written yields the inherited member |
| ClientAgreement.MatchKeyShape | rfid-tape-client/tape-client.js:58-60 | the key of a one-character station is no inherited name, and it is a key of the exact-match table only for a registered card's UID |
| InterviewInput.HandleGlobalKeydown | projects/breaking-news-interview/src/hooks/interview/useInputHandling.ts:119-125 | key 9 outside a session starts the intro, key 0 hangs up and clears the field, and every other key does nothing |
| InterviewInput.KeyNine | projects/breaking-news-interview/src/hooks/interview/useInputHandling.ts:50-53 | "9" outside a session only starts the intro; inside one it is ordinary input |
| InterviewInput.KeyZero | projects/breaking-news-interview/src/hooks/interview/useInputHandling.ts:56-59 | "0" always hangs up and then clears the field |
| InterviewInput.PassThrough | projects/breaking-news-interview/src/hooks/interview/useInputHandling.ts:103-106 | any other value not ending in "." is stored as it is |
| InterviewInput.FiveDot | projects/breaking-news-interview/src/hooks/interview/useInputHandling.ts:66-71 | "5." clears the field and plays the intro, with no id check |
| InterviewInput.InvalidId | projects/breaking-news-interview/src/hooks/interview/useInputHandling.ts:99-102 | an id that is not a suspect's shows "Invalid suspect ID" and clears the field |
| InterviewInput.GateOrder | projects/breaking-news-interview/src/hooks/interview/useInputHandling.ts:75-98 | a suspect's id is checked for a missing player, then a repeat, then an inactive session, each failing with its own error |
| InterviewInput.StartsCallIff | projects/breaking-news-interview/src/hooks/interview/useInputHandling.ts:88-93 | a call to `id` starts exactly when all gates pass, and the field is first set to the bare id |
| InterviewInput.AtMostOneCall | projects/breaking-news-interview/src/hooks/interview/useInputHandling.ts:45-106 | every outcome starts no call, or sets the field to the id and calls it |
| InterviewInput.PrototypeNameStartsCall | projects/breaking-news-interview/src/data/suspects.ts:168-170 | as written, "toString." starts a call to a suspect that does not exist; the corrected check rejects it |
| InterviewInput.AsWrittenAgreesOtherwise | projects/breaking-news-interview/src/data/suspects.ts:168-170 | for values that are not an inherited name plus ".", the handler as written and the corrected one agree |
| InterviewState.InterviewSession.constructor | projects/breaking-news-interview/src/hooks/interview/useInterviewState.ts:14-33 | the session starts in its initial state |
| InterviewState.InterviewSession.SetInteractionModeWithSync | projects/breaking-news-interview/src/hooks/interview/useInterviewState.ts:36-45 | sets the mode, and the interview stage when entering call mode |
| InterviewState.InterviewSession.SetInterviewStageWithSync | projects/breaking-news-interview/src/hooks/interview/useInterviewState.ts:48-57 | sets the stage, and input mode when leaving the interview stage during a call |
| InterviewState.InterviewSession.SetPlayerIdentity | projects/breaking-news-interview/src/hooks/interview/useInterviewState.ts:60-64 | stores the player, moves to post-scan and returns the id |
| InterviewState.InterviewSession.StartInterviewSession | projects/breaking-news-interview/src/hooks/interview/useInterviewState.ts:67-70 | marks the intro as playing |
| InterviewState.InterviewSession.HandleIntroAudioEnded | projects/breaking-news-interview/src/hooks/interview/useInterviewState.ts:73-80 | the intro's end, as the step function says |
| InterviewState.InterviewSession.AllSuspectsCalled | projects/breaking-news-interview/src/hooks/interview/useInterviewState.ts:83-85 | true iff at least three suspects were interviewed |
| InterviewState.InterviewSession.EndInterviewSession | projects/breaking-news-interview/src/hooks/interview/useInterviewState.ts:88-111 | ends the session as the step function says |
| InterviewState.InterviewSession.HandleTimerComplete | projects/breaking-news-interview/src/hooks/interview/useInterviewState.ts:114-120 | ends an active session and reports whether to repeat |
| InterviewState.InterviewSession.ResetInterviewState | projects/breaking-news-interview/src/hooks/interview/useInterviewState.ts:123-135 | restores the initial values and moves the timer key on |
| InterviewState.InterviewSession.ClearStage | projects/breaking-news-interview/src/hooks/interview/useInterviewState.ts:124-128 | the reset of stage, mode, session and intro flags |
| InterviewState.InterviewSession.ClearIdentity | projects/breaking-news-interview/src/hooks/interview/useInterviewState.ts:126-132 | the reset of suspect, player, interviewed list and error |
| InterviewState.InterviewSession.HangUpCall | projects/breaking-news-interview/src/hooks/interview/useInterviewState.ts:138-160 | hangs up as the step function says and returns true |
| InterviewState.InterviewSession.MarkSuspectCalled | projects/breaking-news-interview/src/hooks/interview/useInterviewState.ts:163-169 | records the id as the step function says and reports whether it appended |
| InterviewState.InterviewSession.ShowError | projects/breaking-news-interview/src/hooks/interview/useInterviewState.ts:172-175 | shows the error message |
| InterviewState.InterviewSession.DismissError | projects/breaking-news-interview/src/hooks/interview/useInterviewState.ts:174 | the timer's dismissal clears the error |
| InterviewState.SyncedSettersSync | projects/breaking-news-interview/src/hooks/interview/useInterviewState.ts:36-57 | from any state, both synced setters leave "call mode implies interview stage" true |
| InterviewState.HandlersKeepSync | projects/breaking-news-interview/src/hooks/interview/useInterviewState.ts:60-160 | the handlers built on the synced setters, hang-up and reset keep the two in sync |
| InterviewState.TimerDuringCallLeavesCallMode | projects/breaking-news-interview/src/hooks/interview/useInterviewState.ts:93 | the session's end sets the stage directly, so a timer running out during a call leaves call mode set at the ending stage |
| InterviewState.MarkSuspectCalledAppendsAbsent | projects/breaking-news-interview/src/hooks/interview/useInterviewState.ts:163-169 | appends exactly the absent ids, says so, and keeps the list free of duplicates |
| InterviewState.MarkAllRecordsDistinct | projects/breaking-news-interview/src/hooks/interview/useInterviewState.ts:163-169 | marking a list of ids keeps the record free of duplicates, holding exactly the earlier ids and the new ones, and changes neither the stage nor the ending flag |
| InterviewState.DistinctBound | projects/breaking-news-interview/src/hooks/interview/useInterviewState.ts:83-85 | a duplicate-free list drawn from a pool is no longer than the pool |
| InterviewState.RepeatCallsNeverFinish | projects/breaking-news-interview/src/hooks/interview/useInterviewState.ts:83-85 | calling the same one or two suspects over and over never makes every suspect called |
| InterviewState.EndTakesEffectOnce | projects/breaking-news-interview/src/hooks/interview/useInterviewState.ts:88-111 | the first end sets the ending stage, stops the session, reports the suspects once and notifies; a second end changes nothing |
| InterviewState.EndsOnceUntilReset | projects/breaking-news-interview/src/hooks/interview/useInterviewState.ts:89-134 | once ended, no step sends a second report until a reset clears the flag |
| InterviewState.TimerRule | projects/breaking-news-interview/src/hooks/interview/useInterviewState.ts:114-120 | the timer ends only an active session and never asks to repeat |
| InterviewState.HangUpRule | projects/breaking-news-interview/src/hooks/interview/useInterviewState.ts:138-160 | hanging up returns to input mode with no call; it ends the session once all suspects were called and otherwise forces the interview stage |
| InterviewState.IntroEndedRule | projects/breaking-news-interview/src/hooks/interview/useInterviewState.ts:73-80 | the intro's end stops the intro, enters the interview stage and input mode, activates the session and clears the suspect id |
| InterviewState.ResetRule | projects/breaking-news-interview/src/hooks/interview/useInterviewState.ts:123-135 | a reset restores every initial value and the ending flag, and adds one to the timer key |
| Selection.HasSelf | projects/breaking-news-evidence/src/pages/EvidenceSelectionPage.tsx:89 | on lists compared by value, "has the key" is membership |
| Selection.WithoutKeyMembers | projects/breaking-news-evidence/src/pages/EvidenceSelectionPage.tsx:90 | the filter keeps exactly the entries with another key, and never grows the list |
| Selection.WithoutKeyConcat | projects/breaking-news-evidence/src/pages/EvidenceSelectionPage.tsx:90 | the filter distributes over concatenation |
| Selection.WithoutAbsentKey | projects/breaking-news-evidence/src/pages/EvidenceSelectionPage.tsx:90 | filtering out an absent key changes nothing |
| Selection.WithoutKeyAt | projects/breaking-news-evidence/src/pages/EvidenceSelectionPage.tsx:90 | in a duplicate-free list, filtering out entry `i`'s key deletes exactly that entry |
| Selection.DeleteKeepsDistinct | projects/breaking-news-evidence/src/pages/EvidenceSelectionPage.tsx:90 | deleting one entry keeps the keys distinct |
| Selection.KeyIndex | projects/breaking-news-evidence/src/pages/EvidenceSelectionPage.tsx:89 | a list that has a key has an entry with it |
| Selection.ToggleRemoves | projects/breaking-news-evidence/src/pages/EvidenceSelectionPage.tsx:89-90 | toggling a selected item removes every entry with its key, keeps the rest in order, and in a duplicate-free list deletes exactly one entry |
| Selection.ToggleAppends | projects/breaking-news-evidence/src/pages/EvidenceSelectionPage.tsx:92-93 | toggling an unselected item below the cap appends it |
| Selection.ToggleAtCap | projects/breaking-news-evidence/src/pages/EvidenceSelectionPage.tsx:92 | toggling an unselected item at the cap changes nothing |
| Selection.ToggleKeepsInvariant | projects/breaking-news-evidence/src/pages/EvidenceSelectionPage.tsx:88-96 | a duplicate-free list within the cap stays so |
| Selection.ToggleRoundTrip | projects/breaking-news-evidence/src/pages/EvidenceSelectionPage.tsx:88-96 | toggling an unselected item twice below the cap restores the list |
| EvidenceBoard.Find | projects/breaking-news-evidence/src/pages/EvidenceSelectionPage.tsx:119 | finds an item iff one has the id, and then the first such item |
| EvidenceBoard.RenderSlots | projects/breaking-news-evidence/src/pages/EvidenceSelectionPage.tsx:115-136 | renders `end - start + 1` slots (none for an empty range), slot `start + k` at position `k` |
| EvidenceBoard.EvidenceBoard.constructor | projects/breaking-news-evidence/src/pages/EvidenceSelectionPage.tsx:17-21 | the page starts with nothing selected, not submitting, not completed and no error |
| EvidenceBoard.EvidenceBoard.ToggleEvidence | projects/breaking-news-evidence/src/pages/EvidenceSelectionPage.tsx:88-96 | the selection becomes the capped toggle of the old one |
| EvidenceBoard.EvidenceBoard.ResetState | projects/breaking-news-evidence/src/pages/EvidenceSelectionPage.tsx:26-31 | the page is reset as the step function says |
| EvidenceBoard.EvidenceBoard.HandleContinue | projects/breaking-news-evidence/src/pages/EvidenceSelectionPage.tsx:67-86 | the submit, for a given outcome of the save |
| EvidenceBoard.ToggleRemovesSelected | projects/breaking-news-evidence/src/pages/EvidenceSelectionPage.tsx:89-90 | clicking a selected id removes it and keeps the others in order |
| EvidenceBoard.ToggleAppendsBelowCap | projects/breaking-news-evidence/src/pages/EvidenceSelectionPage.tsx:92-93 | clicking an unselected id with fewer than six selected appends it |
| EvidenceBoard.ToggleFullUnchanged | projects/breaking-news-evidence/src/pages/EvidenceSelectionPage.tsx:92 | with six selected, clicking an unselected id changes nothing |
| EvidenceBoard.ToggleKeepsValid | projects/breaking-news-evidence/src/pages/EvidenceSelectionPage.tsx:88-96 | the toggle keeps the selection duplicate-free and at most six long |
| EvidenceBoard.ToggleTwiceRestores | projects/breaking-news-evidence/src/pages/EvidenceSelectionPage.tsx:88-96 | clicking the same unselected id twice below the cap restores the selection |
| EvidenceBoard.StepsKeepValid | projects/breaking-news-evidence/src/pages/EvidenceSelectionPage.tsx:26-96 | toggle, reset and submit all keep the selection valid |
| EvidenceBoard.ContinueRule | projects/breaking-news-evidence/src/pages/EvidenceSelectionPage.tsx:67-86 | an empty selection submits nothing; otherwise the selection is sent once and the page completes, or shows the save error |
| EvidenceBoard.ResetRule | projects/breaking-news-evidence/src/pages/EvidenceSelectionPage.tsx:26-31 | a reset empties the selection, clears completion and error, and sends nothing |
| EvidenceBoard.SlotsShowSelection | projects/breaking-news-evidence/src/pages/EvidenceSelectionPage.tsx:115-146 | of the six slots, slot `k + 1` is filled iff `selected[k]` exists and is a catalogue id, and then shows that item |
| EvidenceBoard.CatalogueSelectionFillsSlots | projects/breaking-news-evidence/src/pages/EvidenceSelectionPage.tsx:118-124 | when every selected id is in the catalogue, exactly the first `|selected|` slots are filled |
| EvidencePicker.EvidencePicker.constructor | src/pages/EvidenceSelectionPage.tsx:29 | the page reads the game state's selection and has written nothing |
| EvidencePicker.EvidencePicker.ToggleEvidence | src/pages/EvidenceSelectionPage.tsx:26-41 | with no update the state and the writes are unchanged; otherwise the new selection is stored and written once |
| EvidencePicker.NewSelectionIsToggle | src/pages/EvidenceSelectionPage.tsx:32-38 | no update iff the item is unselected with four picked; every update is the capped toggle by id |
| EvidencePicker.DeselectFiltersId | src/pages/EvidenceSelectionPage.tsx:37 | a picked record is removed with every entry of its id, keeping the rest |
| EvidencePicker.SelectAppends | src/pages/EvidenceSelectionPage.tsx:38 | an unpicked record with fewer than four picked is appended |
| EvidencePicker.NewSelectionKeepsValid | src/pages/EvidenceSelectionPage.tsx:26-41 | every written list has distinct ids and at most four records |
| EvidencePicker.SelectedById | src/pages/EvidenceSelectionPage.tsx:30 | a record counts as picked when any picked record has its id |
| EvidencePicker.CanProceedAfterToggle | src/pages/EvidenceSelectionPage.tsx:43 | picking a record enables Next, and removing the only one disables it |
| FinaleApp.IndexOf | projects/breaking-news-finale/src/App.tsx:113 | the first position of the value, or -1 exactly when it is absent |
| FinaleApp.App.constructor | projects/breaking-news-finale/src/App.tsx:36-38 | the app starts with no state, loading and not initialized |
| FinaleApp.App.CheckExistingState | projects/breaking-news-finale/src/App.tsx:58-98 | the mount effect, as the step function says |
| FinaleApp.App.UpdateGameState | projects/breaking-news-finale/src/App.tsx:100-107 | the shallow merge, as the step function says |
| FinaleApp.App.MoveToNextStage | projects/breaking-news-finale/src/App.tsx:109-119 | the stage move, as the step function says |
| FinaleApp.App.HandlePlayerLoaded | projects/breaking-news-finale/src/App.tsx:41-55 | adopting a scanned player, as the step function says |
| FinaleApp.App.RenderCurrentPage | projects/breaking-news-finale/src/App.tsx:126-153 | the state update the render makes, as the step function says |
| FinaleApp.UpdateMerges | projects/breaking-news-finale/src/App.tsx:100-107 | the merge overrides exactly the supplied fields, keeps the others, saves the result, and leaves a null state null |
| FinaleApp.IndexOfDistinct | projects/breaking-news-finale/src/App.tsx:113 | in a list without repeats each entry is found at its own position |
| FinaleApp.StagesDistinct | projects/breaking-news-finale/src/types/GameStages.ts:1-13 | no stage is declared twice |
| FinaleApp.MoveAdvances | projects/breaking-news-finale/src/App.tsx:109-119 | from stage `i` the move leads to stage `i + 1` of the declaration order and touches no other field |
| FinaleApp.MoveStopsAtRating | projects/breaking-news-finale/src/App.tsx:110-115 | at the last stage, or with no state, the move changes nothing |
| FinaleApp.UnknownStageMovesToStart | projects/breaking-news-finale/src/App.tsx:113-117 | a stage outside the list is found at -1, so the move leads to the first stage |
| FinaleApp.FreshStartIsBlank | projects/breaking-news-finale/src/App.tsx:66-94 | without a saved player the game starts at scan_id with empty strings and lists and zero ratings |
| FinaleApp.SavedPlayerResumes | projects/breaking-news-finale/src/App.tsx:66-69 | a saved state with a truthy id is resumed as it was saved |
| FinaleApp.PlayerLoadedRule | projects/breaking-news-finale/src/App.tsx:41-55 | the saved state is adopted and moved to alias exactly when its id is the scanned id; otherwise nothing changes |
| FinaleApp.AngleGenerationRedirects | projects/breaking-news-finale/src/App.tsx:150-153 | the angle_generation stage is replaced by reporter_info on render; other stages render unchanged |
| ArticleEvidence.ArticleEvidencePage.constructor | projects/breaking-news-finale/src/pages/ArticleEvidencePage.tsx:13-17 | the page starts with the saved ids, or none, and no error |
| ArticleEvidence.ArticleEvidencePage.ToggleEvidence | projects/breaking-news-finale/src/pages/ArticleEvidencePage.tsx:28-54 | the click, as the step function says: the capped toggle and the updater's error, then the closing check |
| ArticleEvidence.ArticleEvidencePage.HandleSubmit | projects/breaking-news-finale/src/pages/ArticleEvidencePage.tsx:57-69 | the page and the game state change as the two step functions say |
| ArticleEvidence.MaxErrorKept | projects/breaking-news-finale/src/pages/ArticleEvidencePage.tsx:41-51 | the max-selection error contains the text the closing check looks for |
| ArticleEvidence.SubmitErrorCleared | projects/breaking-news-finale/src/pages/ArticleEvidencePage.tsx:51-62 | the submit error does not contain it |
| ArticleEvidence.DeselectRemoves | projects/breaking-news-finale/src/pages/ArticleEvidencePage.tsx:31-37 | clicking a selected id removes it, and clears the error when at most three were selected |
| ArticleEvidence.AtCapRejects | projects/breaking-news-finale/src/pages/ArticleEvidencePage.tsx:40-43 | with three selected, clicking another id keeps the list and shows the max-selection error |
| ArticleEvidence.BelowCapAppends | projects/breaking-news-finale/src/pages/ArticleEvidencePage.tsx:46-47 | below the cap an unselected id is appended and the error cleared |
| ArticleEvidence.ClickClearsSubmitError | projects/breaking-news-finale/src/pages/ArticleEvidencePage.tsx:50-53 | after an empty submit, the next click clears the submit error |
| ArticleEvidence.StepsKeepReachable | projects/breaking-news-finale/src/pages/ArticleEvidencePage.tsx:13-69 | clicks and submits keep at most three distinct ids and only the two known errors |
| ArticleEvidence.SubmitNothingSelected | projects/breaking-news-finale/src/pages/ArticleEvidencePage.tsx:61-64 | an empty submit shows the error and saves nothing |
| ArticleEvidence.SubmitSavesIds | projects/breaking-news-finale/src/pages/ArticleEvidencePage.tsx:67 | a submit saves the ids as `article_evidence_ids`, which read back as the same ids |
| ArticleEvidence.SubmitAdvances | projects/breaking-news-finale/src/pages/ArticleEvidencePage.tsx:67-68 | a submit moves from stage `i` to `i + 1` and keeps every other field |
| ArticleEvidence.IdsRoundTrip | projects/breaking-news-finale/src/pages/ArticleEvidencePage.tsx:13-15 | saved ids read back as the same ids |
| ArticleEvidence.AvailableMembers | projects/breaking-news-finale/src/pages/ArticleEvidencePage.tsx:23-25 | the items shown are exactly the catalogue items whose id was collected |
| ArticleEvidence.AvailableConcat | projects/breaking-news-finale/src/pages/ArticleEvidencePage.tsx:23-25 | the filter keeps catalogue order: it distributes over concatenation |
| WitnessQuotes.WitnessQuotesPage.constructor | projects/breaking-news-finale/src/pages/ArticleWitnessQuotesPage.tsx:10-16 | the page starts with the saved quotes, the first witness, no highlight and no error |
| WitnessQuotes.WitnessQuotesPage.HandleTextSelection | projects/breaking-news-finale/src/pages/ArticleWitnessQuotesPage.tsx:23-28 | a selection that is not all whitespace becomes the trimmed highlight |
| WitnessQuotes.WitnessQuotesPage.AddQuote | projects/breaking-news-finale/src/pages/ArticleWitnessQuotesPage.tsx:39-53 | the add, with the corrected duplicate guard |
| WitnessQuotes.WitnessQuotesPage.RemoveQuote | projects/breaking-news-finale/src/pages/ArticleWitnessQuotesPage.tsx:56-58 | the removal by position |
| WitnessQuotes.WitnessQuotesPage.NextWitness | projects/breaking-news-finale/src/pages/ArticleWitnessQuotesPage.tsx:61-65 | the move to the next witness, which also clears the highlight |
| WitnessQuotes.WitnessQuotesPage.PrevWitness | projects/breaking-news-finale/src/pages/ArticleWitnessQuotesPage.tsx:68-72 | the move to the previous witness, which also clears the highlight |
| WitnessQuotes.WitnessQuotesPage.HandleSubmit | projects/breaking-news-finale/src/pages/ArticleWitnessQuotesPage.tsx:75-87 | the page and the game state change as the two step functions say |
| WitnessQuotes.StepsKeepIndexInRange | projects/breaking-news-finale/src/pages/ArticleWitnessQuotesPage.tsx:61-72 | every step keeps the witness index within the list |
| WitnessQuotes.NavigationRule | projects/breaking-news-finale/src/pages/ArticleWitnessQuotesPage.tsx:31-72 | next moves on and clears the highlight only before the last witness, prev only after the first; neither touches the quotes |
| WitnessQuotes.AddRule | projects/breaking-news-finale/src/pages/ArticleWitnessQuotesPage.tsx:39-53 | no highlight adds nothing; otherwise the attributed quote is appended and the highlight and error are cleared |
| WitnessQuotes.AddKeepsQuotesDistinct | projects/breaking-news-finale/src/pages/ArticleWitnessQuotesPage.tsx:40-42 | with the corrected guard no quote is stored twice |
| WitnessQuotes.HighlightThenAdd | projects/breaking-news-finale/src/pages/ArticleWitnessQuotesPage.tsx:23-44 | a highlighted passage is added trimmed under the current witness's name |
| WitnessQuotes.WithoutIndexIs | projects/breaking-news-finale/src/pages/ArticleWitnessQuotesPage.tsx:57 | filtering by position deletes exactly that entry, or nothing for a position outside the list |
| WitnessQuotes.RemoveRule | projects/breaking-news-finale/src/pages/ArticleWitnessQuotesPage.tsx:56-58 | removal deletes exactly entry `i` and keeps the order, or changes nothing |
| WitnessQuotes.SubmitNothingSelected | projects/breaking-news-finale/src/pages/ArticleWitnessQuotesPage.tsx:79-82 | an empty submit shows the error and saves nothing |
| WitnessQuotes.QuotesRoundTrip | projects/breaking-news-finale/src/pages/ArticleWitnessQuotesPage.tsx:10-12 | saved quotes read back as the same quotes |
| WitnessQuotes.SubmitSavesQuotes | projects/breaking-news-finale/src/pages/ArticleWitnessQuotesPage.tsx:85 | a submit saves the quotes as `article_witness_quotes` |
| WitnessQuotes.SubmitAdvances | projects/breaking-news-finale/src/pages/ArticleWitnessQuotesPage.tsx:85-86 | a submit moves from stage `i` to `i + 1` and keeps every other field |
| WitnessQuotes.SamePassageAddedTwice | projects/breaking-news-finale/src/pages/ArticleWitnessQuotesPage.tsx:40-42 | as written, adding the same passage twice stores the same quote twice; the corrected guard stores it once |
| WitnessQuotes.AsWrittenAgreesOtherwise | projects/breaking-news-finale/src/pages/ArticleWitnessQuotesPage.tsx:40-42 | where neither the raw highlight nor its quote is stored, both guards add the same quote |
| PrioryDice.PrioryTable.constructor | GamePage3.tsx:70-100 | three players, each starting with stats of 3 |
| PrioryDice.PrioryTable.RollD6 | agents2.ts:184-273 | the result is the outcome for the die, and the profiles are updated as the corrected update says |
| PrioryDice.PrioryTable.PrayToSaint | agents2.ts:402-436 | the answer, and the profiles as the prayer update says |
| PrioryDice.PrioryTable.SetPlayerName | agents2.ts:297-305 | the message, and the profiles with the trimmed name |
| PrioryDice.OutcomeRule | agents2.ts:191-215 | "wit" uses stat1 and anything else stat2; success iff roll ≤ stat, critical iff roll = stat, so critical implies success; the warning iff stat ≤ 1 |
| PrioryDice.RollUpdatesUsedStat | agents2.ts:228-250 | on success the used stat becomes min(6, stat + 1), on failure max(1, stat − 1); the action is recorded with its outcome; the other stat, the name and the other players are unchanged |
| PrioryDice.PrayerRule | agents2.ts:405-434 | heard and blessed iff the fervor is desperate or fervent; only then is the chosen stat raised by one, capped at 6, with nothing else touched; any other prayer changes nothing |
| PrioryDice.StepsKeepStatsInRange | agents2.ts:236-415 | stats within 1 to 6 stay there through rolls, prayers and renaming |
| PrioryDice.InitialStatsInRange | GamePage3.tsx:70-100 | the starting stats are within range |
| PrioryDice.NameStoredTrimmed | agents2.ts:299-303 | the stored and reported name is the given one without surrounding whitespace |
| PrioryDice.AlertUsesStatsBeforeRoll | agents2.ts:253-261 | the alert reads the stats from before the roll: a wit failure from 2 to 1 raises no alert on that roll |
| PrioryDice.RollDropsRecordedAction | agents2.ts:222-250 | as written, the recorded action is overwritten by the stat update; the corrected update keeps it |
| PrioryDice.AsWrittenAgreesOnStats | agents2.ts:228-250 | apart from the actions, the two updates agree |
| LeaderboardFormat.DigitRunToEnd | projects/breaking-news-leaderboard/src/services/api.js:43 | where only digits follow, the digit run is the rest of the text |
| LeaderboardFormat.ReplaceInDigits | projects/breaking-news-leaderboard/src/services/api.js:43 | in a tail of digits the replace puts a comma before every third digit from the right |
| LeaderboardFormat.CommaEveryThirdConcat | projects/breaking-news-leaderboard/src/services/api.js:43 | a suffix whose length is a multiple of three does not move the earlier commas |
| LeaderboardFormat.CommaEveryThirdShort | projects/breaking-news-leaderboard/src/services/api.js:43 | fewer than three digits get no comma |
| LeaderboardFormat.FirstThenCommasIsGroup | projects/breaking-news-leaderboard/src/services/api.js:43 | the first digit then the commas is the grouping in threes |
| LeaderboardFormat.FormatNumberGroups | projects/breaking-news-leaderboard/src/services/api.js:41-44 | `formatNumber(n)` is the sign followed by the digits grouped in threes from the right |
| LeaderboardFormat.RemoveCommasConcat | projects/breaking-news-leaderboard/src/services/api.js:43 | removing commas distributes over concatenation |
| LeaderboardFormat.GroupRemoveCommas | projects/breaking-news-leaderboard/src/services/api.js:43 | grouping only inserts commas |
| LeaderboardFormat.NoCommasKept | projects/breaking-news-leaderboard/src/services/api.js:43 | a text without commas loses nothing |
| LeaderboardFormat.FormatNumberRemoveCommas | projects/breaking-news-leaderboard/src/services/api.js:43 | removing every comma from `formatNumber(n)` gives `n.toString()` |
| LeaderboardFormat.GroupShape | projects/breaking-news-leaderboard/src/services/api.js:43 | in grouped digits the commas sit exactly where a multiple of four characters remain: the first group has one to three digits, later ones three |
| LeaderboardFormat.SmallNumbersUnchanged | projects/breaking-news-leaderboard/src/services/api.js:43 | integers between −999 and 999 are written unchanged |
| LeaderboardFormat.ShortDigits | projects/breaking-news-leaderboard/src/services/api.js:43 | a number below 1000 has at most three digits |
| LeaderboardFormat.MissingNumberIsZero | projects/breaking-news-leaderboard/src/services/api.js:42 | null and undefined are written "0" |
| LeaderboardFormat.NoDateIsEmpty | projects/breaking-news-leaderboard/src/services/api.js:52-57 | an empty, missing or unparseable date is written "" |
| LeaderboardFormat.RecentIsJustNow | projects/breaking-news-leaderboard/src/services/api.js:60-62 | under five seconds ago, future dates included, is "just now" |
| LeaderboardFormat.DateBuckets | projects/breaking-news-leaderboard/src/services/api.js:63-79 | whole seconds, minutes, hours and days, rounded down, under a minute, hour, day and week; "1 day ago" singular; a week or more the locale date, with the year shown exactly when it is not the current year |

## Left out

- Hardware and transport are not modelled: the serial port, the pygame mixer, `afplay` and `kill`, the WebSocket connection and reconnect, and `time.sleep`. Player commands are a log, the mixer's `get_busy()` is an input of each pass, and a received line or message is a parameter.
- Clocks are parameters in integer milliseconds instead of float seconds.
- `LeaderboardFormat.FormatDate`: `new Date(dateString)` parsing and the text of `toLocaleDateString` are not modelled. The parsed time and the two local calendar years that `getFullYear` gives (of the date and of the clock) are parameters, and the locale date stays abstract: `LocaleDate` records the time and whether the year is shown.
- The Python client's handling of non-UTF-8 bytes in `decode` is not modelled.
- The JavaScript player's completion callback is an explicit event; its asynchrony with the tick is not modelled.
- Console output, the LLM messages, the outcome message texts and `updateProfilePicture` are left out as output-only.
- Randomness is not modelled: the die roll is a parameter, and the evidence positions are not modelled.
- The action timestamp (`Date.now()`) that `addPlayerAction` stores is left out.
- `set_player_attributes` and `get_player_profile` are not modelled.
- Timers are not modelled: `setTimeout(resetState, 5000)`, the error auto-dismissal, and the intro audio. `DismissError` models the dismissal as a step.
- The asynchronous ordering inside the evidence board's submit is not modelled: the save's outcome is a parameter.
- The interview session's report to the back end is recorded as a `Report` value and not sent.
- The finale's `constants/evidence.ts` exports no `EVIDENCE_ITEMS`, so the catalogue is a parameter of `ArticleEvidence.AvailableEvidence`. `constants/witness` is not part of this model, so the witness names are a parameter of `WitnessQuotes`.
- App.tsx switches on stages that `GameStages.ts` does not declare, such as `ARTICLE_EVIDENCE`. The model uses the eleven declared stages. A state whose stage is undeclared moves to the first stage.
- The React rendering, the JSX and the focus and scroll code are not modelled.
- `FinaleApp.App.RenderCurrentPage`: only the render's state write is modelled.
- `PrioryDice.PrioryTable.RollD6`: requires the player to have a profile. For a missing player the source throws a TypeError inside the stat getter. The roll applies the corrected profile update (see Findings): as written, the stat update overwrites the action just recorded, which `PrioryDice.AfterRollAsWritten` models.
- `PrioryDice.PrioryTable.SetPlayerName`: requires an existing player. For a missing one the source stores an object holding only the name, and such an object has no stats to model.
- `PrioryDice.PrioryTable.PrayToSaint`: requires the player to have a profile, for the same reason as the roll.
- `WitnessQuotes.WitnessQuotesPage.constructor`: requires a non-empty witness list. The page reads `WITNESS_LIST[0].name` and fails on an empty list.
- `LeaderboardFormat.FormatNumber`: covers integers only. Non-integer numbers and values of other types are not modelled. The integers are unbounded, while a JavaScript number is a double: integers beyond 2^53 are not all representable, and from 10^21 on `toString` gives exponent form ("1e+21"), which the digit grouping does not follow.
- `LeaderboardFormat.FormatNumberGroups`: holds of the model for every integer, so of the source only below 10^21 in magnitude and where the number is exactly representable; the same goes for `LeaderboardFormat.FormatNumberRemoveCommas`.
- `ArticleEvidence.StoredIds`: a stored field that is not an array of numbers reads as no ids.
- `WitnessQuotes.StoredQuotes`: a stored field that is not an array of strings reads as no quotes.
- `WsTapeClient.GetMusicFile`: a card identifier that is an object uses the text `JsToString` gives it; `toString` overrides are not modelled.
- `WsTapeClient.TickStep`: one `now` serves the whole tick. The interval callback reads `Date.now()` once (tape-client.js:224), but each `handleCardRemoval` the sweep calls reads the clock again (tape-client.js:122), so the removal times the sweep records may be later than the tick's time by however long the sweep has run.
- `WsTapeClient.WsClient.Tick`: the same single `now` as `WsTapeClient.TickStep`.
- `WsTapeClient.OnDetection`: a detection on "__proto__" writes `lastTime`, `active` and `uid` onto `Object.prototype` itself, so every object then inherits them (after it, `readerStates["active"]` resolves and `UID_DEFAULT_MUSIC` answers for "uid"). The model records that detection like any other inherited name and does not follow those later effects.
- `WsTapeClient.PlayFor`: plays the corrected lookup's cue (see Findings). For a card id that names an inherited member the program as written hands that member to the player instead, which `Play(cue)` cannot express; `WsTapeClient.GetMusicFileAsWritten` and `ClientAgreement.ClientsDisagreeOnPrototypeNames` state what it picks.
- `WsTapeClient.WsClient.PlayMusicForReader`: plays the corrected lookup's cue, as `WsTapeClient.PlayFor` does.
- `ClientAgreement.SameCueOnBothClients`: holds for the JavaScript lookup restricted to the tables' own entries. For a card id that names an inherited member the program as written disagrees with the serial client (`ClientAgreement.ClientsDisagreeOnPrototypeNames`); for every other card id it agrees (`ClientAgreement.AsWrittenAgreesOffPrototypeNames`).
- `WitnessQuotes.WitnessQuotesPage.AddQuote`: uses the corrected duplicate guard (see Findings). As written, a passage already quoted is added again; `WitnessQuotes.AddedAsWritten` models that.

## Findings

| source | as written | input that shows it | evidently intended | confidence | as-written member | corrected member |
|---|---|---|---|---|---|---|
| rfid-tape-client/tape-client.js:62-64 | `UID_DEFAULT_MUSIC[uid]` also finds inherited `Object.prototype` members | a scan with cardId "constructor" hands a function to the player instead of the default file | only the table's own entries count | not executed; high | WsTapeClient.GetMusicFileAsWritten | WsTapeClient.GetMusicFile |
| projects/breaking-news-interview/src/data/suspects.ts:168-170 | `id in suspects` also accepts inherited property names | typing "toString." with a player and an active session starts a call to a suspect that does not exist | only the three suspect ids are valid | not executed; high | InterviewInput.HandleInputAsWritten | InterviewInput.HandleInput |
| projects/breaking-news-finale/src/pages/ArticleWitnessQuotesPage.tsx:40-41 | the duplicate guard compares the raw highlight with stored quotes, which all carry quotation marks and a name | highlighting "I saw him" from witness Ann and adding it twice stores the quote twice | a passage already quoted is not added again | not executed; medium | WitnessQuotes.AddedAsWritten | WitnessQuotes.Added |
| agents2.ts:230-249 | the stat update spreads the profile read before the roll, so it overwrites the action `addPlayerAction` just appended | any roll: the player's action list never grows | the action is recorded and the stat updated | not executed; medium | PrioryDice.AfterRollAsWritten | PrioryDice.AfterRoll |
