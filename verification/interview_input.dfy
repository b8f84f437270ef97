/** The phone-keypad input handler of the interview front-end
    (projects/breaking-news-interview/src/hooks/interview/useInputHandling.ts).

    The handler never keeps state of its own: from the value of the input
    field and three facts about the session it decides which of the hook's
    callbacks to invoke, in which order. The model returns that decision as
    the sequence of `Effect`s the handler performs. */
module InterviewInput {
  import opened Common

  /** One callback invocation of the handler. */
  datatype Effect =
    | StartIntro              // onStartIntro()
    | HangUp                  // onHangUp()
    | SetInput(value: string) // onInputChange(value)
    | ShowError(msg: string)  // onShowError(msg)
    | StartCall(id: string)   // onStartCall(id)
    | PlayIntroAudio          // new Audio('/suspect-intro.mp3').play()

  /** The keys of the `suspects` table (projects/breaking-news-interview/src/data/suspects.ts). */
  const SuspectIds: set<string> := {"1234", "5678", "9876"}

  const InvalidIdError: string := "Invalid suspect ID"
  const NoPlayerError: string := "Please scan your reporter ID card first"
  const RepeatError: string := "You already interviewed this suspect."
  const NoSessionError: string := "Session not started. Press 9 to begin."

  /** `validateSuspectId` as written: `id in suspects`, which also holds for
      every property a plain object inherits. */
  predicate ValidateSuspectIdAsWritten(id: string)
  {
    id in SuspectIds || id in ObjectPrototypeNames
  }

  /** `validateSuspectId` as evidently intended: only the suspects' own ids. */
  predicate ValidateSuspectId(id: string)
  {
    id in SuspectIds
  }

  /** `handleKeyNine`: start the intro (the caller checks the session). */
  function HandleKeyNine(): seq<Effect>
  {
    [StartIntro]
  }

  /** `handleKeyZero`: hang up, then always clear the field. */
  function HandleKeyZero(): seq<Effect>
  {
    [HangUp, SetInput("")]
  }

  /** `value.endsWith('.')`. */
  predicate EndsWithDot(value: string)
  {
    |value| > 0 && value[|value| - 1] == '.'
  }

  /** `handleInput` with `validateSuspectId` answering "is `id` in
      `accepted`": the decision tree over the field's value, the player id,
      the suspects already interviewed and whether the session runs. */
  function HandleInputWith(accepted: set<string>, value: string, playerId: string,
                           interviewed: seq<string>, sessionActive: bool): seq<Effect>
  {
    if value == "9" && !sessionActive then HandleKeyNine()
    else if value == "0" then HandleKeyZero()
    else if EndsWithDot(value) then
      if value == "5." then [SetInput(""), PlayIntroAudio]
      else
        var id := value[..|value| - 1];
        if id !in accepted then [ShowError(InvalidIdError), SetInput("")]
        else if playerId == "" then [ShowError(NoPlayerError), SetInput("")]
        else if id in interviewed then [ShowError(RepeatError), SetInput("")]
        else if !sessionActive then [ShowError(NoSessionError), SetInput("")]
        else [SetInput(id), StartCall(id)]
    else [SetInput(value)]
  }

  /** `handleInput` as written. */
  function HandleInputAsWritten(value: string, playerId: string, interviewed: seq<string>,
                                sessionActive: bool): seq<Effect>
  {
    HandleInputWith(SuspectIds + ObjectPrototypeNames, value, playerId, interviewed, sessionActive)
  }

  /** `handleInput` with the corrected validator; the rest of the model uses this one. */
  function HandleInput(value: string, playerId: string, interviewed: seq<string>,
                       sessionActive: bool): seq<Effect>
  {
    HandleInputWith(SuspectIds, value, playerId, interviewed, sessionActive)
  }

  /** `handleGlobalKeydown`: only keys 9 (outside a session) and 0 do anything. */
  function HandleGlobalKeydown(key: string, sessionActive: bool): (r: seq<Effect>)
    ensures key == "9" && !sessionActive ==> r == [StartIntro]
    ensures key == "0" ==> r == [HangUp, SetInput("")]
    ensures key != "0" && (key != "9" || sessionActive) ==> r == []
  {
    if key == "9" && !sessionActive then HandleKeyNine()
    else if key == "0" then HandleKeyZero()
    else []
  }

  // ---------------------------------------------------------------------
  // Properties of the handler
  // ---------------------------------------------------------------------

  /** '9' starts the intro and nothing else outside a session; inside one it
      is ordinary input. */
  lemma KeyNine(playerId: string, interviewed: seq<string>, sessionActive: bool)
    ensures !sessionActive ==> HandleInput("9", playerId, interviewed, sessionActive) == [StartIntro]
    ensures sessionActive ==> HandleInput("9", playerId, interviewed, sessionActive) == [SetInput("9")]
  {
  }

  /** '0' always hangs up and then clears the field, whatever the call state. */
  lemma KeyZero(playerId: string, interviewed: seq<string>, sessionActive: bool)
    ensures HandleInput("0", playerId, interviewed, sessionActive) == [HangUp, SetInput("")]
  {
  }

  /** Any other value that does not end in '.' is passed through verbatim,
      with no call and no error. */
  lemma PassThrough(value: string, playerId: string, interviewed: seq<string>, sessionActive: bool)
    requires !EndsWithDot(value) && value != "0" && (value != "9" || sessionActive)
    ensures HandleInput(value, playerId, interviewed, sessionActive) == [SetInput(value)]
  {
  }

  /** '5.' clears the field and plays the intro, with no id validation. */
  lemma FiveDot(playerId: string, interviewed: seq<string>, sessionActive: bool)
    ensures HandleInput("5.", playerId, interviewed, sessionActive) == [SetInput(""), PlayIntroAudio]
  {
  }

  /** A confirmed id that is not a suspect's is rejected before any other
      check. */
  lemma InvalidId(id: string, playerId: string, interviewed: seq<string>, sessionActive: bool)
    requires id !in SuspectIds && id != "5"
    ensures HandleInput(id + ".", playerId, interviewed, sessionActive)
            == [ShowError(InvalidIdError), SetInput("")]
  {
    assert (id + ".")[..|id|] == id;
  }

  /** A suspect's id is then gated in this order: a missing player id, an
      id already interviewed, a session not started. Each failure shows its
      error and clears the field. */
  lemma GateOrder(id: string, playerId: string, interviewed: seq<string>, sessionActive: bool)
    requires id in SuspectIds
    ensures playerId == "" ==>
      HandleInput(id + ".", playerId, interviewed, sessionActive) == [ShowError(NoPlayerError), SetInput("")]
    ensures playerId != "" && id in interviewed ==>
      HandleInput(id + ".", playerId, interviewed, sessionActive) == [ShowError(RepeatError), SetInput("")]
    ensures playerId != "" && id !in interviewed && !sessionActive ==>
      HandleInput(id + ".", playerId, interviewed, sessionActive) == [ShowError(NoSessionError), SetInput("")]
  {
    assert (id + ".")[..|id|] == id;
  }

  /** A call to `id` starts exactly when `id.` was confirmed, `id` is a
      suspect's, a player is known, `id` was not interviewed and the
      session runs; the field is first set to the bare id. */
  lemma StartsCallIff(value: string, id: string, playerId: string, interviewed: seq<string>,
                      sessionActive: bool)
    ensures StartCall(id) in HandleInput(value, playerId, interviewed, sessionActive)
            <==> value == id + "." && id in SuspectIds && playerId != "" && id !in interviewed && sessionActive
    ensures StartCall(id) in HandleInput(value, playerId, interviewed, sessionActive)
            ==> HandleInput(value, playerId, interviewed, sessionActive) == [SetInput(id), StartCall(id)]
  {
    var r := HandleInput(value, playerId, interviewed, sessionActive);
    if StartCall(id) in r {
      assert EndsWithDot(value) && value != "5.";
      assert r == [SetInput(value[..|value| - 1]), StartCall(value[..|value| - 1])];
      assert value == value[..|value| - 1] + ".";
    }
    if value == id + "." && id in SuspectIds {
      assert value[..|value| - 1] == id;
    }
  }

  /** Every effect list the handler produces starts no call, or consists of
      setting the field to the id and calling it. */
  lemma AtMostOneCall(value: string, playerId: string, interviewed: seq<string>, sessionActive: bool)
    ensures var r := HandleInput(value, playerId, interviewed, sessionActive);
            (forall e :: e in r ==> !e.StartCall?) || (|r| == 2 && r[0] == SetInput(r[1].id) && r[1].StartCall?)
  {
  }

  // ---------------------------------------------------------------------
  // The validator as written
  // ---------------------------------------------------------------------

  /** As written, a value naming an inherited object property passes the
      suspect-id check: confirming "toString." starts a call to a suspect
      that does not exist. The corrected handler rejects it. */
  lemma PrototypeNameStartsCall(playerId: string)
    requires playerId != ""
    ensures ValidateSuspectIdAsWritten("toString") && !ValidateSuspectId("toString")
    ensures HandleInputAsWritten("toString.", playerId, [], true) == [SetInput("toString"), StartCall("toString")]
    ensures HandleInput("toString.", playerId, [], true) == [ShowError(InvalidIdError), SetInput("")]
  {
    assert "toString."[..8] == "toString";
  }

  /** The two validators agree on every id that is not an inherited
      property name, and so do the two handlers on every value. */
  lemma AsWrittenAgreesOtherwise(value: string, playerId: string, interviewed: seq<string>,
                                 sessionActive: bool)
    requires forall n :: n in ObjectPrototypeNames ==> value != n + "."
    ensures HandleInputAsWritten(value, playerId, interviewed, sessionActive)
            == HandleInput(value, playerId, interviewed, sessionActive)
  {
    if EndsWithDot(value) {
      assert value == value[..|value| - 1] + ".";
    }
  }
}
