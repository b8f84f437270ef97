/** The interview session state of the interview front-end
    (projects/breaking-news-interview/src/hooks/interview/useInterviewState.ts).

    The hook's `useState` cells and the `isEndingRef` flag are the fields of
    class `InterviewSession`; `Session` is a snapshot of them, and every
    method is tied to a pure step function over snapshots, about which the
    properties are proved. React applies a handler's state updates after the
    handler returns, so a handler reads the values of the render it was
    created in; every handler below reads only cells it has not yet set
    itself, so reading the fields as they are when the handler starts is
    the same. The asynchronous report of the called suspects
    (`updateSelectedSuspect`) and the `onSessionEnd` callback are recorded
    in the snapshot as `reports` and `endNotices`. */
module InterviewState {
  import opened Common

  /** `InterviewStage` (projects/breaking-news-interview/src/types/InterviewTypes.ts). */
  datatype Stage = PreScan | PostScan | Interview | Ending

  /** `InteractionMode`. */
  datatype Mode = InputMode | CallMode

  /** `AVAILABLE_SUSPECTS.length`. */
  const AvailableSuspectCount: nat := 3

  /** One call of `updateSelectedSuspect(playerId, ids)`. */
  datatype Report = Report(playerId: string, suspectIds: seq<string>)

  /** The hook's state; `hasEndCallback` says whether the hook was given
      an `onSessionEnd` callback. */
  datatype Session = Session(
    stage: Stage,
    mode: Mode,
    sessionActive: bool,
    introPlaying: bool,
    suspectId: string,
    playerId: string,
    interviewed: seq<string>,
    loginError: Option<string>,
    callActive: bool,
    timerKey: int,
    isEnding: bool,
    reports: seq<Report>,
    endNotices: nat,
    hasEndCallback: bool)

  /** A call is only ever shown during the interview stage. */
  predicate Synced(s: Session)
  {
    s.mode == CallMode ==> s.stage == Interview
  }

  /** No suspect is recorded twice. */
  predicate NoDuplicates(ids: seq<string>)
  {
    forall i, j :: 0 <= i < j < |ids| ==> ids[i] != ids[j]
  }

  /** The state the hook starts in. */
  function Initial(hasEndCallback: bool): Session
  {
    Session(PreScan, InputMode, false, false, "", "", [], None, false, 0, false, [], 0, hasEndCallback)
  }

  /** `setInteractionModeWithSync`: a call forces the interview stage. */
  function SetModeSynced(s: Session, m: Mode): Session
  {
    if m == CallMode && s.stage != Interview then s.(mode := m, stage := Interview)
    else s.(mode := m)
  }

  /** `setInterviewStageWithSync`: leaving the interview ends a call. */
  function SetStageSynced(s: Session, st: Stage): Session
  {
    if st != Interview && s.mode == CallMode then s.(stage := st, mode := InputMode)
    else s.(stage := st)
  }

  /** `setPlayerIdentity`. */
  function PlayerIdentified(s: Session, id: string): Session
  {
    SetStageSynced(s.(playerId := id), PostScan)
  }

  /** `startInterviewSession`. */
  function IntroStarted(s: Session): Session
  {
    s.(introPlaying := true)
  }

  /** `handleIntroAudioEnded`. */
  function IntroAudioEnded(s: Session): Session
  {
    var s1 := SetStageSynced(s.(introPlaying := false), Interview).(sessionActive := true);
    SetModeSynced(s1, InputMode).(suspectId := "")
  }

  /** `allSuspectsCalled`. */
  predicate EverySuspectCalled(s: Session)
  {
    |s.interviewed| >= AvailableSuspectCount
  }

  /** `endInterviewSession`: once only until a reset. */
  function SessionEnded(s: Session): Session
  {
    if s.isEnding then s
    else s.(isEnding := true, stage := Ending, sessionActive := false,
            reports := s.reports + [Report(s.playerId, s.interviewed)],
            endNotices := if s.hasEndCallback then s.endNotices + 1 else s.endNotices)
  }

  /** `handleTimerComplete`: the new state and `shouldRepeat`. */
  function TimerComplete(s: Session): (Session, bool)
  {
    (if s.sessionActive then SessionEnded(s) else s, false)
  }

  /** `resetInterviewState`; the reports already sent stay sent. */
  function Reset(s: Session): Session
  {
    Session(PreScan, InputMode, false, false, "", "", [], None, false, s.timerKey + 1, false,
            s.reports, s.endNotices, s.hasEndCallback)
  }

  /** `hangUpCall` (it always returns true). */
  function HungUp(s: Session): Session
  {
    var s1 := s.(mode := InputMode, callActive := false, suspectId := "");
    if EverySuspectCalled(s) then SessionEnded(s1)
    else if s.stage != Interview then s1.(stage := Interview)
    else s1
  }

  /** `markSuspectCalled`: the new state and whether `id` was appended. */
  function Marked(s: Session, id: string): (Session, bool)
  {
    if id !in s.interviewed then (s.(interviewed := s.interviewed + [id]), true)
    else (s, false)
  }

  /** `showError` (its 3 s dismissal is the separate `DismissError`). */
  function ErrorShown(s: Session, message: string): Session
  {
    s.(loginError := Some(message))
  }

  /** The `setTimeout` callback of `showError`. */
  function ErrorDismissed(s: Session): Session
  {
    s.(loginError := None)
  }

  /** The hook's state cells. */
  class InterviewSession {
    var stage: Stage
    var mode: Mode
    var sessionActive: bool
    var introPlaying: bool
    var suspectId: string
    var playerId: string
    var interviewed: seq<string>
    var loginError: Option<string>
    var callActive: bool
    var timerKey: int
    var isEnding: bool
    var reports: seq<Report>
    var endNotices: nat
    const hasEndCallback: bool

    function State(): Session
      reads this
    {
      Session(stage, mode, sessionActive, introPlaying, suspectId, playerId, interviewed,
              loginError, callActive, timerKey, isEnding, reports, endNotices, hasEndCallback)
    }

    constructor(hasEndCallback: bool)
      ensures State() == Initial(hasEndCallback)
    {
      stage, mode, sessionActive, introPlaying := PreScan, InputMode, false, false;
      suspectId, playerId, interviewed, loginError := "", "", [], None;
      callActive, timerKey, isEnding := false, 0, false;
      reports, endNotices := [], 0;
      this.hasEndCallback := hasEndCallback;
    }

    method SetInteractionModeWithSync(m: Mode)
      modifies this
      ensures State() == SetModeSynced(old(State()), m)
    {
      mode := m;
      if m == CallMode && stage != Interview {
        stage := Interview;
      }
    }

    method SetInterviewStageWithSync(st: Stage)
      modifies this
      ensures State() == SetStageSynced(old(State()), st)
    {
      var wasCall := mode == CallMode;
      stage := st;
      if st != Interview && wasCall {
        mode := InputMode;
      }
    }

    method SetPlayerIdentity(id: string) returns (r: string)
      modifies this
      ensures State() == PlayerIdentified(old(State()), id)
      ensures r == id
    {
      playerId := id;
      SetInterviewStageWithSync(PostScan);
      r := id;
    }

    method StartInterviewSession()
      modifies this
      ensures State() == IntroStarted(old(State()))
    {
      introPlaying := true;
    }

    method HandleIntroAudioEnded()
      modifies this
      ensures State() == IntroAudioEnded(old(State()))
    {
      introPlaying := false;
      SetInterviewStageWithSync(Interview);
      sessionActive := true;
      SetInteractionModeWithSync(InputMode);
      suspectId := "";
    }

    method AllSuspectsCalled() returns (r: bool)
      ensures r == EverySuspectCalled(State())
    {
      r := |interviewed| >= AvailableSuspectCount;
    }

    method EndInterviewSession()
      modifies this
      ensures State() == SessionEnded(old(State()))
    {
      if isEnding {
        return;
      }
      isEnding := true;
      stage := Ending;
      sessionActive := false;
      reports := reports + [Report(playerId, interviewed)];
      if hasEndCallback {
        endNotices := endNotices + 1;
      }
    }

    method HandleTimerComplete() returns (shouldRepeat: bool)
      modifies this
      ensures (State(), shouldRepeat) == TimerComplete(old(State()))
    {
      if sessionActive {
        EndInterviewSession();
      }
      shouldRepeat := false;
    }

    method ResetInterviewState()
      modifies this
      ensures State() == Reset(old(State()))
    {
      ClearStage();
      ClearIdentity();
      callActive, timerKey, isEnding := false, timerKey + 1, false;
    }

    /** The part of a reset that restores the stage, mode and session flags. */
    method ClearStage()
      modifies this
      ensures State() == old(State()).(stage := PreScan, mode := InputMode, sessionActive := false, introPlaying := false)
    {
      stage, mode, sessionActive, introPlaying := PreScan, InputMode, false, false;
    }

    /** The part of a reset that forgets the player, the suspects and the error. */
    method ClearIdentity()
      modifies this
      ensures State() == old(State()).(suspectId := "", playerId := "", interviewed := [], loginError := None)
    {
      suspectId, playerId, interviewed, loginError := "", "", [], None;
    }

    method HangUpCall() returns (r: bool)
      modifies this
      ensures State() == HungUp(old(State()))
      ensures r
    {
      var wasStage := stage;
      mode := InputMode;
      callActive := false;
      suspectId := "";
      var all := AllSuspectsCalled();
      if all {
        EndInterviewSession();
        return true;
      }
      if wasStage != Interview {
        stage := Interview;
      }
      return true;
    }

    method MarkSuspectCalled(id: string) returns (appended: bool)
      modifies this
      ensures (State(), appended) == Marked(old(State()), id)
    {
      if id !in interviewed {
        interviewed := interviewed + [id];
        return true;
      }
      return false;
    }

    method ShowError(message: string)
      modifies this
      ensures State() == ErrorShown(old(State()), message)
    {
      loginError := Some(message);
    }

    method DismissError()
      modifies this
      ensures State() == ErrorDismissed(old(State()))
    {
      loginError := None;
    }
  }

  // ---------------------------------------------------------------------
  // Properties
  // ---------------------------------------------------------------------

  /** Whatever the state before, the two synced setters leave mode and stage
      in sync. */
  lemma SyncedSettersSync(s: Session, m: Mode, st: Stage)
    ensures Synced(SetModeSynced(s, m)) && SetModeSynced(s, m).mode == m
    ensures Synced(SetStageSynced(s, st)) && SetStageSynced(s, st).stage == st
    ensures m == CallMode ==> SetModeSynced(s, m).stage == Interview
    ensures st != Interview ==> SetStageSynced(s, st).mode == InputMode
  {
  }

  /** The handlers built on the synced setters, and hanging up, keep the
      two in sync. */
  lemma HandlersKeepSync(s: Session, id: string)
    requires Synced(s)
    ensures Synced(PlayerIdentified(s, id)) && Synced(IntroAudioEnded(s))
    ensures Synced(HungUp(s)) && Synced(Reset(s))
    ensures Synced(IntroStarted(s)) && Synced(Marked(s, id).0)
  {
  }

  /** `endInterviewSession` sets the stage directly, so a timer that runs
      out during a call ends the session with the call mode still set. */
  lemma TimerDuringCallLeavesCallMode()
    ensures var s := SetModeSynced(IntroAudioEnded(Initial(true)), CallMode);
            Synced(s) && !Synced(TimerComplete(s).0)
            && TimerComplete(s).0.mode == CallMode && TimerComplete(s).0.stage == Ending
  {
  }

  /** `markSuspectCalled` appends exactly the absent ids, says so, and keeps
      the list free of duplicates. */
  lemma MarkSuspectCalledAppendsAbsent(s: Session, id: string)
    ensures Marked(s, id).1 <==> id !in s.interviewed
    ensures Marked(s, id).1 ==> Marked(s, id).0.interviewed == s.interviewed + [id]
    ensures !Marked(s, id).1 ==> Marked(s, id).0 == s
    ensures id in Marked(s, id).0.interviewed
    ensures NoDuplicates(s.interviewed) ==> NoDuplicates(Marked(s, id).0.interviewed)
  {
  }

  /** Marking the suspects of a list one by one. */
  function MarkAll(s: Session, ids: seq<string>): Session
    decreases |ids|
  {
    if |ids| == 0 then s else MarkAll(Marked(s, ids[0]).0, ids[1..])
  }

  /** Marking a list keeps the record free of duplicates, leaves in it
      exactly the earlier ids and the listed ones, and changes neither the
      stage nor the ending flag. */
  lemma {:induction false} MarkAllRecordsDistinct(s: Session, ids: seq<string>)
    requires NoDuplicates(s.interviewed)
    ensures NoDuplicates(MarkAll(s, ids).interviewed)
    ensures forall x :: x in MarkAll(s, ids).interviewed <==> x in s.interviewed || x in ids
    ensures MarkAll(s, ids).stage == s.stage && MarkAll(s, ids).isEnding == s.isEnding
    decreases |ids|
  {
    if |ids| > 0 {
      MarkSuspectCalledAppendsAbsent(s, ids[0]);
      var s1 := Marked(s, ids[0]).0;
      MarkAllRecordsDistinct(s1, ids[1..]);
      assert forall x :: x in ids <==> x == ids[0] || x in ids[1..];
    }
  }

  /** A list without duplicates that draws from fewer than three values is
      shorter than three. */
  lemma {:induction false} DistinctBound(ids: seq<string>, pool: set<string>)
    requires NoDuplicates(ids) && forall x :: x in ids ==> x in pool
    ensures |ids| <= |pool|
    decreases |ids|
  {
    if |ids| > 0 {
      var last := ids[|ids| - 1];
      var rest := ids[..|ids| - 1];
      assert forall x :: x in rest ==> x in ids;
      assert last !in rest;
      DistinctBound(rest, pool - {last});
    }
  }

  /** Calling the same one or two suspects over and over never makes every
      suspect called. */
  lemma RepeatCallsNeverFinish(ids: seq<string>, a: string, b: string)
    requires forall x :: x in ids ==> x == a || x == b
    ensures !EverySuspectCalled(MarkAll(Initial(true), ids))
  {
    MarkAllRecordsDistinct(Initial(true), ids);
    var rec := MarkAll(Initial(true), ids).interviewed;
    DistinctBound(rec, {a, b});
  }

  /** `endInterviewSession` takes effect once: it enters the ending stage,
      stops the session, reports the called suspects and notifies the
      caller, and a second call changes nothing. */
  lemma EndTakesEffectOnce(s: Session)
    requires !s.isEnding
    ensures var e := SessionEnded(s);
            e.stage == Ending && !e.sessionActive && e.isEnding
            && e.reports == s.reports + [Report(s.playerId, s.interviewed)]
            && e.endNotices == (if s.hasEndCallback then s.endNotices + 1 else s.endNotices)
            && e.interviewed == s.interviewed && e.mode == s.mode
    ensures SessionEnded(SessionEnded(s)) == SessionEnded(s)
  {
  }

  /** Whatever happens after the session ended, no second report is sent
      until a reset; after a reset the session can end again. */
  lemma EndsOnceUntilReset(s: Session, id: string, m: Mode, st: Stage)
    requires s.isEnding
    ensures SessionEnded(s) == s && TimerComplete(s).0.reports == s.reports
    ensures HungUp(s).reports == s.reports && HungUp(s).isEnding
    ensures SetModeSynced(s, m).isEnding && SetStageSynced(s, st).isEnding
    ensures !Reset(s).isEnding
    ensures |SessionEnded(Reset(s)).reports| == |s.reports| + 1
  {
  }

  /** The timer ends the session only while it is active, and never asks to
      repeat. */
  lemma TimerRule(s: Session)
    ensures !TimerComplete(s).1
    ensures !s.sessionActive ==> TimerComplete(s).0 == s
    ensures s.sessionActive && !s.isEnding ==>
      TimerComplete(s).0.stage == Ending && !TimerComplete(s).0.sessionActive
  {
  }

  /** Hanging up returns to input mode with no call and no suspect id; it
      ends the session once every suspect was called and otherwise returns
      to the interview stage. */
  lemma HangUpRule(s: Session)
    ensures var h := HungUp(s);
            h.mode == InputMode && !h.callActive && h.suspectId == "" && h.interviewed == s.interviewed
    ensures EverySuspectCalled(s) && !s.isEnding ==> HungUp(s).stage == Ending && !HungUp(s).sessionActive
    ensures !EverySuspectCalled(s) ==> HungUp(s).stage == Interview && HungUp(s).sessionActive == s.sessionActive
  {
  }

  /** The intro's end starts the session in input mode. */
  lemma IntroEndedRule(s: Session)
    ensures var t := IntroAudioEnded(s);
            !t.introPlaying && t.stage == Interview && t.sessionActive && t.mode == InputMode && t.suspectId == ""
            && t.interviewed == s.interviewed && t.playerId == s.playerId
  {
  }

  /** A reset restores every initial value except the timer key, which moves
      on by one so the countdown restarts. */
  lemma ResetRule(s: Session)
    ensures var t := Reset(s);
            t.stage == PreScan && t.mode == InputMode && !t.sessionActive && !t.introPlaying
            && t.suspectId == "" && t.playerId == "" && t.interviewed == [] && t.loginError == None
            && !t.callActive && !t.isEnding && t.timerKey == s.timerKey + 1
    ensures Reset(Reset(s)).timerKey == s.timerKey + 2
  {
  }
}
