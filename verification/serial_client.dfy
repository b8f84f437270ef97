/** The serial-polling tape client (rfid-tape-client/tape-client.py).

    One main-loop iteration reads at most one line from the serial port,
    handles it as a removal or a detection, and then runs the two clean-up
    checks: the grace-period stop and the natural-end check. The module-level
    `reader_states` dictionary and the three globals are the fields of class
    `SerialClient`; the pygame mixer is the command log `log` (`Stop` for
    `mixer.music.stop()`, `Play(c)` for loading and playing the file of cue
    `c`), and the mixer's `get_busy()` answer is an input of each iteration. Every method
    of the class is tied to a pure step function over a snapshot `Arbiter`
    of those fields; the properties of the client are lemmas about the step
    functions. Times are integer milliseconds. */
module SerialTapeClient {
  import opened Common
  import opened Arbitration
  import opened MediaCatalogue

  /** The directory every entry of `MUSIC_FILES` lives in. */
  const MusicDir: string := "/Users/kathy/Downloads/Bounce/"

  /** `MUSIC_FILES[c]`: the full path of a cue. */
  function MusicFile(c: Cue): string
  {
    MusicDir + CueFile(c)
  }

  /** `CORRECT_MATCHES`: (reader, uid) pairs and the cue they play. */
  const CorrectMatches: map<(string, string), Cue> := map[
    ("Reader 2", "51E98F49") := DirectorCorrect,
    ("Reader 3", "41EB8F49") := FootballCorrect,
    ("Reader 1", "21ED8F49") := NeighborCorrect]

  /** `UID_DEFAULT_MUSIC`: the cue of a known card on the wrong reader. */
  const UidDefaultMusic: map<string, Cue> := map[
    "51E98F49" := DirectorDefault,
    "41EB8F49" := FootballDefault,
    "21ED8F49" := NeighborDefault]

  /** `get_music_file`: the exact pair first, then the card's own default,
      then the global default. */
  function GetMusicFile(reader: string, uid: string): Cue
  {
    if (reader, uid) in CorrectMatches then CorrectMatches[(reader, uid)]
    else if uid in UidDefaultMusic then UidDefaultMusic[uid]
    else DefaultMusic
  }

  /** The keys of `reader_states`, in dictionary order. */
  const ReaderOrder: seq<string> := ["Reader 1", "Reader 2", "Reader 3"]

  const ReaderKeys: set<string> := {"Reader 1", "Reader 2", "Reader 3"}

  type PyReader = ReaderState<Option<string>>

  /** Every reader's entry at start-up. */
  const Blank: PyReader := ReaderState(0, None, false, 0, 0)

  /** A command given to the pygame mixer. */
  datatype Command = Stop | Play(cue: Cue)

  /** A snapshot of the client's state: `reader_states`,
      `current_active_reader`, `current_music_file`, `last_switch_time`. */
  datatype Arbiter = Arbiter(
    readers: map<string, PyReader>,
    activeReader: Option<string>,
    musicFile: Option<Cue>,
    lastSwitchTime: int)

  /** The invariants every branch of the loop keeps: the table holds exactly
      the three readers, a reader's uid is absent iff it is not active, the
      music file is absent iff no reader owns playback, and the owner is a
      key of the table. */
  predicate Valid(a: Arbiter)
  {
    && a.readers.Keys == ReaderKeys
    && (forall r :: r in a.readers ==> (a.readers[r].uid.None? <==> !a.readers[r].active))
    && (a.musicFile.None? <==> a.activeReader.None?)
    && (a.activeReader.Some? ==> a.activeReader.value in a.readers)
  }

  /** The state at start-up. */
  function Initial(): (a: Arbiter)
    ensures Valid(a)
    ensures a.activeReader.None? && a.lastSwitchTime == 0
    ensures forall r :: r in a.readers ==> a.readers[r] == Blank
  {
    Arbiter(map["Reader 1" := Blank, "Reader 2" := Blank, "Reader 3" := Blank], None, None, 0)
  }

  /** The new state and the mixer commands one handler produces. */
  datatype Handled = Handled(next: Arbiter, commands: seq<Command>)

  /** `play_music_for_reader`: stop, then load and play the resolved cue. */
  function PlayFor(reader: string, uid: string): seq<Command>
  {
    [Stop, Play(GetMusicFile(reader, uid))]
  }

  /** The "Card removed" branch for a reader of the table (lines 103-117). */
  function OnRemoval(a: Arbiter, reader: string, now: int): (h: Handled)
    requires Valid(a) && reader in a.readers
    ensures Valid(h.next)
    ensures h.next.readers.Keys == a.readers.Keys
    ensures forall r :: r in a.readers && r != reader ==> h.next.readers[r] == a.readers[r]
  {
    var s := a.readers[reader];
    if !RemovalAccepted(s, now) then Handled(a, [])
    else
      var rs := a.readers[reader := Vacated(s, None, now)];
      if Some(reader) != a.activeReader then Handled(a.(readers := rs), [])
      else
        var m := MostRecentActive(rs, ReaderOrder);
        if m.Some? && m != a.activeReader then
          var f := GetMusicFile(m.value, rs[m.value].uid.value);
          Handled(Arbiter(rs, m, Some(f), now), [Stop, Play(f)])
        else Handled(a.(readers := rs), [])
  }

  /** The "Card UID:" branch for a reader of the table (lines 126-147). */
  function OnDetection(a: Arbiter, reader: string, uid: string, now: int): (h: Handled)
    requires Valid(a) && reader in a.readers
    ensures Valid(h.next)
    ensures h.next.readers == a.readers[reader := Detected(a.readers[reader], Some(uid), now)]
  {
    var rs := a.readers[reader := Detected(a.readers[reader], Some(uid), now)];
    if ShouldSwitch(a.activeReader, reader, a.lastSwitchTime, now) then
      var f := GetMusicFile(reader, uid);
      Handled(Arbiter(rs, Some(reader), Some(f), now), [Stop, Play(f)])
    else Handled(a.(readers := rs), [])
  }

  /** The grace-period check (lines 153-160): skipped in an iteration whose
      detection switched playback. */
  function GraceCheck(a: Arbiter, now: int, newReading: bool): (h: Handled)
    requires Valid(a)
    ensures Valid(h.next)
    ensures h.next.readers == a.readers && h.next.lastSwitchTime == a.lastSwitchTime
  {
    if !newReading && a.activeReader.Some? && GraceExpired(a.readers[a.activeReader.value], now)
    then Handled(a.(activeReader := None, musicFile := None), [Stop])
    else Handled(a, [])
  }

  /** The natural-end check (lines 163-165): when the mixer is idle, the owner
      and the file are forgotten without a command. */
  function CompletionCheck(a: Arbiter, busy: bool): (b: Arbiter)
    requires Valid(a)
    ensures Valid(b)
    ensures b.readers == a.readers && b.lastSwitchTime == a.lastSwitchTime
    ensures !busy ==> b.activeReader.None?
  {
    if !busy && a.activeReader.Some? then a.(activeReader := None, musicFile := None) else a
  }

  /** What one serial line asks for once it is stripped and split. */
  datatype LineKind = NoLine | RemovalLine(reader: string) | DetectionLine(reader: string, uid: string) | OtherLine

  /** Lines 97-101 and 119-122: a line containing "Card removed" names the
      reader before the first " - "; otherwise a line containing "Card UID:"
      names the reader before the first "-" and the uid after the last ":". */
  function Classify(line: Option<string>): LineKind
  {
    match line
    case None => NoLine
    case Some(raw) =>
      var l := Trim(raw, PythonWhitespace);
      if Contains(l, "Card removed") then RemovalLine(Trim(BeforeFirst(l, " - "), PythonWhitespace))
      else if Contains(l, "Card UID:") then
        DetectionLine(Trim(BeforeFirst(l, "-"), PythonWhitespace), Trim(AfterLast(l, ':'), PythonWhitespace))
      else OtherLine
  }

  /** How an iteration ends: the loop goes on, or a reader name that is not
      a key of `reader_states` raised a KeyError, which nothing in the loop
      catches (only IndexError is), so the program stops. */
  datatype Outcome = Continue(next: Arbiter, commands: seq<Command>) | KeyErrorRaised

  /** The two checks that end every iteration. */
  function Finish(h: Handled, now: int, newReading: bool, busy: bool): (o: Outcome)
    requires Valid(h.next)
    ensures o.Continue? && Valid(o.next)
  {
    var g := GraceCheck(h.next, now, newReading);
    Continue(CompletionCheck(g.next, busy), h.commands + g.commands)
  }

  /** The rest of an iteration once the line has been classified. */
  function Step(a: Arbiter, now: int, kind: LineKind, busy: bool): (o: Outcome)
    requires Valid(a)
    ensures o.Continue? ==> Valid(o.next)
  {
    match kind
    case RemovalLine(r) =>
      if r !in a.readers then KeyErrorRaised else Finish(OnRemoval(a, r, now), now, false, busy)
    case DetectionLine(r, u) =>
      if r !in a.readers then KeyErrorRaised
      else Finish(OnDetection(a, r, u, now), now, ShouldSwitch(a.activeReader, r, a.lastSwitchTime, now), busy)
    case _ => Finish(Handled(a, []), now, false, busy)
  }

  /** One pass of the `while True` loop at time `now`, with `line` the
      serial line read in this pass (if any) and `busy` the mixer's answer to
      `get_busy()`. */
  function Iteration(a: Arbiter, now: int, line: Option<string>, busy: bool): (o: Outcome)
    requires Valid(a)
    ensures o.Continue? ==> Valid(o.next)
  {
    Step(a, now, Classify(line), busy)
  }

  /** The inputs of one pass of the loop. */
  datatype Input = Input(now: int, line: Option<string>, busy: bool)

  /** Where a run of the loop over a finite prefix of its inputs ends. */
  datatype Trace = Trace(final: Arbiter, commands: seq<Command>, halted: bool)

  /** The loop over `inputs`, stopping at the first KeyError. */
  function Run(a: Arbiter, inputs: seq<Input>): (t: Trace)
    requires Valid(a)
    ensures Valid(t.final)
    decreases |inputs|
  {
    if |inputs| == 0 then Trace(a, [], false)
    else
      match Iteration(a, inputs[0].now, inputs[0].line, inputs[0].busy)
      case KeyErrorRaised => Trace(a, [], true)
      case Continue(b, cs) =>
        var t := Run(b, inputs[1..]);
        Trace(t.final, cs + t.commands, t.halted)
  }

  /** A trace preceded by the commands `cs`. */
  function Prepend(cs: seq<Command>, t: Trace): Trace
  {
    Trace(t.final, cs + t.commands, t.halted)
  }

  lemma PrependTwice(cs1: seq<Command>, cs2: seq<Command>, t: Trace)
    ensures Prepend(cs1, Prepend(cs2, t)) == Prepend(cs1 + cs2, t)
  {
    assert cs1 + (cs2 + t.commands) == (cs1 + cs2) + t.commands;
  }

  lemma AppendAssoc(x: seq<Command>, y: seq<Command>, z: seq<Command>)
    ensures (x + y) + z == x + (y + z)
  {
  }

  /** The first pass of a run, and the rest of it. */
  lemma RunUnfold(a: Arbiter, inputs: seq<Input>)
    requires Valid(a) && |inputs| > 0
    ensures var o := Iteration(a, inputs[0].now, inputs[0].line, inputs[0].busy);
            Run(a, inputs) == if o.KeyErrorRaised? then Trace(a, [], true) else Prepend(o.commands, Run(o.next, inputs[1..]))
  {
  }

  /** The client's mutable state. */
  class SerialClient {
    var readers: map<string, PyReader>
    var activeReader: Option<string>
    var musicFile: Option<Cue>
    var lastSwitchTime: int
    /** Every command given to the mixer so far. */
    var log: seq<Command>

    function State(): Arbiter
      reads this
    {
      Arbiter(readers, activeReader, musicFile, lastSwitchTime)
    }

    /** The module-level initialisation (lines 40-47). */
    constructor ()
      ensures State() == Initial() && log == []
    {
      readers := map["Reader 1" := Blank, "Reader 2" := Blank, "Reader 3" := Blank];
      activeReader := None;
      musicFile := None;
      lastSwitchTime := 0;
      log := [];
    }

    /** `get_most_recent_active_reader`. */
    method MostRecentActiveReader() returns (r: Option<string>)
      requires Valid(State())
      ensures r == MostRecentActive(readers, ReaderOrder)
      ensures IsMostRecent(readers, ReaderOrder, r)
    {
      r := FindMostRecentActive(readers, ReaderOrder);
    }

    /** `play_music_for_reader`. */
    method PlayMusicForReader(reader: string, uid: string) returns (f: Cue)
      modifies this`log
      ensures f == GetMusicFile(reader, uid)
      ensures log == old(log) + PlayFor(reader, uid)
    {
      f := GetMusicFile(reader, uid);
      log := log + [Stop];
      log := log + [Play(f)];
    }

    /** The removal branch, once the reader is known to be in the table. */
    method HandleRemoval(reader: string, now: int)
      requires Valid(State()) && reader in readers
      modifies this
      ensures State() == OnRemoval(old(State()), reader, now).next
      ensures log == old(log) + OnRemoval(old(State()), reader, now).commands
    {
      var s := readers[reader];
      if now - s.lastRemoval > DebounceThreshold {
        readers := readers[reader := s.(active := false, uid := None, removalTime := now, lastRemoval := now)];
        if Some(reader) == activeReader {
          var m := MostRecentActiveReader();
          if m.Some? && m != activeReader {
            var f := PlayMusicForReader(m.value, readers[m.value].uid.value);
            musicFile := Some(f);
            activeReader := m;
            lastSwitchTime := now;
          }
        }
      }
    }

    /** The detection branch, once the reader is known to be in the table;
        `switched` is the loop's `new_reading_detected`. */
    method HandleDetection(reader: string, uid: string, now: int) returns (switched: bool)
      requires Valid(State()) && reader in readers
      modifies this
      ensures switched == ShouldSwitch(old(activeReader), reader, old(lastSwitchTime), now)
      ensures State() == OnDetection(old(State()), reader, uid, now).next
      ensures log == old(log) + OnDetection(old(State()), reader, uid, now).commands
    {
      readers := readers[reader := readers[reader].(lastTime := now, active := true, uid := Some(uid))];
      var shouldSwitch := false;
      if activeReader.None? {
        shouldSwitch := true;
      } else if reader != activeReader.value {
        if now - lastSwitchTime > ReaderSwitchThreshold {
          shouldSwitch := true;
        }
      }
      switched := false;
      if shouldSwitch {
        var f := PlayMusicForReader(reader, uid);
        musicFile := Some(f);
        activeReader := Some(reader);
        lastSwitchTime := now;
        switched := true;
      }
    }

    /** The grace-period stop and the natural-end check. */
    method CheckPlayback(now: int, newReading: bool, busy: bool)
      requires Valid(State())
      modifies this
      ensures |log| >= |old(log)| && log[..|old(log)|] == old(log)
      ensures Continue(State(), log[|old(log)|..]) == Finish(Handled(old(State()), []), now, newReading, busy)
    {
      if !newReading && activeReader.Some? {
        var activeState := readers[activeReader.value];
        if !activeState.active && now - activeState.removalTime > CardRemovalThreshold {
          log := log + [Stop];
          activeReader := None;
          musicFile := None;
        }
      }
      if !busy && activeReader.Some? {
        activeReader := None;
        musicFile := None;
      }
    }

    /** One pass of the main loop; `halted` reports the uncaught KeyError,
        which leaves every field as it was. */
    method Iterate(now: int, line: Option<string>, busy: bool) returns (halted: bool)
      requires Valid(State())
      modifies this
      ensures halted <==> Iteration(old(State()), now, line, busy).KeyErrorRaised?
      ensures halted ==> State() == old(State()) && log == old(log)
      ensures !halted ==> State() == Iteration(old(State()), now, line, busy).next
      ensures !halted ==> log == old(log) + Iteration(old(State()), now, line, busy).commands
    {
      var kind := Classify(line);
      halted := Dispatch(now, kind, busy);
    }

    /** The body of the loop after the line has been read and split. */
    method Dispatch(now: int, kind: LineKind, busy: bool) returns (halted: bool)
      requires Valid(State())
      modifies this
      ensures halted <==> Step(old(State()), now, kind, busy).KeyErrorRaised?
      ensures halted ==> State() == old(State()) && log == old(log)
      ensures !halted ==> State() == Step(old(State()), now, kind, busy).next
      ensures !halted ==> log == old(log) + Step(old(State()), now, kind, busy).commands
    {
      ghost var a := State();
      ghost var h := Handled(a, []);
      var newReading := false;
      halted := false;
      match kind {
      case RemovalLine(r) =>
        if r !in readers {
          halted := true;
          return;
        }
        HandleRemoval(r, now);
        h := OnRemoval(a, r, now);
      case DetectionLine(r, u) =>
        if r !in readers {
          halted := true;
          return;
        }
        newReading := HandleDetection(r, u, now);
        h := OnDetection(a, r, u, now);
      case _ =>
      }
      assert State() == h.next && log == old(log) + h.commands;
      ghost var mid := log;
      ghost var st := State();
      assert st == h.next;
      CheckPlayback(now, newReading, busy);
      assert Continue(State(), log[|mid|..]) == Finish(Handled(st, []), now, newReading, busy);
      assert Finish(h, now, newReading, busy) == Step(a, now, kind, busy);
      assert Finish(h, now, newReading, busy).next == Finish(Handled(h.next, []), now, newReading, busy).next;
      assert log == mid + log[|mid|..];
    }

    /** The `while True` loop over a finite prefix of its inputs. */
    method RunLoop(inputs: seq<Input>) returns (halted: bool)
      requires Valid(State())
      modifies this
      ensures State() == Run(old(State()), inputs).final
      ensures log == old(log) + Run(old(State()), inputs).commands
      ensures halted == Run(old(State()), inputs).halted
    {
      ghost var start := State();
      ghost var done: seq<Command> := [];
      var i := 0;
      halted := false;
      while i < |inputs| && !halted
        invariant 0 <= i <= |inputs|
        invariant Valid(State())
        invariant log == old(log) + done
        invariant !halted ==> Run(start, inputs) == Prepend(done, Run(State(), inputs[i..]))
        invariant halted ==> Run(start, inputs) == Trace(State(), done, true)
        decreases |inputs| - i
      {
        ghost var before := State();
        ghost var logBefore := log;
        ghost var o := Iteration(before, inputs[i].now, inputs[i].line, inputs[i].busy);
        RunUnfold(before, inputs[i..]);
        assert inputs[i..][1..] == inputs[i + 1..];
        halted := Iterate(inputs[i].now, inputs[i].line, inputs[i].busy);
        if !halted {
          PrependTwice(done, o.commands, Run(State(), inputs[i + 1..]));
          assert log == logBefore + o.commands;
          AppendAssoc(old(log), done, o.commands);
          done := done + o.commands;
        }
        i := i + 1;
      }
      if !halted {
        assert inputs[i..] == [];
      }
    }
  }
}
