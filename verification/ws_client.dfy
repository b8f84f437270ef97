/** The WebSocket tape client (rfid-tape-client/tape-client.js).

    The client reacts to three kinds of event: a message from the WebSocket
    server, a tick of the 100 ms interval timer, and the exit of the audio
    player it started. The `readerStates` object and the module variables
    `currentActiveReader`, `currentMusicFile`, `lastSwitchTime` and
    `currentAudioProcess` are the fields of class `WsClient`; starting and
    killing the player is the command log `log` (`Play(c)` for running the
    player on the file of cue `c`, `Kill` for killing the current player),
    and `hasProcess` records whether `currentAudioProcess` is set. Every
    method is tied to a pure function over a snapshot `Arbiter` of the
    fields. The client never receives removal messages: a card counts as
    removed only when the tick's timeout sweep finds its reader silent for
    longer than the removal threshold. Times are integer milliseconds.

    `readerStates` is an object literal, so `readerStates[id]` also finds the
    members it inherits from `Object.prototype`: a message whose reader id is
    "constructor", say, is a detection written onto that member, and that
    name can become the owner although it is no entry of the table. */
module WsTapeClient {
  import opened Common
  import opened Arbitration
  import opened MediaCatalogue

  /** A JSON value as the message handler sees it. A field the message lacks
      reads as `JsUndefined`; `JsNumber` is an integral number; `JsOther`
      is any other value (an object, an array, a fractional number), carried
      with the text its `toString` gives. */
  datatype JsValue =
    | JsUndefined
    | JsNull
    | JsBool(b: bool)
    | JsNumber(i: int)
    | JsString(s: string)
    | JsOther(text: string)

  /** JavaScript's `String(v)`, which template literals and property keys use. */
  function JsToString(v: JsValue): string
  {
    match v
    case JsUndefined => "undefined"
    case JsNull => "null"
    case JsBool(b) => if b then "true" else "false"
    case JsNumber(i) => IntToString(i)
    case JsString(s) => s
    case JsOther(text) => text
  }

  /** `v.toString()`, which throws a TypeError on `null` and `undefined`. */
  function CallToString(v: JsValue): (r: Option<string>)
    ensures r.None? <==> v == JsNull || v == JsUndefined
    ensures r.Some? ==> r.value == JsToString(v)
  {
    if v == JsNull || v == JsUndefined then None else Some(JsToString(v))
  }

  /** `TARGET_DEVICE_ID`. */
  const TargetDeviceId: string := "esp32-003"

  /** A parsed message: the four fields the handler reads. */
  datatype Message = Message(deviceId: JsValue, msgType: JsValue, readerId: JsValue, cardId: JsValue)

  /** The directory every entry of `MUSIC_FILES` lives in (`AUDIO_DIR`). */
  const AudioDir: string := "audio/"

  /** `MUSIC_FILES[c]`: the path of a cue. */
  function MusicFile(c: Cue): string
  {
    AudioDir + CueFile(c)
  }

  /** `CORRECT_MATCHES`, keyed by `reader|uid`. */
  const CorrectMatches: map<string, Cue> := map[
    "2|51E98F49" := DirectorCorrect,
    "3|41EB8F49" := FootballCorrect,
    "1|21ED8F49" := NeighborCorrect]

  /** `UID_DEFAULT_MUSIC`: the cue of a known card on the wrong reader. */
  const UidDefaultMusic: map<string, Cue> := map[
    "51E98F49" := DirectorDefault,
    "41EB8F49" := FootballDefault,
    "21ED8F49" := NeighborDefault]

  /** The lookup key `${reader}|${uid}`. */
  function MatchKey(reader: string, uid: JsValue): string
  {
    reader + "|" + JsToString(uid)
  }

  /** What reading a property of one of the lookup tables gives: one of its
      own cues, or a member inherited from `Object.prototype`. */
  datatype Lookup = Own(cue: Cue) | Inherited(name: string)

  /** `table[key]` on an object literal: an own property first, then the
      prototype chain; `None` is `undefined`. Every value found is truthy. */
  function PropertyRead(table: map<string, Cue>, key: string): (r: Option<Lookup>)
    ensures r.None? <==> key !in table && key !in ObjectPrototypeNames
    ensures key in table ==> r == Some(Own(table[key]))
  {
    if key in table then Some(Own(table[key]))
    else if key in ObjectPrototypeNames then Some(Inherited(key))
    else None
  }

  /** `getMusicFile` as written: the truthiness tests on `CORRECT_MATCHES[key]`
      and `UID_DEFAULT_MUSIC[uid]` also accept members inherited from
      `Object.prototype`, so a card whose identifier is, say, "constructor"
      gets a function instead of a file name. */
  function GetMusicFileAsWritten(reader: string, uid: JsValue): Lookup
  {
    match PropertyRead(CorrectMatches, MatchKey(reader, uid))
    case Some(l) => l
    case None =>
      match PropertyRead(UidDefaultMusic, JsToString(uid))
      case Some(l) => l
      case None => Own(DefaultMusic)
  }

  /** `getMusicFile` with the lookups restricted to the tables' own entries:
      the exact pair first, then the card's own default, then the global
      default. */
  function GetMusicFile(reader: string, uid: JsValue): Cue
  {
    var key := MatchKey(reader, uid);
    if key in CorrectMatches then CorrectMatches[key]
    else if JsToString(uid) in UidDefaultMusic then UidDefaultMusic[JsToString(uid)]
    else DefaultMusic
  }

  /** The keys of `readerStates`, in the order `Object.entries` lists them. */
  const ReaderOrder: seq<string> := ["1", "2", "3", "4"]

  const ReaderKeys: set<string> := {"1", "2", "3", "4"}

  type JsReader = ReaderState<JsValue>

  /** Every reader's entry at start-up. */
  const Blank: JsReader := ReaderState(0, JsNull, false, 0, 0)

  /** A command given to the audio player: `exec('afplay …')` or `kill`. */
  datatype Command = Kill | Play(cue: Cue)

  /** What a detection writes onto a member inherited from `Object.prototype`
      when the reader id names one (`readerStates.constructor` is the function
      `Object`, `readerStates.__proto__` is `Object.prototype` itself): the
      properties `lastTime` and `uid`, and `active`, which is always set to
      true. Nothing ever clears them: the sweep and `getMostRecentActiveReader`
      list only the table's own entries. */
  datatype InheritedEntry = InheritedEntry(lastTime: int, uid: JsValue)

  /** A snapshot of the client's state; `hasProcess` is whether
      `currentAudioProcess` holds a player, and `inherited` holds the
      inherited members detections have written onto. */
  datatype Arbiter = Arbiter(
    readers: map<string, JsReader>,
    activeReader: Option<string>,
    musicFile: Option<Cue>,
    lastSwitchTime: int,
    hasProcess: bool,
    inherited: map<string, InheritedEntry>)

  /** Whether reader id `r` finds something in `readerStates`: an own entry
      or an inherited member. Any other id reads `undefined`. */
  predicate Resolves(a: Arbiter, r: string)
  {
    r in a.readers || r in ObjectPrototypeNames
  }

  /** The invariants every handler keeps: the table holds exactly the four
      readers, a reader without a card has a `null` uid (a reader with one
      holds whatever the message carried, `null` included), the music file is
      absent iff no reader owns playback, only inherited names are written
      onto, and the owner is a key of the table or an inherited member a
      detection has written onto. */
  predicate Valid(a: Arbiter)
  {
    && a.readers.Keys == ReaderKeys
    && (forall r :: r in a.readers && !a.readers[r].active ==> a.readers[r].uid == JsNull)
    && (a.musicFile.None? <==> a.activeReader.None?)
    && a.inherited.Keys <= ObjectPrototypeNames
    && (a.activeReader.Some? ==> a.activeReader.value in a.readers || a.activeReader.value in a.inherited)
  }

  /** The state at start-up (lines 38-48). */
  function Initial(): (a: Arbiter)
    ensures Valid(a)
    ensures a.activeReader.None? && a.lastSwitchTime == 0 && !a.hasProcess && a.inherited == map[]
    ensures forall r :: r in a.readers ==> a.readers[r] == Blank
  {
    Arbiter(map["1" := Blank, "2" := Blank, "3" := Blank, "4" := Blank], None, None, 0, false, map[])
  }

  /** The new state and the player commands one handler produces. */
  datatype Handled = Handled(next: Arbiter, commands: seq<Command>)

  /** `playMusicForReader`: kill the current player if there is one, then
      start a new one on the resolved cue, which becomes the current music
      file. The caller sets the owner and the switch time. */
  function PlayFor(a: Arbiter, reader: string, uid: JsValue, now: int): (h: Handled)
  {
    var f := GetMusicFile(reader, uid);
    Handled(a.(activeReader := Some(reader), musicFile := Some(f), lastSwitchTime := now, hasProcess := true),
            (if a.hasProcess then [Kill] else []) + [Play(f)])
  }

  /** `handleCardRemoval` (lines 121-143). */
  function OnRemoval(a: Arbiter, reader: string, now: int): (h: Handled)
    requires Valid(a) && reader in a.readers
    ensures Valid(h.next)
    ensures h.next.readers.Keys == a.readers.Keys
    ensures forall r :: r in a.readers && r != reader ==> h.next.readers[r] == a.readers[r]
    ensures h.next.inherited == a.inherited
  {
    var s := a.readers[reader];
    if !RemovalAccepted(s, now) then Handled(a, [])
    else
      var b := a.(readers := a.readers[reader := Vacated(s, JsNull, now)]);
      if Some(reader) == a.activeReader then
        var m := MostRecentActive(b.readers, ReaderOrder);
        if m.Some? && m != a.activeReader then PlayFor(b, m.value, b.readers[m.value].uid, now)
        else Handled(b, [])
      else Handled(b, [])
  }

  /** `handleCardDetection` (lines 146-176) for a reader id that resolves:
      the writes of lines 152-154 go to the table's entry, or to the
      inherited member the id names. */
  function OnDetection(a: Arbiter, reader: string, uid: JsValue, now: int): (h: Handled)
    requires Valid(a) && Resolves(a, reader)
    ensures Valid(h.next)
    ensures reader in a.readers ==>
              h.next.readers == a.readers[reader := Detected(a.readers[reader], uid, now)]
              && h.next.inherited == a.inherited
    ensures reader !in a.readers ==>
              h.next.readers == a.readers && h.next.inherited == a.inherited[reader := InheritedEntry(now, uid)]
  {
    var b := if reader in a.readers then a.(readers := a.readers[reader := Detected(a.readers[reader], uid, now)])
             else a.(inherited := a.inherited[reader := InheritedEntry(now, uid)]);
    if ShouldSwitch(a.activeReader, reader, a.lastSwitchTime, now) then PlayFor(b, reader, uid, now)
    else Handled(b, [])
  }

  /** The `message` handler (lines 186-205) for a message received at `now`;
      `None` is a message that does not parse as a JSON object. A reader id
      whose `toString` throws, or that finds nothing in `readerStates`
      (neither an own entry nor an inherited member), raises a TypeError
      before anything changes, and the handler's `catch` swallows it. */
  function OnMessage(a: Arbiter, msg: Option<Message>, now: int): (h: Handled)
    requires Valid(a)
    ensures Valid(h.next)
  {
    match msg
    case None => Handled(a, [])
    case Some(m) =>
      if m.deviceId != JsString(TargetDeviceId) || m.msgType != JsString("rfid_scan") then Handled(a, [])
      else
        match CallToString(m.readerId)
        case None => Handled(a, [])
        case Some(r) => if Resolves(a, r) then OnDetection(a, r, m.cardId, now) else Handled(a, [])
  }

  /** Whether the owner's entry has been without a card for longer than the
      removal threshold. An inherited member that owns playback has `active`
      set, by the detection that made it the owner, so it never qualifies. */
  predicate OwnerGraceExpired(a: Arbiter, now: int)
  {
    a.activeReader.Some? && a.activeReader.value in a.readers && GraceExpired(a.readers[a.activeReader.value], now)
  }

  /** The grace-period stop of the tick (lines 227-242). */
  function GraceCheck(a: Arbiter, now: int): (h: Handled)
    requires Valid(a)
    ensures Valid(h.next)
    ensures h.next.readers == a.readers && h.next.lastSwitchTime == a.lastSwitchTime
    ensures h.next.inherited == a.inherited
  {
    if OwnerGraceExpired(a, now) then
      Handled(a.(activeReader := None, musicFile := None, hasProcess := false),
              if a.hasProcess then [Kill] else [])
    else Handled(a, [])
  }

  /** Whether the timeout sweep treats a reader as removed: it holds a card
      but has not reported it for longer than the removal threshold. */
  predicate TimedOut(s: JsReader, now: int)
  {
    s.active && now - s.lastTime > CardRemovalThreshold
  }

  /** One reader of the timeout sweep (lines 246-249). */
  function SweepReader(a: Arbiter, reader: string, now: int): (h: Handled)
    requires Valid(a) && reader in a.readers
    ensures Valid(h.next)
  {
    if TimedOut(a.readers[reader], now) then OnRemoval(a, reader, now) else Handled(a, [])
  }

  /** The timeout sweep over `names`, in order. */
  function Sweep(a: Arbiter, names: seq<string>, now: int): (h: Handled)
    requires Valid(a) && forall i :: 0 <= i < |names| ==> names[i] in ReaderKeys
    ensures Valid(h.next)
    decreases |names|, a  // `a` keeps the verifier from unrolling a sweep over the constant reader list
  {
    if |names| == 0 then Handled(a, [])
    else
      var first := SweepReader(a, names[0], now);
      var rest := Sweep(first.next, names[1..], now);
      Handled(rest.next, first.commands + rest.commands)
  }

  /** The first reader of a sweep, and the rest of it. */
  lemma SweepUnfold(a: Arbiter, names: seq<string>, now: int)
    requires Valid(a) && |names| > 0 && forall i :: 0 <= i < |names| ==> names[i] in ReaderKeys
    ensures var first := SweepReader(a, names[0], now);
            var rest := Sweep(first.next, names[1..], now);
            Sweep(a, names, now) == Handled(rest.next, first.commands + rest.commands)
  {
  }

  lemma CommandsAssoc(x: seq<Command>, y: seq<Command>, z: seq<Command>)
    ensures x + (y + z) == (x + y) + z
  {
  }

  /** One tick of the interval timer: the grace check, then the sweep over
      every reader. */
  function TickStep(a: Arbiter, now: int): (h: Handled)
    requires Valid(a)
    ensures Valid(h.next)
  {
    var g := GraceCheck(a, now);
    var s := Sweep(g.next, ReaderOrder, now);
    Handled(s.next, g.commands + s.commands)
  }

  /** The player's completion callback (lines 82-98): a player that exits
      cleanly (no error, nothing on stderr) clears the owner and the file;
      a killed or failing one changes nothing. `currentAudioProcess` is left
      as it is. */
  function OnPlaybackExit(a: Arbiter, clean: bool): (b: Arbiter)
    requires Valid(a)
    ensures Valid(b)
    ensures b.readers == a.readers && b.lastSwitchTime == a.lastSwitchTime && b.hasProcess == a.hasProcess
    ensures b.inherited == a.inherited
  {
    if clean && a.activeReader.Some? then a.(activeReader := None, musicFile := None) else a
  }

  /** The events the client reacts to. */
  datatype Event =
    | Received(at: int, msg: Option<Message>)
    | Ticked(at: int)
    | PlayerExited(clean: bool)

  /** The handler of one event. */
  function Handle(a: Arbiter, e: Event): (h: Handled)
    requires Valid(a)
    ensures Valid(h.next)
  {
    match e
    case Received(now, msg) => OnMessage(a, msg, now)
    case Ticked(now) => TickStep(a, now)
    case PlayerExited(clean) => Handled(OnPlaybackExit(a, clean), [])
  }

  /** The client's mutable state. */
  class WsClient {
    var readers: map<string, JsReader>
    var activeReader: Option<string>
    var musicFile: Option<Cue>
    var lastSwitchTime: int
    var hasProcess: bool
    /** The inherited members of `readerStates` detections have written onto. */
    var inherited: map<string, InheritedEntry>
    /** Every command given to the player so far. */
    var log: seq<Command>

    function State(): Arbiter
      reads this
    {
      Arbiter(readers, activeReader, musicFile, lastSwitchTime, hasProcess, inherited)
    }

    /** The module-level initialisation (lines 38-48). */
    constructor ()
      ensures State() == Initial() && log == []
    {
      readers := map["1" := Blank, "2" := Blank, "3" := Blank, "4" := Blank];
      activeReader := None;
      musicFile := None;
      lastSwitchTime := 0;
      hasProcess := false;
      inherited := map[];
      log := [];
    }

    /** `getMostRecentActiveReader`. */
    method MostRecentActiveReader() returns (r: Option<string>)
      requires Valid(State())
      ensures r == MostRecentActive(readers, ReaderOrder)
      ensures IsMostRecent(readers, ReaderOrder, r)
    {
      r := FindMostRecentActive(readers, ReaderOrder);
    }

    /** `playMusicForReader`, with the caller's two assignments after it. */
    method PlayMusicForReader(reader: string, uid: JsValue, now: int)
      modifies this
      ensures State() == PlayFor(old(State()), reader, uid, now).next
      ensures log == old(log) + PlayFor(old(State()), reader, uid, now).commands
    {
      var f := GetMusicFile(reader, uid);
      if hasProcess {
        log := log + [Kill];
      }
      log := log + [Play(f)];
      hasProcess := true;
      musicFile := Some(f);
      activeReader := Some(reader);
      lastSwitchTime := now;
    }

    /** `handleCardRemoval`. */
    method HandleCardRemoval(reader: string, now: int)
      requires Valid(State()) && reader in readers
      modifies this
      ensures State() == OnRemoval(old(State()), reader, now).next
      ensures log == old(log) + OnRemoval(old(State()), reader, now).commands
    {
      var s := readers[reader];
      if now - s.lastRemoval > DebounceThreshold {
        readers := readers[reader := s.(active := false, uid := JsNull, removalTime := now, lastRemoval := now)];
        if Some(reader) == activeReader {
          var m := MostRecentActiveReader();
          if m.Some? && m != activeReader {
            PlayMusicForReader(m.value, readers[m.value].uid, now);
          }
        }
      }
    }

    /** `handleCardDetection`. */
    method HandleCardDetection(reader: string, uid: JsValue, now: int)
      requires Valid(State()) && Resolves(State(), reader)
      modifies this
      ensures State() == OnDetection(old(State()), reader, uid, now).next
      ensures log == old(log) + OnDetection(old(State()), reader, uid, now).commands
    {
      if reader in readers {
        readers := readers[reader := readers[reader].(lastTime := now, active := true, uid := uid)];
      } else {
        inherited := inherited[reader := InheritedEntry(now, uid)];
      }
      var shouldSwitch := false;
      if activeReader.None? {
        shouldSwitch := true;
      } else if reader != activeReader.value {
        if now - lastSwitchTime > ReaderSwitchThreshold {
          shouldSwitch := true;
        }
      }
      if shouldSwitch {
        PlayMusicForReader(reader, uid, now);
      }
    }

    /** The `message` handler. */
    method HandleMessage(msg: Option<Message>, now: int)
      requires Valid(State())
      modifies this
      ensures State() == OnMessage(old(State()), msg, now).next
      ensures log == old(log) + OnMessage(old(State()), msg, now).commands
    {
      if msg.Some? && msg.value.deviceId == JsString(TargetDeviceId) && msg.value.msgType == JsString("rfid_scan") {
        var id := CallToString(msg.value.readerId);
        if id.Some? && (id.value in readers || id.value in ObjectPrototypeNames) {
          HandleCardDetection(id.value, msg.value.cardId, now);
        }
      }
    }

    /** The interval timer's callback: the grace check, then the timeout
        sweep. */
    method Tick(now: int)
      requires Valid(State())
      modifies this
      ensures State() == TickStep(old(State()), now).next
      ensures log == old(log) + TickStep(old(State()), now).commands
    {
      ghost var g := GraceCheck(State(), now);
      CheckGracePeriod(now);
      assert State() == g.next;
      ghost var sw := Sweep(g.next, ReaderOrder, now);
      SweepTimeouts(now);
      assert State() == sw.next && TickStep(old(State()), now) == Handled(sw.next, g.commands + sw.commands);
      CommandsAssoc(old(log), g.commands, sw.commands);
    }

    /** The grace-period stop. */
    method CheckGracePeriod(now: int)
      requires Valid(State())
      modifies this
      ensures State() == GraceCheck(old(State()), now).next
      ensures log == old(log) + GraceCheck(old(State()), now).commands
    {
      // An inherited owner's `active` is true, so only a table entry can stop.
      if activeReader.Some? && activeReader.value in readers {
        var activeState := readers[activeReader.value];
        if !activeState.active && now - activeState.removalTime > CardRemovalThreshold {
          if hasProcess {
            log := log + [Kill];
            hasProcess := false;
          }
          activeReader := None;
          musicFile := None;
        }
      }
    }

    /** The timeout sweep, a loop over the entries of `readerStates`. */
    method SweepTimeouts(now: int)
      requires Valid(State())
      modifies this
      ensures State() == Sweep(old(State()), ReaderOrder, now).next
      ensures log == old(log) + Sweep(old(State()), ReaderOrder, now).commands
    {
      ghost var goal := Sweep(State(), ReaderOrder, now);
      ghost var done: seq<Command> := [];
      var i := 0;
      while i < |ReaderOrder|
        invariant 0 <= i <= |ReaderOrder|
        invariant Valid(State())
        invariant log == old(log) + done
        invariant Sweep(State(), ReaderOrder[i..], now).next == goal.next
        invariant done + Sweep(State(), ReaderOrder[i..], now).commands == goal.commands
      {
        ghost var step := SweepReader(State(), ReaderOrder[i], now);
        SweepUnfold(State(), ReaderOrder[i..], now);
        assert ReaderOrder[i..][1..] == ReaderOrder[i + 1..];
        SweepOne(ReaderOrder[i], now);
        CommandsAssoc(old(log), done, step.commands);
        CommandsAssoc(done, step.commands, Sweep(State(), ReaderOrder[i + 1..], now).commands);
        done := done + step.commands;
        i := i + 1;
      }
      assert ReaderOrder[i..] == [];
    }

    /** One reader of the sweep: a reader silent for too long is treated as
        removed. */
    method SweepOne(reader: string, now: int)
      requires Valid(State()) && reader in readers
      modifies this
      ensures State() == SweepReader(old(State()), reader, now).next
      ensures log == old(log) + SweepReader(old(State()), reader, now).commands
    {
      var state := readers[reader];
      if state.active && now - state.lastTime > CardRemovalThreshold {
        HandleCardRemoval(reader, now);
      }
    }

    /** The player's completion callback. */
    method PlaybackExited(clean: bool)
      requires Valid(State())
      modifies this
      ensures State() == OnPlaybackExit(old(State()), clean)
      ensures log == old(log)
    {
      if clean && activeReader.Some? {
        activeReader := None;
        musicFile := None;
      }
    }
  }
}
