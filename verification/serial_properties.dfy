/** Properties of the serial tape client: how a serial line is split, the
    three-tier cue lookup against the card table, the debounce, the switch
    rule, the immediate handoff, the grace-period stop, the crash on an
    unknown reader, and the end-to-end scenario of a two-card session. */
module SerialTapeProperties {
  import opened Common
  import opened Arbitration
  import opened MediaCatalogue
  import opened SerialTapeClient

  /** A detection line of the shape the loop's parser expects. The reader
      firmware is not part of this model: the shape is inferred from how
      rfid-tape-client/tape-client.py splits lines (lines 100-123) and is
      assumed, not taken from the firmware. */
  function DetectionText(reader: string, uid: string): string
  {
    reader + " - Card UID: " + uid + "\r\n"
  }

  /** A removal line of the shape the loop's parser expects (inferred from
      the same lines, and assumed in the same way). */
  function RemovalText(reader: string): string
  {
    reader + " - Card removed\r\n"
  }

  /** The shape of a detection line once its line ending is stripped. */
  predicate DetectionShape(l: string, reader: string, uid: string)
  {
    && |reader| == 8 && |uid| == 8
    && reader[0] !in PythonWhitespace && reader[7] !in PythonWhitespace
    && uid[0] !in PythonWhitespace && uid[7] !in PythonWhitespace
    && '-' !in reader && ':' !in uid && 'v' !in reader && 'v' !in uid
    && l == reader + " - Card UID: " + uid
  }

  /** The steps of `Classify` on a detection line of that shape,
      for an eight-character reader name and UID. */
  lemma SplitDetection(reader: string, uid: string)
    requires |reader| == 8 && |uid| == 8
    requires reader[0] !in PythonWhitespace && reader[7] !in PythonWhitespace
    requires uid[0] !in PythonWhitespace && uid[7] !in PythonWhitespace
    requires '-' !in reader && ':' !in uid && 'v' !in reader && 'v' !in uid
    ensures Classify(Some(DetectionText(reader, uid))) == DetectionLine(reader, uid)
  {
    var l := reader + " - Card UID: " + uid;
    var raw := DetectionText(reader, uid);
    assert raw == l + "\r\n";
    assert raw[0] == reader[0] && raw[|l| - 1] == uid[7];
    StripLineEnd(raw, |l|);
    assert raw[..|l|] == l;
    DetectionKind(l, reader, uid);
    DetectionReader(l, reader, uid);
    DetectionUid(l, reader, uid);
  }

  lemma DetectionKind(l: string, reader: string, uid: string)
    requires DetectionShape(l, reader, uid)
    ensures !Contains(l, "Card removed") && Contains(l, "Card UID:")
  {
    assert l == (reader + " - ") + ("Card UID: " + uid);
    assert l[11..] == "Card UID: " + uid;
    ContainsAt(l, "Card UID:", 11);
    assert 'v' !in l;
    NotContainsChar(l, "Card removed", 'v');
  }

  lemma DetectionReader(l: string, reader: string, uid: string)
    requires DetectionShape(l, reader, uid)
    ensures Trim(BeforeFirst(l, "-"), PythonWhitespace) == reader
  {
    assert l == (reader + " ") + ("- Card UID: " + uid);
    assert l[..9] == reader + " ";
    assert "-" <= l[9..];
    NoOccurrenceBefore(l, "-", 9, 0);
    BeforeFirstAt(l, "-", 9);
    TrimIs(l[..9], PythonWhitespace, 0, 8);
    assert l[..9][0..8] == reader;
  }

  lemma DetectionUid(l: string, reader: string, uid: string)
    requires DetectionShape(l, reader, uid)
    ensures Trim(AfterLast(l, ':'), PythonWhitespace) == uid
  {
    assert l == (reader + " - Card UID:") + (" " + uid);
    assert l[20..] == " " + uid;
    assert l[19] == ':';
    AfterLastAt(l, ':', 19);
    TrimIs(l[20..], PythonWhitespace, 1, 8);
    assert l[20..][1..9] == uid;
  }

  /** A CR LF line ending is stripped. */
  lemma StripLineEnd(raw: string, n: int)
    requires 0 < n && n + 2 == |raw| && raw[n] == '\r' && raw[n + 1] == '\n'
    requires raw[0] !in PythonWhitespace && raw[n - 1] !in PythonWhitespace
    ensures Trim(raw, PythonWhitespace) == raw[..n]
  {
    forall i | n <= i < |raw|
      ensures raw[i] in PythonWhitespace
    {
      if i == n {
        assert raw[i] == '\r';
      } else {
        assert raw[i] == '\n';
      }
    }
    TrimIs(raw, PythonWhitespace, 0, n);
    assert raw[0..n] == raw[..n];
  }

  /** The steps of `Classify` on a removal line of that shape, for
      an eight-character reader name. */
  lemma SplitRemoval(reader: string)
    requires |reader| == 8 && reader[0] !in PythonWhitespace && reader[7] !in PythonWhitespace
    requires '-' !in reader
    ensures Classify(Some(RemovalText(reader))) == RemovalLine(reader)
  {
    var l := reader + " - Card removed";
    var raw := RemovalText(reader);
    assert raw == l + "\r\n";
    assert raw[0] == reader[0] && raw[|l| - 1] == 'd';
    StripLineEnd(raw, |l|);
    assert raw[..|l|] == l;
    RemovalKind(l, reader);
    RemovalReader(l, reader);
  }

  lemma RemovalKind(l: string, reader: string)
    requires |reader| == 8 && l == reader + " - Card removed"
    ensures Contains(l, "Card removed")
  {
    assert l == (reader + " - ") + "Card removed";
    assert l[11..] == "Card removed";
    ContainsAt(l, "Card removed", 11);
  }

  lemma RemovalReader(l: string, reader: string)
    requires |reader| == 8 && reader[0] !in PythonWhitespace && reader[7] !in PythonWhitespace
    requires '-' !in reader
    requires l == reader + " - Card removed"
    ensures Trim(BeforeFirst(l, " - "), PythonWhitespace) == reader
  {
    assert l == reader + (" - Card removed");
    assert l[..8] == reader;
    assert l[8] == ' ';
    assert l[1..8] == reader[1..];
    assert l[1..9] == l[1..8] + [l[8]];
    assert l[1..9] == reader[1..] + " ";
    NoOccurrenceBefore(l, " - ", 8, 1);
    BeforeFirstAt(l, " - ", 8);
    TrimIs(l[..8], PythonWhitespace, 0, 8);
    assert l[..8][0..8] == reader;
  }

  /** The three tiers of `get_music_file` agree with the card table: on its
      own station a registered card plays its "correct" cue, on another
      station its "default" cue, and an unknown card the global default. */
  lemma GetMusicFileIsCatalogue(n: string, uid: string)
    requires n == "1" || n == "2" || n == "3"
    ensures GetMusicFile("Reader " + n, uid) == CatalogueCue(n, uid)
    ensures CueFile(GetMusicFile("Reader " + n, uid)) == Resolve(Cards, n, uid)
  {
    var reader := "Reader " + n;
    assert reader[7] == n[0] && |reader| == 8;
    assert reader == "Reader 1" <==> n == "1";
    assert reader == "Reader 2" <==> n == "2";
    assert reader == "Reader 3" <==> n == "3";
    GetMusicFileTiers(reader, uid);
    CatalogueCueIsResolve(n, uid);
  }

  /** An iteration classifies its line and then takes one step. */
  lemma IterationIsStep(a: Arbiter, now: int, line: Option<string>, busy: bool)
    requires Valid(a)
    ensures Iteration(a, now, line, busy) == Step(a, now, Classify(line), busy)
  {
  }

  /** `get_music_file` case by case: each registered card plays its
      "correct" cue on its own reader and its "default" cue on any other,
      and every other uid plays the global default. */
  lemma GetMusicFileTiers(reader: string, uid: string)
    ensures GetMusicFile(reader, uid) ==
            if uid == "51E98F49" then (if reader == "Reader 2" then DirectorCorrect else DirectorDefault)
            else if uid == "41EB8F49" then (if reader == "Reader 3" then FootballCorrect else FootballDefault)
            else if uid == "21ED8F49" then (if reader == "Reader 1" then NeighborCorrect else NeighborDefault)
            else DefaultMusic
  {
  }

  /** A line that names a reader which is not a key of `reader_states`
      raises KeyError, whether it reports a detection or a removal: the loop
      ends and nothing is changed or played. */
  lemma UnknownReaderCrashes(a: Arbiter, i: Input, rest: seq<Input>)
    requires Valid(a)
    requires Classify(i.line).RemovalLine? || Classify(i.line).DetectionLine?
    requires Classify(i.line).reader !in ReaderKeys
    ensures Run(a, [i] + rest) == Trace(a, [], true)
  {
    IterationIsStep(a, i.now, i.line, i.busy);
    RunUnfold(a, [i] + rest);
  }

  /** A removal is handled as the debounce demands: an early one changes
      nothing; an accepted one vacates the reader, and ownership moves only
      when the owner itself was vacated. */
  lemma RemovalRule(a: Arbiter, r: string, now: int)
    requires Valid(a) && r in a.readers
    ensures var h := OnRemoval(a, r, now);
            && (!RemovalAccepted(a.readers[r], now) ==> h == Handled(a, []))
            && (RemovalAccepted(a.readers[r], now) ==> h.next.readers == a.readers[r := Vacated(a.readers[r], None, now)])
            && (a.activeReader != Some(r) ==>
                  h.commands == [] && h.next.activeReader == a.activeReader && h.next.lastSwitchTime == a.lastSwitchTime)
  {
  }

  /** When the owner's removal is accepted, ownership passes at once, without
      the switch threshold, to the most recently detected reader still holding
      a card; when no reader qualifies the owner stays, to be stopped by the
      grace period. */
  lemma HandoffToMostRecent(a: Arbiter, r: string, now: int)
    requires Valid(a) && a.activeReader == Some(r) && RemovalAccepted(a.readers[r], now)
    ensures var h := OnRemoval(a, r, now);
            var m := MostRecentActive(h.next.readers, ReaderOrder);
            && IsMostRecent(h.next.readers, ReaderOrder, m)
            && (m.Some? ==> && h.next.activeReader == m && h.next.lastSwitchTime == now
                            && h.commands == PlayFor(m.value, h.next.readers[m.value].uid.value))
            && (m.None? ==> h.next.activeReader == Some(r) && h.commands == []
                            && h.next.lastSwitchTime == a.lastSwitchTime)
  {
    var h := OnRemoval(a, r, now);
    var rs := a.readers[r := Vacated(a.readers[r], None, now)];
    assert h.next.readers == rs;
    MostRecentActiveIsMostRecent(rs, ReaderOrder);
    var m := MostRecentActive(rs, ReaderOrder);
    assert m.Some? ==> m.value != r;
  }

  /** A detection always refreshes its reader, takes playback exactly when
      the switch rule allows, and on the owner itself never replays. */
  lemma DetectionRule(a: Arbiter, r: string, u: string, now: int)
    requires Valid(a) && r in a.readers
    ensures var h := OnDetection(a, r, u, now);
            && h.next.readers[r] == ReaderState(now, Some(u), true, a.readers[r].removalTime, a.readers[r].lastRemoval)
            && (h.commands != [] <==> ShouldSwitch(a.activeReader, r, a.lastSwitchTime, now))
            && (ShouldSwitch(a.activeReader, r, a.lastSwitchTime, now) ==>
                  h.next.activeReader == Some(r) && h.next.musicFile == Some(GetMusicFile(r, u))
                  && h.next.lastSwitchTime == now && h.commands == PlayFor(r, u))
            && (!ShouldSwitch(a.activeReader, r, a.lastSwitchTime, now) ==>
                  h.next.activeReader == a.activeReader && h.next.musicFile == a.musicFile
                  && h.next.lastSwitchTime == a.lastSwitchTime)
            && (a.activeReader == Some(r) ==> h.commands == [])
  {
  }

  /** Whatever one iteration reads, a new owner is a reader holding a card,
      it was chosen at this very time, its cue is played, and the previous
      owner either was absent, had held playback for longer than the switch
      threshold, or has just been vacated. */
  lemma OwnerChangeJustified(a: Arbiter, now: int, line: Option<string>, busy: bool)
    requires Valid(a)
    ensures var o := Iteration(a, now, line, busy);
            o.Continue? && o.next.activeReader.Some? && o.next.activeReader != a.activeReader ==>
              && o.next.readers[o.next.activeReader.value].active
              && o.next.lastSwitchTime == now
              && o.commands == [Stop, Play(o.next.musicFile.value)]
              && (|| a.activeReader.None?
                  || now - a.lastSwitchTime > ReaderSwitchThreshold
                  || !o.next.readers[a.activeReader.value].active)
  {
    IterationIsStep(a, now, line, busy);
    StepOwnerChange(a, now, Classify(line), busy);
  }

  /** `OwnerChangeJustified` for a classified line. */
  lemma StepOwnerChange(a: Arbiter, now: int, kind: LineKind, busy: bool)
    requires Valid(a)
    ensures var o := Step(a, now, kind, busy);
            o.Continue? && o.next.activeReader.Some? && o.next.activeReader != a.activeReader ==>
              && o.next.readers[o.next.activeReader.value].active
              && o.next.lastSwitchTime == now
              && o.commands == [Stop, Play(o.next.musicFile.value)]
              && (|| a.activeReader.None?
                  || now - a.lastSwitchTime > ReaderSwitchThreshold
                  || !o.next.readers[a.activeReader.value].active)
  {
    match kind
    case RemovalLine(r) =>
      if r in a.readers {
        var h := OnRemoval(a, r, now);
        if h.next.activeReader != a.activeReader {
          HandoffToMostRecent(a, r, now);
          var y := h.next.activeReader.value;
          assert h.next.readers[y].active;
          assert GraceCheck(h.next, now, false) == Handled(h.next, []);
        }
      }
    case DetectionLine(r, u) =>
      if r in a.readers {
        DetectionRule(a, r, u, now);
      }
    case _ =>
  }

  /** Repeated detections on the owning reader, with the mixer busy, play
      nothing and keep the owner: a card left on its reader never restarts
      its cue. */
  lemma {:induction false} OwnerRepeatsAreSilent(a: Arbiter, r: string, inputs: seq<Input>)
    requires Valid(a) && a.activeReader == Some(r)
    requires forall k :: 0 <= k < |inputs| ==> inputs[k].busy && Classify(inputs[k].line).DetectionLine?
                                                && Classify(inputs[k].line).reader == r
    ensures Run(a, inputs).commands == [] && Run(a, inputs).final.activeReader == Some(r)
    ensures !Run(a, inputs).halted
    decreases |inputs|
  {
    if |inputs| > 0 {
      var i := inputs[0];
      RunUnfold(a, inputs);
      var b := OwnerRepeatStep(a, r, i);
      OwnerRepeatsAreSilent(b, r, inputs[1..]);
    }
  }

  /** One detection on the owner with the mixer busy. */
  lemma OwnerRepeatStep(a: Arbiter, r: string, i: Input) returns (b: Arbiter)
    requires Valid(a) && a.activeReader == Some(r)
    requires i.busy && Classify(i.line).DetectionLine? && Classify(i.line).reader == r
    ensures Valid(b) && b.activeReader == Some(r)
    ensures Iteration(a, i.now, i.line, i.busy) == Continue(b, [])
  {
    var kind := Classify(i.line);
    b := OwnerRepeatKind(a, r, kind.uid, i.now);
    assert kind == DetectionLine(r, kind.uid);
    IterationIsStep(a, i.now, i.line, i.busy);
  }

  lemma OwnerRepeatKind(a: Arbiter, r: string, u: string, now: int) returns (b: Arbiter)
    requires Valid(a) && a.activeReader == Some(r)
    ensures Valid(b) && b.activeReader == Some(r)
    ensures Step(a, now, DetectionLine(r, u), true) == Continue(b, [])
  {
    DetectionRule(a, r, u, now);
    b := OnDetection(a, r, u, now).next;
    assert OnDetection(a, r, u, now) == Handled(b, []);
    assert GraceCheck(b, now, false) == Handled(b, []);
    assert CompletionCheck(b, true) == b;
    assert Finish(Handled(b, []), now, false, true) == Continue(b, []);
  }

  /** Removal signals that follow an accepted one within the debounce
      threshold change nothing, as long as no other reader owns playback. */
  lemma {:induction false} RemovalBurstIsIgnored(a: Arbiter, r: string, inputs: seq<Input>)
    requires Valid(a) && r in a.readers
    requires a.activeReader.None? || a.activeReader == Some(r)
    requires a.readers[r].removalTime == a.readers[r].lastRemoval
    requires forall k :: 0 <= k < |inputs| ==> inputs[k].busy && Classify(inputs[k].line) == RemovalLine(r)
                                                && inputs[k].now - a.readers[r].lastRemoval <= DebounceThreshold
    ensures Run(a, inputs) == Trace(a, [], false)
    decreases |inputs|
  {
    if |inputs| > 0 {
      RunUnfold(a, inputs);
      IgnoredRemovalStep(a, r, inputs[0]);
      RemovalBurstIsIgnored(a, r, inputs[1..]);
    }
  }

  /** One removal signal inside the debounce window. */
  lemma IgnoredRemovalStep(a: Arbiter, r: string, i: Input)
    requires Valid(a) && r in a.readers
    requires a.activeReader.None? || a.activeReader == Some(r)
    requires a.readers[r].removalTime == a.readers[r].lastRemoval
    requires i.busy && Classify(i.line) == RemovalLine(r) && i.now - a.readers[r].lastRemoval <= DebounceThreshold
    ensures Iteration(a, i.now, i.line, i.busy) == Continue(a, [])
  {
    assert OnRemoval(a, r, i.now) == Handled(a, []);
    assert GraceCheck(a, i.now, false) == Handled(a, []);
    assert CompletionCheck(a, true) == a;
    assert Finish(Handled(a, []), i.now, false, true) == Continue(a, []);
    assert Step(a, i.now, RemovalLine(r), i.busy) == Continue(a, []);
    IterationIsStep(a, i.now, i.line, i.busy);
  }

  /** An iteration that reads no line stops playback exactly when the
      owner's card has been gone for longer than the grace period, and
      forgets the owner without a command once the mixer has gone idle. */
  lemma IdleIteration(a: Arbiter, now: int, busy: bool)
    requires Valid(a)
    ensures var o := Iteration(a, now, None, busy);
            var expired := a.activeReader.Some? && GraceExpired(a.readers[a.activeReader.value], now);
            && o.Continue? && o.next.readers == a.readers
            && o.commands == (if expired then [Stop] else [])
            && (o.next.activeReader.None? <==> a.activeReader.None? || expired || !busy)
            && (o.next.activeReader.Some? ==> o.next == a)
  {
  }


  /** A run is the run of its first part followed by the run of the rest
      from where the first part left off, unless the first part crashed. */
  lemma {:induction false} RunAppend(a: Arbiter, xs: seq<Input>, ys: seq<Input>)
    requires Valid(a)
    ensures var t := Run(a, xs);
            Run(a, xs + ys) == if t.halted then t else Prepend(t.commands, Run(t.final, ys))
    decreases |xs|
  {
    if |xs| == 0 {
      assert xs + ys == ys;
    } else {
      RunUnfold(a, xs);
      RunUnfold(a, xs + ys);
      assert (xs + ys)[0] == xs[0];
      var o := Iteration(a, xs[0].now, xs[0].line, xs[0].busy);
      if o.Continue? {
        assert (xs + ys)[1..] == xs[1..] + ys;
        RunAppend(o.next, xs[1..], ys);
        var t := Run(o.next, xs[1..]);
        if !t.halted {
          PrependTwice(o.commands, t.commands, Run(t.final, ys));
        }
      }
    }
  }

  /** A run whose first pass is known. */
  lemma RunCons(a: Arbiter, i: Input, rest: seq<Input>, b: Arbiter, cs: seq<Command>)
    requires Valid(a) && Valid(b)
    requires Iteration(a, i.now, i.line, i.busy) == Continue(b, cs)
    ensures Run(a, [i] + rest) == Prepend(cs, Run(b, rest))
  {
    RunUnfold(a, [i] + rest);
    assert ([i] + rest)[1..] == rest;
  }

  /** A two-card session starting at `t0`: a card on Reader 1, a second
      card on Reader 2 half a second later, then both taken away two seconds
      apart; the mixer stays busy throughout. */
  function TwoCardSessionInputs(t0: int): seq<Input>
  {
    [ Input(t0, Some(DetectionText("Reader 1", "21ED8F49")), true),
      Input(t0 + 500, Some(DetectionText("Reader 2", "51E98F49")), true),
      Input(t0 + 2000, Some(RemovalText("Reader 1")), true),
      Input(t0 + 4000, Some(RemovalText("Reader 2")), true),
      Input(t0 + 5500, None, true) ]
  }

  /** The state after each pass of the session. */
  function SessionState(t0: int, k: nat): (a: Arbiter)
    requires k <= 5
    ensures Valid(a)
  {
    var card1 := ReaderState(t0, Some("21ED8F49"), true, 0, 0);
    var card2 := ReaderState(t0 + 500, Some("51E98F49"), true, 0, 0);
    var gone1 := ReaderState(t0, None, false, t0 + 2000, t0 + 2000);
    var gone2 := ReaderState(t0 + 500, None, false, t0 + 4000, t0 + 4000);
    match k
    case 0 => Initial()
    case 1 => Arbiter(map["Reader 1" := card1, "Reader 2" := Blank, "Reader 3" := Blank], Some("Reader 1"), Some(NeighborCorrect), t0)
    case 2 => Arbiter(map["Reader 1" := card1, "Reader 2" := card2, "Reader 3" := Blank], Some("Reader 1"), Some(NeighborCorrect), t0)
    case 3 => Arbiter(map["Reader 1" := gone1, "Reader 2" := card2, "Reader 3" := Blank], Some("Reader 2"), Some(DirectorCorrect), t0 + 2000)
    case 4 => Arbiter(map["Reader 1" := gone1, "Reader 2" := gone2, "Reader 3" := Blank], Some("Reader 2"), Some(DirectorCorrect), t0 + 2000)
    case 5 => Arbiter(map["Reader 1" := gone1, "Reader 2" := gone2, "Reader 3" := Blank], None, None, t0 + 2000)
  }

  /** The card on Reader 1 takes playback. */
  lemma SessionPass1(t0: int)
    requires t0 > 0
    ensures Step(SessionState(t0, 0), t0, DetectionLine("Reader 1", "21ED8F49"), true)
            == Continue(SessionState(t0, 1), [Stop, Play(NeighborCorrect)])
  {
    var a := SessionState(t0, 0);
    assert a.readers["Reader 1" := Detected(Blank, Some("21ED8F49"), t0)] == SessionState(t0, 1).readers;
  }

  /** The card on Reader 2 half a second later is inside the switch
      threshold: it is recorded but plays nothing. */
  lemma SessionPass2(t0: int)
    requires t0 > 0
    ensures Step(SessionState(t0, 1), t0 + 500, DetectionLine("Reader 2", "51E98F49"), true)
            == Continue(SessionState(t0, 2), [])
  {
    var a := SessionState(t0, 1);
    assert a.readers["Reader 2" := Detected(Blank, Some("51E98F49"), t0 + 500)] == SessionState(t0, 2).readers;
  }

  /** Taking the owner's card away hands playback to Reader 2 at once. */
  lemma SessionPass3(t0: int)
    requires t0 > 0
    ensures Step(SessionState(t0, 2), t0 + 2000, RemovalLine("Reader 1"), true)
            == Continue(SessionState(t0, 3), [Stop, Play(DirectorCorrect)])
  {
    SessionHandoff(t0);
    var h := OnRemoval(SessionState(t0, 2), "Reader 1", t0 + 2000);
    assert GraceCheck(h.next, t0 + 2000, false) == Handled(h.next, []);
  }

  /** The removal handler of the third pass. */
  lemma SessionHandoff(t0: int)
    requires t0 > 0
    ensures OnRemoval(SessionState(t0, 2), "Reader 1", t0 + 2000)
            == Handled(SessionState(t0, 3), [Stop, Play(DirectorCorrect)])
  {
    var a := SessionState(t0, 2);
    var rs := a.readers["Reader 1" := Vacated(a.readers["Reader 1"], None, t0 + 2000)];
    assert rs == SessionState(t0, 3).readers;
    assert MostRecentActive(rs, ReaderOrder) == Some("Reader 2");
    GetMusicFileTiers("Reader 2", "51E98F49");
  }

  /** Taking the second card away leaves no reader to hand over to: the
      owner stays until the grace period runs out. */
  lemma SessionPass4(t0: int)
    requires t0 > 0
    ensures Step(SessionState(t0, 3), t0 + 4000, RemovalLine("Reader 2"), true)
            == Continue(SessionState(t0, 4), [])
  {
    var a := SessionState(t0, 3);
    var rs := a.readers["Reader 2" := Vacated(a.readers["Reader 2"], None, t0 + 4000)];
    assert rs == SessionState(t0, 4).readers;
    assert MostRecentActive(rs, ReaderOrder) == None;
  }

  /** A second and a half after the last removal the grace period stops
      playback. */
  lemma SessionPass5(t0: int)
    requires t0 > 0
    ensures Step(SessionState(t0, 4), t0 + 5500, NoLine, true)
            == Continue(SessionState(t0, 5), [Stop])
  {
  }

  /** How the session's lines are classified. */
  lemma SessionLine0(t0: int)
    ensures Classify(TwoCardSessionInputs(t0)[0].line) == DetectionLine("Reader 1", "21ED8F49")
  {
    SplitDetection("Reader 1", "21ED8F49");
  }

  lemma SessionLine1(t0: int)
    ensures Classify(TwoCardSessionInputs(t0)[1].line) == DetectionLine("Reader 2", "51E98F49")
  {
    SplitDetection("Reader 2", "51E98F49");
  }

  lemma SessionLine2(t0: int)
    ensures Classify(TwoCardSessionInputs(t0)[2].line) == RemovalLine("Reader 1")
  {
    SplitRemoval("Reader 1");
  }

  lemma SessionLine3(t0: int)
    ensures Classify(TwoCardSessionInputs(t0)[3].line) == RemovalLine("Reader 2")
  {
    SplitRemoval("Reader 2");
  }

  /** A run whose first line is classified as `kind` and whose step on that
      kind is known. */
  lemma RunConsStep(a: Arbiter, inputs: seq<Input>, kind: LineKind, b: Arbiter, cs: seq<Command>)
    requires Valid(a) && Valid(b) && |inputs| > 0 && Classify(inputs[0].line) == kind
    requires Step(a, inputs[0].now, kind, inputs[0].busy) == Continue(b, cs)
    ensures Run(a, inputs) == Prepend(cs, Run(b, inputs[1..]))
  {
    IterationIsStep(a, inputs[0].now, inputs[0].line, inputs[0].busy);
    RunUnfold(a, inputs);
  }

  /** The commands the session gives from pass `k + 1` on. */
  function SessionCommands(k: nat): seq<Command>
    requires k <= 5
  {
    match k
    case 0 => [Stop, Play(NeighborCorrect), Stop, Play(DirectorCorrect), Stop]
    case 1 => [Stop, Play(DirectorCorrect), Stop]
    case 2 => [Stop, Play(DirectorCorrect), Stop]
    case 3 => [Stop]
    case 4 => [Stop]
    case 5 => []
  }

  /** The session starts from the start-up state and ends with nothing
      playing. */
  lemma SessionEnds(t0: int)
    ensures SessionState(t0, 0) == Initial()
    ensures SessionState(t0, 5).activeReader.None? && SessionState(t0, 5).musicFile.None?
  {
  }

  /** The command lists of consecutive passes fit together. */
  lemma SessionCommandsJoin()
    ensures [Stop, Play(NeighborCorrect)] + SessionCommands(1) == SessionCommands(0)
    ensures [Stop, Play(DirectorCorrect)] + SessionCommands(3) == SessionCommands(2)
  {
  }

  /** The session run from the state after pass `k`, for each `k`. */
  lemma SessionFrom4(t0: int)
    requires t0 > 0
    ensures Run(SessionState(t0, 4), TwoCardSessionInputs(t0)[4..]) == Trace(SessionState(t0, 5), SessionCommands(4), false)
  {
    var inputs := TwoCardSessionInputs(t0);
    SessionPass5(t0);
    RunConsStep(SessionState(t0, 4), inputs[4..], NoLine, SessionState(t0, 5), [Stop]);
  }

  lemma SessionFrom3(t0: int)
    requires t0 > 0
    ensures Run(SessionState(t0, 3), TwoCardSessionInputs(t0)[3..]) == Trace(SessionState(t0, 5), SessionCommands(3), false)
  {
    var inputs := TwoCardSessionInputs(t0);
    SessionFrom4(t0);
    SessionLine3(t0);
    SessionPass4(t0);
    assert inputs[3..][1..] == inputs[4..];
    RunConsStep(SessionState(t0, 3), inputs[3..], RemovalLine("Reader 2"), SessionState(t0, 4), []);
  }

  lemma SessionFrom2(t0: int)
    requires t0 > 0
    ensures Run(SessionState(t0, 2), TwoCardSessionInputs(t0)[2..]) == Trace(SessionState(t0, 5), SessionCommands(2), false)
  {
    var inputs := TwoCardSessionInputs(t0);
    SessionFrom3(t0);
    SessionLine2(t0);
    SessionPass3(t0);
    SessionCommandsJoin();
    assert inputs[2..][1..] == inputs[3..];
    RunConsStep(SessionState(t0, 2), inputs[2..], RemovalLine("Reader 1"), SessionState(t0, 3), [Stop, Play(DirectorCorrect)]);
  }

  lemma SessionFrom1(t0: int)
    requires t0 > 0
    ensures Run(SessionState(t0, 1), TwoCardSessionInputs(t0)[1..]) == Trace(SessionState(t0, 5), SessionCommands(1), false)
  {
    var inputs := TwoCardSessionInputs(t0);
    SessionFrom2(t0);
    SessionLine1(t0);
    SessionPass2(t0);
    assert inputs[1..][1..] == inputs[2..];
    RunConsStep(SessionState(t0, 1), inputs[1..], DetectionLine("Reader 2", "51E98F49"), SessionState(t0, 2), []);
  }

  /** The session plays the first card's correct cue, ignores the second
      card inside the switch threshold, hands playback to it at once when
      the first card leaves, keeps it through the second removal and stops
      it when the grace period runs out. */
  lemma TwoCardSession(t0: int)
    requires t0 > 0
    ensures var t := Run(Initial(), TwoCardSessionInputs(t0));
            && !t.halted && t.final.activeReader.None? && t.final.musicFile.None?
            && t.commands == SessionCommands(0)
  {
    var inputs := TwoCardSessionInputs(t0);
    SessionFrom1(t0);
    SessionLine0(t0);
    SessionPass1(t0);
    SessionCommandsJoin();
    RunConsStep(SessionState(t0, 0), inputs, DetectionLine("Reader 1", "21ED8F49"), SessionState(t0, 1), [Stop, Play(NeighborCorrect)]);
    SessionEnds(t0);
  }
}
