/** Properties of the WebSocket tape client (rfid-tape-client/tape-client.js):
    the three-tier cue lookup, the removal, hand-off and detection rules,
    the message filters, and the order of the two checks of a tick. */
module WsTapeProperties {
  import opened Common
  import opened Arbitration
  import opened MediaCatalogue
  import opened WsTapeClient

  /** `getMusicFile` agrees with the written-out card table, for a card
      identifier whose text is `JsToString(uid)`: each registered card plays
      its "correct" cue on its own reader and its "default" cue on any other,
      and every other identifier plays the global default. */
  lemma GetMusicFileTiers(reader: string, uid: JsValue)
    requires reader in ReaderKeys
    ensures GetMusicFile(reader, uid) == CatalogueCue(reader, JsToString(uid))
  {
    var t := JsToString(uid);
    assert MatchKey(reader, uid) == reader + "|" + t;
    KeySplits(reader, t, "2|51E98F49");
    assert "2|51E98F49"[..1] == "2" && "2|51E98F49"[2..] == "51E98F49";
    KeySplits(reader, t, "3|41EB8F49");
    assert "3|41EB8F49"[..1] == "3" && "3|41EB8F49"[2..] == "41EB8F49";
    KeySplits(reader, t, "1|21ED8F49");
    assert "1|21ED8F49"[..1] == "1" && "1|21ED8F49"[2..] == "21ED8F49";
  }

  /** A one-character reader gives the key `k` exactly when it is the text
      before the bar and the card's text is the text after it. */
  lemma KeySplits(reader: string, t: string, k: string)
    requires |reader| == 1 && |k| >= 2 && k[1] == '|'
    ensures reader + "|" + t == k <==> reader == k[..1] && t == k[2..]
  {
    if reader == k[..1] && t == k[2..] {
      assert k == k[..1] + "|" + k[2..];
    }
  }

  /** Only readers 1, 2 and 3 have a correct match, so a card on reader 4
      always plays a "default" cue or the global default. */
  lemma FourthReaderNeverCorrect(uid: JsValue)
    ensures GetMusicFile("4", uid) in {DirectorDefault, FootballDefault, NeighborDefault, DefaultMusic}
  {
    GetMusicFileTiers("4", uid);
  }

  /** The lookup agrees with the card table on every station. */
  lemma GetMusicFileIsCatalogue(n: string, uid: string)
    requires n in ReaderKeys
    ensures CueFile(GetMusicFile(n, JsString(uid))) == Resolve(Cards, n, uid)
  {
    GetMusicFileTiers(n, JsString(uid));
    assert JsToString(JsString(uid)) == uid;
    CatalogueCueIsResolve(n, uid);
  }

  /** As written, a card whose identifier is the name of an `Object.prototype`
      member, such as "constructor", makes `UID_DEFAULT_MUSIC[uid]` truthy,
      so `getMusicFile` hands that member to the player instead of the
      global default. */
  lemma PrototypeCardAsWritten(reader: string)
    requires reader in ReaderKeys
    ensures GetMusicFileAsWritten(reader, JsString("constructor")) == Inherited("constructor")
    ensures GetMusicFile(reader, JsString("constructor")) == DefaultMusic
  {
    var key := MatchKey(reader, JsString("constructor"));
    assert key[1] == '|';
    assert key !in ObjectPrototypeNames;
    GetMusicFileTiers(reader, JsString("constructor"));
  }

  /** For every other card identifier the code as written and the own-entry
      lookup agree. */
  lemma AsWrittenAgreesOtherwise(reader: string, uid: JsValue)
    requires reader in ReaderKeys && JsToString(uid) !in ObjectPrototypeNames
    ensures GetMusicFileAsWritten(reader, uid) == Own(GetMusicFile(reader, uid))
  {
    var key := MatchKey(reader, uid);
    assert key[1] == '|';
    assert key !in ObjectPrototypeNames;
  }

  /** A removal is accepted iff more than the debounce threshold has passed
      since the last accepted one; an ignored removal changes nothing, an
      accepted one vacates the reader. */
  lemma RemovalRule(a: Arbiter, r: string, now: int)
    requires Valid(a) && r in a.readers
    ensures var h := OnRemoval(a, r, now);
            && (!RemovalAccepted(a.readers[r], now) ==> h == Handled(a, []))
            && (RemovalAccepted(a.readers[r], now) ==> h.next.readers == a.readers[r := Vacated(a.readers[r], JsNull, now)])
  {
  }

  /** An accepted removal of the owner hands playback at once, with no
      threshold, to the most recently detected reader still holding a card,
      and records the switch time; with no such reader the owner stays. The
      removal of any other reader leaves ownership alone. */
  lemma HandoffToMostRecent(a: Arbiter, r: string, now: int)
    requires Valid(a) && r in a.readers && RemovalAccepted(a.readers[r], now)
    ensures var rs := a.readers[r := Vacated(a.readers[r], JsNull, now)];
            var m := MostRecentActive(rs, ReaderOrder);
            var h := OnRemoval(a, r, now);
            && (a.activeReader == Some(r) && m.Some? ==>
                  && IsMostRecent(rs, ReaderOrder, m)
                  && h.next.activeReader == m && h.next.lastSwitchTime == now
                  && h.next.musicFile == Some(GetMusicFile(m.value, rs[m.value].uid))
                  && h.commands == (if a.hasProcess then [Kill] else []) + [Play(GetMusicFile(m.value, rs[m.value].uid))])
            && (a.activeReader != Some(r) || m.None? ==>
                  && h.next == a.(readers := rs)
                  && h.commands == [])
  {
    var rs := a.readers[r := Vacated(a.readers[r], JsNull, now)];
    assert Covers(rs, ReaderOrder);
    MostRecentActiveIsMostRecent(rs, ReaderOrder);
  }

  /** Every detection refreshes its reader; playback switches iff no reader
      owns it, or the reader is another one and more than the switch
      threshold has passed since the last switch. */
  lemma DetectionRule(a: Arbiter, r: string, uid: JsValue, now: int)
    requires Valid(a) && r in a.readers
    ensures var h := OnDetection(a, r, uid, now);
            && h.next.readers[r] == Detected(a.readers[r], uid, now)
            && (ShouldSwitch(a.activeReader, r, a.lastSwitchTime, now) ==>
                  && h.next.activeReader == Some(r) && h.next.lastSwitchTime == now
                  && h.commands == (if a.hasProcess then [Kill] else []) + [Play(GetMusicFile(r, uid))])
            && (!ShouldSwitch(a.activeReader, r, a.lastSwitchTime, now) ==>
                  && h.next.activeReader == a.activeReader && h.next.musicFile == a.musicFile
                  && h.next.lastSwitchTime == a.lastSwitchTime && h.commands == [])
  {
  }

  /** A repeated detection on the owning reader never replays. */
  lemma OwnerRepeatIsSilent(a: Arbiter, uid: JsValue, now: int)
    requires Valid(a) && a.activeReader.Some?
    ensures OnDetection(a, a.activeReader.value, uid, now).commands == []
  {
  }

  /** A message ignored by the handler: one that does not parse, one from
      another device, one of another type, or one whose reader id throws on
      `toString` or finds nothing in `readerStates`. */
  predicate Ignored(a: Arbiter, msg: Option<Message>)
  {
    || msg.None?
    || msg.value.deviceId != JsString(TargetDeviceId)
    || msg.value.msgType != JsString("rfid_scan")
    || CallToString(msg.value.readerId).None?
    || !Resolves(a, CallToString(msg.value.readerId).value)
  }

  /** Ignored messages change nothing and start nothing; every other message
      is a detection on the reader id it carries, an inherited member's name
      included. */
  lemma MessageFilter(a: Arbiter, msg: Option<Message>, now: int)
    requires Valid(a)
    ensures Ignored(a, msg) ==> OnMessage(a, msg, now) == Handled(a, [])
    ensures !Ignored(a, msg) ==>
              OnMessage(a, msg, now) == OnDetection(a, JsToString(msg.value.readerId), msg.value.cardId, now)
  {
  }

  /** The client has no removal message: a message never takes a card away
      from a reader and never touches removal times. */
  lemma MessagesNeverDeactivate(a: Arbiter, msg: Option<Message>, now: int)
    requires Valid(a)
    ensures var b := OnMessage(a, msg, now).next;
            forall r :: r in a.readers ==>
              && (a.readers[r].active ==> b.readers[r].active)
              && b.readers[r].removalTime == a.readers[r].removalTime
              && b.readers[r].lastRemoval == a.readers[r].lastRemoval
  {
    MessageFilter(a, msg, now);
  }

  /** The grace check stops playback iff the owner's card has been gone for
      longer than the removal threshold; it then forgets the owner, the file
      and the player, killing the player if there is one. */
  lemma GraceRule(a: Arbiter, now: int)
    requires Valid(a)
    ensures a.activeReader.Some? && a.activeReader.value !in a.readers ==> !OwnerGraceExpired(a, now)
    ensures var h := GraceCheck(a, now);
            if a.activeReader.Some? && a.activeReader.value in a.readers
               && GraceExpired(a.readers[a.activeReader.value], now) then
              && h.next.activeReader.None? && h.next.musicFile.None? && !h.next.hasProcess
              && h.commands == (if a.hasProcess then [Kill] else [])
            else h == Handled(a, [])
  {
  }

  /** A player that exits cleanly ends ownership; any other exit changes
      nothing. */
  lemma PlaybackExitRule(a: Arbiter, clean: bool)
    requires Valid(a)
    ensures clean ==> OnPlaybackExit(a, clean).activeReader.None?
    ensures !clean ==> OnPlaybackExit(a, clean) == a
  {
  }

  /** The sweep names each of `names` once. */
  predicate SweepOrder(names: seq<string>)
  {
    && (forall i :: 0 <= i < |names| ==> names[i] in ReaderKeys)
    && (forall i, j :: 0 <= i < j < |names| ==> names[i] != names[j])
  }

  /** What the sweep does to one reader: a reader that has timed out and
      whose removal passes the debounce is vacated; every other reader keeps
      its state. */
  function SweptReader(s: JsReader, now: int): (t: JsReader)
  {
    if TimedOut(s, now) && RemovalAccepted(s, now) then Vacated(s, JsNull, now) else s
  }

  /** One reader of the sweep changes that reader's entry only, as
      `SweptReader` says. */
  lemma SweepReaderEffect(a: Arbiter, r: string, now: int)
    requires Valid(a) && r in a.readers
    ensures SweepReader(a, r, now).next.readers == a.readers[r := SweptReader(a.readers[r], now)]
  {
    if TimedOut(a.readers[r], now) {
      RemovalRule(a, r, now);
    }
  }

  /** The effect of a sweep on the table, reader by reader: each reader it
      visits is treated by `SweptReader` against its state before the sweep
      (no removal changes another reader's entry), and the others are left
      alone. */
  lemma {:induction false} SweepEffect(a: Arbiter, names: seq<string>, now: int)
    requires Valid(a) && SweepOrder(names)
    ensures var b := Sweep(a, names, now).next;
            forall r :: r in a.readers ==>
              b.readers[r] == if r in names then SweptReader(a.readers[r], now) else a.readers[r]
    decreases |names|
  {
    if |names| > 0 {
      var first := SweepReader(a, names[0], now);
      assert SweepOrder(names[1..]) by {
        assert forall i :: 0 <= i < |names| - 1 ==> names[1..][i] == names[i + 1];
      }
      SweepReaderEffect(a, names[0], now);
      SweepEffect(first.next, names[1..], now);
      assert forall r :: r in names[1..] ==> r != names[0];
      assert forall r :: r in names <==> r == names[0] || r in names[1..];
    }
  }

  /** The whole sweep of a tick: every reader that timed out and passes the
      debounce is vacated, and no other reader changes. */
  lemma TickSweepEffect(a: Arbiter, now: int)
    requires Valid(a)
    ensures forall r :: r in a.readers ==> Sweep(a, ReaderOrder, now).next.readers[r] == SweptReader(a.readers[r], now)
  {
    assert SweepOrder(ReaderOrder);
    SweepEffect(a, ReaderOrder, now);
  }

  /** No removal clears the owner: it either keeps it or hands it over. */
  lemma {:induction false} SweepKeepsAnOwner(a: Arbiter, names: seq<string>, now: int)
    requires Valid(a) && a.activeReader.Some? && forall i :: 0 <= i < |names| ==> names[i] in ReaderKeys
    ensures Sweep(a, names, now).next.activeReader.Some?
    decreases |names|
  {
    if |names| > 0 {
      SweepKeepsAnOwner(SweepReader(a, names[0], now).next, names[1..], now);
    }
  }

  /** With no owner, a sweep starts nothing and leaves no owner. */
  lemma {:induction false} SweepWithoutOwner(a: Arbiter, names: seq<string>, now: int)
    requires Valid(a) && a.activeReader.None? && forall i :: 0 <= i < |names| ==> names[i] in ReaderKeys
    ensures Sweep(a, names, now).next.activeReader.None?
    ensures Sweep(a, names, now).commands == []
    decreases |names|
  {
    if |names| > 0 {
      SweepWithoutOwner(SweepReader(a, names[0], now).next, names[1..], now);
    }
  }

  /** The grace check runs before the sweep: when the owner still holds its
      card at the start of a tick, the tick ends with an owner, even if the
      sweep removes the owner's card. */
  lemma GraceBeforeSweep(a: Arbiter, now: int)
    requires Valid(a) && a.activeReader.Some?
    requires a.activeReader.value in a.readers ==> a.readers[a.activeReader.value].active
    ensures TickStep(a, now).next.activeReader.Some?
  {
    SweepKeepsAnOwner(a, ReaderOrder, now);
  }

  /** A later tick, once the vacated owner's grace period has run out, stops
      playback: the owner and the file are cleared, and the player is killed
      if there is one. */
  lemma LaterTickStops(a: Arbiter, now: int)
    requires Valid(a) && a.activeReader.Some? && a.activeReader.value in a.readers
    requires GraceExpired(a.readers[a.activeReader.value], now)
    ensures TickStep(a, now).next.activeReader.None?
    ensures TickStep(a, now).commands == if a.hasProcess then [Kill] else []
  {
    var g := GraceCheck(a, now);
    SweepWithoutOwner(g.next, ReaderOrder, now);
  }

  /** A detection on an inherited member's name writes onto that member,
      leaves the table alone, and takes over playback under the same switch
      rule as a reader of the table. */
  lemma InheritedDetectionRule(a: Arbiter, r: string, uid: JsValue, now: int)
    requires Valid(a) && r in ObjectPrototypeNames
    ensures r !in a.readers
    ensures var h := OnDetection(a, r, uid, now);
            && h.next.readers == a.readers
            && h.next.inherited == a.inherited[r := InheritedEntry(now, uid)]
            && (ShouldSwitch(a.activeReader, r, a.lastSwitchTime, now) ==>
                  && h.next.activeReader == Some(r) && h.next.lastSwitchTime == now
                  && h.commands == (if a.hasProcess then [Kill] else []) + [Play(GetMusicFile(r, uid))])
            && (!ShouldSwitch(a.activeReader, r, a.lastSwitchTime, now) ==>
                  && h.next.activeReader == a.activeReader && h.commands == [])
  {
    assert r !in ReaderKeys;
  }

  /** No removal of the sweep touches an owner that is an inherited member:
      only the table's own entries are swept, and none of them is the owner. */
  lemma {:induction false} SweepKeepsInheritedOwner(a: Arbiter, names: seq<string>, now: int)
    requires Valid(a) && a.activeReader.Some? && a.activeReader.value !in a.readers
    requires forall i :: 0 <= i < |names| ==> names[i] in ReaderKeys
    ensures Sweep(a, names, now).next.activeReader == a.activeReader
    ensures Sweep(a, names, now).next.musicFile == a.musicFile
    ensures Sweep(a, names, now).commands == []
    decreases |names|
  {
    if |names| > 0 {
      var first := SweepReader(a, names[0], now);
      if TimedOut(a.readers[names[0]], now) {
        RemovalRule(a, names[0], now);
        if RemovalAccepted(a.readers[names[0]], now) {
          HandoffToMostRecent(a, names[0], now);
        }
      }
      SweepKeepsInheritedOwner(first.next, names[1..], now);
    }
  }

  /** An inherited member that owns playback outlives every tick: the grace
      check never stops it and the sweep never reaches it, so only a clean exit
      of the player or a switch to another reader ends its ownership. */
  lemma InheritedOwnerOutlivesTicks(a: Arbiter, now: int)
    requires Valid(a) && a.activeReader.Some? && a.activeReader.value !in a.readers
    ensures TickStep(a, now).next.activeReader == a.activeReader
    ensures TickStep(a, now).next.musicFile == a.musicFile
    ensures TickStep(a, now).commands == []
  {
    SweepKeepsInheritedOwner(a, ReaderOrder, now);
  }

  /** From start-up, a scan message whose reader id is "constructor" starts
      playback for that name, and no later tick ever stops it. */
  lemma ConstructorReaderTakesOver(cardId: JsValue, now: int, later: int)
    ensures var h := OnMessage(Initial(), Some(Message(JsString(TargetDeviceId), JsString("rfid_scan"),
                                                       JsString("constructor"), cardId)), now);
            && h.next.activeReader == Some("constructor")
            && h.commands == [Play(GetMusicFile("constructor", cardId))]
            && TickStep(h.next, later).next.activeReader == Some("constructor")
            && TickStep(h.next, later).commands == []
  {
    var m := Message(JsString(TargetDeviceId), JsString("rfid_scan"), JsString("constructor"), cardId);
    var a := Initial();
    assert "constructor" in ObjectPrototypeNames && "constructor" !in a.readers;
    assert CallToString(m.readerId) == Some("constructor");
    var h := OnMessage(a, Some(m), now);
    assert h == OnDetection(a, "constructor", cardId, now);
    InheritedOwnerOutlivesTicks(h.next, later);
  }
}
