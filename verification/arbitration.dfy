/** The arbitration rules that the serial client (tape-client.py) and the
    WebSocket client (tape-client.js) share: the per-reader state record,
    the three timing thresholds (in integer milliseconds), the debounce,
    switch and grace tests, and the choice of the most recently detected
    reader that still holds a card. Both clients declare the same
    constants and the same per-reader fields; they differ only in how a
    missing card identifier is written (`None` / `null`), so the record is
    generic in the type of its `uid` field. */
module Arbitration {
  import opened Common

  /** Grace period before playback stops once the owning card is gone. */
  const CardRemovalThreshold: int := 1000
  /** Minimum gap between two accepted removal signals of one reader. */
  const DebounceThreshold: int := 800
  /** Minimum time since the last switch before another reader may take over. */
  const ReaderSwitchThreshold: int := 1000

  /** One entry of `reader_states` / `readerStates`. */
  datatype ReaderState<U> = ReaderState(
    lastTime: int,      // time of the most recent detection
    uid: U,             // card currently believed present
    active: bool,       // a card is considered present
    removalTime: int,   // when the card was last removed
    lastRemoval: int)   // when the last removal signal was accepted

  /** A removal signal is accepted only when strictly more than the debounce
      threshold has passed since the previously accepted one. */
  predicate RemovalAccepted<U>(s: ReaderState<U>, now: int)
  {
    now - s.lastRemoval > DebounceThreshold
  }

  /** The state a reader takes when a removal is accepted at `now`. */
  function Vacated<U>(s: ReaderState<U>, noCard: U, now: int): (v: ReaderState<U>)
    ensures !v.active && v.uid == noCard
    ensures v.lastTime == s.lastTime && v.removalTime == now && v.lastRemoval == now
    ensures !RemovalAccepted(v, now)
  {
    ReaderState(s.lastTime, noCard, false, now, now)
  }

  /** The state a reader takes when card `uid` is detected at `now`. */
  function Detected<U>(s: ReaderState<U>, uid: U, now: int): (d: ReaderState<U>)
    ensures d.active && d.uid == uid && d.lastTime == now
    ensures d.removalTime == s.removalTime && d.lastRemoval == s.lastRemoval
  {
    s.(lastTime := now, active := true, uid := uid)
  }

  /** Whether a detection on `reader` at `now` takes playback: always when no
      reader owns it, never for the owner itself, and for another reader only
      once strictly more than the switch threshold has passed since the last
      switch. */
  predicate ShouldSwitch(owner: Option<string>, reader: string, lastSwitch: int, now: int)
  {
    owner.None? || (owner.value != reader && now - lastSwitch > ReaderSwitchThreshold)
  }

  /** Whether the grace period of a vacated owner has run out at `now`. */
  predicate GraceExpired<U>(s: ReaderState<U>, now: int)
  {
    !s.active && now - s.removalTime > CardRemovalThreshold
  }

  /** A reader the most-recent search may pick: it holds a card, and its last
      detection is later than the search's starting bound of 0. */
  predicate Eligible<U>(s: ReaderState<U>)
  {
    s.active && s.lastTime > 0
  }

  /** Every name in `order` has an entry in `readers`. */
  predicate Covers<U>(readers: map<string, ReaderState<U>>, order: seq<string>)
  {
    forall i :: 0 <= i < |order| ==> order[i] in readers
  }

  /** `r` is the outcome the most-recent search must give over `order`: none
      when no reader is eligible; otherwise an eligible reader whose last
      detection is the latest of all eligible readers and strictly later than
      that of every eligible reader before it (the first one wins a tie). */
  ghost predicate IsMostRecent<U>(readers: map<string, ReaderState<U>>, order: seq<string>, r: Option<string>)
    requires Covers(readers, order)
  {
    match r
    case None => forall i :: 0 <= i < |order| ==> !Eligible(readers[order[i]])
    case Some(name) =>
      exists k :: 0 <= k < |order| && order[k] == name && IsLatestAt(readers, order, k)
  }

  /** The reader at position `k` is eligible, no eligible reader was detected
      later, and every eligible reader before it was detected strictly earlier. */
  ghost predicate IsLatestAt<U>(readers: map<string, ReaderState<U>>, order: seq<string>, k: int)
    requires Covers(readers, order)
    requires 0 <= k < |order|
  {
    && Eligible(readers[order[k]])
    && (forall i :: 0 <= i < |order| && Eligible(readers[order[i]]) ==>
          readers[order[i]].lastTime <= readers[order[k]].lastTime)
    && (forall i :: 0 <= i < k && Eligible(readers[order[i]]) ==>
          readers[order[i]].lastTime < readers[order[k]].lastTime)
  }

  /** Reference definition of the most recently detected reader that still
      holds a card, by recursion over the tail of `order`. */
  function MostRecentActive<U>(readers: map<string, ReaderState<U>>, order: seq<string>): (r: Option<string>)
    requires Covers(readers, order)
    ensures r.Some? ==> r.value in order && Eligible(readers[r.value])
    decreases |order|
  {
    if |order| == 0 then None
    else
      var rest := MostRecentActive(readers, order[1..]);
      var head := readers[order[0]];
      if Eligible(head) && (rest.None? || readers[rest.value].lastTime <= head.lastTime)
      then Some(order[0])
      else rest
  }

  /** The reference definition meets the required outcome. */
  lemma {:induction false} MostRecentActiveIsMostRecent<U>(readers: map<string, ReaderState<U>>, order: seq<string>)
    requires Covers(readers, order)
    ensures IsMostRecent(readers, order, MostRecentActive(readers, order))
    ensures MostRecentActive(readers, order).Some? ==>
              MostRecentActive(readers, order).value in readers &&
              Eligible(readers[MostRecentActive(readers, order).value])
    decreases |order|
  {
    if |order| > 0 {
      var tail := order[1..];
      MostRecentActiveIsMostRecent(readers, tail);
      var rest := MostRecentActive(readers, tail);
      var head := readers[order[0]];
      assert forall i :: 1 <= i < |order| ==> order[i] == tail[i - 1];
      if Eligible(head) && (rest.None? || readers[rest.value].lastTime <= head.lastTime) {
        if rest.Some? {
          var k' :| 0 <= k' < |tail| && tail[k'] == rest.value && IsLatestAt(readers, tail, k');
          assert forall i :: 1 <= i < |order| && Eligible(readers[order[i]]) ==>
            readers[order[i]].lastTime <= readers[tail[k']].lastTime;
        }
        assert IsLatestAt(readers, order, 0);
      } else if rest.Some? {
        var k' :| 0 <= k' < |tail| && tail[k'] == rest.value && IsLatestAt(readers, tail, k');
        assert order[k' + 1] == rest.value;
        assert IsLatestAt(readers, order, k' + 1);
      }
    }
  }

  /** Two positions that both hold the latest eligible reader are the same. */
  lemma LatestAtIsUnique<U>(readers: map<string, ReaderState<U>>, order: seq<string>, k1: int, k2: int)
    requires Covers(readers, order)
    requires 0 <= k1 < |order| && 0 <= k2 < |order|
    requires IsLatestAt(readers, order, k1) && IsLatestAt(readers, order, k2)
    ensures k1 == k2
  {
    assert readers[order[k1]].lastTime <= readers[order[k2]].lastTime;
    assert readers[order[k2]].lastTime <= readers[order[k1]].lastTime;
  }

  /** At most one outcome meets the requirement, so the search is determined. */
  lemma MostRecentIsUnique<U>(readers: map<string, ReaderState<U>>, order: seq<string>, r1: Option<string>, r2: Option<string>)
    requires Covers(readers, order)
    requires IsMostRecent(readers, order, r1) && IsMostRecent(readers, order, r2)
    ensures r1 == r2
  {
    if r1.Some? && r2.Some? {
      var k1 :| 0 <= k1 < |order| && order[k1] == r1.value && IsLatestAt(readers, order, k1);
      var k2 :| 0 <= k2 < |order| && order[k2] == r2.value && IsLatestAt(readers, order, k2);
      LatestAtIsUnique(readers, order, k1, k2);
    }
  }

  /** `get_most_recent_active_reader` / `getMostRecentActiveReader`: one pass
      over the readers in table order, keeping the reader with the strictly
      greatest last detection time among those holding a card. */
  method FindMostRecentActive<U>(readers: map<string, ReaderState<U>>, order: seq<string>) returns (r: Option<string>)
    requires Covers(readers, order)
    ensures IsMostRecent(readers, order, r)
    ensures r == MostRecentActive(readers, order)
  {
    r := None;
    var bestTime := 0;
    var i := 0;
    ghost var k := 0;
    while i < |order|
      invariant 0 <= i <= |order|
      invariant r.None? ==> bestTime == 0
      invariant r.None? ==> forall j :: 0 <= j < i ==> !Eligible(readers[order[j]])
      invariant r.Some? ==> 0 <= k < i && order[k] == r.value && Eligible(readers[r.value])
      invariant r.Some? ==> bestTime == readers[r.value].lastTime
      invariant forall j :: 0 <= j < i && Eligible(readers[order[j]]) ==> readers[order[j]].lastTime <= bestTime
      invariant r.Some? ==> forall j :: 0 <= j < k && Eligible(readers[order[j]]) ==> readers[order[j]].lastTime < bestTime
    {
      var s := readers[order[i]];
      if s.active && s.lastTime > bestTime {
        bestTime := s.lastTime;
        r := Some(order[i]);
        k := i;
      }
      i := i + 1;
    }
    if r.Some? {
      assert IsLatestAt(readers, order, k);
    }
    MostRecentActiveIsMostRecent(readers, order);
    MostRecentIsUnique(readers, order, r, MostRecentActive(readers, order));
  }
}
