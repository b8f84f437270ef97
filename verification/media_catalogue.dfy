/** The cards of the tape station and the audio cue each one triggers. Both
    tape clients hard-code the same three cards: a card on its own station
    plays that card's "correct" recording, the same card on any other
    station plays its "default" recording, and an unknown card plays the
    global default (which is the neighbour card's default recording). This
    module is the reference table the clients' lookup functions are proved
    against; it holds file names without the directory each client adds. */
module MediaCatalogue {

  /** The keys of `MUSIC_FILES`, which both clients declare alike; a cue stands
      for the file it names. */
  datatype Cue =
    | DirectorCorrect | DirectorDefault
    | FootballCorrect | FootballDefault
    | NeighborCorrect | NeighborDefault
    | DefaultMusic

  /** The file name `MUSIC_FILES` gives each cue, without the directory each
      client puts in front of it. */
  function CueFile(c: Cue): string
  {
    match c
    case DirectorCorrect => "Station3_Director_01.wav"
    case DirectorDefault => "Station3_Director_01A.wav"
    case FootballCorrect => "Station3_Football_01.wav"
    case FootballDefault => "Station3_Football_01A.wav"
    case NeighborCorrect => "Station3_Neighbor_01.wav"
    case NeighborDefault => "Station3_Neighbor_01A.wav"
    case DefaultMusic => "Station3_Neighbor_01A.wav"
  }

  /** A registered card: its UID, the station it belongs on, and its two cues. */
  datatype Card = Card(uid: string, station: string, correct: string, mismatch: string)

  const Cards: seq<Card> := [
    Card("51E98F49", "2", "Station3_Director_01.wav", "Station3_Director_01A.wav"),
    Card("41EB8F49", "3", "Station3_Football_01.wav", "Station3_Football_01A.wav"),
    Card("21ED8F49", "1", "Station3_Neighbor_01.wav", "Station3_Neighbor_01A.wav")
  ]

  /** The cue for a card nobody registered. */
  const Fallback: string := "Station3_Neighbor_01A.wav"

  /** The cue the card table prescribes for card `uid` on station `station`. */
  function Resolve(cards: seq<Card>, station: string, uid: string): (f: string)
    ensures f == Fallback || exists i :: 0 <= i < |cards| && cards[i].uid == uid &&
                                        f == (if cards[i].station == station then cards[i].correct else cards[i].mismatch)
    ensures (forall i :: 0 <= i < |cards| ==> cards[i].uid != uid) ==> f == Fallback
    decreases |cards|
  {
    if |cards| == 0 then Fallback
    else if cards[0].uid == uid then
      (if cards[0].station == station then cards[0].correct else cards[0].mismatch)
    else
      var f := Resolve(cards[1..], station, uid);
      assert forall i :: 1 <= i < |cards| ==> cards[i] == cards[1..][i - 1];
      f
  }

  /** No two registered cards share a UID and every cue is a distinct file,
      except that the global fallback is the neighbour card's mismatch cue. */
  lemma CardsAreDistinct()
    ensures forall i, j :: 0 <= i < j < |Cards| ==> Cards[i].uid != Cards[j].uid
    ensures forall i :: 0 <= i < |Cards| ==> Cards[i].correct != Cards[i].mismatch
    ensures Fallback == Cards[2].mismatch
  {
  }

  /** The cue the card table prescribes, written out card by card. */
  function CatalogueCue(station: string, uid: string): Cue
  {
    if uid == "51E98F49" then (if station == "2" then DirectorCorrect else DirectorDefault)
    else if uid == "41EB8F49" then (if station == "3" then FootballCorrect else FootballDefault)
    else if uid == "21ED8F49" then (if station == "1" then NeighborCorrect else NeighborDefault)
    else DefaultMusic
  }

  /** The written-out table names the file the card table resolves to. */
  lemma CatalogueCueIsResolve(station: string, uid: string)
    ensures CueFile(CatalogueCue(station, uid)) == Resolve(Cards, station, uid)
  {
    var c1 := Cards[1..];
    var c2 := c1[1..];
    assert c2 == [Cards[2]] && c2[1..] == [];
    if uid != Cards[0].uid {
      assert Resolve(Cards, station, uid) == Resolve(c1, station, uid);
      if uid != Cards[1].uid {
        assert Resolve(c1, station, uid) == Resolve(c2, station, uid);
      }
    }
  }
}
