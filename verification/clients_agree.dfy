/** The two tape clients pick the same cue: for every card on stations 1 to
    3, the serial client's reader "Reader n" and the WebSocket client's
    reader "n" resolve to the same entry of `MUSIC_FILES`, and both agree
    with the card table. Both clients follow that rule; the WebSocket
    client's lookup as written also departs from it for a card whose
    identifier names a member of `Object.prototype`. */
module ClientAgreement {
  import opened Common
  import opened MediaCatalogue
  import SerialTapeClient
  import SerialTapeProperties
  import WsTapeClient
  import WsTapeProperties

  /** With the JavaScript lookup restricted to the tables' own entries, both
      clients pick the card table's cue. */
  lemma SameCueOnBothClients(n: string, uid: string)
    requires n == "1" || n == "2" || n == "3"
    ensures SerialTapeClient.GetMusicFile("Reader " + n, uid) == WsTapeClient.GetMusicFile(n, WsTapeClient.JsString(uid))
    ensures CueFile(WsTapeClient.GetMusicFile(n, WsTapeClient.JsString(uid))) == Resolve(Cards, n, uid)
  {
    SerialTapeProperties.GetMusicFileIsCatalogue(n, uid);
    WsTapeProperties.GetMusicFileTiers(n, WsTapeClient.JsString(uid));
    WsTapeProperties.GetMusicFileIsCatalogue(n, uid);
    assert WsTapeClient.JsToString(WsTapeClient.JsString(uid)) == uid;
  }

  /** Off the inherited names, the JavaScript lookup as written picks the
      serial client's cue too. */
  lemma AsWrittenAgreesOffPrototypeNames(n: string, uid: string)
    requires n == "1" || n == "2" || n == "3"
    requires uid !in ObjectPrototypeNames
    ensures WsTapeClient.GetMusicFileAsWritten(n, WsTapeClient.JsString(uid))
            == WsTapeClient.Own(SerialTapeClient.GetMusicFile("Reader " + n, uid))
  {
    var v := WsTapeClient.JsString(uid);
    assert WsTapeClient.JsToString(v) == uid;
    SameCueOnBothClients(n, uid);
    WsTapeProperties.AsWrittenAgreesOtherwise(n, v);
  }

  /** For a card whose identifier is an inherited name, such as
      "constructor", the serial client plays the global default while the
      WebSocket client as written hands the player the inherited member. */
  lemma ClientsDisagreeOnPrototypeNames(n: string, uid: string)
    requires n == "1" || n == "2" || n == "3"
    requires uid in ObjectPrototypeNames
    ensures SerialTapeClient.GetMusicFile("Reader " + n, uid) == DefaultMusic
    ensures WsTapeClient.GetMusicFileAsWritten(n, WsTapeClient.JsString(uid)) == WsTapeClient.Inherited(uid)
  {
    var v := WsTapeClient.JsString(uid);
    assert WsTapeClient.JsToString(v) == uid;
    PrototypeNamesAreNoCards(uid);
    SerialTapeProperties.GetMusicFileTiers("Reader " + n, uid);
    MatchKeyShape(n, uid);
  }

  /** No inherited name is the UID of a registered card. */
  lemma PrototypeNamesAreNoCards(uid: string)
    requires uid in ObjectPrototypeNames
    ensures uid !in WsTapeClient.UidDefaultMusic && uid !in SerialTapeClient.UidDefaultMusic
  {
  }

  /** The key `${n}|${uid}` of a one-character station is no inherited name,
      and it is a key of `CORRECT_MATCHES` only for the UID of a registered
      card. */
  lemma MatchKeyShape(n: string, uid: string)
    requires |n| == 1
    ensures var key := WsTapeClient.MatchKey(n, WsTapeClient.JsString(uid));
            && key !in ObjectPrototypeNames
            && (key in WsTapeClient.CorrectMatches ==> uid in WsTapeClient.UidDefaultMusic)
  {
    var key := WsTapeClient.MatchKey(n, WsTapeClient.JsString(uid));
    assert WsTapeClient.JsToString(WsTapeClient.JsString(uid)) == uid;
    assert key[1] == '|' && key[2..] == uid;
  }
}
