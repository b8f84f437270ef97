/** The dice and stat rules of the Duskhollow Priory game master
    (agents2.ts: the tools `roll_d6`, `pray_to_saint` and
    `set_player_name`).

    Each player has a wit stat (`stat1`) and a brawn stat (`stat2`). A
    roll succeeds when it does not exceed the stat the action uses, and
    moves that stat one step up or down within 1 to 6; a fervent prayer
    raises a stat by one up to 6. The players' profiles are the
    `playerProfiles` state of the game page
    (GamePage3.tsx), kept here as the field of class `PrioryTable`; the
    die is a parameter. Message texts sent to the voice model are left
    out; what they decide (the outcome, the low-stat warning, the
    extreme-condition alert) is modelled. */
module PrioryDice {
  import opened Common

  /** An entry of a player's `actions` (its timestamp is left out). */
  datatype PlayerAction = PlayerAction(action: string, success: bool)

  /** A player's profile (descriptor, type, role and picture are left out). */
  datatype Profile = Profile(name: string, actions: seq<PlayerAction>, stat1: int, stat2: int)

  /** The profiles the game page starts with. */
  function InitialProfiles(): map<int, Profile>
  {
    map[1 := Profile("Player 1", [], 3, 3), 2 := Profile("Player 2", [], 3, 3),
        3 := Profile("Player 3", [], 3, 3)]
  }

  const MaxStat: int := 6
  const MinStat: int := 1

  /** Which extreme-condition message, if any, follows a roll. */
  datatype Alert = NoAlert | MindOverwhelmed | BodyFading

  /** What `roll_d6` returns, and the two warnings it sends. */
  datatype RollResult = RollResult(roll: int, stat: int, success: bool, critical: bool,
                                   lowStatWarning: bool, alert: Alert)

  /** What `pray_to_saint` returns. */
  datatype Prayer = Prayer(heard: bool, blessed: bool, attribute: string, message: string)

  function Min(a: int, b: int): int { if a <= b then a else b }
  function Max(a: int, b: int): int { if a >= b then a else b }

  /** The stat an action type uses: wit for "wit", brawn for anything
      else. */
  function UsedStat(p: Profile, actionType: string): int
  {
    if actionType == "wit" then p.stat1 else p.stat2
  }

  /** The profile with the stat an action type uses set to `v`. */
  function WithStat(p: Profile, actionType: string, v: int): Profile
  {
    if actionType == "wit" then p.(stat1 := v) else p.(stat2 := v)
  }

  /** The used stat after a roll. */
  function UpdatedStat(stat: int, success: bool): int
  {
    if success then Min(MaxStat, stat + 1) else Max(MinStat, stat - 1)
  }

  /** The alert after a roll. `getStat1` and `getStat2` read the profiles
      of the last render, so it is judged on the stats before the roll. */
  function AlertFor(p: Profile): Alert
  {
    if p.stat1 <= 1 then MindOverwhelmed else if p.stat2 <= 1 then BodyFading else NoAlert
  }

  /** The result of rolling `roll` for an action of type `actionType`. */
  function Outcome(p: Profile, actionType: string, roll: int): RollResult
  {
    var stat := UsedStat(p, actionType);
    RollResult(roll, stat, roll <= stat, roll == stat, stat <= 1, AlertFor(p))
  }

  /** `addPlayerAction(currentPlayer, action, success)`. */
  function Recorded(profiles: map<int, Profile>, player: int, action: string, success: bool): map<int, Profile>
    requires player in profiles
  {
    profiles[player := profiles[player].(actions := profiles[player].actions + [PlayerAction(action, success)])]
  }

  /** The profiles after `roll_d6` as written: the action is recorded, and
      then the player's entry is replaced by the profile read before the
      call with the new stat, which drops the recorded action again. */
  function AfterRollAsWritten(profiles: map<int, Profile>, player: int, actionType: string,
                              action: string, roll: int): map<int, Profile>
    requires player in profiles
  {
    var before := profiles[player];
    var success := Outcome(before, actionType, roll).success;
    var recorded := Recorded(profiles, player, action, success);
    recorded[player := WithStat(before, actionType, UpdatedStat(UsedStat(before, actionType), success))]
  }

  /** The profiles after `roll_d6` with the stat update applied to the
      entry as it stands, keeping the recorded action; the rest of the
      model uses this one. */
  function AfterRoll(profiles: map<int, Profile>, player: int, actionType: string,
                     action: string, roll: int): map<int, Profile>
    requires player in profiles
  {
    var before := profiles[player];
    var success := Outcome(before, actionType, roll).success;
    var recorded := Recorded(profiles, player, action, success);
    recorded[player := WithStat(recorded[player], actionType, UpdatedStat(UsedStat(before, actionType), success))]
  }

  /** `desperate` and `fervent` prayers are heard; `pious` ones and any
      other are not. */
  predicate IsFervent(fervor: string)
  {
    fervor == "desperate" || fervor == "fervent"
  }

  /** The profiles after `pray_to_saint`. */
  function AfterPrayer(profiles: map<int, Profile>, player: int, fervor: string, attribute: string): map<int, Profile>
    requires player in profiles
  {
    if IsFervent(fervor) then
      var p := profiles[player];
      profiles[player := WithStat(p, attribute, Min(MaxStat, UsedStat(p, attribute) + 1))]
    else profiles
  }

  /** What `pray_to_saint` returns. */
  function PrayerResult(fervor: string, attribute: string): Prayer
  {
    var f := IsFervent(fervor);
    Prayer(f, f, attribute, if f then "Saint Duskfeather Hollobone has blessed you" else "Your prayer goes unanswered")
  }

  /** The profiles after `set_player_name`. */
  function AfterNaming(profiles: map<int, Profile>, player: int, name: string): map<int, Profile>
    requires player in profiles
  {
    profiles[player := profiles[player].(name := Trim(name, JsWhitespace))]
  }

  /** What `set_player_name` returns. */
  function NamingMessage(player: int, name: string): string
  {
    "Player " + IntToString(player) + " has been set as " + Trim(name, JsWhitespace)
  }

  /** The players' profiles. */
  class PrioryTable {
    var profiles: map<int, Profile>

    constructor()
      ensures profiles == InitialProfiles()
    {
      profiles := InitialProfiles();
    }

    /** `roll_d6` for the current player; `roll` is the die, 1 to 6. The
        stat getters fail on a player without a profile. */
    method RollD6(player: int, actionType: string, action: string, roll: int) returns (r: RollResult)
      requires player in profiles && 1 <= roll <= 6
      modifies this
      ensures r == Outcome(old(profiles)[player], actionType, roll)
      ensures profiles == AfterRoll(old(profiles), player, actionType, action, roll)
    {
      var before := profiles[player];
      var stat := if actionType == "wit" then before.stat1 else before.stat2;
      var success := roll <= stat;
      var alert := if before.stat1 <= 1 then MindOverwhelmed else if before.stat2 <= 1 then BodyFading else NoAlert;
      profiles := Recorded(profiles, player, action, success);
      var newStat := if success then Min(MaxStat, stat + 1) else Max(MinStat, stat - 1);
      profiles := profiles[player := WithStat(profiles[player], actionType, newStat)];
      r := RollResult(roll, stat, success, roll == stat, stat <= 1, alert);
    }

    /** `pray_to_saint` for the current player. */
    method PrayToSaint(player: int, fervor: string, attribute: string) returns (r: Prayer)
      requires player in profiles
      modifies this
      ensures r == PrayerResult(fervor, attribute)
      ensures profiles == AfterPrayer(old(profiles), player, fervor, attribute)
    {
      var isFervent := fervor == "desperate" || fervor == "fervent";
      if isFervent {
        var p := profiles[player];
        var raised := Min(MaxStat, (if attribute == "wit" then p.stat1 else p.stat2) + 1);
        profiles := profiles[player := WithStat(p, attribute, raised)];
      }
      r := Prayer(isFervent, isFervent, attribute,
                  if isFervent then "Saint Duskfeather Hollobone has blessed you" else "Your prayer goes unanswered");
    }

    /** `set_player_name`. */
    method SetPlayerName(player: int, name: string) returns (message: string)
      requires player in profiles
      modifies this
      ensures message == NamingMessage(player, name)
      ensures profiles == AfterNaming(old(profiles), player, name)
    {
      var cleanName := Trim(name, JsWhitespace);
      profiles := profiles[player := profiles[player].(name := cleanName)];
      message := "Player " + IntToString(player) + " has been set as " + cleanName;
    }
  }

  // ---------------------------------------------------------------------
  // Properties
  // ---------------------------------------------------------------------

  /** Stats within 1 to 6 for every player. */
  predicate StatsInRange(profiles: map<int, Profile>)
  {
    forall k :: k in profiles ==> MinStat <= profiles[k].stat1 <= MaxStat && MinStat <= profiles[k].stat2 <= MaxStat
  }

  /** "wit" actions use the wit stat and every other action type the brawn
      stat; success is "roll at most the stat", critical is "roll equal to
      the stat", so every critical roll succeeds; the low-stat warning is
      given exactly when the used stat is at most 1. */
  lemma OutcomeRule(p: Profile, actionType: string, roll: int)
    ensures var r := Outcome(p, actionType, roll);
      r.stat == (if actionType == "wit" then p.stat1 else p.stat2)
      && (r.success <==> roll <= r.stat) && (r.critical <==> roll == r.stat)
      && (r.critical ==> r.success)
      && (r.lowStatWarning <==> r.stat <= 1)
  {
  }

  /** After a roll the used stat is one higher (at most 6) on success and
      one lower (at least 1) on failure; the other stat, the name and every
      other player are unchanged, and the action is recorded with its
      outcome. */
  lemma RollUpdatesUsedStat(profiles: map<int, Profile>, player: int, actionType: string, action: string, roll: int)
    requires player in profiles
    ensures var before := profiles[player];
      var after := AfterRoll(profiles, player, actionType, action, roll);
      var stat := UsedStat(before, actionType);
      player in after
      && (roll <= stat ==> UsedStat(after[player], actionType) == Min(6, stat + 1))
      && (roll > stat ==> UsedStat(after[player], actionType) == Max(1, stat - 1))
      && (actionType == "wit" ==> after[player].stat2 == before.stat2)
      && (actionType != "wit" ==> after[player].stat1 == before.stat1)
      && after[player].name == before.name
      && after[player].actions == before.actions + [PlayerAction(action, roll <= stat)]
      && (forall k :: k != player ==> (k in after <==> k in profiles) && (k in after ==> after[k] == profiles[k]))
  {
  }

  /** A fervent prayer raises the chosen stat by one, at most to 6, and
      touches nothing else; any other prayer changes nothing. The answer
      is heard, and blessed, exactly when the prayer is fervent. */
  lemma PrayerRule(profiles: map<int, Profile>, player: int, fervor: string, attribute: string)
    requires player in profiles
    ensures var r := PrayerResult(fervor, attribute);
      (r.heard <==> fervor == "desperate" || fervor == "fervent") && r.blessed == r.heard && r.attribute == attribute
    ensures IsFervent(fervor) ==>
      var after := AfterPrayer(profiles, player, fervor, attribute);
      player in after
      && UsedStat(after[player], attribute) == Min(6, UsedStat(profiles[player], attribute) + 1)
      && (attribute == "wit" ==> after[player].stat2 == profiles[player].stat2)
      && (attribute != "wit" ==> after[player].stat1 == profiles[player].stat1)
      && (forall k :: k != player ==> (k in after <==> k in profiles) && (k in after ==> after[k] == profiles[k]))
    ensures !IsFervent(fervor) ==> AfterPrayer(profiles, player, fervor, attribute) == profiles
  {
  }

  /** Stats that start within 1 to 6 stay there through rolls, prayers and
      renaming. */
  lemma StepsKeepStatsInRange(profiles: map<int, Profile>, player: int, actionType: string, action: string,
                              roll: int, fervor: string, name: string)
    requires StatsInRange(profiles) && player in profiles
    ensures StatsInRange(AfterRoll(profiles, player, actionType, action, roll))
    ensures StatsInRange(AfterPrayer(profiles, player, fervor, actionType))
    ensures StatsInRange(AfterNaming(profiles, player, name))
  {
  }

  /** The starting profiles have every stat within range. */
  lemma InitialStatsInRange()
    ensures StatsInRange(InitialProfiles())
  {
  }

  /** The name stored is the one given without surrounding whitespace:
      padding on both sides of a name that starts and ends with another
      character is dropped, and the message reports the same name. */
  lemma NameStoredTrimmed(profiles: map<int, Profile>, player: int, before: string, core: string, after: string)
    requires player in profiles
    requires forall i :: 0 <= i < |before| ==> before[i] in JsWhitespace
    requires forall i :: 0 <= i < |after| ==> after[i] in JsWhitespace
    requires |core| > 0 && core[0] !in JsWhitespace && core[|core| - 1] !in JsWhitespace
    ensures AfterNaming(profiles, player, before + core + after)[player].name == core
    ensures NamingMessage(player, before + core + after) == "Player " + IntToString(player) + " has been set as " + core
  {
    var s := before + core + after;
    forall i | 0 <= i < |before|
      ensures s[i] in JsWhitespace
    {
      assert s[i] == before[i];
    }
    forall i | |before| + |core| <= i < |s|
      ensures s[i] in JsWhitespace
    {
      assert s[i] == after[i - |before| - |core|];
    }
    assert s[|before|] == core[0];
    assert s[|before| + |core| - 1] == core[|core| - 1];
    TrimIs(s, JsWhitespace, |before|, |core|);
    assert s[|before|..|before| + |core|] == core;
  }

  /** The alert after a roll reflects the stats before it: a wit failure
      that brings wit from 2 to 1 raises no alert on that roll. */
  lemma AlertUsesStatsBeforeRoll(profiles: map<int, Profile>, player: int, action: string)
    requires player in profiles && profiles[player].stat1 == 2 && profiles[player].stat2 == 3
    ensures AfterRoll(profiles, player, "wit", action, 5)[player].stat1 == 1
    ensures Outcome(profiles[player], "wit", 5).alert == NoAlert
  {
  }

  // ---------------------------------------------------------------------
  // The lost action record
  // ---------------------------------------------------------------------

  /** As written, the action `roll_d6` records is dropped by the stat
      update that follows it, for every roll: the player's actions are
      never extended. The corrected update keeps it. */
  lemma RollDropsRecordedAction(profiles: map<int, Profile>, player: int, actionType: string, action: string, roll: int)
    requires player in profiles
    ensures AfterRollAsWritten(profiles, player, actionType, action, roll)[player].actions == profiles[player].actions
    ensures |AfterRoll(profiles, player, actionType, action, roll)[player].actions| == |profiles[player].actions| + 1
  {
  }

  /** Apart from the actions, the two updates agree. */
  lemma AsWrittenAgreesOnStats(profiles: map<int, Profile>, player: int, actionType: string, action: string, roll: int)
    requires player in profiles
    ensures var w := AfterRollAsWritten(profiles, player, actionType, action, roll);
      var c := AfterRoll(profiles, player, actionType, action, roll);
      w.Keys == c.Keys && c[player] == w[player].(actions := c[player].actions)
      && forall k :: k in w && k != player ==> w[k] == c[k]
  {
  }
}
