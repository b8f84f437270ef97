/** The stage progression and game-state store of the finale front-end
    (projects/breaking-news-finale/src/App.tsx, with the stage list of
    projects/breaking-news-finale/src/types/GameStages.ts).

    The game state is a plain JSON object: `GameState` maps each field the
    object has to its value. `App`'s `useState` cells are the fields of
    class `App`; `saved` records every state written to local storage
    by `saveGameState`. Reading local storage (`loadGameState`) is I/O, so
    the state it returned is a parameter. Every method is tied to a pure
    step function over a snapshot `AppState`. `updateGameState` passes an
    updater to `setGameState`, so consecutive updates in one handler apply
    one after the other; `moveToNextStage` reads `currentStage` from the
    state of the last render, which the model reads from the field, the
    same thing whenever no update earlier in the handler changed the
    stage. */
module FinaleApp {
  import opened Common

  /** A JSON value. */
  datatype Json =
    | JStr(s: string)
    | JNum(n: int)
    | JArr(items: seq<Json>)
    | JObj(fields: map<string, Json>)

  /** A game-state object: its fields and their values. */
  type GameState = map<string, Json>

  /** The values of `GameStage`, in declaration order (`Object.values`). */
  const GameStages: seq<string> :=
    ["start", "scan_id", "alias", "welcome", "evidence_recap", "tape_reveal",
     "article_intro", "angle_generation", "reporter_info", "result", "rating"]

  const CurrentStage: string := "currentStage"

  /** `xs.indexOf(x)`: the first position of `x`, or -1. */
  function IndexOf(xs: seq<string>, x: string): (r: int)
    ensures -1 <= r < |xs|
    ensures r == -1 <==> x !in xs
    ensures r >= 0 ==> xs[r] == x && forall j :: 0 <= j < r ==> xs[j] != x
    decreases |xs|
  {
    if |xs| == 0 then -1
    else if xs[0] == x then 0
    else var r := IndexOf(xs[1..], x); if r == -1 then -1 else r + 1
  }

  /** `stages.indexOf(gameState.currentStage)`: a missing or non-string
      stage is found nowhere. */
  function StageIndex(g: GameState): int
  {
    if CurrentStage in g && g[CurrentStage].JStr? then IndexOf(GameStages, g[CurrentStage].s) else -1
  }

  /** The stage of a state, when it has a string one. */
  function StageName(g: GameState): Option<string>
  {
    if CurrentStage in g && g[CurrentStage].JStr? then Some(g[CurrentStage].s) else None
  }

  /** The patch `{ currentStage: s }`. */
  function StagePatch(s: string): GameState
  {
    map[CurrentStage := JStr(s)]
  }

  /** JavaScript truthiness of a field value. */
  predicate Truthy(j: Json)
  {
    match j
    case JStr(s) => s != ""
    case JNum(n) => n != 0
    case _ => true
  }

  /** The fields `App` writes when no player is saved. */
  function InitialState(): GameState
  {
    map[CurrentStage := JStr("scan_id"), "id" := JStr(""), "player_name" := JStr(""),
        "id_card_no" := JStr(""), "headline" := JStr(""), "evidence_list" := JArr([]),
        "tape" := JArr([]), "selected_suspect" := JStr(""), "story_angle" := JStr(""),
        "full_article_generated" := JStr(""),
        "ratings" := JObj(map["viral" := JNum(0), "truth" := JNum(0), "creativity" := JNum(0),
                              "overall" := JNum(0), "feedback" := JStr("")])]
  }

  /** `App`'s state cells, and the states saved so far. */
  datatype AppState = AppState(gameState: Option<GameState>, isLoading: bool, isInitialized: bool,
                               saved: seq<GameState>)

  /** Before the mount effect has run. */
  function Start(): AppState
  {
    AppState(None, true, false, [])
  }

  /** `updateGameState(updates)`: a shallow merge, saved, or nothing on a
      null state. */
  function Updated(a: AppState, updates: GameState): AppState
  {
    if a.gameState.None? then a
    else
      var g := a.gameState.value + updates;
      a.(gameState := Some(g), saved := a.saved + [g])
  }

  /** `moveToNextStage`. */
  function Moved(a: AppState): AppState
  {
    if a.gameState.None? then a
    else
      var i := StageIndex(a.gameState.value);
      if i < |GameStages| - 1 then Updated(a, StagePatch(GameStages[i + 1])) else a
  }

  /** The mount effect `checkExistingState`, given what `loadGameState`
      returned. */
  function Mounted(a: AppState, loaded: Option<GameState>): AppState
  {
    if loaded.Some? && "id" in loaded.value && Truthy(loaded.value["id"]) then
      a.(gameState := loaded, isInitialized := true, isLoading := false)
    else a.(gameState := Some(InitialState()), isLoading := false)
  }

  /** `handlePlayerLoaded(playerId)`, given what `loadGameState` returned. */
  function PlayerLoaded(a: AppState, playerId: string, loaded: Option<GameState>): AppState
  {
    if loaded.Some? && "id" in loaded.value && loaded.value["id"] == JStr(playerId) then
      Updated(a.(gameState := loaded, isInitialized := true), StagePatch("alias"))
    else a
  }

  /** Rendering: the `angle_generation` stage redirects to `reporter_info`. */
  function Rendered(a: AppState): AppState
  {
    if a.gameState.Some? && StageName(a.gameState.value) == Some("angle_generation") then
      Updated(a, StagePatch("reporter_info"))
    else a
  }

  /** `App`'s state cells. */
  class App {
    var gameState: Option<GameState>
    var isLoading: bool
    var isInitialized: bool
    var saved: seq<GameState>

    function State(): AppState
      reads this
    {
      AppState(gameState, isLoading, isInitialized, saved)
    }

    constructor()
      ensures State() == Start()
    {
      gameState, isLoading, isInitialized, saved := None, true, false, [];
    }

    method CheckExistingState(loaded: Option<GameState>)
      modifies this
      ensures State() == Mounted(old(State()), loaded)
    {
      isLoading := true;
      if loaded.Some? && "id" in loaded.value && Truthy(loaded.value["id"]) {
        gameState := loaded;
        isInitialized := true;
      } else {
        gameState := Some(InitialState());
      }
      isLoading := false;
    }

    method UpdateGameState(updates: GameState)
      modifies this
      ensures State() == Updated(old(State()), updates)
    {
      if gameState.None? {
        return;
      }
      var g := gameState.value + updates;
      saved := saved + [g];
      gameState := Some(g);
    }

    method MoveToNextStage()
      modifies this
      ensures State() == Moved(old(State()))
    {
      if gameState.None? {
        return;
      }
      var i := StageIndex(gameState.value);
      if i < |GameStages| - 1 {
        UpdateGameState(StagePatch(GameStages[i + 1]));
      }
    }

    method HandlePlayerLoaded(playerId: string, loaded: Option<GameState>)
      modifies this
      ensures State() == PlayerLoaded(old(State()), playerId, loaded)
    {
      if loaded.Some? && "id" in loaded.value && loaded.value["id"] == JStr(playerId) {
        gameState := loaded;
        isInitialized := true;
        UpdateGameState(StagePatch("alias"));
      }
    }

    method RenderCurrentPage()
      modifies this
      ensures State() == Rendered(old(State()))
    {
      if gameState.Some? && StageName(gameState.value) == Some("angle_generation") {
        UpdateGameState(StagePatch("reporter_info"));
      }
    }
  }

  // ---------------------------------------------------------------------
  // Properties
  // ---------------------------------------------------------------------

  /** `updateGameState` overrides exactly the supplied fields, keeps every
      other field, saves the result, and leaves a null state null. */
  lemma UpdateMerges(a: AppState, updates: GameState)
    ensures a.gameState.None? ==> Updated(a, updates) == a
    ensures a.gameState.Some? ==>
      var g := Updated(a, updates).gameState.value;
      (forall k :: k in g <==> k in updates || k in a.gameState.value)
      && (forall k :: k in updates ==> g[k] == updates[k])
      && (forall k :: k in a.gameState.value && k !in updates ==> g[k] == a.gameState.value[k])
      && Updated(a, updates).saved == a.saved + [g]
  {
  }

  /** In a list without repetitions, an entry is found at its own position. */
  lemma IndexOfDistinct(xs: seq<string>, i: int)
    requires 0 <= i < |xs| && forall p, q :: 0 <= p < q < |xs| ==> xs[p] != xs[q]
    ensures IndexOf(xs, xs[i]) == i
  {
  }

  /** No stage is declared twice. */
  lemma StagesDistinct()
    ensures forall p, q :: 0 <= p < q < |GameStages| ==> GameStages[p] != GameStages[q]
  {
  }

  /** Moving on from stage `i` of the list leads to stage `i + 1` and
      touches no other field. */
  lemma MoveAdvances(a: AppState, i: int)
    requires a.gameState.Some? && 0 <= i < |GameStages| - 1
    requires StageName(a.gameState.value) == Some(GameStages[i])
    ensures StageName(Moved(a).gameState.value) == Some(GameStages[i + 1])
    ensures forall k :: k != CurrentStage ==>
              (k in Moved(a).gameState.value <==> k in a.gameState.value)
              && (k in a.gameState.value ==> Moved(a).gameState.value[k] == a.gameState.value[k])
  {
    StagesDistinct();
    IndexOfDistinct(GameStages, i);
  }

  /** At the last stage, and with no state, moving on changes nothing. */
  lemma MoveStopsAtRating(a: AppState)
    requires a.gameState.None? || StageName(a.gameState.value) == Some("rating")
    ensures Moved(a) == a
  {
    if a.gameState.Some? {
      StagesDistinct();
      IndexOfDistinct(GameStages, |GameStages| - 1);
    }
  }

  /** A stage outside the list (or none at all) is found at -1, so moving
      on leads to the first stage. */
  lemma UnknownStageMovesToStart(a: AppState)
    requires a.gameState.Some?
    requires StageName(a.gameState.value).None? || StageName(a.gameState.value).value !in GameStages
    ensures StageName(Moved(a).gameState.value) == Some("start")
  {
  }

  /** Without a saved player id the game starts at `scan_id` with every
      other field empty: empty strings and lists, zero ratings. */
  lemma FreshStartIsBlank(a: AppState, loaded: Option<GameState>)
    requires loaded.None? || "id" !in loaded.value || !Truthy(loaded.value["id"])
    ensures var g := Mounted(a, loaded).gameState;
            g.Some? && StageName(g.value) == Some("scan_id") && "id" in g.value && "ratings" in g.value
            && (forall k :: k in g.value && k != CurrentStage && k != "ratings" ==>
                  g.value[k] == JStr("") || g.value[k] == JArr([]))
            && g.value["ratings"].JObj?
            && (forall k :: k in g.value["ratings"].fields ==>
                  g.value["ratings"].fields[k] == JNum(0) || g.value["ratings"].fields[k] == JStr(""))
    ensures !Mounted(a, loaded).isLoading
  {
  }

  /** A saved player with a truthy id is resumed as saved. */
  lemma SavedPlayerResumes(a: AppState, g: GameState)
    requires "id" in g && Truthy(g["id"])
    ensures Mounted(a, Some(g)).gameState == Some(g) && Mounted(a, Some(g)).isInitialized
  {
  }

  /** A scanned player is adopted, and moved to `alias`, exactly when the
      saved state belongs to that player. */
  lemma PlayerLoadedRule(a: AppState, playerId: string, loaded: Option<GameState>)
    ensures loaded.Some? && "id" in loaded.value && loaded.value["id"] == JStr(playerId) ==>
      var b := PlayerLoaded(a, playerId, loaded);
      b.gameState == Some(loaded.value + StagePatch("alias")) && b.isInitialized
      && StageName(b.gameState.value) == Some("alias")
    ensures !(loaded.Some? && "id" in loaded.value && loaded.value["id"] == JStr(playerId)) ==>
      PlayerLoaded(a, playerId, loaded) == a
  {
  }

  /** The `angle_generation` stage is replaced by `reporter_info` as soon as
      it renders; every other stage renders unchanged. */
  lemma AngleGenerationRedirects(a: AppState)
    requires a.gameState.Some?
    ensures StageName(a.gameState.value) == Some("angle_generation") ==>
      StageName(Rendered(a).gameState.value) == Some("reporter_info")
    ensures StageName(a.gameState.value) != Some("angle_generation") ==> Rendered(a) == a
  {
  }
}
