/** The supporting-evidence step of the finale's article builder
    (projects/breaking-news-finale/src/pages/ArticleEvidencePage.tsx).

    The player picks up to three of the evidence items collected earlier;
    the page keeps the picked ids and an error line, and on submit saves
    the ids into the game state and moves to the next stage. The page's
    cells are the fields of class `ArticleEvidencePage`; the game state it
    reads and writes through `useGame()` is the `App` object it
    holds. The toggle passes an updater to `setSelectedEvidenceIds` and
    calls `setError` inside it and again after it; the model applies those
    writes in that order, with the closing check reading the error of the
    last render. */
module ArticleEvidence {
  import opened Common
  import opened Selection
  import opened FinaleApp

  /** An entry of the evidence catalogue. */
  datatype Evidence = Evidence(id: int, name: string)

  const MaxEvidenceSelection: nat := 3
  /** What the closing check of the toggle looks for in the error. */
  const MaxMarker: string := "only select up"
  /** "You can only select up to 3 pieces of evidence". */
  const MaxSelectionError: string := "You can " + MaxMarker + " to 3 pieces of evidence"
  const SubmitError: string := "Please select at least one piece of evidence"

  const ArticleEvidenceIds: string := "article_evidence_ids"
  const EvidenceList: string := "evidence_list"

  /** `gameState?.<field> || []` for a field declared `number[]`: the ids
      of a stored array of numbers, and no ids when the state, the field or
      such an array is missing. */
  function StoredIds(g: Option<GameState>, field: string): seq<int>
  {
    if g.Some? && field in g.value && g.value[field].JArr?
       && forall i :: 0 <= i < |g.value[field].items| ==> g.value[field].items[i].JNum?
    then
      var items := g.value[field].items;
      seq(|items|, i requires 0 <= i < |items| && items[i].JNum? => items[i].n)
    else []
  }

  /** A list of ids as the JSON array it is saved as. */
  function IdsJson(ids: seq<int>): Json
  {
    JArr(seq(|ids|, i requires 0 <= i < |ids| => JNum(ids[i])))
  }

  /** `EVIDENCE_ITEMS.filter(item => collectedEvidenceIds.includes(item.id))`. */
  function AvailableEvidence(catalogue: seq<Evidence>, collected: seq<int>): seq<Evidence>
    decreases |catalogue|
  {
    if |catalogue| == 0 then []
    else (if catalogue[0].id in collected then [catalogue[0]] else []) + AvailableEvidence(catalogue[1..], collected)
  }

  /** The page's cells. */
  datatype Picked = Picked(selected: seq<int>, error: string)

  /** The error after clicking `id`: what the updater sets, then the
      closing check, which clears any error from before the click that is
      not the max-selection one. */
  function NextError(p: Picked, id: int): string
  {
    var prev := p.selected;
    var inUpdater :=
      if id in prev then (if |prev| <= MaxEvidenceSelection then "" else p.error)
      else if |prev| >= MaxEvidenceSelection then MaxSelectionError
      else "";
    if p.error != "" && !Contains(p.error, MaxMarker) then "" else inUpdater
  }

  /** `toggleEvidence(id)`. */
  function Toggled(p: Picked, id: int): Picked
  {
    Picked(ToggleBy(p.selected, id, Self, MaxEvidenceSelection), NextError(p, id))
  }

  /** The page's side of `handleSubmit`. */
  function Submitted(p: Picked): Picked
  {
    if |p.selected| == 0 then p.(error := SubmitError) else p
  }

  /** The game-state side of `handleSubmit`: nothing for an empty
      selection, else the ids saved and the stage moved on. */
  function SubmittedApp(p: Picked, a: AppState): AppState
  {
    if |p.selected| == 0 then a
    else Moved(Updated(a, map[ArticleEvidenceIds := IdsJson(p.selected)]))
  }

  /** The step's state cells, and the game it belongs to. */
  class ArticleEvidencePage {
    const app: App
    var selected: seq<int>
    var error: string

    function State(): Picked
      reads this
    {
      Picked(selected, error)
    }

    /** Mounting the page: the selection saved earlier, and no error. */
    constructor(app: App)
      ensures this.app == app
      ensures State() == Picked(StoredIds(app.gameState, ArticleEvidenceIds), "")
    {
      this.app := app;
      selected := StoredIds(app.gameState, ArticleEvidenceIds);
      error := "";
    }

    method ToggleEvidence(id: int)
      modifies this
      ensures State() == Toggled(old(State()), id)
    {
      var errorAtRender := error;
      var prev := selected;
      HasSelf(prev, id);
      if id in prev {
        if |prev| <= MaxEvidenceSelection {
          error := "";
        }
        selected := WithoutKey(prev, id, Self);
      } else if |prev| >= MaxEvidenceSelection {
        error := MaxSelectionError;
      } else {
        error := "";
        selected := prev + [id];
      }
      if errorAtRender != "" && !Contains(errorAtRender, MaxMarker) {
        error := "";
      }
    }

    method HandleSubmit()
      modifies this, app
      ensures State() == Submitted(old(State()))
      ensures app.State() == SubmittedApp(old(State()), old(app.State()))
    {
      if |selected| == 0 {
        error := SubmitError;
        return;
      }
      app.UpdateGameState(map[ArticleEvidenceIds := IdsJson(selected)]);
      app.MoveToNextStage();
    }
  }

  // ---------------------------------------------------------------------
  // Properties
  // ---------------------------------------------------------------------

  /** The closing check of the toggle keeps the max-selection error. */
  lemma MaxErrorKept()
    ensures Contains(MaxSelectionError, MaxMarker)
  {
    ContainsInfix("You can ", MaxMarker, " to 3 pieces of evidence");
  }

  /** The closing check of the toggle clears the submit error. */
  lemma SubmitErrorCleared()
    ensures !Contains(SubmitError, MaxMarker)
  {
    assert 'y' in MaxMarker;
    NotContainsChar(SubmitError, MaxMarker, 'y');
  }

  /** What every reachable page state satisfies: distinct ids, at most
      three, and no error other than the max-selection one, except the
      submit error while nothing is selected. */
  predicate Reachable(p: Picked)
  {
    DistinctKeys(p.selected, Self) && |p.selected| <= MaxEvidenceSelection
    && (p.error == "" || p.error == MaxSelectionError || (p.error == SubmitError && p.selected == []))
  }

  /** Clicking a selected id removes it, and clears the error when at most
      three were selected. */
  lemma DeselectRemoves(p: Picked, id: int)
    requires id in p.selected
    ensures forall x :: x in Toggled(p, id).selected <==> x in p.selected && x != id
    ensures |p.selected| <= MaxEvidenceSelection ==> Toggled(p, id).error == ""
  {
    HasSelf(p.selected, id);
    ToggleRemoves(p.selected, id, Self, MaxEvidenceSelection);
  }

  /** With three selected, clicking another id keeps the selection and
      shows the max-selection error. */
  lemma AtCapRejects(p: Picked, id: int)
    requires Reachable(p) && id !in p.selected && |p.selected| >= MaxEvidenceSelection
    ensures Toggled(p, id) == Picked(p.selected, MaxSelectionError)
  {
    HasSelf(p.selected, id);
    if p.error == MaxSelectionError {
      MaxErrorKept();
    }
  }

  /** Below the cap, clicking an unselected id appends it and clears any
      error. */
  lemma BelowCapAppends(p: Picked, id: int)
    requires id !in p.selected && |p.selected| < MaxEvidenceSelection
    ensures Toggled(p, id) == Picked(p.selected + [id], "")
  {
    HasSelf(p.selected, id);
  }

  /** After a submit with nothing selected, the next click clears the
      submit error, whatever it does to the selection. */
  lemma ClickClearsSubmitError(p: Picked, id: int)
    requires p.error == SubmitError
    ensures Toggled(p, id).error == ""
  {
    SubmitErrorCleared();
  }

  /** Toggling and submitting keep a page state reachable. */
  lemma StepsKeepReachable(p: Picked, id: int)
    requires Reachable(p)
    ensures Reachable(Toggled(p, id))
    ensures Reachable(Submitted(p))
  {
    ToggleKeepsInvariant(p.selected, id, Self, MaxEvidenceSelection);
    HasSelf(p.selected, id);
    if p.error == MaxSelectionError {
      MaxErrorKept();
    }
  }

  /** Submitting with nothing selected shows the submit error and saves
      nothing. */
  lemma SubmitNothingSelected(p: Picked, a: AppState)
    requires |p.selected| == 0
    ensures Submitted(p) == Picked([], SubmitError) && SubmittedApp(p, a) == a
  {
  }

  /** Submitting a selection leaves the page as it is and saves the ids
      as `article_evidence_ids`. */
  lemma SubmitSavesIds(p: Picked, a: AppState)
    requires |p.selected| > 0 && a.gameState.Some?
    ensures Submitted(p) == p
    ensures StoredIds(SubmittedApp(p, a).gameState, ArticleEvidenceIds) == p.selected
  {
    var b := Updated(a, map[ArticleEvidenceIds := IdsJson(p.selected)]);
    IdsRoundTrip(p.selected, Moved(b).gameState.value);
  }

  /** Submitting a selection moves the stage on from stage `i` to `i + 1`
      and keeps every field other than the stage and the saved ids. */
  lemma SubmitAdvances(p: Picked, a: AppState, i: int)
    requires |p.selected| > 0 && a.gameState.Some? && 0 <= i < |GameStages| - 1
    requires StageName(a.gameState.value) == Some(GameStages[i])
    ensures var g := SubmittedApp(p, a).gameState.value;
      StageName(g) == Some(GameStages[i + 1])
      && forall k :: k != CurrentStage && k != ArticleEvidenceIds ==>
           (k in g <==> k in a.gameState.value) && (k in g ==> g[k] == a.gameState.value[k])
  {
    var b := Updated(a, map[ArticleEvidenceIds := IdsJson(p.selected)]);
    assert StageName(b.gameState.value) == Some(GameStages[i]);
    MoveAdvances(b, i);
  }

  /** Saved ids read back as the same ids. */
  lemma IdsRoundTrip(ids: seq<int>, g: GameState)
    requires ArticleEvidenceIds in g && g[ArticleEvidenceIds] == IdsJson(ids)
    ensures StoredIds(Some(g), ArticleEvidenceIds) == ids
  {
  }

  /** The items shown are exactly the catalogue items whose id was
      collected. */
  lemma {:induction false} AvailableMembers(catalogue: seq<Evidence>, collected: seq<int>)
    ensures forall e :: e in AvailableEvidence(catalogue, collected) <==> e in catalogue && e.id in collected
    decreases |catalogue|
  {
    if |catalogue| > 0 {
      AvailableMembers(catalogue[1..], collected);
      assert forall e :: e in catalogue <==> e == catalogue[0] || e in catalogue[1..];
    }
  }

  /** The filter keeps catalogue order: it distributes over concatenation. */
  lemma {:induction false} AvailableConcat(a: seq<Evidence>, b: seq<Evidence>, collected: seq<int>)
    ensures AvailableEvidence(a + b, collected) == AvailableEvidence(a, collected) + AvailableEvidence(b, collected)
    decreases |a|
  {
    if |a| > 0 {
      assert (a + b)[1..] == a[1..] + b;
      AvailableConcat(a[1..], b, collected);
    } else {
      assert a + b == b;
    }
  }
}
