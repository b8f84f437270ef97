/** The evidence board of the evidence front-end
    (projects/breaking-news-evidence/src/pages/EvidenceSelectionPage.tsx).

    The player picks up to six evidence ids; they fill numbered slots in
    the order picked, and "Submit Evidence" sends them to the back end.
    The page's `useState` cells that the rules read or write are the
    fields of class `EvidenceBoard`; `requests` records every selection
    handed to `updatePlayerEvidence`, whose outcome is a parameter. Every
    method is tied to a pure step function over a snapshot `Board`. */
module EvidenceBoard {
  import opened Common
  import opened Selection

  /** An entry of `EVIDENCE_ITEMS` (projects/breaking-news-evidence/src/types/evidence.ts). */
  datatype Item = Item(id: int, name: string, image: string)

  const MaxSelected: nat := 6
  const SaveError: string := "Failed to save your evidence selection. Please try again."

  /** The next selection after clicking evidence `id`. */
  function Toggle(selected: seq<int>, id: int): seq<int>
  {
    ToggleBy(selected, id, Self, MaxSelected)
  }

  /** What every reachable selection satisfies: no id twice, at most six. */
  predicate ValidSelection(selected: seq<int>)
  {
    (forall i, j :: 0 <= i < j < |selected| ==> selected[i] != selected[j]) && |selected| <= MaxSelected
  }

  /** `EVIDENCE_ITEMS.find(item => item.id === id)`: the first item with
      that id. */
  function Find(items: seq<Item>, id: int): (r: Option<Item>)
    ensures r.Some? <==> exists i :: 0 <= i < |items| && items[i].id == id
    ensures r.Some? ==> r.value.id == id && r.value in items
    ensures r.Some? ==> exists i :: 0 <= i < |items| && items[i] == r.value
                                    && forall j :: 0 <= j < i ==> items[j].id != id
    decreases |items|
  {
    if |items| == 0 then None
    else if items[0].id == id then Some(items[0])
    else
      var r := Find(items[1..], id);
      assert forall i :: 1 <= i < |items| ==> items[i] == items[1..][i - 1];
      r
  }

  /** The item slot `n` shows: `selectedEvidence[n - 1]` looked up in the
      catalogue; an index past the end reads `undefined`, which no item
      id equals. */
  function Slot(items: seq<Item>, selected: seq<int>, n: int): Option<Item>
  {
    if 1 <= n <= |selected| then Find(items, selected[n - 1]) else None
  }

  /** `renderSlots(start, end)`: slots `start` to `end`; an empty range
      renders nothing. */
  function RenderSlots(items: seq<Item>, selected: seq<int>, start: int, end: int): (r: seq<Option<Item>>)
    ensures |r| == if end - start + 1 > 0 then end - start + 1 else 0
    ensures forall k :: 0 <= k < |r| ==> r[k] == Slot(items, selected, start + k)
  {
    var len := if end - start + 1 > 0 then end - start + 1 else 0;
    seq(len, k requires 0 <= k < len => Slot(items, selected, start + k))
  }

  /** The page's state cells, and the selections submitted so far. */
  datatype Board = Board(selected: seq<int>, isSubmitting: bool, isCompleted: bool,
                         error: Option<string>, requests: seq<seq<int>>)

  /** The state on mount. */
  function Start(): Board
  {
    Board([], false, false, None, [])
  }

  /** `toggleEvidence(id)`. */
  function Toggled(b: Board, id: int): Board
  {
    b.(selected := Toggle(b.selected, id))
  }

  /** `resetState` (the evidence positions it re-randomises are not part of
      this model). */
  function Reset(b: Board): Board
  {
    b.(selected := [], isCompleted := false, error := None)
  }

  /** `handleContinue`, with `saved` telling whether the request
      succeeded. */
  function Continued(b: Board, saved: bool): Board
  {
    if |b.selected| == 0 then b
    else if saved then b.(isSubmitting := false, error := None, requests := b.requests + [b.selected], isCompleted := true)
    else b.(isSubmitting := false, error := Some(SaveError), requests := b.requests + [b.selected])
  }

  /** The page's state cells. */
  class EvidenceBoard {
    const playerId: string
    var selected: seq<int>
    var isSubmitting: bool
    var isCompleted: bool
    var error: Option<string>
    var requests: seq<seq<int>>

    function State(): Board
      reads this
    {
      Board(selected, isSubmitting, isCompleted, error, requests)
    }

    constructor(playerId: string)
      ensures State() == Start() && this.playerId == playerId
    {
      this.playerId := playerId;
      selected, isSubmitting, isCompleted, error, requests := [], false, false, None, [];
    }

    method ToggleEvidence(id: int)
      modifies this
      ensures State() == Toggled(old(State()), id)
    {
      if id in selected {
        HasSelf(selected, id);
        selected := WithoutKey(selected, id, Self);
      } else {
        HasSelf(selected, id);
        if |selected| < MaxSelected {
          selected := selected + [id];
        }
      }
    }

    method ResetState()
      modifies this
      ensures State() == Reset(old(State()))
    {
      selected := [];
      isCompleted := false;
      error := None;
    }

    method HandleContinue(saved: bool)
      modifies this
      ensures State() == Continued(old(State()), saved)
    {
      if |selected| > 0 {
        isSubmitting := true;
        error := None;
        requests := requests + [selected];
        if saved {
          isCompleted := true;
        } else {
          error := Some(SaveError);
        }
        isSubmitting := false;
      }
    }
  }

  // ---------------------------------------------------------------------
  // Properties of the toggle
  // ---------------------------------------------------------------------

  /** Clicking a selected id removes it and keeps the other ids in order. */
  lemma ToggleRemovesSelected(selected: seq<int>, id: int)
    requires id in selected
    ensures forall x :: x in Toggle(selected, id) <==> x in selected && x != id
    ensures ValidSelection(selected) ==>
              exists i :: 0 <= i < |selected| && selected[i] == id
                          && Toggle(selected, id) == selected[..i] + selected[i + 1..]
  {
    HasSelf(selected, id);
    ToggleRemoves(selected, id, Self, MaxSelected);
  }

  /** Clicking an unselected id below the cap appends it. */
  lemma ToggleAppendsBelowCap(selected: seq<int>, id: int)
    requires id !in selected && |selected| < MaxSelected
    ensures Toggle(selected, id) == selected + [id]
  {
    HasSelf(selected, id);
  }

  /** With six selected, clicking an unselected id changes nothing. */
  lemma ToggleFullUnchanged(selected: seq<int>, id: int)
    requires id !in selected && |selected| >= MaxSelected
    ensures Toggle(selected, id) == selected
  {
    HasSelf(selected, id);
  }

  /** The toggle keeps a selection valid. */
  lemma ToggleKeepsValid(selected: seq<int>, id: int)
    requires ValidSelection(selected)
    ensures ValidSelection(Toggle(selected, id))
  {
    ToggleKeepsInvariant(selected, id, Self, MaxSelected);
  }

  /** Clicking the same unselected id twice, below the cap, restores the
      selection. */
  lemma ToggleTwiceRestores(selected: seq<int>, id: int)
    requires id !in selected && |selected| < MaxSelected
    ensures Toggle(Toggle(selected, id), id) == selected
  {
    HasSelf(selected, id);
    ToggleRoundTrip(selected, id, Self, MaxSelected);
  }

  // ---------------------------------------------------------------------
  // Properties of the page
  // ---------------------------------------------------------------------

  /** Every step keeps the selection valid. */
  lemma StepsKeepValid(b: Board, id: int, saved: bool)
    requires ValidSelection(b.selected)
    ensures ValidSelection(Toggled(b, id).selected)
    ensures ValidSelection(Reset(b).selected)
    ensures ValidSelection(Continued(b, saved).selected)
  {
    ToggleKeepsValid(b.selected, id);
  }

  /** Submitting an empty selection does nothing; a non-empty one sends
      exactly the current selection once, and completes the page or shows
      the save error according to the outcome, leaving the selection as
      it was. */
  lemma ContinueRule(b: Board, saved: bool)
    ensures |b.selected| == 0 ==> Continued(b, saved) == b
    ensures |b.selected| > 0 ==>
      var c := Continued(b, saved);
      c.requests == b.requests + [b.selected] && c.selected == b.selected && !c.isSubmitting
      && (saved ==> c.isCompleted && c.error.None?)
      && (!saved ==> c.isCompleted == b.isCompleted && c.error == Some(SaveError))
  {
  }

  /** `resetState` empties the selection and clears the completion and
      error flags, and sends nothing. */
  lemma ResetRule(b: Board)
    ensures Reset(b).selected == [] && !Reset(b).isCompleted && Reset(b).error.None?
    ensures Reset(b).requests == b.requests && Reset(b).isSubmitting == b.isSubmitting
  {
  }

  /** The six slots the page renders, `renderSlots(1, 3)` then
      `renderSlots(4, 6)`: slot `k + 1` is filled exactly when `selected[k]`
      exists and is a catalogue id, and then it shows the
      catalogue item with that id. */
  lemma SlotsShowSelection(items: seq<Item>, selected: seq<int>)
    ensures var slots := RenderSlots(items, selected, 1, 3) + RenderSlots(items, selected, 4, 6);
      |slots| == 6
      && forall k :: 0 <= k < 6 ==>
           (slots[k].Some? <==> k < |selected| && exists i :: 0 <= i < |items| && items[i].id == selected[k])
           && (slots[k].Some? ==> slots[k].value.id == selected[k] && slots[k].value in items)
  {
    var slots := RenderSlots(items, selected, 1, 3) + RenderSlots(items, selected, 4, 6);
    forall k | 0 <= k < 6
      ensures slots[k] == Slot(items, selected, k + 1)
    {
      if k < 3 {
        assert slots[k] == RenderSlots(items, selected, 1, 3)[k];
      } else {
        assert slots[k] == RenderSlots(items, selected, 4, 6)[k - 3];
      }
    }
  }

  /** When every selected id is in the catalogue, exactly the first
      `|selected|` slots are filled. */
  lemma CatalogueSelectionFillsSlots(items: seq<Item>, selected: seq<int>, n: int)
    requires forall k :: 0 <= k < |selected| ==> exists i :: 0 <= i < |items| && items[i].id == selected[k]
    requires 1 <= n
    ensures Slot(items, selected, n).Some? <==> n <= |selected|
  {
    if n <= |selected| {
      assert exists i :: 0 <= i < |items| && items[i].id == selected[n - 1];
    }
  }
}
