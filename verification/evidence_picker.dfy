/** The evidence step of the single-page game
    (src/pages/EvidenceSelectionPage.tsx).

    The player picks up to four evidence records; two records are the same
    pick when their ids are equal. The page keeps no state of its own: it
    reads `gameState.selectedEvidence` and writes the next list with
    `updateGameState`. Class `EvidencePicker` holds that list and records
    every list the page writes, so that "no update at all" is visible. */
module EvidencePicker {
  import opened Common
  import opened Selection

  /** An evidence record (src/types/GameTypes.ts). */
  datatype Evidence = Evidence(id: int, name: string, description: string)

  const MaxPicked: nat := 4

  /** Records are compared by id. */
  function Id(e: Evidence): int
  {
    e.id
  }

  /** `currentSelection.some(e => e.id === evidence.id)`. */
  predicate IsSelected(current: seq<Evidence>, e: Evidence)
  {
    HasKey(current, e.id, Id)
  }

  /** The list `toggleEvidence(e)` writes, or `None` when it returns
      without an update. */
  function NewSelection(current: seq<Evidence>, e: Evidence): Option<seq<Evidence>>
  {
    if !IsSelected(current, e) && |current| >= MaxPicked then None
    else if IsSelected(current, e) then Some(WithoutKey(current, e.id, Id))
    else Some(current + [e])
  }

  /** `canProceed`. */
  predicate CanProceed(current: seq<Evidence>)
  {
    |current| >= 1
  }

  /** The part of the game state the page reads and writes. */
  class EvidencePicker {
    var selectedEvidence: seq<Evidence>
    /** Every list handed to `updateGameState`, oldest first. */
    var written: seq<seq<Evidence>>

    constructor(selectedEvidence: seq<Evidence>)
      ensures this.selectedEvidence == selectedEvidence && written == []
    {
      this.selectedEvidence := selectedEvidence;
      written := [];
    }

    method ToggleEvidence(e: Evidence)
      modifies this
      ensures NewSelection(old(selectedEvidence), e).None? ==>
                selectedEvidence == old(selectedEvidence) && written == old(written)
      ensures NewSelection(old(selectedEvidence), e).Some? ==>
                selectedEvidence == NewSelection(old(selectedEvidence), e).value
                && written == old(written) + [selectedEvidence]
    {
      var current := selectedEvidence;
      var isSelected := IsSelected(current, e);
      if !isSelected && |current| >= MaxPicked {
        return;
      }
      var newSelection := if isSelected then WithoutKey(current, e.id, Id) else current + [e];
      selectedEvidence := newSelection;
      written := written + [newSelection];
    }
  }

  // ---------------------------------------------------------------------
  // Properties
  // ---------------------------------------------------------------------

  /** An unselected record with four already picked causes no update at
      all; every other click writes exactly the shared capped toggle with
      cap four over ids. */
  lemma NewSelectionIsToggle(current: seq<Evidence>, e: Evidence)
    ensures NewSelection(current, e).None? <==> !IsSelected(current, e) && |current| >= MaxPicked
    ensures NewSelection(current, e).Some? ==> NewSelection(current, e).value == ToggleBy(current, e, Id, MaxPicked)
  {
  }

  /** Clicking a picked record removes every record with its id and keeps
      the others in order. */
  lemma DeselectFiltersId(current: seq<Evidence>, e: Evidence)
    requires IsSelected(current, e)
    ensures NewSelection(current, e).Some?
    ensures forall x :: x in NewSelection(current, e).value <==> x in current && x.id != e.id
    ensures !IsSelected(NewSelection(current, e).value, e)
  {
    ToggleRemoves(current, e, Id, MaxPicked);
  }

  /** Clicking an unpicked record with fewer than four picked appends it. */
  lemma SelectAppends(current: seq<Evidence>, e: Evidence)
    requires !IsSelected(current, e) && |current| < MaxPicked
    ensures NewSelection(current, e) == Some(current + [e])
  {
  }

  /** Every written list keeps "no two records share an id" and "at most
      four". */
  lemma NewSelectionKeepsValid(current: seq<Evidence>, e: Evidence)
    requires DistinctKeys(current, Id) && |current| <= MaxPicked
    ensures NewSelection(current, e).Some? ==>
              DistinctKeys(NewSelection(current, e).value, Id) && |NewSelection(current, e).value| <= MaxPicked
  {
    ToggleKeepsInvariant(current, e, Id, MaxPicked);
  }

  /** A record whose id is picked is found by `IsSelected` even when the
      record itself differs: membership is by id. */
  lemma SelectedById(current: seq<Evidence>, e: Evidence, i: int)
    requires 0 <= i < |current| && current[i].id == e.id
    ensures IsSelected(current, e)
  {
    assert Keys(current, Id)[i] == e.id;
  }

  /** Next is enabled exactly when something is picked: picking a record
      enables it, and removing the only one disables it. */
  lemma CanProceedAfterToggle(current: seq<Evidence>, e: Evidence)
    ensures !IsSelected(current, e) && |current| < MaxPicked ==> CanProceed(NewSelection(current, e).value)
    ensures current == [e] ==> NewSelection(current, e) == Some([]) && !CanProceed([])
  {
    if current == [e] {
      assert Keys(current, Id)[0] == e.id;
      assert WithoutKey(current, e.id, Id) == [] + WithoutKey([], e.id, Id);
    }
  }
}
