/** The owner's staff page: the search over sales reps, the add / edit panel
    with its form, the PIN field's sanitiser, the activate / deactivate
    toggle and deletion. */
module UsersPage {
  import opened Seqs
  import opened Domain
  import Text
  import StoreOps
  import StoreProps
  import DomainStore

  // ---------------------------------------------------------------------
  // The search

  predicate RepMatches(r: SalesRep, searchQuery: string)
  {
    Text.IncludesIgnoringCase(r.name, searchQuery) || Text.IncludesIgnoringCase(r.email, searchQuery)
  }

  function RepMatchesQuery(searchQuery: string): SalesRep -> bool
  {
    (r: SalesRep) => RepMatches(r, searchQuery)
  }

  /** The reps whose name or email contains the query, ignoring case, in store order. */
  function FilteredReps(reps: seq<SalesRep>, searchQuery: string): (r: seq<SalesRep>)
    ensures IsSubsequence(r, reps)
    ensures forall x :: x in r <==> x in reps && RepMatches(x, searchQuery)
  {
    var r := Filter(reps, RepMatchesQuery(searchQuery));
    assert forall x :: x in reps && RepMatches(x, searchQuery) ==> x in r by {
      forall x | x in reps && RepMatches(x, searchQuery) ensures x in r {
        var j :| 0 <= j < |reps| && reps[j] == x;
      }
    }
    r
  }

  /** An empty search lists every rep. */
  lemma EmptySearchListsAll(reps: seq<SalesRep>)
    ensures FilteredReps(reps, "") == reps
  {
    forall x | x in reps ensures RepMatchesQuery("")(x) {
      Text.IncludesEmpty(Text.Lower(x.name));
    }
    FilterAll(reps, RepMatchesQuery(""));
  }

  // ---------------------------------------------------------------------
  // The PIN field: `value.replace(/\D/g, "").slice(0, 4)`

  function SanitizePin(input: string): string
  {
    Text.Take(Text.DigitsOnly(input), 4)
  }

  /** The PIN holds digits only, at most four, and is the first digits of
      what was typed, in order. */
  lemma SanitizePinShape(input: string)
    ensures var pin := SanitizePin(input);
            && |pin| <= 4
            && (forall i :: 0 <= i < |pin| ==> Text.IsDigit(pin[i]))
            && pin == Text.DigitsOnly(input)[..|pin|]
            && pin == Seqs.Filter(input, Text.IsDigit)[..|pin|]
            && (|pin| == 4 || pin == Text.DigitsOnly(input))
  {
  }

  /** Sanitising a sanitised PIN changes nothing. */
  lemma SanitizePinIdempotent(input: string)
    ensures SanitizePin(SanitizePin(input)) == SanitizePin(input)
  {
    var pin := SanitizePin(input);
    Text.DigitsOnlyOfDigits(pin);
  }

  // ---------------------------------------------------------------------
  // The form

  /** The cleared form: every text empty, active switched on. */
  function EmptyForm(): SalesRepDraft
  {
    SalesRepDraft("", "", "", "", true)
  }

  /** `handleEdit` fills the form from the rep. */
  function FormOf(rep: SalesRep): SalesRepDraft
  {
    SalesRepDraft(rep.name, rep.email, rep.phone, rep.pin, rep.isActive)
  }

  /** `updateSalesRep(id, formData)`: the five form fields, and nothing else, are set. */
  function FormPatch(d: SalesRepDraft): SalesRepPatch
  {
    SalesRepPatch(None, Some(d.name), Some(d.email), Some(d.phone), Some(d.pin), Some(d.isActive), None, None, None)
  }

  /** The menu's toggle: `updateSalesRep(rep.id, { isActive: !rep.isActive })`. */
  function TogglePatch(rep: SalesRep): SalesRepPatch
  {
    NoSalesRepChanges().(isActive := Some(!rep.isActive))
  }

  /** Saving an edit sets the rep's name, email, phone, PIN and active flag
      from the form and keeps its id, counters and creation time; other reps
      are untouched. */
  lemma SaveEditMeaning(st: StoreOps.StoreState, id: string, d: SalesRepDraft)
    ensures var reps := StoreOps.UpdateSalesRep(st, id, FormPatch(d)).salesReps;
            && |reps| == |st.salesReps|
            && (forall i :: 0 <= i < |reps| && st.salesReps[i].id == id ==>
                  var r := st.salesReps[i];
                  reps[i] == SalesRep(r.id, d.name, d.email, d.phone, d.pin, d.isActive, r.todaySales, r.totalSales, r.createdAt))
            && (forall i :: 0 <= i < |reps| && st.salesReps[i].id != id ==> reps[i] == st.salesReps[i])
  {
    StoreProps.UpdateSalesRepFrame(st, id, FormPatch(d));
  }

  /** Opening a rep for editing and saving without changes leaves the store as it was. */
  lemma EditUnchangedIsNoOp(st: StoreOps.StoreState, i: nat)
    requires i < |st.salesReps|
    requires forall j :: 0 <= j < |st.salesReps| && st.salesReps[j].id == st.salesReps[i].id ==> st.salesReps[j] == st.salesReps[i]
    ensures StoreOps.UpdateSalesRep(st, st.salesReps[i].id, FormPatch(FormOf(st.salesReps[i]))) == st
  {
    var rep := st.salesReps[i];
    SaveEditMeaning(st, rep.id, FormOf(rep));
    var st' := StoreOps.UpdateSalesRep(st, rep.id, FormPatch(FormOf(rep)));
    assert st'.salesReps == st.salesReps;
  }

  /** The toggle flips the active flag of the reps with that id and changes
      nothing else. */
  lemma ToggleFlipsOnlyActive(st: StoreOps.StoreState, rep: SalesRep)
    ensures var reps := StoreOps.UpdateSalesRep(st, rep.id, TogglePatch(rep)).salesReps;
            && |reps| == |st.salesReps|
            && (forall i :: 0 <= i < |reps| && st.salesReps[i].id == rep.id ==>
                  reps[i] == st.salesReps[i].(isActive := !rep.isActive))
            && (forall i :: 0 <= i < |reps| && st.salesReps[i].id != rep.id ==> reps[i] == st.salesReps[i])
  {
    StoreProps.UpdateSalesRepFrame(st, rep.id, TogglePatch(rep));
  }

  /** Toggling twice from the same record restores the flag. */
  lemma ToggleTwiceRestores(st: StoreOps.StoreState, i: nat)
    requires i < |st.salesReps|
    requires forall j :: 0 <= j < |st.salesReps| && st.salesReps[j].id == st.salesReps[i].id ==> st.salesReps[j] == st.salesReps[i]
    ensures var rep := st.salesReps[i];
            var once := StoreOps.UpdateSalesRep(st, rep.id, TogglePatch(rep));
            StoreOps.UpdateSalesRep(once, rep.id, TogglePatch(once.salesReps[i])) == st
  {
    var rep := st.salesReps[i];
    ToggleFlipsOnlyActive(st, rep);
    var once := StoreOps.UpdateSalesRep(st, rep.id, TogglePatch(rep));
    ToggleFlipsOnlyActive(once, once.salesReps[i]);
    var twice := StoreOps.UpdateSalesRep(once, rep.id, TogglePatch(once.salesReps[i]));
    assert twice.salesReps == st.salesReps;
  }

  // ---------------------------------------------------------------------
  // The page

  class Page {
    var searchQuery: string
    var isAddPanelOpen: bool
    var editingRep: Option<SalesRep>
    var deleteConfirm: Option<string>
    var formData: SalesRepDraft

    constructor ()
      ensures searchQuery == "" && !isAddPanelOpen && editingRep.None? && deleteConfirm.None?
      ensures formData == EmptyForm()
    {
      searchQuery := "";
      isAddPanelOpen := false;
      editingRep := None;
      deleteConfirm := None;
      formData := EmptyForm();
    }

    /** The PIN field keeps only what the sanitiser lets through. */
    method SetPin(input: string)
      modifies this
      ensures formData == old(formData).(pin := SanitizePin(input))
      ensures |formData.pin| <= 4
      ensures unchanged(this`searchQuery, this`isAddPanelOpen, this`editingRep, this`deleteConfirm)
    {
      formData := formData.(pin := Text.Take(Text.DigitsOnly(input), 4));
    }

    /** Save: update the rep being edited, or add a new one; then close the
        panel and clear the form. */
    method HandleSubmit(store: DomainStore.Store, stamp: string, now: int)
      modifies this, store
      ensures old(editingRep).Some? ==>
                store.State() == StoreOps.UpdateSalesRep(old(store.State()), old(editingRep).value.id, FormPatch(old(formData)))
      ensures old(editingRep).None? ==>
                store.State() == StoreOps.AddSalesRep(old(store.State()), old(formData), stamp, now)
      ensures editingRep.None? && !isAddPanelOpen && formData == EmptyForm()
      ensures searchQuery == old(searchQuery) && deleteConfirm == old(deleteConfirm)
    {
      if editingRep.Some? {
        store.UpdateSalesRep(editingRep.value.id, FormPatch(formData));
        editingRep := None;
      } else {
        store.AddSalesRep(formData, stamp, now);
      }
      isAddPanelOpen := false;
      formData := EmptyForm();
    }

    method HandleEdit(rep: SalesRep)
      modifies this
      ensures formData == FormOf(rep) && editingRep == Some(rep) && isAddPanelOpen
      ensures searchQuery == old(searchQuery) && deleteConfirm == old(deleteConfirm)
    {
      formData := FormOf(rep);
      editingRep := Some(rep);
      isAddPanelOpen := true;
    }

    method HandleClosePanel()
      modifies this
      ensures !isAddPanelOpen && editingRep.None? && formData == EmptyForm()
      ensures searchQuery == old(searchQuery) && deleteConfirm == old(deleteConfirm)
    {
      isAddPanelOpen := false;
      editingRep := None;
      formData := EmptyForm();
    }

    method ToggleActive(store: DomainStore.Store, rep: SalesRep)
      modifies store
      ensures store.State() == StoreOps.UpdateSalesRep(old(store.State()), rep.id, TogglePatch(rep))
    {
      store.UpdateSalesRep(rep.id, TogglePatch(rep));
    }

    /** The confirmed delete. */
    method HandleDelete(store: DomainStore.Store, id: string)
      modifies this, store
      ensures store.State() == StoreOps.DeleteSalesRep(old(store.State()), id)
      ensures deleteConfirm.None?
      ensures searchQuery == old(searchQuery) && isAddPanelOpen == old(isAddPanelOpen)
      ensures editingRep == old(editingRep) && formData == old(formData)
    {
      store.DeleteSalesRep(id);
      deleteConfirm := None;
    }
  }
}
