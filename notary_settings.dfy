/**
 * The office list of the settings page (NotarySettings.tsx): its search, the
 * buttons that open the office form in one of its three modes, and where a
 * saved office goes.
 */
module NotarySettings {
  import opened Types
  import opened Text
  import opened Seqs

  /** The search test: name, comarca or responsible name contains the search, ignoring case. */
  predicate MatchesNotary(n: Notary, search: string) {
    Contains(Lower(n.name), Lower(search)) ||
    Contains(Lower(n.comarca), Lower(search)) ||
    Contains(Lower(n.responsibleName), Lower(search))
  }

  function FilteredNotaries(notaries: seq<Notary>, search: string): seq<Notary> {
    Filter(notaries, (n: Notary) => MatchesNotary(n, search))
  }

  /**
   * The list shows, in order, exactly the matching offices; an empty search
   * shows them all, and the case of the search does not matter.
   */
  lemma FilteredNotariesSpec(notaries: seq<Notary>, search: string)
    ensures IsSubsequence(FilteredNotaries(notaries, search), notaries)
    ensures forall n :: n in FilteredNotaries(notaries, search) <==> n in notaries && MatchesNotary(n, search)
    ensures search == "" ==> FilteredNotaries(notaries, search) == notaries
    ensures FilteredNotaries(notaries, Lower(search)) == FilteredNotaries(notaries, search)
  {
    FilterIsSubsequence(notaries, (n: Notary) => MatchesNotary(n, search));
    if search == "" {
      forall n | n in notaries
        ensures MatchesNotary(n, search)
      {
        ContainsEmpty(Lower(n.name));
      }
      FilterKeepsAll(notaries, (n: Notary) => MatchesNotary(n, search));
    }
    LowerIdempotent(search);
    FilterSame(notaries, (n: Notary) => MatchesNotary(n, Lower(search)), (n: Notary) => MatchesNotary(n, search));
  }

  /** What `handleSaveModal` calls with the office the form submitted. */
  datatype SaveCall = UpdateNotary(notary: Notary) | AddNotary(notary: Notary)

  class SettingsPanel {
    var isModalOpen: bool
    var notaryToEdit: Option<Notary>
    var notaryToDuplicate: Option<Notary>

    /** The form is never in edit and duplicate mode at once. */
    ghost predicate AtMostOneMode()
      reads this
    {
      !(notaryToEdit.Some? && notaryToDuplicate.Some?)
    }

    constructor ()
      ensures !isModalOpen && notaryToEdit == None && notaryToDuplicate == None
      ensures AtMostOneMode()
    {
      isModalOpen, notaryToEdit, notaryToDuplicate := false, None, None;
    }

    /** The "new office" button. */
    method NewClick()
      modifies this
      ensures isModalOpen && notaryToEdit == None && notaryToDuplicate == None
      ensures AtMostOneMode()
    {
      notaryToEdit, notaryToDuplicate := None, None;
      isModalOpen := true;
    }

    method EditClick(n: Notary)
      modifies this
      ensures isModalOpen && notaryToEdit == Some(n) && notaryToDuplicate == None
      ensures AtMostOneMode()
    {
      notaryToEdit := Some(n);
      notaryToDuplicate := None;
      isModalOpen := true;
    }

    method DuplicateClick(n: Notary)
      modifies this
      ensures isModalOpen && notaryToDuplicate == Some(n) && notaryToEdit == None
      ensures AtMostOneMode()
    {
      notaryToDuplicate := Some(n);
      notaryToEdit := None;
      isModalOpen := true;
    }

    method CloseModal()
      modifies this
      ensures !isModalOpen && notaryToEdit == None && notaryToDuplicate == None
      ensures AtMostOneMode()
    {
      isModalOpen := false;
      notaryToEdit := None;
      notaryToDuplicate := None;
    }

    /** `handleDeleteClick`: the id handed to `onDeleteNotary`, only once the user confirms. */
    method DeleteClick(id: string, confirmed: bool) returns (deleted: Option<string>)
      ensures deleted.Some? <==> confirmed
      ensures deleted.Some? ==> deleted.value == id
    {
      deleted := if confirmed then Some(id) else None;
    }

    /** `handleSaveModal`: an update exactly in edit mode, an addition for a new office or a duplicate. */
    method SaveModal(n: Notary) returns (call: SaveCall)
      ensures call.notary == n
      ensures call.UpdateNotary? <==> notaryToEdit.Some?
    {
      if notaryToEdit.Some? {
        call := UpdateNotary(n);
      } else {
        call := AddNotary(n);
      }
    }
  }
}
