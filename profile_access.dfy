/**
 * The user administration panel (ProfileAccessManager.tsx): the role of each
 * profile, changed optimistically and reverted on failure, and the list of
 * notary offices a user may see, edited in a dialog and saved as one row per
 * office.
 */
module ProfileAccess {
  import opened Types
  import opened Text
  import opened Seqs

  /**
   * A profile row as the panel reads it; the database may return a null name
   * or e-mail, which the filter reads as the empty string.
   */
  datatype Profile = Profile(id: string, email: Option<string>, fullName: Option<string>, role: Role, avatarUrl: Option<string>)

  /** A row of the access table. */
  datatype AccessRow = AccessRow(userId: string, notaryId: string)

  /** The list after a click on an office: every occurrence removed if it was there, appended if not. */
  function ToggledAccess(access: seq<string>, notaryId: string): seq<string> {
    if notaryId in access then Filter(access, (id: string) => id != notaryId) else access + [notaryId]
  }

  /**
   * A click flips the membership of the clicked office and no other; removal
   * keeps the other offices in their order, and an addition goes at the end.
   */
  lemma ToggledAccessSpec(access: seq<string>, notaryId: string)
    ensures notaryId in ToggledAccess(access, notaryId) <==> notaryId !in access
    ensures forall id :: id != notaryId ==> (id in ToggledAccess(access, notaryId) <==> id in access)
    ensures notaryId in access ==> IsSubsequence(ToggledAccess(access, notaryId), access)
    ensures notaryId !in access ==> ToggledAccess(access, notaryId) == access + [notaryId]
  {
    if notaryId in access {
      FilterIsSubsequence(access, (id: string) => id != notaryId);
    }
  }

  /** A list without repeats stays without repeats. */
  lemma ToggledAccessDistinct(access: seq<string>, notaryId: string)
    requires Distinct(access)
    ensures Distinct(ToggledAccess(access, notaryId))
  {
    if notaryId in access {
      FilterDistinct(access, (id: string) => id != notaryId);
    } else {
      var r := access + [notaryId];
      forall i, j | 0 <= i < j < |r|
        ensures r[i] != r[j]
      {
        if j == |access| {
          assert r[i] == access[i];
        } else {
          assert r[i] == access[i] && r[j] == access[j];
        }
      }
    }
  }

  /** Two clicks on the same office give back the same set of offices (the position may differ). */
  lemma ToggleTwiceRestores(access: seq<string>, notaryId: string)
    ensures forall id :: id in ToggledAccess(ToggledAccess(access, notaryId), notaryId) <==> id in access
  {
    ToggledAccessSpec(access, notaryId);
    ToggledAccessSpec(ToggledAccess(access, notaryId), notaryId);
  }

  /**
   * The optimistic update: the profiles with that id get the new role; every
   * other profile, and every other field, stays as it was.
   */
  function WithRole(profiles: seq<Profile>, profileId: string, newRole: Role): (r: seq<Profile>)
    ensures |r| == |profiles|
    ensures forall i :: 0 <= i < |profiles| && profiles[i].id != profileId ==> r[i] == profiles[i]
    ensures forall i :: 0 <= i < |profiles| && profiles[i].id == profileId ==>
              r[i].role == newRole && r[i].(role := profiles[i].role) == profiles[i]
  {
    Map(profiles, (p: Profile) => if p.id == profileId then p.(role := newRole) else p)
  }

  /** The rows `saveAccessChanges` inserts: one per office of the list, in its order, each for the user. */
  function AccessRows(userId: string, access: seq<string>): (r: seq<AccessRow>)
    ensures |r| == |access|
    ensures forall i :: 0 <= i < |access| ==> r[i] == AccessRow(userId, access[i])
    ensures Map(r, (row: AccessRow) => row.notaryId) == access
  {
    Map(access, (nid: string) => AccessRow(userId, nid))
  }

  /** The search test: the lowercased name or e-mail (null read as empty) contains the lowercased search. */
  predicate MatchesProfile(p: Profile, search: string) {
    Contains(Lower(p.fullName.GetOr("")), Lower(search)) || Contains(Lower(p.email.GetOr("")), Lower(search))
  }

  function FilteredProfiles(profiles: seq<Profile>, search: string): seq<Profile> {
    Filter(profiles, (p: Profile) => MatchesProfile(p, search))
  }

  /** The filter keeps, in order, exactly the matching profiles, and an empty search keeps them all. */
  lemma FilteredProfilesSpec(profiles: seq<Profile>, search: string)
    ensures IsSubsequence(FilteredProfiles(profiles, search), profiles)
    ensures forall p :: p in FilteredProfiles(profiles, search) <==> p in profiles && MatchesProfile(p, search)
    ensures search == "" ==> FilteredProfiles(profiles, search) == profiles
  {
    FilterIsSubsequence(profiles, (p: Profile) => MatchesProfile(p, search));
    if search == "" {
      forall p | p in profiles
        ensures MatchesProfile(p, search)
      {
        ContainsEmpty(Lower(p.fullName.GetOr("")));
      }
      FilterKeepsAll(profiles, (p: Profile) => MatchesProfile(p, search));
    }
  }

  class AccessManager {
    var profiles: seq<Profile>
    var selectedProfile: Option<Profile>
    var userAccessList: seq<string>
    var isAccessModalOpen: bool

    constructor ()
      ensures profiles == [] && selectedProfile == None && userAccessList == [] && !isAccessModalOpen
    {
      profiles, selectedProfile, userAccessList, isAccessModalOpen := [], None, [], false;
    }

    /** `fetchData`: the fetched profiles, or none when the query gave no data; a failed query changes nothing. */
    method ApplyFetchedProfiles(rows: Option<seq<Profile>>, ok: bool)
      modifies this
      ensures profiles == if ok then rows.GetOr([]) else old(profiles)
      ensures selectedProfile == old(selectedProfile) && userAccessList == old(userAccessList)
      ensures isAccessModalOpen == old(isAccessModalOpen)
    {
      if ok {
        profiles := rows.GetOr([]);
      }
    }

    /**
     * `handleRoleChange`: the new role is shown at once; if the database
     * refuses it the list goes back to the snapshot taken before.
     */
    method RoleChange(profileId: string, newRole: Role, success: bool)
      modifies this
      ensures profiles == if success then WithRole(old(profiles), profileId, newRole) else old(profiles)
      ensures selectedProfile == old(selectedProfile) && userAccessList == old(userAccessList)
      ensures isAccessModalOpen == old(isAccessModalOpen)
    {
      var originalProfiles := profiles;
      profiles := WithRole(profiles, profileId, newRole);
      if !success {
        profiles := originalProfiles;
      }
    }

    /**
     * `openAccessModal`: the dialog opens on the profile with an empty list,
     * which the fetched office ids then replace; a failed query leaves it empty.
     */
    method OpenAccess(profile: Profile, fetched: Option<seq<string>>)
      modifies this
      ensures selectedProfile == Some(profile) && isAccessModalOpen
      ensures userAccessList == fetched.GetOr([])
      ensures profiles == old(profiles)
    {
      selectedProfile := Some(profile);
      isAccessModalOpen := true;
      userAccessList := [];
      if fetched.Some? {
        userAccessList := fetched.value;
      }
    }

    /** `toggleNotaryAccess`. */
    method ToggleAccess(notaryId: string)
      modifies this
      ensures userAccessList == ToggledAccess(old(userAccessList), notaryId)
      ensures profiles == old(profiles) && selectedProfile == old(selectedProfile)
      ensures isAccessModalOpen == old(isAccessModalOpen)
    {
      if notaryId in userAccessList {
        userAccessList := Filter(userAccessList, (id: string) => id != notaryId);
      } else {
        userAccessList := userAccessList + [notaryId];
      }
    }

    /**
     * `saveAccessChanges`: with a selected profile, the user's rows are
     * deleted and, when the list is not empty, the new rows inserted (returned
     * as `inserted`); the dialog closes once both succeed.
     */
    method SaveAccess(deleteOk: bool, insertOk: bool) returns (inserted: Option<seq<AccessRow>>)
      modifies this
      ensures inserted == if selectedProfile.Some? && deleteOk && userAccessList != []
                          then Some(AccessRows(selectedProfile.value.id, userAccessList)) else None
      ensures isAccessModalOpen ==
                if selectedProfile.Some? && deleteOk && (userAccessList == [] || insertOk) then false
                else old(isAccessModalOpen)
      ensures profiles == old(profiles) && selectedProfile == old(selectedProfile)
      ensures userAccessList == old(userAccessList)
    {
      inserted := None;
      if selectedProfile.None? || !deleteOk {
        return;
      }
      if |userAccessList| > 0 {
        inserted := Some(AccessRows(selectedProfile.value.id, userAccessList));
        if !insertOk {
          return;
        }
      }
      isAccessModalOpen := false;
    }
  }
}
