/** The application-wide state the provider component holds: the loaded
    organizations, the selection, the theme flag, the current analysis
    result and the loading flag. Each state cell is a field; each setter
    call is one assignment. */
module AppContext {
  import opened Wrappers
  import opened Types
  import opened Organizations

  /** `fetched.find(org => org.id === id)`, as the index found. */
  function FindById(orgs: seq<Organization>, id: string): (r: Option<nat>)
    ensures r.Some? ==> r.value < |orgs| && orgs[r.value].id == id
    ensures r.Some? ==> forall j :: 0 <= j < r.value ==> orgs[j].id != id
    ensures r.None? <==> forall j :: 0 <= j < |orgs| ==> orgs[j].id != id
  {
    if orgs == [] then None
    else if orgs[0].id == id then Some(0)
    else match FindById(orgs[1..], id)
      case None => None
      case Some(k) => Some(k + 1)
  }

  /** `org` is the first organization of `orgs` with id `id`. */
  predicate FirstWithId(orgs: seq<Organization>, id: string, org: Organization) {
    exists k :: 0 <= k < |orgs| && orgs[k] == org && org.id == id && forall j :: 0 <= j < k ==> orgs[j].id != id
  }

  /** The selection updater run after a successful load: nothing when the
      list is empty; the first fetched organization with the current
      selection's id when there is one; otherwise the first fetched one. */
  function ReconcileSelection(current: Option<Organization>, fetched: seq<Organization>)
    : (next: Option<Organization>)
    ensures next.None? <==> fetched == []
    ensures next.Some? ==> next.value in fetched
    ensures current.Some? && (exists j :: 0 <= j < |fetched| && fetched[j].id == current.value.id)
            ==> next.Some? && FirstWithId(fetched, current.value.id, next.value)
    ensures fetched != [] && (current.None? || forall j :: 0 <= j < |fetched| ==> fetched[j].id != current.value.id)
            ==> next == Some(fetched[0])
  {
    if |fetched| == 0 then None
    else if current.Some? && FindById(fetched, current.value.id).Some?
    then Some(fetched[FindById(fetched, current.value.id).value])
    else Some(fetched[0])
  }

  /** Reconciling again against the same list keeps the selection. */
  lemma ReconcileIdempotent(current: Option<Organization>, fetched: seq<Organization>)
    ensures ReconcileSelection(ReconcileSelection(current, fetched), fetched) == ReconcileSelection(current, fetched)
  {
    var next := ReconcileSelection(current, fetched);
    if next.Some? {
      var k :| 0 <= k < |fetched| && fetched[k] == next.value;
      var first := FindById(fetched, next.value.id);
      assert first.Some?;
      if current.Some? && FindById(fetched, current.value.id).Some? {
        assert first.value == FindById(fetched, current.value.id).value;
      } else {
        assert first.value == 0;
      }
    }
  }

  class AppProvider {
    var organizations: seq<Organization>
    var selectedOrganization: Option<Organization>
    var isDarkMode: bool
    var analysisResult: Option<AnalysisResult>
    var isLoadingOrganizations: bool

    /** The initial state; `savedDarkMode` is the flag read back from the
        browser's storage. */
    constructor(savedDarkMode: bool)
      ensures organizations == [] && selectedOrganization.None?
      ensures isDarkMode == savedDarkMode && analysisResult.None? && isLoadingOrganizations
    {
      organizations := [];
      selectedOrganization := None;
      isDarkMode := savedDarkMode;
      analysisResult := None;
      isLoadingOrganizations := true;
    }

    /** The selection is absent or one of the loaded organizations. */
    predicate SelectionListed()
      reads this
    {
      selectedOrganization.None? || selectedOrganization.value in organizations
    }

    /** `loadOrganizations`, given how the fetch settled: a success stores
        the list and reconciles the selection against it; a failure empties
        both. The loading flag is down afterwards, either way. */
    method LoadOrganizations(fetchOutcome: Result<seq<Organization>, string>)
      modifies this
      ensures fetchOutcome.Success? ==> organizations == fetchOutcome.value
      ensures fetchOutcome.Success? ==>
                selectedOrganization == ReconcileSelection(old(selectedOrganization), fetchOutcome.value)
      ensures fetchOutcome.Failure? ==> organizations == [] && selectedOrganization.None?
      ensures !isLoadingOrganizations && SelectionListed()
      ensures isDarkMode == old(isDarkMode) && analysisResult == old(analysisResult)
    {
      isLoadingOrganizations := true;
      match fetchOutcome {
        case Success(fetched) =>
          organizations := fetched;
          selectedOrganization := ReconcileSelection(selectedOrganization, fetched);
        case Failure(_) =>
          organizations := [];
          selectedOrganization := None;
      }
      isLoadingOrganizations := false;
    }

    /** `setSelectedOrganization`: the selection changes and any result of
        an earlier analysis is dropped. */
    method SetSelectedOrganization(organization: Option<Organization>)
      modifies this
      ensures selectedOrganization == organization && analysisResult.None?
      ensures organizations == old(organizations) && isDarkMode == old(isDarkMode)
      ensures isLoadingOrganizations == old(isLoadingOrganizations)
    {
      selectedOrganization := organization;
      analysisResult := None;
    }

    /** `toggleDarkMode`: the flag is negated, so two calls restore it. */
    method ToggleDarkMode()
      modifies this
      ensures isDarkMode == !old(isDarkMode)
      ensures organizations == old(organizations) && selectedOrganization == old(selectedOrganization)
      ensures analysisResult == old(analysisResult) && isLoadingOrganizations == old(isLoadingOrganizations)
    {
      isDarkMode := !isDarkMode;
    }

    /** The bare `setAnalysisResult` setter. */
    method SetAnalysisResult(result: Option<AnalysisResult>)
      modifies this
      ensures analysisResult == result
      ensures organizations == old(organizations) && selectedOrganization == old(selectedOrganization)
      ensures isDarkMode == old(isDarkMode) && isLoadingOrganizations == old(isLoadingOrganizations)
    {
      analysisResult := result;
    }
  }
}
