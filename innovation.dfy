/** The innovation tracking page: the session and role read from the cookie string, the
    title check in front of add and update, the confirmation in front of delete, the
    filtered list and the status counters. */
module Innovation {
  import opened Values
  import opened Strings
  import opened Collections
  import opened Cookies

  /** The page enables its admin controls unless the role is exactly `user`; a missing role
      cookie enables them too. */
  predicate IsAdminRole(role: Option<string>)
  {
    role != Some("user")
  }

  /** Without a `user_role` piece the admin controls are on. */
  lemma AdminWithoutRole(cookie: string)
    requires forall i :: 0 <= i < |CookiePieces(cookie)| ==> !StartsWith(CookiePieces(cookie)[i], RolePrefix)
    ensures IsAdminRole(UserRole(cookie))
  {
  }

  /** When the first trimmed piece that starts with `user_role=` is exactly
      `user_role=<v>`, wherever it stands, the admin controls are off exactly when `v` is
      `user`. */
  lemma AdminUnlessUser(parts: seq<string>, k: nat, v: string)
    requires |parts| >= 1 && forall i :: 0 <= i < |parts| ==> ';' !in parts[i]
    requires k < |parts| && Trim(parts[k]) == RolePrefix + v && '=' !in v
    requires forall j :: 0 <= j < k ==> !StartsWith(Trim(parts[j]), RolePrefix)
    ensures IsAdminRole(UserRole(Join(parts, ';'))) <==> v != "user"
  {
    RoleOfPieces(parts, k, v);
  }

  /** Whatever the cookie holds, the admin controls are off exactly when the first
      `user_role` piece carries the value `user`. */
  lemma AdminExactlyUnlessUser(cookie: string)
    ensures !IsAdminRole(UserRole(cookie)) <==> exists i :: RoleAt(CookiePieces(cookie), i, "user")
  {
    var role := UserRole(cookie);
    if exists i :: RoleAt(CookiePieces(cookie), i, "user") {
      var i :| RoleAt(CookiePieces(cookie), i, "user");
      assert StartsWith(CookiePieces(cookie)[i], RolePrefix) by {
        assert CookiePieces(cookie)[i][..|RolePrefix|] == (RolePrefix + "user")[..|RolePrefix|];
      }
      var k :| RoleAt(CookiePieces(cookie), k, role.value);
      RoleAtUnique(CookiePieces(cookie), i, "user", k, role.value);
    }
  }

  /** The add and edit form. */
  datatype InnovationForm = InnovationForm(title: string, description: string, domain: string, level: string, status: string)

  /** What `resetForm` puts back: empty fields and status `draft`. */
  function EmptyForm(): (f: InnovationForm)
    ensures f.title == "" && f.description == "" && f.domain == "" && f.level == ""
    ensures f.status == "draft"
  {
    InnovationForm("", "", "", "", "draft")
  }

  /** `value || fallback` for a text field copied into the form. */
  function TextOr(v: Value, fallback: string): string
  {
    match v
    case Str(s) => if s != "" then s else fallback
    case _ => fallback
  }

  /** One innovation passes the search box and the two drop-downs: the term occurs, ignoring
      case, in the title or the description, and `all` accepts every status or domain. */
  predicate InnovationMatches(x: Record, searchTerm: string, statusFilter: string, domainFilter: string)
  {
    (FieldIncludes(x, "title", searchTerm) || FieldIncludes(x, "description", searchTerm)) &&
    (statusFilter == "all" || Get(x, "status") == Str(statusFilter)) &&
    (domainFilter == "all" || Get(x, "domain") == Str(domainFilter))
  }

  /** `filteredInnovations` */
  function FilteredInnovations(xs: seq<Record>, searchTerm: string, statusFilter: string, domainFilter: string): seq<Record>
  {
    Filter(xs, (x: Record) => InnovationMatches(x, searchTerm, statusFilter, domainFilter))
  }

  /** The view holds exactly the matching innovations, in list order. */
  lemma FilteredInnovationsAreMatches(xs: seq<Record>, searchTerm: string, statusFilter: string, domainFilter: string)
    ensures IsSubsequence(FilteredInnovations(xs, searchTerm, statusFilter, domainFilter), xs)
    ensures forall x :: x in FilteredInnovations(xs, searchTerm, statusFilter, domainFilter) <==>
              x in xs && InnovationMatches(x, searchTerm, statusFilter, domainFilter)
  {
    FilterIsSubsequence(xs, (x: Record) => InnovationMatches(x, searchTerm, statusFilter, domainFilter));
  }

  /** With an empty search box and both drop-downs on `all`, every innovation with a title
      is shown, in list order. */
  lemma AllFiltersOffShowsAll(xs: seq<Record>)
    requires forall x :: x in xs ==> Get(x, "title").Str?
    ensures FilteredInnovations(xs, "", "all", "all") == xs
  {
    forall x | x in xs ensures InnovationMatches(x, "", "all", "all") {
      EmptyTermMatchesText(x, "title");
    }
    FilterAll(xs, (x: Record) => InnovationMatches(x, "", "all", "all"));
  }

  datatype StatusStats = StatusStats(total: nat, draft: nat, submitted: nat, approved: nat, rejected: nat)

  /** `getStatusStats`: the list length and one counter per status. */
  function GetStatusStats(xs: seq<Record>): (s: StatusStats)
    ensures s.total == |xs|
    ensures s.draft == multiset(Column(xs, "status"))[Str("draft")]
    ensures s.submitted == multiset(Column(xs, "status"))[Str("submitted")]
    ensures s.approved == multiset(Column(xs, "status"))[Str("approved")]
    ensures s.rejected == multiset(Column(xs, "status"))[Str("rejected")]
    ensures s.draft + s.submitted + s.approved + s.rejected <= s.total
  {
    var draft, submitted, approved, rejected := Str("draft"), Str("submitted"), Str("approved"), Str("rejected");
    CountEqIsMultiplicity(xs, "status", draft);
    CountEqIsMultiplicity(xs, "status", submitted);
    CountEqIsMultiplicity(xs, "status", approved);
    CountEqIsMultiplicity(xs, "status", rejected);
    FourCountsBounded(xs, "status", draft, submitted, approved, rejected);
    StatusStats(|xs|, CountEq(xs, "status", draft), CountEq(xs, "status", submitted),
                CountEq(xs, "status", approved), CountEq(xs, "status", rejected))
  }

  /** The page's state. */
  class InnovationPage {
    var innovations: seq<Record>
    var loading: bool
    var searchTerm: string
    var statusFilter: string
    var domainFilter: string
    var showAddModal: bool
    var showEditModal: bool
    var showViewModal: bool
    var selectedInnovation: Option<Record>
    var isAdmin: bool
    var formData: InnovationForm

    constructor ()
      ensures innovations == [] && loading && searchTerm == ""
      ensures statusFilter == "all" && domainFilter == "all"
      ensures !showAddModal && !showEditModal && !showViewModal
      ensures selectedInnovation == None && !isAdmin && formData == EmptyForm()
    {
      innovations := [];
      loading := true;
      searchTerm := "";
      statusFilter := "all";
      domainFilter := "all";
      showAddModal := false;
      showEditModal := false;
      showViewModal := false;
      selectedInnovation := None;
      isAdmin := false;
      formData := EmptyForm();
    }

    /** The cards on screen. */
    function Visible(): seq<Record>
      reads this
    {
      FilteredInnovations(innovations, searchTerm, statusFilter, domainFilter)
    }

    /** The first effect: admin controls on unless the role is `user`; a redirect to the
        home page when there is no session. */
    method CheckSession(cookie: string) returns (redirectHome: bool)
      modifies this`isAdmin
      ensures isAdmin == (old(isAdmin) || IsAdminRole(UserRole(cookie)))
      ensures redirectHome == !HasSession(cookie)
    {
      if IsAdminRole(UserRole(cookie)) {
        isAdmin := true;
      }
      redirectHome := !HasSession(cookie);
    }

    /** `fetchInnovations`: an ok response replaces the list; anything else keeps it. */
    method FetchInnovations(response: Outcome<seq<Record>>)
      modifies this`innovations, this`loading
      ensures !loading
      ensures innovations == if response.Ok? then response.value else old(innovations)
    {
      if response.Ok? {
        innovations := response.value;
      }
      loading := false;
    }

    /** `resetForm` */
    method ResetForm()
      modifies this`formData, this`selectedInnovation
      ensures formData == EmptyForm() && selectedInnovation == None
    {
      formData := EmptyForm();
      selectedInnovation := None;
    }

    /** `openEditModal`: the form takes the innovation's fields, missing ones as empty text
        and a missing status as `draft`. The title is copied without a fallback; a title
        that is not text is held as empty text, which the title gate refuses just as the
        page's `trim` call on it fails before any request. */
    method OpenEditModal(innovation: Record)
      modifies this`selectedInnovation, this`formData, this`showEditModal
      ensures selectedInnovation == Some(innovation) && showEditModal
      ensures formData == InnovationForm(TextOr(Get(innovation, "title"), ""),
                                         TextOr(Get(innovation, "description"), ""),
                                         TextOr(Get(innovation, "domain"), ""),
                                         TextOr(Get(innovation, "level"), ""),
                                         TextOr(Get(innovation, "status"), "draft"))
    {
      selectedInnovation := Some(innovation);
      formData := InnovationForm(TextOr(Get(innovation, "title"), ""),
                                 TextOr(Get(innovation, "description"), ""),
                                 TextOr(Get(innovation, "domain"), ""),
                                 TextOr(Get(innovation, "level"), ""),
                                 TextOr(Get(innovation, "status"), "draft"));
      showEditModal := true;
    }

    /** `openViewModal` */
    method OpenViewModal(innovation: Record)
      modifies this`selectedInnovation, this`showViewModal
      ensures selectedInnovation == Some(innovation) && showViewModal
    {
      selectedInnovation := Some(innovation);
      showViewModal := true;
    }

    /** `handleAddInnovation`: a blank title stops before any request; an ok response
        re-fetches the list, closes the modal and resets the form. */
    method AddInnovation(response: Outcome<()>, reload: Outcome<seq<Record>>) returns (sent: bool)
      modifies this`innovations, this`loading, this`showAddModal, this`formData, this`selectedInnovation
      ensures sent == !IsBlank(old(formData).title)
      ensures !sent || response.Fail? ==>
                innovations == old(innovations) && loading == old(loading) && showAddModal == old(showAddModal) &&
                formData == old(formData) && selectedInnovation == old(selectedInnovation)
      ensures sent && response.Ok? ==>
                innovations == (if reload.Ok? then reload.value else old(innovations)) && !loading &&
                !showAddModal && formData == EmptyForm() && selectedInnovation == None
    {
      TrimEmptyIffBlank(formData.title);
      if Trim(formData.title) == "" {
        return false;
      }
      sent := true;
      if response.Ok? {
        FetchInnovations(reload);
        showAddModal := false;
        ResetForm();
      }
    }

    /** `handleUpdateInnovation`: a blank title stops before any request; so does a missing
        selection (the TypeError is caught and only logged); an ok response re-fetches. */
    method UpdateInnovation(response: Outcome<()>, reload: Outcome<seq<Record>>) returns (sent: bool)
      modifies this`innovations, this`loading, this`showEditModal, this`formData, this`selectedInnovation
      ensures sent == (!IsBlank(old(formData).title) && old(selectedInnovation).Some?)
      ensures !sent || response.Fail? ==>
                innovations == old(innovations) && loading == old(loading) && showEditModal == old(showEditModal) &&
                formData == old(formData) && selectedInnovation == old(selectedInnovation)
      ensures sent && response.Ok? ==>
                innovations == (if reload.Ok? then reload.value else old(innovations)) && !loading &&
                !showEditModal && formData == EmptyForm() && selectedInnovation == None
    {
      TrimEmptyIffBlank(formData.title);
      if Trim(formData.title) == "" || selectedInnovation.None? {
        return false;
      }
      sent := true;
      if response.Ok? {
        FetchInnovations(reload);
        showEditModal := false;
        ResetForm();
      }
    }

    /** `handleDeleteInnovation`: nothing is sent unless confirmed; an ok response re-fetches
        the list instead of editing it. */
    method DeleteInnovation(confirmed: bool, response: Outcome<()>, reload: Outcome<seq<Record>>) returns (sent: bool)
      modifies this`innovations, this`loading
      ensures sent == confirmed
      ensures !sent || response.Fail? ==> innovations == old(innovations) && loading == old(loading)
      ensures sent && response.Ok? ==>
                innovations == (if reload.Ok? then reload.value else old(innovations)) && !loading
    {
      sent := confirmed;
      if confirmed && response.Ok? {
        FetchInnovations(reload);
      }
    }

    /** The counters above the list, over the whole list. */
    function Stats(): StatusStats
      reads this
    {
      GetStatusStats(innovations)
    }
  }
}
