/** The administrators' user list: the load, the e-mail search, the per-row export busy
    flag and the counters. */
module UserData {
  import opened Values
  import opened Strings
  import opened Collections
  import opened Cookies

  /** Every user's e-mail is text, so the search can lowercase it. */
  predicate EmailsAreText(users: seq<Record>)
  {
    forall u :: u in users ==> Get(u, "email").Str?
  }

  /** `handleSearch`'s new filtered list: all users for a blank term, otherwise the users
      whose lowercased e-mail contains the lowercased term as typed (not trimmed). `None`
      when some e-mail is not text: the handler then throws before it sets anything. */
  function SearchUsers(users: seq<Record>, term: string): (r: Option<seq<Record>>)
    ensures IsBlank(term) ==> r == Some(users)
    ensures !IsBlank(term) ==> (r.Some? <==> EmailsAreText(users))
    ensures r.Some? && !IsBlank(term) ==> IsSubsequence(r.value, users)
    ensures r.Some? && !IsBlank(term) ==>
              forall u :: u in r.value <==> u in users && Includes(Lower(Get(u, "email").s), Lower(term))
  {
    TrimEmptyIffBlank(term);
    if Trim(term) == "" then Some(users)
    else if !EmailsAreText(users) then None
    else
      FilterIsSubsequence(users, (u: Record) => FieldIncludes(u, "email", term));
      Some(Filter(users, (u: Record) => FieldIncludes(u, "email", term)))
  }

  /** A term that every e-mail contains keeps the whole list. */
  lemma SearchAllMatch(users: seq<Record>, term: string)
    requires EmailsAreText(users)
    requires forall u :: u in users ==> Includes(Lower(Get(u, "email").s), Lower(term))
    ensures SearchUsers(users, term) == Some(users)
  {
    if !IsBlank(term) {
      FilterAll(users, (u: Record) => FieldIncludes(u, "email", term));
    }
  }

  datatype UserStats = UserStats(total: nat, verified: nat, admins: nat, regular: nat)

  /** The four counters, over the whole list: its length, the users whose `is_verified` is
      truthy, and the users whose role is `admin` and `user`. */
  function Stats(users: seq<Record>): (s: UserStats)
    ensures s.total == |users|
    ensures s.verified == Count(users, (u: Record) => Truthy(Get(u, "is_verified")))
    ensures forall u :: u in users && Truthy(Get(u, "is_verified")) ==> s.verified > 0
    ensures s.verified <= s.total
    ensures (forall u :: u in users ==> Truthy(Get(u, "is_verified"))) ==> s.verified == s.total
    ensures s.admins == multiset(Column(users, "role"))[Str("admin")]
    ensures s.regular == multiset(Column(users, "role"))[Str("user")]
    ensures s.admins + s.regular <= s.total
  {
    var verified := Filter(users, (u: Record) => Truthy(Get(u, "is_verified")));
    assert (forall u :: u in users ==> Truthy(Get(u, "is_verified"))) ==> |verified| == |users| by {
      if forall u :: u in users ==> Truthy(Get(u, "is_verified")) {
        FilterAll(users, (u: Record) => Truthy(Get(u, "is_verified")));
      }
    }
    CountEqIsMultiplicity(users, "role", Str("admin"));
    CountEqIsMultiplicity(users, "role", Str("user"));
    TwoCountsBounded(users, "role", Str("admin"), Str("user"));
    UserStats(|users|, |verified|, CountEq(users, "role", Str("admin")), CountEq(users, "role", Str("user")))
  }

  /** The page's state. */
  class UserDataPage {
    var users: seq<Record>
    var filteredUsers: seq<Record>
    var searchTerm: string
    var loading: bool
    var exporting: bool
    var exportingUserId: Value
    var error: Option<string>

    constructor ()
      ensures users == [] && filteredUsers == [] && searchTerm == "" && loading
      ensures !exporting && exportingUserId == Null && error == None
    {
      users := [];
      filteredUsers := [];
      searchTerm := "";
      loading := true;
      exporting := false;
      exportingUserId := Null;
      error := None;
    }

    /** The session effect: without a session the page sends the visitor home. */
    static method CheckSession(cookie: string) returns (redirectHome: bool)
      ensures redirectHome == !HasSession(cookie)
    {
      redirectHome := !HasSession(cookie);
    }

    /** `fetchUsers`: a successful load sets the list and the filtered list to the same
        profiles; a failure sets the error. */
    method LoadUsers(response: Outcome<seq<Record>>)
      modifies this`users, this`filteredUsers, this`loading, this`error
      ensures !loading
      ensures response.Ok? ==> users == response.value && filteredUsers == response.value && error == old(error)
      ensures response.Fail? ==>
                users == old(users) && filteredUsers == old(filteredUsers) && error == Some(response.message)
    {
      loading := true;
      match response {
        case Ok(profiles) =>
          users := profiles;
          filteredUsers := profiles;
        case Fail(message) =>
          error := Some(message);
      }
      loading := false;
    }

    /** `handleSearch`, for the term in the search box. */
    method HandleSearch()
      modifies this`filteredUsers
      ensures SearchUsers(users, searchTerm).Some? ==> filteredUsers == SearchUsers(users, searchTerm).value
      ensures SearchUsers(users, searchTerm).None? ==> filteredUsers == old(filteredUsers)
    {
      var found := SearchUsers(users, searchTerm);
      if found.Some? {
        filteredUsers := found.value;
      }
    }

    /** The export button of the row for `rowUserId` is disabled. */
    predicate ExportDisabled(rowUserId: Value)
      reads this
    {
      exporting && exportingUserId == rowUserId
    }

    /** The start of `handleExport`: only the chosen row's button becomes busy. */
    method BeginExport(userId: Value)
      modifies this`exporting, this`exportingUserId
      ensures exporting && exportingUserId == userId
      ensures forall row :: ExportDisabled(row) <==> row == userId
    {
      exporting := true;
      exportingUserId := userId;
    }

    /** The end of `handleExport`: a failure sets the error, and either way every button is
        enabled again. */
    method FinishExport(response: Outcome<()>)
      modifies this`exporting, this`exportingUserId, this`error
      ensures !exporting && exportingUserId == Null
      ensures forall row :: !ExportDisabled(row)
      ensures error == if response.Fail? then Some(response.message) else old(error)
    {
      if response.Fail? {
        error := Some(response.message);
      }
      exporting := false;
      exportingUserId := Null;
    }
  }
}
