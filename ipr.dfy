/** The intellectual-property register: the access-token lookup, the search effect that
    keeps the filtered list in step with the list and the search box, the add, edit and
    delete handlers, and the counters over the filtered list. */
module Ipr {
  import opened Values
  import opened Strings
  import opened Collections
  import opened Cookies

  const IprId := "ipr_id"

  /** `access_token=` starts at position `p` of the cookie string as the pattern
      `(?:^|; )access_token=` sees it: at the very start, or right after `; `. */
  predicate TokenAt(cookie: string, p: nat)
  {
    p <= |cookie| && StartsWith(cookie[p..], "access_token=") &&
    (p == 0 || (p >= 2 && cookie[p - 2..p] == "; "))
  }

  /** The text from `from` up to the next `;`, or to the end: what `([^;]*)` captures. */
  function UpToSemicolon(cookie: string, from: nat): (v: string)
    requires from <= |cookie|
    ensures ';' !in v
    ensures from + |v| <= |cookie| && cookie[from..from + |v|] == v
    ensures from + |v| == |cookie| || cookie[from + |v|] == ';'
  {
    var rest := cookie[from..];
    var k := IndexOf(rest, ';');
    if k < 0 then rest else rest[..k]
  }

  /** The leftmost match of the pattern from position `p` on. */
  function FirstTokenFrom(cookie: string, p: nat): (r: Option<nat>)
    requires p <= |cookie|
    ensures r.Some? ==> p <= r.value <= |cookie| && TokenAt(cookie, r.value) &&
                        forall q :: p <= q < r.value ==> !TokenAt(cookie, q)
    ensures r.None? ==> forall q :: p <= q <= |cookie| ==> !TokenAt(cookie, q)
    decreases |cookie| - p
  {
    if TokenAt(cookie, p) then Some(p)
    else if p == |cookie| then None
    else FirstTokenFrom(cookie, p + 1)
  }

  /** `getAccessTokenFromCookie`: the text after the leftmost `access_token=` that starts
      the string or follows `; `, up to the next `;`; `None` for `null`. The value is taken
      as it stands (no percent-decoding). */
  function AccessToken(cookie: string): (token: Option<string>)
    ensures token.None? <==> forall p :: 0 <= p <= |cookie| ==> !TokenAt(cookie, p)
    ensures token.Some? ==>
              exists p :: 0 <= p <= |cookie| - 13 && TokenAt(cookie, p) &&
                (forall q :: 0 <= q < p ==> !TokenAt(cookie, q)) &&
                token.value == UpToSemicolon(cookie, p + 13)
  {
    match FirstTokenFrom(cookie, 0)
    case None => None
    case Some(p) => Some(UpToSemicolon(cookie, p + 13))
  }

  /** A cookie string that opens with `access_token=<v>` yields `v`, whatever follows the
      next `;`. */
  lemma LeadingToken(v: string, rest: string)
    requires ';' !in v
    requires rest == [] || rest[0] == ';'
    ensures AccessToken("access_token=" + v + rest) == Some(v)
  {
    var cookie := "access_token=" + v + rest;
    assert cookie[0..] == cookie;
    assert cookie[..13] == "access_token=";
    assert TokenAt(cookie, 0);
    assert FirstTokenFrom(cookie, 0) == Some(0);
    var w := UpToSemicolon(cookie, 13);
    assert cookie[13..13 + |v|] == v;
    assert w == v;
  }

  /** One IPR matches a non-empty search term when the term occurs, ignoring case, in its
      title, its type, its number or its status. */
  predicate IprMatches(ipr: Record, term: string)
  {
    FieldIncludes(ipr, "title", term) || FieldIncludes(ipr, "ipr_type", term) ||
    FieldIncludes(ipr, "ipr_number", term) || FieldIncludes(ipr, "status", term)
  }

  /** The search effect's result: the whole list for an empty term, the matches otherwise. */
  function SearchIprs(iprs: seq<Record>, term: string): (r: seq<Record>)
    ensures term == "" ==> r == iprs
    ensures term != "" ==> IsSubsequence(r, iprs)
    ensures term != "" ==> forall x :: x in r <==> x in iprs && IprMatches(x, term)
  {
    if term == "" then iprs
    else
      FilterIsSubsequence(iprs, (x: Record) => IprMatches(x, term));
      Filter(iprs, (x: Record) => IprMatches(x, term))
  }

  datatype IprStats = IprStats(total: nat, granted: nat, pending: nat, patents: nat)

  /** `stats` over a list: its length, the entries with status `Granted` and `Pending`,
      and the entries of type `Patent`. */
  function Stats(shown: seq<Record>): (s: IprStats)
    ensures s.total == |shown|
    ensures s.granted == multiset(Column(shown, "status"))[Str("Granted")]
    ensures s.pending == multiset(Column(shown, "status"))[Str("Pending")]
    ensures s.patents == multiset(Column(shown, "ipr_type"))[Str("Patent")]
    ensures s.granted + s.pending <= s.total && s.patents <= s.total
  {
    CountEqIsMultiplicity(shown, "status", Str("Granted"));
    CountEqIsMultiplicity(shown, "status", Str("Pending"));
    CountEqIsMultiplicity(shown, "ipr_type", Str("Patent"));
    TwoCountsBounded(shown, "status", Str("Granted"), Str("Pending"));
    TwoCountsBounded(shown, "ipr_type", Str("Patent"), Str("Design"));
    IprStats(|shown|, CountEq(shown, "status", Str("Granted")), CountEq(shown, "status", Str("Pending")),
             CountEq(shown, "ipr_type", Str("Patent")))
  }

  /** What `handleEdit` always ends with: the body refers to a name that is declared
      nowhere, so the ReferenceError is caught before any request goes out. */
  const EditError := "Failed to update IPR: updatedData is not defined"

  /** The page's state. */
  class IprPage {
    var iprs: seq<Record>
    var filteredIPRs: seq<Record>
    var loading: bool
    var isAddModalOpen: bool
    var error: Option<string>
    var searchTerm: string

    /** The search effect has run for the current list and search term. */
    predicate Synced()
      reads this
    {
      filteredIPRs == SearchIprs(iprs, searchTerm)
    }

    constructor ()
      ensures iprs == [] && filteredIPRs == [] && loading && !isAddModalOpen
      ensures error == None && searchTerm == "" && Synced()
    {
      iprs := [];
      filteredIPRs := [];
      loading := true;
      isAddModalOpen := false;
      error := None;
      searchTerm := "";
    }

    /** The session effect: without a session the page sends the visitor to `/auth`. */
    static method CheckSession(cookie: string) returns (redirectToAuth: bool)
      ensures redirectToAuth == !HasSession(cookie)
    {
      redirectToAuth := !HasSession(cookie);
    }

    /** The search effect, run whenever the list or the search term changes. */
    method SearchEffect()
      modifies this`filteredIPRs
      ensures Synced()
    {
      filteredIPRs := SearchIprs(iprs, searchTerm);
    }

    /** Typing in the search box. */
    method SetSearchTerm(term: string)
      modifies this`searchTerm, this`filteredIPRs
      ensures searchTerm == term && Synced()
    {
      searchTerm := term;
      SearchEffect();
    }

    /** `fetchIPRs`: a successful load sets both the list and the filtered list; a failed
        one keeps them and sets the error. */
    method FetchIPRs(response: Outcome<seq<Record>>)
      requires Synced()
      modifies this`iprs, this`filteredIPRs, this`loading, this`error
      ensures !loading && Synced()
      ensures response.Ok? ==> iprs == response.value && error == old(error)
      ensures response.Fail? ==>
                iprs == old(iprs) && filteredIPRs == old(filteredIPRs) &&
                error == Some("Failed to fetch IPRs: " + response.message)
    {
      loading := true;
      match response {
        case Ok(data) =>
          iprs := data;
          filteredIPRs := data;
          SearchEffect();
        case Fail(message) =>
          error := Some("Failed to fetch IPRs: " + message);
      }
      loading := false;
    }

    /** `handleAddIPR`: the saved IPR goes at the end and the error is cleared; a failure
        keeps the list and sets the error. */
    method AddIPR(response: Outcome<Record>)
      requires Synced()
      modifies this`iprs, this`filteredIPRs, this`isAddModalOpen, this`error
      ensures Synced()
      ensures response.Ok? ==> iprs == old(iprs) + [response.value] && !isAddModalOpen && error == None
      ensures response.Fail? ==>
                iprs == old(iprs) && filteredIPRs == old(filteredIPRs) && isAddModalOpen == old(isAddModalOpen) &&
                error == Some("Failed to add IPR: " + response.message)
    {
      match response {
        case Ok(newIpr) =>
          iprs := iprs + [newIpr];
          isAddModalOpen := false;
          error := None;
          SearchEffect();
        case Fail(message) =>
          error := Some("Failed to add IPR: " + message);
      }
    }

    /** `handleEdit`: never sends a request and never changes the list. */
    method Edit(ipr: Record) returns (sent: bool)
      modifies this`error
      ensures !sent && error == Some(EditError)
    {
      sent := false;
      error := Some(EditError);
    }

    /** `handleDelete`: nothing is sent unless confirmed; a successful delete drops every
        entry with the IPR's id and clears the error. */
    method Delete(ipr: Record, confirmed: bool, response: Outcome<()>) returns (sent: bool)
      requires Synced()
      modifies this`iprs, this`filteredIPRs, this`error
      ensures sent == confirmed && Synced()
      ensures !sent ==> iprs == old(iprs) && filteredIPRs == old(filteredIPRs) && error == old(error)
      ensures sent && response.Ok? ==> iprs == RemoveId(old(iprs), IprId, Get(ipr, IprId)) && error == None
      ensures sent && response.Fail? ==>
                iprs == old(iprs) && filteredIPRs == old(filteredIPRs) &&
                error == Some("Failed to delete IPR: " + response.message)
    {
      sent := confirmed;
      if confirmed {
        match response {
          case Ok(_) =>
            iprs := RemoveId(iprs, IprId, Get(ipr, IprId));
            error := None;
            SearchEffect();
          case Fail(message) =>
            error := Some("Failed to delete IPR: " + message);
        }
      }
    }

    /** The counters, over the filtered list. */
    function ShownStats(): (s: IprStats)
      reads this
      ensures s == Stats(filteredIPRs)
    {
      Stats(filteredIPRs)
    }
  }

  /** With an empty search box the counters cover the whole list. */
  lemma EmptySearchCountsAll(page: IprPage)
    requires page.Synced() && page.searchTerm == ""
    ensures page.ShownStats().total == |page.iprs|
  {
  }
}
