/** The profile page: the cookie-clearing loop run at logout, the Scholar ID and admin
    secret forms with their gates, the local profile updates, and the conditions under
    which the two admin buttons appear. */
module Profile {
  import opened Values
  import opened Strings
  import opened Cookies

  /** The name part of one `;`-separated piece of `document.cookie`: the text before its
      first `=`, trimmed, or the whole piece trimmed when it has no `=`. */
  function CookieName(piece: string): string
  {
    var eqPos := IndexOf(piece, '=');
    Trim(if eqPos > -1 then piece[..eqPos] else piece)
  }

  /** The name is the trimmed text before the first `=`, or the whole piece trimmed, and
      holds no `=` itself. */
  lemma CookieNameShape(piece: string)
    ensures '=' !in CookieName(piece)
    ensures '=' in piece ==> CookieName(piece) == Trim(piece[..IndexOf(piece, '=')])
    ensures '=' !in piece ==> CookieName(piece) == Trim(piece)
  {
    var eqPos := IndexOf(piece, '=');
    TrimmedHasNoEquals(if eqPos > -1 then piece[..eqPos] else piece);
  }

  lemma TrimmedHasNoEquals(s: string)
    requires '=' !in s
    ensures '=' !in Trim(s)
  {
    var t := TrimStart(s);
    TrimStartShape(s);
    TrimEndShape(t);
    assert forall c :: c in t ==> c in s;
    assert forall c :: c in TrimEnd(t) ==> c in t;
  }

  /** A piece `name=value`, with a name that has no `=` and no surrounding white space, is
      cleared under that name, whatever its value. */
  lemma NameOfPair(name: string, value: string)
    requires '=' !in name && Trim(name) == name
    ensures CookieName(name + ['='] + value) == name
  {
    var piece := name + ['='] + value;
    assert IndexOf(piece, '=') == |name| by {
      IndexOfAfter(name, '=', value);
    }
    assert piece[..|name|] == name;
    assert '=' in piece;
    assert CookieName(piece) == Trim(piece[..IndexOf(piece, '=')]);
  }

  lemma TrimLeadingSpace(x: string)
    ensures Trim(" " + x) == Trim(x)
  {
    assert (" " + x)[1..] == x;
  }

  /** The white space after `;` in `document.cookie` does not reach the name. */
  lemma LeadingSpaceIgnored(piece: string)
    ensures CookieName(" " + piece) == CookieName(piece)
  {
    var s := " " + piece;
    var k := IndexOf(piece, '=');
    if k >= 0 {
      assert IndexOf(s, '=') == k + 1 by {
        assert s == [' '] + piece;
        assert s[1..] == piece;
      }
      assert s[..k + 1] == " " + piece[..k];
      TrimLeadingSpace(piece[..k]);
    } else {
      assert '=' !in s by {
        assert forall j :: 0 < j < |s| ==> s[j] == piece[j - 1];
      }
      TrimLeadingSpace(piece);
    }
  }

  /** Where an expiring write is aimed: the root path, the page's own host, or a named
      domain. */
  datatype Scope = RootPath | CurrentHost | Domain(name: string)

  /** One assignment to `document.cookie` that expires the cookie `name`. */
  datatype CookieWrite = CookieWrite(name: string, scope: Scope)

  /** The write that `clearAllCookies` always ends with. */
  const FinalWrite := CookieWrite("access_token", Domain("riise.koyeb.app"))

  /** The expiring writes for a list of pieces, two per piece under its name, in order. */
  function ExpiryWrites(pieces: seq<string>): (writes: seq<CookieWrite>)
    ensures |writes| == 2 * |pieces|
  {
    if pieces == [] then []
    else
      var name := CookieName(pieces[|pieces| - 1]);
      ExpiryWrites(pieces[..|pieces| - 1]) + [CookieWrite(name, RootPath), CookieWrite(name, CurrentHost)]
  }

  /** Piece `i` gets writes `2i` (root path) and `2i + 1` (current host). */
  lemma {:induction false} ExpiryWritesAt(pieces: seq<string>, i: nat)
    requires i < |pieces|
    ensures ExpiryWrites(pieces)[2 * i] == CookieWrite(CookieName(pieces[i]), RootPath)
    ensures ExpiryWrites(pieces)[2 * i + 1] == CookieWrite(CookieName(pieces[i]), CurrentHost)
  {
    var front := pieces[..|pieces| - 1];
    var name := CookieName(pieces[|pieces| - 1]);
    assert ExpiryWrites(pieces) == ExpiryWrites(front) + [CookieWrite(name, RootPath), CookieWrite(name, CurrentHost)];
    if i < |pieces| - 1 {
      ExpiryWritesAt(front, i);
      assert front[i] == pieces[i];
    } else {
      assert 2 * i == |ExpiryWrites(front)|;
    }
  }

  /** Adding one piece adds its two writes at the end. */
  lemma ExpiryWritesSnoc(pieces: seq<string>, i: nat)
    requires i < |pieces|
    ensures ExpiryWrites(pieces[..i + 1]) ==
            ExpiryWrites(pieces[..i]) + [CookieWrite(CookieName(pieces[i]), RootPath), CookieWrite(CookieName(pieces[i]), CurrentHost)]
  {
    assert pieces[..i + 1][..i] == pieces[..i];
  }

  /** `clearAllCookies`: two expiring writes for every piece of the cookie string, in order,
      then the fixed `access_token` write. */
  method ClearAllCookies(cookie: string) returns (writes: seq<CookieWrite>)
    ensures writes == ExpiryWrites(Split(cookie, ';')) + [FinalWrite]
  {
    var cookies := Split(cookie, ';');
    writes := [];
    for i := 0 to |cookies|
      invariant writes == ExpiryWrites(cookies[..i])
    {
      var name := CookieName(cookies[i]);
      ExpiryWritesSnoc(cookies, i);
      writes := writes + [CookieWrite(name, RootPath), CookieWrite(name, CurrentHost)];
    }
    assert cookies[..|cookies|] == cookies;
    writes := writes + [FinalWrite];
  }

  /** Every piece of the cookie string is expired under its name at the root path and at
      the current host, and the `access_token` write comes last. */
  lemma EveryPieceExpired(cookie: string, piece: string)
    requires piece in Split(cookie, ';')
    ensures CookieWrite(CookieName(piece), RootPath) in ExpiryWrites(Split(cookie, ';')) + [FinalWrite]
    ensures CookieWrite(CookieName(piece), CurrentHost) in ExpiryWrites(Split(cookie, ';')) + [FinalWrite]
  {
    var pieces := Split(cookie, ';');
    var i :| 0 <= i < |pieces| && pieces[i] == piece;
    ExpiryWritesAt(pieces, i);
    var writes := ExpiryWrites(pieces) + [FinalWrite];
    assert writes[2 * i] == CookieWrite(CookieName(piece), RootPath);
    assert writes[2 * i + 1] == CookieWrite(CookieName(piece), CurrentHost);
  }

  /** `{...prev, [key]: v}`, where spreading `null` adds nothing. */
  function WithField(prev: Option<Record>, key: string, v: Value): (r: Record)
    ensures Get(r, key) == v
    ensures prev.Some? ==> r.Keys == prev.value.Keys + {key}
    ensures prev.None? ==> r.Keys == {key}
    ensures prev.Some? ==> forall k :: k in prev.value && k != key ==> r[k] == prev.value[k]
  {
    (if prev.Some? then prev.value else map[])[key := v]
  }

  /** The value the admin form compares the typed key with, exactly and untrimmed. */
  const AdminSecret := "S3cREt"

  /** The secret itself passes the blank-key gate. */
  lemma SecretNotBlank()
    ensures !IsBlank(AdminSecret)
  {
    assert !IsSpace(AdminSecret[0]);
  }

  /** `v == b` with JavaScript's loose equality against a boolean: the boolean becomes 0 or
      1 and the value is compared as a number; `null` and `undefined` equal neither. Text
      is compared through its numeric reading only for blank text and the digits 0 and 1. */
  predicate LooselyEquals(v: Value, b: bool)
  {
    var n := if b then 1 else 0;
    match v
    case Undefined => false
    case Null => false
    case Bool(c) => c == b
    case Num(m) => m == n
    case Str(s) =>
      var t := Trim(s);
      (t == "" && n == 0) || (t == "0" && n == 0) || (t == "1" && n == 1)
  }

  /** The "Admin Verification" button: a loaded admin profile whose `is_verified` is
      loosely false. */
  predicate ShowAdminVerification(profile: Option<Record>)
  {
    profile.Some? && Get(profile.value, "role") == Str("admin") && LooselyEquals(Get(profile.value, "is_verified"), false)
  }

  /** The "Users Data" button: a loaded admin profile whose `is_verified` is loosely true. */
  predicate ShowUsersData(profile: Option<Record>)
  {
    profile.Some? && Get(profile.value, "role") == Str("admin") && LooselyEquals(Get(profile.value, "is_verified"), true)
  }

  /** The two admin buttons never appear together, and a boolean flag on an admin profile
      shows exactly one of them. */
  lemma AdminButtonsExclusive(profile: Option<Record>)
    ensures !(ShowAdminVerification(profile) && ShowUsersData(profile))
    ensures profile.Some? && Get(profile.value, "role") == Str("admin") && Get(profile.value, "is_verified").Bool? ==>
              (ShowAdminVerification(profile) <==> !ShowUsersData(profile))
    ensures profile.None? || Get(profile.value, "role") != Str("admin") ==>
              !ShowAdminVerification(profile) && !ShowUsersData(profile)
  {
    if profile.Some? {
      match Get(profile.value, "is_verified")
      case Str(s) =>
        var t := Trim(s);
        assert "0" != "1" && "" != "1" && "" != "0";
      case _ =>
    }
  }

  /** `!input.trim()`, the gate in front of both forms. */
  method IsBlankInput(input: string) returns (blank: bool)
    ensures blank == IsBlank(input)
  {
    TrimEmptyIffBlank(input);
    blank := Trim(input) == "";
  }

  /** The page's state. */
  class ProfilePage {
    var profile: Option<Record>
    var showModal: bool
    var showAdminModal: bool
    var scholarId: string
    var secretKey: string
    var isSubmitting: bool
    var error: string
    var adminError: string
    var adminSuccess: bool

    constructor ()
      ensures profile == None && !showModal && !showAdminModal && scholarId == "" && secretKey == ""
      ensures !isSubmitting && error == "" && adminError == "" && !adminSuccess
    {
      profile := None;
      showModal := false;
      showAdminModal := false;
      scholarId := "";
      secretKey := "";
      isSubmitting := false;
      error := "";
      adminError := "";
      adminSuccess := false;
    }

    /** The session effect: without a session the page sends the visitor home. */
    static method CheckSession(cookie: string) returns (redirectHome: bool)
      ensures redirectHome == !HasSession(cookie)
    {
      redirectHome := !HasSession(cookie);
    }

    /** `fetchUserData`: the reply's profile (`None` when it has none) replaces the shown
        one, and a non-empty text Scholar ID fills the form; a failure changes nothing. */
    method LoadProfile(response: Outcome<Option<Record>>)
      modifies this`profile, this`scholarId
      ensures response.Fail? ==> profile == old(profile) && scholarId == old(scholarId)
      ensures response.Ok? ==> profile == response.value
      ensures response.Ok? && response.value.Some? && Get(response.value.value, "scholar_id").Str? &&
              Get(response.value.value, "scholar_id").s != "" ==>
                scholarId == Get(response.value.value, "scholar_id").s
      ensures response.Ok? && (response.value.None? || !Get(response.value.value, "scholar_id").Str? ||
                               Get(response.value.value, "scholar_id").s == "") ==>
                scholarId == old(scholarId)
    {
      if response.Ok? {
        profile := response.value;
        if response.value.Some? {
          var id := Get(response.value.value, "scholar_id");
          if id.Str? && id.s != "" {
            scholarId := id.s;
          }
        }
      }
    }

    method OpenModal()
      modifies this`showModal
      ensures showModal
    {
      showModal := true;
    }

    /** `closeModal` */
    method CloseModal()
      modifies this`showModal, this`error
      ensures !showModal && error == ""
    {
      showModal := false;
      error := "";
    }

    /** `openAdminModal`: a fresh form, without error or success. */
    method OpenAdminModal()
      modifies this`showAdminModal, this`secretKey, this`adminError, this`adminSuccess
      ensures showAdminModal && secretKey == "" && adminError == "" && !adminSuccess
    {
      showAdminModal := true;
      secretKey := "";
      adminError := "";
      adminSuccess := false;
    }

    /** `closeAdminModal`: the success flag is left as it is. */
    method CloseAdminModal()
      modifies this`showAdminModal, this`secretKey, this`adminError
      ensures !showAdminModal && secretKey == "" && adminError == ""
    {
      showAdminModal := false;
      secretKey := "";
      adminError := "";
    }

    /** `handleSubmit`: a blank Scholar ID stops before any request. After a successful
        update the profile carries the new Scholar ID, the modal closes and the profile is
        fetched again; a failure of either request shows its message. */
    method SubmitScholarId(response: Outcome<()>, refetch: Outcome<Option<Record>>) returns (sent: bool)
      modifies this`isSubmitting, this`error, this`profile, this`showModal
      ensures sent == !IsBlank(old(scholarId))
      ensures !sent ==>
                error == "Scholar ID cannot be empty" && profile == old(profile) &&
                showModal == old(showModal) && isSubmitting == old(isSubmitting)
      ensures sent ==> !isSubmitting
      ensures sent && response.Fail? ==>
                error == OrElse(response.message, "Failed to update Scholar ID") &&
                profile == old(profile) && showModal == old(showModal)
      ensures sent && response.Ok? ==> !showModal
      ensures sent && response.Ok? && refetch.Ok? ==> profile == refetch.value && error == ""
      ensures sent && response.Ok? && refetch.Fail? ==>
                profile == Some(WithField(old(profile), "scholar_id", Str(old(scholarId)))) &&
                error == OrElse(refetch.message, "Failed to update Scholar ID")
    {
      var blank := IsBlankInput(scholarId);
      if blank {
        error := "Scholar ID cannot be empty";
        return false;
      }
      sent := true;
      isSubmitting := true;
      error := "";
      match response {
        case Fail(message) =>
          error := OrElse(message, "Failed to update Scholar ID");
        case Ok(_) =>
          profile := Some(WithField(profile, "scholar_id", Str(scholarId)));
          CloseModal();
          match refetch {
            case Ok(p) =>
              profile := p;
            case Fail(message) =>
              error := OrElse(message, "Failed to update Scholar ID");
          }
      }
      isSubmitting := false;
    }

    /** The role update behind the right key: a successful update makes the local
        profile an admin one, keeping every other field, then fetches the profile again.
        `closeLater` is the timer that closes the modal, set only when both requests
        succeed. */
    method UpdateRole(response: Outcome<()>, refetch: Outcome<Option<Record>>) returns (closeLater: bool)
      modifies this`adminError, this`adminSuccess, this`profile
      ensures response.Fail? ==>
                adminError == OrElse(response.message, "Failed to update user role") &&
                adminSuccess == old(adminSuccess) && profile == old(profile) && !closeLater
      ensures response.Ok? ==> adminSuccess && closeLater == refetch.Ok?
      ensures response.Ok? && refetch.Ok? ==> profile == refetch.value && adminError == old(adminError)
      ensures response.Ok? && refetch.Fail? ==>
                profile == Some(WithField(old(profile), "role", Str("admin"))) &&
                adminError == OrElse(refetch.message, "Failed to update user role")
    {
      closeLater := false;
      match response {
        case Fail(message) =>
          adminError := OrElse(message, "Failed to update user role");
        case Ok(_) =>
          profile := Some(WithField(profile, "role", Str("admin")));
          adminSuccess := true;
          match refetch {
            case Ok(p) =>
              profile := p;
              closeLater := true;
            case Fail(message) =>
              adminError := OrElse(message, "Failed to update user role");
          }
      }
    }

    /** `handleAdminSubmit`: a blank key and a wrong key stop before any request; the right
        key, compared exactly and untrimmed, starts the role update with the error and the
        success flag cleared. */
    method SubmitAdminKey(response: Outcome<()>, refetch: Outcome<Option<Record>>) returns (sent: bool, closeLater: bool)
      modifies this`isSubmitting, this`adminError, this`adminSuccess, this`profile
      ensures sent == (old(secretKey) == AdminSecret)
      ensures IsBlank(old(secretKey)) ==>
                adminError == "Secret key cannot be empty" && adminSuccess == old(adminSuccess) &&
                isSubmitting == old(isSubmitting)
      ensures !IsBlank(old(secretKey)) ==> !isSubmitting
      ensures !IsBlank(old(secretKey)) && old(secretKey) != AdminSecret ==>
                adminError == "Invalid secret key" && !adminSuccess
      ensures !sent ==> profile == old(profile) && !closeLater
      ensures sent && response.Fail? ==>
                adminError == OrElse(response.message, "Failed to update user role") && !adminSuccess &&
                profile == old(profile) && !closeLater
      ensures sent && response.Ok? ==> adminSuccess && closeLater == refetch.Ok?
      ensures sent && response.Ok? && refetch.Ok? ==> profile == refetch.value && adminError == ""
      ensures sent && response.Ok? && refetch.Fail? ==>
                profile == Some(WithField(old(profile), "role", Str("admin"))) &&
                adminError == OrElse(refetch.message, "Failed to update user role")
    {
      var blank := IsBlankInput(secretKey);
      SecretNotBlank();
      if blank {
        adminError := "Secret key cannot be empty";
        return false, false;
      }
      isSubmitting := true;
      adminError := "";
      adminSuccess := false;
      if secretKey == AdminSecret {
        sent := true;
        closeLater := UpdateRole(response, refetch);
      } else {
        sent, closeLater := false, false;
        adminError := "Invalid secret key";
      }
      isSubmitting := false;
    }

    /** `handleLogout`: the cookies are cleared whether the request succeeds or not; the
        visitor goes to `/auth` after a reply and to `/` after a failure. */
    static method Logout(cookie: string, response: Outcome<()>) returns (writes: seq<CookieWrite>, redirect: string)
      ensures writes == ExpiryWrites(Split(cookie, ';')) + [FinalWrite]
      ensures redirect == if response.Ok? then "/auth" else "/"
    {
      writes := ClearAllCookies(cookie);
      redirect := if response.Ok? then "/auth" else "/";
    }
  }
}
