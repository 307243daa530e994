/** The cookie string as the pages read it: `document.cookie` split at `;`, each piece
    trimmed, a session present when some piece starts with `user_session=`, and the value
    of a named cookie taken with `split("=")[1]`. */
module Cookies {
  import opened Values
  import opened Strings

  /** `document.cookie.split(";").map(c => c.trim())` */
  function CookiePieces(cookie: string): (pieces: seq<string>)
    ensures |pieces| == |Split(cookie, ';')| >= 1
    ensures forall i :: 0 <= i < |pieces| ==> pieces[i] == Trim(Split(cookie, ';')[i])
  {
    var raw := Split(cookie, ';');
    seq(|raw|, i requires 0 <= i < |raw| => Trim(raw[i]))
  }

  /** Some trimmed piece starts with `user_session=`. */
  predicate HasSession(cookie: string)
  {
    var pieces := CookiePieces(cookie);
    exists i :: 0 <= i < |pieces| && StartsWith(pieces[i], "user_session=")
  }

  /** A cookie string put together from name=value pieces has a session exactly when one
      of its pieces, trimmed, starts with `user_session=`. */
  lemma SessionOfPieces(parts: seq<string>)
    requires |parts| >= 1 && forall i :: 0 <= i < |parts| ==> ';' !in parts[i]
    ensures HasSession(Join(parts, ';')) <==>
            exists i :: 0 <= i < |parts| && StartsWith(Trim(parts[i]), "user_session=")
  {
    SplitJoin(parts, ';');
    var pieces := CookiePieces(Join(parts, ';'));
    assert forall i :: 0 <= i < |parts| ==> pieces[i] == Trim(parts[i]);
  }

  /** `pieces.find(c => c.startsWith(prefix))`, as the position of the first such piece. */
  function FindPiece(pieces: seq<string>, prefix: string, from: nat): (r: Option<nat>)
    requires from <= |pieces|
    ensures r.Some? ==> from <= r.value < |pieces| && StartsWith(pieces[r.value], prefix) &&
                        forall j :: from <= j < r.value ==> !StartsWith(pieces[j], prefix)
    ensures r.None? ==> forall j :: from <= j < |pieces| ==> !StartsWith(pieces[j], prefix)
    decreases |pieces| - from
  {
    if from == |pieces| then None
    else if StartsWith(pieces[from], prefix) then Some(from)
    else FindPiece(pieces, prefix, from + 1)
  }

  /** `piece.split("=")[1]` for a piece that starts with `name=`: the text after the first
      `=` up to the next `=`, or to the end. */
  function ValueAfterName(piece: string, name: string): (v: string)
    requires '=' !in name && StartsWith(piece, name + "=")
    ensures '=' !in v
    ensures StartsWith(piece, name + "=" + v)
    ensures |name + "=" + v| == |piece| || piece[|name + "=" + v|] == '='
  {
    var rest := piece[|name| + 1..];
    assert piece == (name + "=") + rest by {
      assert piece[..|name + "="|] == name + "=";
    }
    assert name + "=" == name + ['='];
    SplitCons(name, '=', rest);
    SplitHead(rest, '=');
    var v := Split(piece, '=')[1];
    StartsWithAfter(name + "=", rest, v);
    v
  }

  /** The value of a piece that is exactly `name=v`, with no further `=`, is `v`. */
  lemma ValueOfExactPiece(name: string, v: string)
    requires '=' !in name && '=' !in v
    ensures StartsWith(name + "=" + v, name + "=")
    ensures ValueAfterName(name + "=" + v, name) == v
  {
    var piece := name + "=" + v;
    assert piece[..|name + "="|] == name + "=";
    var w := ValueAfterName(piece, name);
    assert |w| <= |v| by {
      assert |name + "=" + w| <= |piece|;
    }
    assert piece[..|name + "=" + w|] == name + "=" + w;
    assert w == piece[|name| + 1..];
  }

  /** The prefix of the role cookie. */
  const RolePrefix := "user_role="

  /** Piece `i` is the first piece that starts with `user_role=`, and `v` is its text
      between the first and the second `=` (or the end of the piece). */
  predicate RoleAt(pieces: seq<string>, i: int, v: string)
  {
    0 <= i < |pieces| &&
    (forall j :: 0 <= j < i ==> !StartsWith(pieces[j], RolePrefix)) &&
    '=' !in v && StartsWith(pieces[i], RolePrefix + v) &&
    (|RolePrefix + v| == |pieces[i]| || pieces[i][|RolePrefix + v|] == '=')
  }

  /** At most one piece and one value fit `RoleAt`: the role it describes is unique. */
  lemma RoleAtUnique(pieces: seq<string>, i: int, v: string, k: int, w: string)
    requires RoleAt(pieces, i, v) && RoleAt(pieces, k, w)
    ensures i == k && v == w
  {
    assert StartsWith(pieces[i], RolePrefix) by {
      assert pieces[i][..|RolePrefix|] == (RolePrefix + v)[..|RolePrefix|];
    }
    assert StartsWith(pieces[k], RolePrefix) by {
      assert pieces[k][..|RolePrefix|] == (RolePrefix + w)[..|RolePrefix|];
    }
    var p := pieces[i];
    var n := |RolePrefix|;
    assert forall m :: 0 <= m < |v| ==> p[n + m] == (RolePrefix + v)[n + m] == v[m];
    assert forall m :: 0 <= m < |w| ==> p[n + m] == (RolePrefix + w)[n + m] == w[m];
    assert |v| == |w|;
    assert v == p[n..n + |v|] == w;
  }

  /** The role in a list of trimmed cookie pieces: the value of the first piece that
      starts with `user_role=`. */
  function RoleIn(pieces: seq<string>): (role: Option<string>)
    ensures role.None? <==> forall i :: 0 <= i < |pieces| ==> !StartsWith(pieces[i], RolePrefix)
    ensures role.Some? ==> exists i :: RoleAt(pieces, i, role.value)
  {
    match FindPiece(pieces, RolePrefix, 0)
    case None => None
    case Some(i) =>
      var v := ValueAfterName(pieces[i], "user_role");
      assert "user_role" + "=" + v == RolePrefix + v;
      assert RoleAt(pieces, i, v);
      Some(v)
  }

  /** A piece that is exactly `user_role=<v>`, with no role piece before it, decides the
      role, wherever it stands. */
  lemma RoleOfPiece(pieces: seq<string>, k: nat, v: string)
    requires k < |pieces| && pieces[k] == RolePrefix + v && '=' !in v
    requires forall j :: 0 <= j < k ==> !StartsWith(pieces[j], RolePrefix)
    ensures RoleIn(pieces) == Some(v)
  {
    assert StartsWith(pieces[k], RolePrefix + v) by {
      assert pieces[k][..|RolePrefix + v|] == pieces[k];
    }
    assert RoleAt(pieces, k, v);
    assert StartsWith(pieces[k], RolePrefix) by {
      assert pieces[k][..|RolePrefix|] == RolePrefix;
    }
    var role := RoleIn(pieces);
    var i :| RoleAt(pieces, i, role.value);
    RoleAtUnique(pieces, i, role.value, k, v);
  }

  /** The role in the `user_role` cookie: the first trimmed piece that starts with
      `user_role=`, its text between the first and the second `=`; `None` when no piece
      starts so. The value is taken as it stands (no percent-decoding). */
  function UserRole(cookie: string): (role: Option<string>)
    ensures role.None? <==>
            forall i :: 0 <= i < |CookiePieces(cookie)| ==> !StartsWith(CookiePieces(cookie)[i], RolePrefix)
    ensures role.Some? ==> exists i :: RoleAt(CookiePieces(cookie), i, role.value)
  {
    RoleIn(CookiePieces(cookie))
  }

  /** A cookie with a piece that is, once trimmed, exactly `user_role=<v>`, and no
      `user_role` piece before it, carries the role `v`. */
  lemma RoleOfPieces(parts: seq<string>, k: nat, v: string)
    requires |parts| >= 1 && forall i :: 0 <= i < |parts| ==> ';' !in parts[i]
    requires k < |parts| && Trim(parts[k]) == RolePrefix + v && '=' !in v
    requires forall j :: 0 <= j < k ==> !StartsWith(Trim(parts[j]), RolePrefix)
    ensures UserRole(Join(parts, ';')) == Some(v)
  {
    var cookie := Join(parts, ';');
    SplitJoin(parts, ';');
    var pieces := CookiePieces(cookie);
    assert forall j :: 0 <= j < |parts| ==> pieces[j] == Trim(parts[j]);
    RoleOfPiece(pieces, k, v);
  }
}
