/**
 * The user model's role checks and the bearer-token extraction of the JWT
 * plugin (bottlecap/auth.py). A user keeps the data it was built with; its
 * role set is the stored roles lowercased, and the checks compare the
 * argument against that set as given. The token is read from the
 * `Authorization` header, which is passed in as an optional string.
 */
module Auth {
  import opened Wrappers
  import opened Text
  import Exceptions

  /** A user's stored data; `options` is none when the user was built without any. */
  datatype User = User(guid: string, roles: seq<string>, isActive: bool, options: Option<map<string, string>>)

  /** The `roles` property: the stored roles, each lowercased, as a set. */
  function Roles(u: User): (r: set<string>)
    ensures forall i :: 0 <= i < |u.roles| ==> Lower(u.roles[i]) in r
    ensures forall x :: x in r ==> exists i :: 0 <= i < |u.roles| && Lower(u.roles[i]) == x
  {
    set i | 0 <= i < |u.roles| :: Lower(u.roles[i])
  }

  /** The `options` property: a copy of the stored options, or an empty map when there are none. */
  function Options(u: User): (o: map<string, string>)
    ensures u.options.Some? ==> o == u.options.value
    ensures u.options.None? ==> o == map[]
  {
    match u.options
    case Some(m) => m
    case None => map[]
  }

  predicate HasRole(u: User, role: string) {
    role in Roles(u)
  }

  /** `has_roles(*roles)`: every given role is held, checked one after the other. */
  function HasRoles(u: User, roles: seq<string>): (b: bool)
    ensures b <==> forall i :: 0 <= i < |roles| ==> HasRole(u, roles[i])
  {
    if |roles| == 0 then true
    else HasRole(u, roles[0]) && HasRoles(u, roles[1..])
  }

  /** `has_any_role(*roles)`: at least one given role is held. */
  function HasAnyRole(u: User, roles: seq<string>): (b: bool)
    ensures b <==> exists i :: 0 <= i < |roles| && HasRole(u, roles[i])
  {
    if |roles| == 0 then false
    else HasRole(u, roles[0]) || HasAnyRole(u, roles[1..])
  }

  lemma {:induction false} LowerIdempotent(s: string)
    ensures Lower(Lower(s)) == Lower(s)
  {
    assert forall i :: 0 <= i < |s| ==> LowerChar(LowerChar(s[i])) == LowerChar(s[i]);
  }

  /**
   * `has_role` holds exactly for the lowercased form of a stored role; a role
   * spelled with an upper-case ASCII letter is never held, because the
   * argument itself is not lowercased.
   */
  lemma HasRoleCases(u: User, role: string)
    ensures HasRole(u, role) <==> exists i :: 0 <= i < |u.roles| && Lower(u.roles[i]) == role
    ensures Lower(role) != role ==> !HasRole(u, role)
    ensures forall i :: 0 <= i < |u.roles| ==> HasRole(u, Lower(u.roles[i]))
  {
    if HasRole(u, role) {
      var i :| 0 <= i < |u.roles| && Lower(u.roles[i]) == role;
      LowerIdempotent(u.roles[i]);
    }
  }

  /** With no arguments `has_roles` is true and `has_any_role` false; otherwise all implies any. */
  lemma RoleChecksRelate(u: User, roles: seq<string>)
    ensures HasRoles(u, []) && !HasAnyRole(u, [])
    ensures |roles| > 0 && HasRoles(u, roles) ==> HasAnyRole(u, roles)
    ensures HasRoles(u, roles) <==> (forall r :: r in roles ==> r in Roles(u))
  {
    if |roles| > 0 && HasRoles(u, roles) {
      assert HasRole(u, roles[0]);
    }
    if forall r :: r in roles ==> r in Roles(u) {
      forall i | 0 <= i < |roles| ensures HasRole(u, roles[i]) {
        assert roles[i] in roles;
      }
    }
  }

  const BearerPrefix: string := "Bearer:"
  const AuthorizationFailed: string := "Request authorization failed"
  const NoBearerToken: string := "Request header 'Authorization' does not contain 'Bearer' token"
  const MalformedBearerToken: string := "Request header 'Authorization' contains malformed 'Bearer' token"
  const NoPublicKey: string := "BottleCap: JWT Public Key not configured"

  /** What `get_token_from_request` does: return nothing, return a token, or raise. */
  datatype TokenOutcome =
    | NoToken
    | Token(token: string)
    | BadRequest(desc: string, detail: string)
    | RuntimeError(message: string)
    | TypeError(keyword: string)

  /** The text after the first `:` of a header that starts with the bearer prefix. */
  lemma BearerSplit(auth: string)
    requires StartsWith(auth, BearerPrefix)
    ensures PaddedSplit(auth, ':') == ("Bearer", Some(auth[|BearerPrefix|..]))
  {
    assert auth == "Bearer" + [':'] + auth[|BearerPrefix|..] by {
      assert auth[..|BearerPrefix|] == BearerPrefix;
    }
    PaddedSplitAt("Bearer", ':', auth[|BearerPrefix|..]);
  }

  /**
   * `get_token_from_request`: no header gives no token; a header without the
   * `Bearer:` prefix or with only whitespace after it is a bad request; a
   * usable token with no public key configured is a runtime error.
   */
  function GetToken(header: Option<string>, publicKeyConfigured: bool): (r: TokenOutcome)
    ensures r.NoToken? <==> header.None?
    ensures r.BadRequest? ==> r.desc == AuthorizationFailed
    ensures r == BadRequest(AuthorizationFailed, NoBearerToken) <==> header.Some? && !StartsWith(header.value, BearerPrefix)
    ensures r == BadRequest(AuthorizationFailed, MalformedBearerToken)
        <==> header.Some? && StartsWith(header.value, BearerPrefix) && Strip(header.value[|BearerPrefix|..]) == []
    ensures r.RuntimeError? ==> r.message == NoPublicKey && !publicKeyConfigured
    ensures r.Token? ==> && header.Some? && StartsWith(header.value, BearerPrefix)
                         && r.token == Strip(header.value[|BearerPrefix|..])
                         && |r.token| > 0 && Stripped(r.token) && publicKeyConfigured
    ensures header.Some? && StartsWith(header.value, BearerPrefix) && Strip(header.value[|BearerPrefix|..]) != []
            ==> r.Token? || r.RuntimeError?
  {
    match header
    case None => NoToken
    case Some(auth) =>
      if !StartsWith(auth, BearerPrefix) then BadRequest(AuthorizationFailed, NoBearerToken)
      else
        var token := Strip(BearerSplit(auth); PaddedSplit(auth, ':').1.value);
        if |token| == 0 then BadRequest(AuthorizationFailed, MalformedBearerToken)
        else if !publicKeyConfigured then RuntimeError(NoPublicKey)
        else Token(token)
  }

  /** A token written after the prefix, with any surrounding whitespace, is read back unchanged. */
  lemma {:induction false} TokenRoundTrip(token: string, pad: string)
    requires |token| > 0 && Stripped(token)
    requires forall i :: 0 <= i < |pad| ==> IsSpace(pad[i])
    ensures GetToken(Some(BearerPrefix + pad + token + pad), true) == Token(token)
    ensures GetToken(Some(BearerPrefix + pad + token + pad), false) == RuntimeError(NoPublicKey)
  {
    var h := BearerPrefix + pad + token + pad;
    assert StartsWith(h, BearerPrefix) by { assert h[..|BearerPrefix|] == BearerPrefix; }
    assert h[|BearerPrefix|..] == pad + token + pad;
    StripSurrounded(pad, token, pad);
  }

  /** The keyword arguments both bad-request raises pass, in order. */
  const BearerErrorKeywords: seq<string> := ["error_desc", "error_detail"]

  /**
   * `get_token_from_request` as written: each bad-request raise passes
   * `error_detail`, which the error classes' constructor does not declare, so
   * the call itself raises `TypeError` and no `BadRequestError` is built.
   */
  function GetTokenAsWritten(header: Option<string>, publicKeyConfigured: bool): (r: TokenOutcome)
    ensures !r.BadRequest?
    ensures r.TypeError? <==> GetToken(header, publicKeyConfigured).BadRequest?
    ensures r.TypeError? ==> r.keyword == "error_detail"
    ensures !r.TypeError? ==> r == GetToken(header, publicKeyConfigured)
  {
    var intended := GetToken(header, publicKeyConfigured);
    if intended.BadRequest? then
      match Exceptions.UnknownKeyword(BearerErrorKeywords)
      case Some(k) => TypeError(k)
      case None => intended
    else intended
  }

  /** A header without the bearer prefix shows the difference: the intended 400 becomes a `TypeError`. */
  lemma BearerErrorsRaiseTypeError()
    ensures GetToken(Some("Basic abc"), true) == BadRequest(AuthorizationFailed, NoBearerToken)
    ensures GetTokenAsWritten(Some("Basic abc"), true) == TypeError("error_detail")
  {
    assert "Basic abc"[..7] != BearerPrefix by { assert "Basic abc"[1] == 'a'; }
  }

  /** The prefix is case-sensitive and needs its colon. */
  lemma PrefixIsExact()
    ensures GetToken(Some("bearer: abc"), true) == BadRequest(AuthorizationFailed, NoBearerToken)
    ensures GetToken(Some("Bearer abc"), true) == BadRequest(AuthorizationFailed, NoBearerToken)
    ensures GetToken(Some("Bearer:"), true) == BadRequest(AuthorizationFailed, MalformedBearerToken)
  {
    assert "bearer: abc"[..7] != BearerPrefix by { assert "bearer: abc"[0] == 'b'; }
    assert "Bearer abc"[..7] != BearerPrefix by { assert "Bearer abc"[6] == ' '; }
    assert "Bearer:"[7..] == [];
  }

  /**
   * The body a bad-request outcome is meant to be reported with: a
   * `BadRequestError` carrying the outcome's description and detail.
   */
  function ErrorBody(r: TokenOutcome): Result<map<Exceptions.Key, Exceptions.Value>, Exceptions.Key>
    requires r.BadRequest?
  {
    Exceptions.AsDictWithDetail(
      Exceptions.Construct(Exceptions.BadRequestError, None, None, Some(r.desc), None, None), Some(r.detail))
  }

  /**
   * Every bad request is reported with status 400, the class's error code, the
   * authorization-failed description and one of the two bearer details.
   */
  lemma BearerErrorReport(header: Option<string>, publicKeyConfigured: bool)
    requires GetToken(header, publicKeyConfigured).BadRequest?
    ensures var r := GetToken(header, publicKeyConfigured);
      && (r.detail == NoBearerToken || r.detail == MalformedBearerToken)
      && ErrorBody(r) == Success(map[Exceptions.ErrorCodeKey := Exceptions.Str(Exceptions.BadRequestCode),
                                     Exceptions.ErrorDescKey := Exceptions.Str(AuthorizationFailed),
                                     Exceptions.ErrorDetailKey := Exceptions.Str(r.detail),
                                     Exceptions.StatusCodeKey := Exceptions.Int(400)])
  {
    var r := GetToken(header, publicKeyConfigured);
    var f := Exceptions.Construct(Exceptions.BadRequestError, None, None, Some(AuthorizationFailed), None, None);
    assert Exceptions.ClassDefaults(Exceptions.BadRequestError).errorCode == Some(Exceptions.BadRequestCode);
    assert Exceptions.AsDict(f).value.Keys == {Exceptions.ErrorCodeKey, Exceptions.ErrorDescKey, Exceptions.StatusCodeKey};
    if StartsWith(header.value, BearerPrefix) {
      assert r.detail == MalformedBearerToken;
    }
    var d := ErrorBody(r).value;
    assert d.Keys == {Exceptions.ErrorCodeKey, Exceptions.ErrorDescKey, Exceptions.ErrorDetailKey, Exceptions.StatusCodeKey};
    assert d[Exceptions.ErrorCodeKey] == Exceptions.Str(Exceptions.BadRequestCode);
    assert d[Exceptions.StatusCodeKey] == Exceptions.Int(400);
    assert d[Exceptions.ErrorDescKey] == Exceptions.Str(AuthorizationFailed);
    assert d[Exceptions.ErrorDetailKey] == Exceptions.Str(r.detail);
    assert d == map[Exceptions.ErrorCodeKey := Exceptions.Str(Exceptions.BadRequestCode),
                    Exceptions.ErrorDescKey := Exceptions.Str(AuthorizationFailed),
                    Exceptions.ErrorDetailKey := Exceptions.Str(r.detail),
                    Exceptions.StatusCodeKey := Exceptions.Int(400)];
  }

  /** A header without the prefix, and a prefix with nothing after it, give the two reported bodies. */
  lemma BearerErrorExamples()
    ensures ErrorBody(GetToken(Some("invalid"), true))
         == Success(map[Exceptions.ErrorCodeKey := Exceptions.Str("bad_request"),
                        Exceptions.ErrorDescKey := Exceptions.Str("Request authorization failed"),
                        Exceptions.ErrorDetailKey := Exceptions.Str("Request header 'Authorization' does not contain 'Bearer' token"),
                        Exceptions.StatusCodeKey := Exceptions.Int(400)])
    ensures ErrorBody(GetToken(Some("Bearer: "), true))
         == Success(map[Exceptions.ErrorCodeKey := Exceptions.Str("bad_request"),
                        Exceptions.ErrorDescKey := Exceptions.Str("Request authorization failed"),
                        Exceptions.ErrorDetailKey := Exceptions.Str("Request header 'Authorization' contains malformed 'Bearer' token"),
                        Exceptions.StatusCodeKey := Exceptions.Int(400)])
  {
    assert GetToken(Some("invalid"), true) == BadRequest(AuthorizationFailed, NoBearerToken) by {
      assert "invalid"[0] != BearerPrefix[0];
    }
    BearerErrorReport(Some("invalid"), true);
    assert GetToken(Some("Bearer: "), true) == BadRequest(AuthorizationFailed, MalformedBearerToken) by {
      assert StartsWith("Bearer: ", BearerPrefix);
      assert "Bearer: "[7..] == " ";
      assert Strip(" ") == [];
    }
    BearerErrorReport(Some("Bearer: "), true);
  }
}
