/**
 * The authorization gate of middleware/auth.js. `authenticateJWT` reads the
 * `Authorization` header, strips one leading "Bearer " or "bearer ", trims the
 * rest, and stores the verified token payload in the request-scoped
 * `res.locals.user`; it never fails. The three checks `ensureLoggedIn`,
 * `ensureAdmin` and `ensureCorrectUserOrAdmin` then either pass (call `next`)
 * or raise UnauthorizedError. Token verification (`jwt.verify` with the
 * configured secret) is a parameter: a function from token and secret to the
 * payload, or None where `jwt.verify` throws.
 */
module Auth {
  import opened Wrappers
  import opened Js

  /** A decoded token payload, a plain object (it carries `username` and `isAdmin`). */
  type Payload = Object

  // ---------------------------------------------------------------- authenticateJWT

  /** Whether `h` begins with the text the regular expression `/^[Bb]earer /` matches. */
  predicate HasBearerPrefix(h: string)
  {
    |h| >= 7 && (h[..7] == "Bearer " || h[..7] == "bearer ")
  }

  /** `h.replace(/^[Bb]earer /, "")`: one leading "Bearer " or "bearer " removed, anything else left as it is. */
  function StripBearer(h: string): (r: string)
    ensures HasBearerPrefix(h) ==> h == h[..7] + r
    ensures !HasBearerPrefix(h) ==> r == h
  {
    if HasBearerPrefix(h) then h[7..] else h
  }

  /** The token `authenticateJWT` verifies: the header with its scheme stripped, then trimmed. */
  function ExtractToken(h: string): string
  {
    Trim(StripBearer(h))
  }

  /**
   * What `res.locals.user` holds after `authenticateJWT`: when a non-empty
   * header was sent and its token verifies, the payload; otherwise whatever it
   * held before (an invalid token is ignored, and nothing is cleared).
   */
  function StoredUser(prior: Option<Payload>, authHeader: Option<string>, secret: string,
                      verify: (string, string) -> Option<Payload>): (user: Option<Payload>)
    ensures authHeader.None? || authHeader == Some("") ==> user == prior
    ensures authHeader.Some? && authHeader.value != "" && verify(ExtractToken(authHeader.value), secret).Some?
            ==> user == verify(ExtractToken(authHeader.value), secret)
    ensures authHeader.Some? && authHeader.value != "" && verify(ExtractToken(authHeader.value), secret).None?
            ==> user == prior
  {
    if authHeader.Some? && authHeader.value != "" then
      var payload := verify(ExtractToken(authHeader.value), secret);
      if payload.Some? then payload else prior
    else prior
  }

  /** `res.locals`, the request-scoped state the middleware shares with the routes. */
  class Locals {
    /** `res.locals.user`: None while no verified payload has been stored. */
    var user: Option<Payload>

    /** A fresh request: no user stored. */
    constructor ()
      ensures user == None
    {
      user := None;
    }

    /**
     * `authenticateJWT(req, res, next)`. The method has no error outcome: it
     * calls `next()` whether the header is absent, the token invalid or valid.
     */
    method AuthenticateJWT(authHeader: Option<string>, secret: string, verify: (string, string) -> Option<Payload>)
      modifies this
      ensures user == StoredUser(old(user), authHeader, secret, verify)
    {
      if authHeader.Some? && authHeader.value != "" {
        var token := Trim(StripBearer(authHeader.value));
        var payload := verify(token, secret);
        if payload.Some? {
          user := payload;
        }
      }
    }
  }

  /** Authenticating twice with the same header stores what authenticating once does. */
  lemma StoredUserIdempotent(prior: Option<Payload>, authHeader: Option<string>, secret: string,
                             verify: (string, string) -> Option<Payload>)
    ensures var once := StoredUser(prior, authHeader, secret, verify);
            StoredUser(once, authHeader, secret, verify) == once
  {
  }

  /** The character set of a `b64token` in section 2.1 of RFC 6750. */
  predicate IsB64TokenChar(c: char)
  {
    ('A' <= c <= 'Z') || ('a' <= c <= 'z') || ('0' <= c <= '9')
    || c == '-' || c == '.' || c == '_' || c == '~' || c == '+' || c == '/'
  }

  /** `b64token = 1*( ALPHA / DIGIT / "-" / "." / "_" / "~" / "+" / "/" ) *"="` (section 2.1 of RFC 6750). */
  predicate IsB64Token(t: string)
  {
    && |t| > 0 && IsB64TokenChar(t[0])
    && (forall i :: 0 <= i < |t| ==> IsB64TokenChar(t[i]) || t[i] == '=')
    && (forall i, j :: 0 <= i < j < |t| && t[i] == '=' ==> t[j] == '=')
  }

  /** `n` spaces. */
  function Spaces(n: nat): (s: string)
    ensures |s| == n && forall i :: 0 <= i < n ==> s[i] == ' '
  {
    seq(n, _ => ' ')
  }

  /** A `b64token` neither begins nor ends with whitespace. */
  lemma B64TokenUntrimmed(t: string)
    requires IsB64Token(t)
    ensures |t| > 0 && !IsWhitespace(t[0]) && !IsWhitespace(t[|t| - 1])
  {
    assert IsB64TokenChar(t[|t| - 1]) || t[|t| - 1] == '=';
  }

  /** Leading spaces before a `b64token` are trimmed away, and nothing else is. */
  lemma SpacesTrimmed(spaces: nat, token: string)
    requires IsB64Token(token)
    ensures Trim(Spaces(spaces) + token) == token
  {
    var s := Spaces(spaces) + token;
    B64TokenUntrimmed(token);
    assert s[spaces] == token[0] && s[|s| - 1] == token[|token| - 1];
    TrimIsCore(s, spaces, |s|);
    assert s[spaces..|s|] == token;
  }

  /** "Bearer " or "bearer " at the start is stripped, and only it. */
  lemma SchemeStripped(prefix: string, rest: string)
    requires prefix == "Bearer " || prefix == "bearer "
    ensures StripBearer(prefix + rest) == rest
  {
    var h := prefix + rest;
    assert h[..7] == prefix;
    assert h[7..] == rest;
  }

  /** Stripping a leading "Bearer " or "bearer " and trimming: what follows the scheme and its spaces is the token. */
  lemma {:induction false} SchemeAndSpacesRemoved(scheme: string, spaces: nat, token: string)
    requires scheme == "Bearer" || scheme == "bearer"
    requires spaces >= 1 && IsB64Token(token)
    ensures ExtractToken(scheme + Spaces(spaces) + token) == token
  {
    var rest := Spaces(spaces - 1) + token;
    assert scheme + Spaces(spaces) + token == (scheme + " ") + rest;
    SchemeStripped(scheme + " ", rest);
    SpacesTrimmed(spaces - 1, token);
  }

  /**
   * The `Authorization: Bearer` credentials of section 2.1 of RFC 6750
   * ("Bearer" 1*SP b64token) yield exactly the b64token.
   */
  lemma BearerCredentials(spaces: nat, token: string)
    requires spaces >= 1 && IsB64Token(token)
    ensures ExtractToken("Bearer" + Spaces(spaces) + token) == token
  {
    SchemeAndSpacesRemoved("Bearer", spaces, token);
  }

  /** A header without that prefix is verified whole, once trimmed: "BEARER t" is not stripped. */
  lemma OtherSchemeKept(h: string)
    requires !HasBearerPrefix(h)
    ensures ExtractToken(h) == Trim(h)
  {
  }

  lemma UpperCaseSchemeNotStripped(token: string)
    requires IsB64Token(token)
    ensures ExtractToken("BEARER " + token) == "BEARER " + token
  {
    var h := "BEARER " + token;
    assert h[..7] == "BEARER ";
    B64TokenUntrimmed(token);
    assert h[|h| - 1] == token[|token| - 1];
    TrimIsCore(h, 0, |h|);
    assert h[0..|h|] == h;
  }

  // ---------------------------------------------------------------- the checks

  /** `ensureLoggedIn`: passes iff a user is stored and its `username` is truthy. */
  function EnsureLoggedIn(user: Option<Payload>): (r: Outcome<Error>)
    ensures r.Pass? <==> user.Some? && Truthy(Get(user.value, "username"))
    ensures r.Fail? ==> r.error == Unauthorized
  {
    if user.Some? && Truthy(Get(user.value, "username")) then Pass else Fail(Unauthorized)
  }

  /** `user?.isAdmin === true`: a stored user whose flag is the boolean true, nothing merely truthy. */
  predicate IsAdmin(user: Option<Payload>)
  {
    user.Some? && Get(user.value, "isAdmin") == Bool(true)
  }

  /** `ensureAdmin`: passes iff the stored user's `isAdmin` is strictly `true`. */
  function EnsureAdmin(user: Option<Payload>): (r: Outcome<Error>)
    ensures r.Pass? <==> user.Some? && Get(user.value, "isAdmin") == Bool(true)
    ensures r.Fail? ==> r.error == Unauthorized
  {
    if IsAdmin(user) then Pass else Fail(Unauthorized)
  }

  /** `user?.username`: undefined when no user is stored, the stored user's `username` otherwise. */
  function Username(user: Option<Payload>): (v: Value)
    ensures user.None? ==> v == Undefined
    ensures user.Some? ==> v == Get(user.value, "username")
  {
    if user.Some? then Get(user.value, "username") else Undefined
  }

  /**
   * `ensureCorrectUserOrAdmin`: passes iff `user?.username === req.params.username`
   * or the user is an admin. `===` on the values the model has is equality.
   */
  function EnsureCorrectUserOrAdmin(user: Option<Payload>, paramUsername: Value): (r: Outcome<Error>)
    ensures r.Pass? <==> Username(user) == paramUsername || (user.Some? && Get(user.value, "isAdmin") == Bool(true))
    ensures r.Fail? ==> r.error == Unauthorized
  {
    var hasCorrectUsername := Username(user) == paramUsername;
    if hasCorrectUsername || IsAdmin(user) then Pass else Fail(Unauthorized)
  }

  /**
   * On a fresh request, `ensureLoggedIn` after `authenticateJWT` passes exactly
   * when a non-empty header was sent, its token verifies, and the payload's
   * `username` is truthy.
   */
  lemma LoggedInIffVerified(authHeader: Option<string>, secret: string, verify: (string, string) -> Option<Payload>)
    ensures EnsureLoggedIn(StoredUser(None, authHeader, secret, verify)).Pass?
            <==> && authHeader.Some? && authHeader.value != ""
                 && verify(ExtractToken(authHeader.value), secret).Some?
                 && Truthy(Get(verify(ExtractToken(authHeader.value), secret).value, "username"))
  {
  }

  /** Anyone who passes `ensureAdmin` passes `ensureCorrectUserOrAdmin` on every route. */
  lemma AdminIsCorrectEverywhere(user: Option<Payload>, paramUsername: Value)
    requires EnsureAdmin(user).Pass?
    ensures EnsureCorrectUserOrAdmin(user, paramUsername).Pass?
  {
  }

  /**
   * On a route that names a user, a non-admin passes `ensureCorrectUserOrAdmin`
   * only as that very user, and is then logged in.
   */
  lemma CorrectUserIsThatUser(user: Option<Payload>, name: string)
    requires name != ""
    requires EnsureCorrectUserOrAdmin(user, Str(name)).Pass? && EnsureAdmin(user).Fail?
    ensures user.Some? && Get(user.value, "username") == Str(name)
    ensures EnsureLoggedIn(user).Pass?
  {
  }

  /** An anonymous request is refused by all three checks on a route that names a user. */
  lemma AnonymousRefused(name: string)
    ensures EnsureLoggedIn(None) == Fail(Unauthorized)
    ensures EnsureAdmin(None) == Fail(Unauthorized)
    ensures EnsureCorrectUserOrAdmin(None, Str(name)) == Fail(Unauthorized)
  {
  }

  /** With no stored user and no `username` route parameter both sides are undefined, and the check passes. */
  lemma AnonymousWithoutRouteParamPasses()
    ensures EnsureCorrectUserOrAdmin(None, Undefined) == Pass
  {
  }

  /** `ensureAdmin` is strict: an `isAdmin` that is only truthy does not pass. */
  lemma TruthyAdminFlagRefused(user: Payload, flag: Value)
    requires Get(user, "isAdmin") == flag && flag != Bool(true)
    ensures EnsureAdmin(Some(user)) == Fail(Unauthorized)
  {
  }

  // ---------------------------------------------------------------- the route tests of routes/users.test.js

  /** The payloads of the test tokens: u1 and u2 are not admins, "admin" is. */
  const U1: Payload := [("username", Str("u1")), ("isAdmin", Bool(false))]
  const U2: Payload := [("username", Str("u2")), ("isAdmin", Bool(false))]
  const Admin: Payload := [("username", Str("admin")), ("isAdmin", Bool(true))]

  /** The user a request sent with `Bearer <token>` leaves in `res.locals`. */
  function UserFor(token: string, secret: string, verify: (string, string) -> Option<Payload>): Option<Payload>
  {
    StoredUser(None, Some("Bearer " + token), secret, verify)
  }

  /** A `Bearer <token>` header with a valid token stores the token's payload. */
  lemma {:induction false} ValidBearerStoresPayload(token: string, secret: string, verify: (string, string) -> Option<Payload>, payload: Payload)
    requires IsB64Token(token) && verify(token, secret) == Some(payload)
    ensures UserFor(token, secret, verify) == Some(payload)
  {
    assert ExtractToken("Bearer " + token) == token by {
      SchemeStripped("Bearer ", token);
      B64TokenUntrimmed(token);
      TrimIsCore(token, 0, |token|);
      assert token[0..|token|] == token;
    }
  }

  /**
   * GET and DELETE /users/u1: the u1 token and the admin token pass, the u2
   * token and an anonymous request get 401; POST /users and POST /jobs: the u1
   * token and an anonymous request get 401.
   */
  lemma RouteScenarios(u1Token: string, u2Token: string, adminToken: string, secret: string,
                       verify: (string, string) -> Option<Payload>)
    requires IsB64Token(u1Token) && IsB64Token(u2Token) && IsB64Token(adminToken)
    requires verify(u1Token, secret) == Some(U1)
    requires verify(u2Token, secret) == Some(U2)
    requires verify(adminToken, secret) == Some(Admin)
    ensures EnsureCorrectUserOrAdmin(UserFor(u1Token, secret, verify), Str("u1")) == Pass
    ensures EnsureCorrectUserOrAdmin(UserFor(adminToken, secret, verify), Str("u1")) == Pass
    ensures EnsureCorrectUserOrAdmin(UserFor(u2Token, secret, verify), Str("u1")) == Fail(Unauthorized)
    ensures EnsureCorrectUserOrAdmin(None, Str("u1")) == Fail(Unauthorized)
    ensures EnsureAdmin(UserFor(u1Token, secret, verify)) == Fail(Unauthorized)
    ensures EnsureAdmin(UserFor(adminToken, secret, verify)) == Pass
    ensures EnsureAdmin(None) == Fail(Unauthorized)
  {
    assert UserFor(u1Token, secret, verify) == Some(U1) by {
      ValidBearerStoresPayload(u1Token, secret, verify, U1);
    }
    assert UserFor(u2Token, secret, verify) == Some(U2) by {
      ValidBearerStoresPayload(u2Token, secret, verify, U2);
    }
    assert UserFor(adminToken, secret, verify) == Some(Admin) by {
      ValidBearerStoresPayload(adminToken, secret, verify, Admin);
    }
    TestUsers();
  }

  /** The checks on the test payloads themselves. */
  lemma TestUsers()
    ensures EnsureCorrectUserOrAdmin(Some(U1), Str("u1")) == Pass
    ensures EnsureCorrectUserOrAdmin(Some(Admin), Str("u1")) == Pass
    ensures EnsureCorrectUserOrAdmin(Some(U2), Str("u1")) == Fail(Unauthorized)
    ensures EnsureAdmin(Some(U1)) == Fail(Unauthorized)
    ensures EnsureAdmin(Some(Admin)) == Pass
  {
    assert Get(U1, "username") == Str("u1");
    assert Get(U2, "username") == Str("u2") by {
      assert U2[0] == ("username", Str("u2"));
    }
    assert Get(U1, "isAdmin") == Bool(false) by {
      assert U1[1..][0] == ("isAdmin", Bool(false));
    }
    assert Get(U2, "isAdmin") == Bool(false) by {
      assert U2[1..][0] == ("isAdmin", Bool(false));
    }
    assert Get(Admin, "isAdmin") == Bool(true) by {
      assert Admin[1..][0] == ("isAdmin", Bool(true));
    }
  }
}
