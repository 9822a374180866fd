/** The authentication middleware: `generateToken`, the bearer-header parsing
    and the `verifyToken(roles)` chain of checks that either rejects a request
    or records the caller on it and passes it on. The route files' role tables
    are the constants below. */
module Middleware {
  import opened Common
  import opened Text
  import opened Crypto
  import opened Users
  import opened Http

  // ---------------------------------------------------------------------
  // Role tables of the guarded routes

  /** Every category route admits both roles. */
  const CategoryRoles: seq<UserRole> := [ADMIN, USER]

  /** `PUT`, `DELETE` and `GET /user/:id` admit both roles. */
  const UserItemRoles: seq<UserRole> := [ADMIN, USER]

  /** `GET /user` (the listing) admits administrators only. */
  const UserListRoles: seq<UserRole> := [ADMIN]

  // ---------------------------------------------------------------------
  // Tokens

  /** `generateToken`: signs exactly the payload `{ id: user.id }`, so the verifier
      recovers the user's id and nothing else. */
  function GenerateToken(u: User): (token: string)
    ensures token != "" && ' ' !in token
    ensures Verify(token) == Some(Claims(u.id))
  {
    VerifySign(Claims(u.id));
    Sign(Claims(u.id))
  }

  /** `req.headers.authorization?.split(' ')[1]`, kept only when it is a
      non-empty string: None for an absent header, a header without a space or
      an empty second word. */
  function BearerToken(authorization: Option<string>): (token: Option<string>)
    ensures token.Some? ==> token.value != "" && ' ' !in token.value
    ensures authorization.None? ==> token.None?
    ensures authorization.Some? && ' ' !in authorization.value ==> token.None?
  {
    match authorization
    case None => None
    case Some(header) =>
      var parts := Split(header, ' ');
      if ' ' !in header then
        SplitWithoutSeparator(header, ' ');
        None
      else if |parts| >= 2 && parts[1] != "" then Some(parts[1])
      else None
  }

  /** The header `Bearer <token>` yields the token, for every token without
      spaces that is not empty. */
  lemma {:induction false} BearerHeader(token: string)
    requires token != "" && ' ' !in token
    ensures BearerToken(Some("Bearer " + token)) == Some(token)
  {
    assert "Bearer " + token == "Bearer" + [' '] + token;
    SplitAtFirstSeparator("Bearer", ' ', token);
    SplitWithoutSeparator(token, ' ');
  }

  /** A double space after the first word leaves an empty second word, which
      counts as a missing token. */
  lemma {:induction false} DoubleSpaceIsMissing(scheme: string, rest: string)
    requires ' ' !in scheme
    ensures BearerToken(Some(scheme + "  " + rest)) == None
  {
    assert scheme + "  " + rest == scheme + [' '] + ([] + [' '] + rest);
    SplitAtFirstSeparator(scheme, ' ', [] + [' '] + rest);
    SplitAtFirstSeparator([], ' ', rest);
  }

  /** A token is the second space-separated word of the header: the header
      splits into words whose second is the token. */
  lemma {:induction false} BearerTokenIsSecondWord(header: string)
    requires BearerToken(Some(header)).Some?
    ensures var words := Split(header, ' ');
            |words| >= 2 && words[1] == BearerToken(Some(header)).value
            && Join(words, ' ') == header
  {
    JoinSplit(header, ' ');
  }

  // ---------------------------------------------------------------------
  // The check chain

  /** The decision of `verifyToken(roles)`: a rejection with its status and
      message, or admission of the resolved user. */
  datatype Gate = Reject(code: int, message: string) | Admit(user: User)

  const MissingToken := "Unauthorized: Missing token"
  const InvalidToken := "Unauthorized: Invalid token"
  const UnknownUser := "Unauthorized"
  const AccessDenied := "Forbidden: Access denied"

  /** `verifyToken(roles)` on a request with this `Authorization` header, over
      the stored users. `verify` is the token verifier (`jwt.verify` with the
      configured secret at the current time): it yields the decoded payload,
      or None when it reports an error. Checks, in order: missing token (401),
      invalid token (401), unknown user (401), role not allowed (403). A user
      without a role is never allowed, since `roles.includes(undefined)` is
      false. */
  function CheckRequest(users: seq<User>, roles: seq<UserRole>, verify: string -> Option<Claims>,
                        authorization: Option<string>): (g: Gate)
    ensures g.Reject? ==> g.code == 401 || g.code == 403
    ensures g.Admit? ==>
              && BearerToken(authorization).Some?
              && verify(BearerToken(authorization).value) == Some(Claims(g.user.id))
              && (exists i :: 0 <= i < |users| && users[i] == g.user
                             && forall j :: 0 <= j < i ==> users[j].id != g.user.id)
              && g.user.role.Some? && g.user.role.value in roles
    ensures g.Reject? && g.code == 403 ==> g.message == AccessDenied
  {
    match BearerToken(authorization)
    case None => Reject(401, MissingToken)
    case Some(token) =>
      match verify(token)
      case None => Reject(401, InvalidToken)
      case Some(decoded) =>
        match FirstIndex(users, Key, decoded.id)
        case None => Reject(401, UnknownUser)
        case Some(i) =>
          var currentUser := users[i];
          if currentUser.role.None? || currentUser.role.value !in roles then Reject(403, AccessDenied)
          else Admit(currentUser)
  }

  /** The checks fire in order: each rejection happens exactly when every
      earlier check passed and its own failed. */
  lemma CheckOrder(users: seq<User>, roles: seq<UserRole>, verify: string -> Option<Claims>,
                   authorization: Option<string>)
    ensures var g := CheckRequest(users, roles, verify, authorization);
            var token := BearerToken(authorization);
            && (g == Reject(401, MissingToken) <==> token.None?)
            && (g == Reject(401, InvalidToken) <==> token.Some? && verify(token.value).None?)
            && (g == Reject(401, UnknownUser) <==>
                  token.Some? && verify(token.value).Some?
                  && forall j :: 0 <= j < |users| ==> users[j].id != verify(token.value).value.id)
            && (g == Reject(403, AccessDenied) <==>
                  token.Some? && verify(token.value).Some?
                  && Lookup(users, Key, verify(token.value).value.id).Some?
                  && var u := Lookup(users, Key, verify(token.value).value.id).value;
                     u.role.None? || u.role.value !in roles)
  {
  }

  /** A fresh bearer token of a stored user passes the first three checks and
      resolves to that user, provided the verifier accepts what `generateToken`
      signs (ids are unique, so the user found is this one). */
  lemma FreshTokenResolves(users: seq<User>, roles: seq<UserRole>, verify: string -> Option<Claims>, u: User)
    requires UniqueKeys(users, Key) && u in users
    requires verify(GenerateToken(u)) == Some(Claims(u.id))
    ensures var g := CheckRequest(users, roles, verify, Some("Bearer " + GenerateToken(u)));
            if u.role.Some? && u.role.value in roles then g == Admit(u) else g == Reject(403, AccessDenied)
  {
    BearerHeader(GenerateToken(u));
    LookupUnique(users, Key, u);
  }

  /** With the model's own verifier, a token from `generateToken` admits its
      user on every category route. */
  lemma SignedTokenAdmits(users: seq<User>, u: User)
    requires UniqueKeys(users, Key) && u in users && u.role.Some?
    ensures CheckRequest(users, CategoryRoles, Verify, Some("Bearer " + GenerateToken(u))) == Admit(u)
  {
    assert u.role.value == ADMIN || u.role.value == USER;
    FreshTokenResolves(users, CategoryRoles, Verify, u);
  }

  /** Once a user is deleted, the token they still hold is rejected as unknown
      (401), before any role check. */
  lemma DeletedUserUnauthorized(users: seq<User>, roles: seq<UserRole>, verify: string -> Option<Claims>, u: User)
    requires UniqueKeys(users, Key) && u in users
    requires verify(GenerateToken(u)) == Some(Claims(u.id))
    ensures CheckRequest(DeleteFirst(users, Key, u.id).1, roles, verify, Some("Bearer " + GenerateToken(u)))
            == Reject(401, UnknownUser)
  {
    BearerHeader(GenerateToken(u));
    DeleteUniqueGone(users, Key, u);
  }

  /** The user listing admits administrators only, and nobody without a role
      gets past any route. */
  lemma RoleTables(users: seq<User>, verify: string -> Option<Claims>, authorization: Option<string>)
    ensures var g := CheckRequest(users, UserListRoles, verify, authorization);
            g.Admit? ==> g.user.role == Some(ADMIN)
    ensures forall roles: seq<UserRole> :: var g := CheckRequest(users, roles, verify, authorization);
              g.Admit? ==> g.user.role.Some?
  {
  }

  // ---------------------------------------------------------------------
  // The middleware on a request

  /** The part of an Express request the middleware reads and writes: the
      header, `req.user`, the response sent (if any) and how often `next` ran. */
  class Request {
    const authorization: Option<string>
    var user: Option<User>
    var response: Option<Response<()>>
    var nextCalls: nat

    constructor (authorization: Option<string>)
      ensures this.authorization == authorization
      ensures user == None && response == None && nextCalls == 0
    {
      this.authorization := authorization;
      user := None;
      response := None;
      nextCalls := 0;
    }
  }

  /** `verifyToken(roles)(req, res, next)`: on rejection sends the status and
      message with `data: {}` and neither sets the caller nor calls `next`; on
      admission sets `req.user` to the resolved user and calls `next` once,
      sending nothing. */
  method VerifyToken(svc: UserService, roles: seq<UserRole>, verify: string -> Option<Claims>, req: Request)
    modifies req
    ensures match CheckRequest(svc.users, roles, verify, req.authorization)
            case Reject(code, message) =>
              && req.response == Some(Fail(code, message))
              && req.user == old(req.user) && req.nextCalls == old(req.nextCalls)
            case Admit(u) =>
              && req.user == Some(u) && req.nextCalls == old(req.nextCalls) + 1
              && req.response == old(req.response)
  {
    var token := BearerToken(req.authorization);
    if token.None? {
      req.response := Some(Fail(401, MissingToken));
      return;
    }
    var decoded := verify(token.value);
    if decoded.None? {
      req.response := Some(Fail(401, InvalidToken));
      return;
    }
    var currentUser := svc.GetUserById(decoded.value.id);
    if currentUser.None? {
      req.response := Some(Fail(401, UnknownUser));
      return;
    }
    if currentUser.value.role.None? || currentUser.value.role.value !in roles {
      req.response := Some(Fail(403, AccessDenied));
      return;
    }
    req.user := currentUser;
    req.nextCalls := req.nextCalls + 1;
  }
}
