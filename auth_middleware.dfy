/**
 * The server's `authenticate` and `authorize` middleware. JWT verification is a
 * parameter that yields the token's `userId`, or nothing when the token is
 * rejected; the users are the stored documents.
 */
module AuthMiddleware {
  import opened Common
  import opened UserModel
  import Api
  import AuthController

  /** `req.headers.authorization?.split(' ')[1]`, kept only when truthy. */
  function ExtractToken(header: Option<string>): Option<string>
  {
    match header
    case None => None
    case Some(h) =>
      var parts := Split(h, ' ');
      if |parts| >= 2 && parts[1] != "" then Some(parts[1]) else None
  }

  /**
   * The second word is taken whatever the first one says: after a one-word
   * scheme, the token is everything up to the next space, if that is non-empty.
   */
  lemma SecondWord(scheme: string, rest: string)
    requires ' ' !in scheme
    ensures var w := Split(rest, ' ')[0];
      ExtractToken(Some(scheme + " " + rest)) == if w != "" then Some(w) else None
  {
    assert scheme + " " + rest == scheme + [' '] + rest;
    SplitAfterFirst(scheme, rest, ' ');
  }

  /**
   * The header the client's request interceptor builds gives back exactly its
   * token when, and only when, that token is non-empty and has no space.
   */
  lemma BearerRoundTrip(token: string)
    ensures ExtractToken(Some(Api.BearerHeader(token))) == Some(token) <==> token != "" && ' ' !in token
  {
    assert Api.BearerHeader(token) == "Bearer" + " " + token;
    SecondWord("Bearer", token);
    if ' ' !in token {
      SplitWithoutSeparator(token, ' ');
    } else {
      assert ' ' !in Split(token, ' ')[0];
    }
  }

  /** The result of `authenticate`: a 401 with its message, or `next()` with the request's user. */
  datatype AuthResult = Reject(status: nat, message: string) | Next(userId: nat, userRole: string)

  const NoToken := "Access denied. No token provided."
  const BadToken := "Invalid or expired token"
  const NoUser := "Invalid token or user not found"

  /** `User.findById(id)`. */
  function FindById(docs: seq<UserDoc>, id: nat): (r: Option<UserDoc>)
    ensures r.Some? ==> r.value.id == id && r.value in docs
    ensures r.None? ==> forall k :: 0 <= k < |docs| ==> docs[k].id != id
  {
    if docs == [] then None
    else if docs[0].id == id then Some(docs[0])
    else FindById(docs[1..], id)
  }

  /** `authenticate(req, res, next)`, with `verify(token)` for the decoded `userId`. */
  function Authenticate(header: Option<string>, verify: string -> Option<nat>, docs: seq<UserDoc>): AuthResult
  {
    match ExtractToken(header)
    case None => Reject(401, NoToken)
    case Some(token) =>
      match verify(token)
      case None => Reject(401, BadToken)
      case Some(id) =>
        match FindById(docs, id)
        case Some(user) => if user.isActive then Next(user.id, user.role) else Reject(401, NoUser)
        case None => Reject(401, NoUser)
  }

  /**
   * Every refusal is a 401; the request proceeds exactly when the token verifies
   * to the id of an active user, and then carries that user's id and role.
   */
  lemma AuthenticateMeaning(header: Option<string>, verify: string -> Option<nat>, docs: seq<UserDoc>)
    ensures Authenticate(header, verify, docs).Reject? ==> Authenticate(header, verify, docs).status == 401
    ensures ExtractToken(header).None? ==> Authenticate(header, verify, docs) == Reject(401, NoToken)
    ensures ExtractToken(header).Some? && verify(ExtractToken(header).value).None? ==>
      Authenticate(header, verify, docs) == Reject(401, BadToken)
    ensures Authenticate(header, verify, docs).Next? <==>
      (ExtractToken(header).Some? && verify(ExtractToken(header).value).Some? &&
       exists k :: 0 <= k < |docs| && docs[k].id == verify(ExtractToken(header).value).value &&
         FindById(docs, docs[k].id).value.isActive)
    ensures Authenticate(header, verify, docs).Next? ==>
      exists k :: 0 <= k < |docs| && docs[k].isActive &&
        Authenticate(header, verify, docs) == Next(docs[k].id, docs[k].role)
  {
    match ExtractToken(header)
    case None =>
    case Some(token) =>
      match verify(token)
      case None =>
      case Some(id) =>
        var r := FindById(docs, id);
        if r.Some? {
          var k :| 0 <= k < |docs| && docs[k] == r.value;
          assert docs[k].id == id;
        }
  }

  /** With ids unique, a user who is found but inactive is refused like one who is missing. */
  lemma InactiveUserRefused(header: Option<string>, verify: string -> Option<nat>, docs: seq<UserDoc>, k: nat)
    requires k < |docs| && !docs[k].isActive
    requires AuthController.DistinctIds(docs)
    requires ExtractToken(header).Some? && verify(ExtractToken(header).value) == Some(docs[k].id)
    ensures Authenticate(header, verify, docs) == Reject(401, NoUser)
  {
    var r := FindById(docs, docs[k].id);
    var j :| 0 <= j < |docs| && docs[j] == r.value;
    assert j == k;
  }

  /** Against a collection the handlers maintain, ids are distinct, so every inactive stored user is refused. */
  lemma StoredInactiveUserRefused(users: AuthController.UserCollection, header: Option<string>,
                                  verify: string -> Option<nat>, k: nat)
    requires users.Valid()
    requires k < |users.docs| && !users.docs[k].isActive
    requires ExtractToken(header).Some? && verify(ExtractToken(header).value) == Some(users.docs[k].id)
    ensures Authenticate(header, verify, users.docs) == Reject(401, NoUser)
  {
    InactiveUserRefused(header, verify, users.docs, k);
  }

  /** The result of `authorize(...roles)`: `next()` or a 403. */
  datatype AuthzResult = Proceed | Forbidden(status: nat, message: string)

  /** `authorize(...roles)` applied to `req.userRole`. */
  function Authorize(roles: seq<string>, userRole: Option<string>): AuthzResult
  {
    if userRole.Some? && userRole.value in roles then Proceed
    else Forbidden(403, "Access denied. Insufficient permissions.")
  }

  /** A request proceeds exactly when its role is one of those listed; without a role it never does. */
  lemma AuthorizeMeaning(roles: seq<string>, userRole: Option<string>)
    ensures Authorize(roles, userRole) == Proceed <==> exists k :: 0 <= k < |roles| && Some(roles[k]) == userRole
    ensures Authorize(roles, None).Forbidden? && Authorize([], userRole).Forbidden?
  {
    if userRole.Some? && userRole.value in roles {
      var k :| 0 <= k < |roles| && roles[k] == userRole.value;
    }
  }

  /**
   * A client request carrying the stored mock token reaches the server's
   * verification with that very token.
   */
  lemma MockSessionReachesVerify(items: map<string, string>, headers: map<string, string>, now: nat)
    requires Api.TokenKey in items && items[Api.TokenKey] == Api.MockToken(now)
    ensures var h := Api.RequestHeaders(items, headers);
      "Authorization" in h && ExtractToken(Some(h["Authorization"])) == Some(Api.MockToken(now))
  {
    Api.MockTokenShape(now);
    BearerRoundTrip(Api.MockToken(now));
  }

  /** A request sent without a stored token, and without a header of its own, is refused for want of one. */
  lemma NoStoredTokenRefused(items: map<string, string>, headers: map<string, string>,
                             verify: string -> Option<nat>, docs: seq<UserDoc>)
    requires !Api.HasToken(items) && "Authorization" !in headers
    ensures "Authorization" !in Api.RequestHeaders(items, headers)
    ensures Authenticate(None, verify, docs) == Reject(401, NoToken)
  {
  }
}
