/** The `authenticate` middleware of src/middleware/auth.ts: reading the Bearer token,
    verifying it, loading the user with its role, and either answering 401 or setting
    `req.user` and calling `next`. Token verification is a parameter: `verify(token)` is
    the decoded user id, or None when jwt rejects the token. */
module Authenticate {
  import opened Wrappers
  import Text
  import opened Accounts
  import opened Authorize

  const BearerPrefix := "Bearer "

  /** The token carried by an `Authorization` header: None when the header is absent or
      does not start with exactly `Bearer `, else the header without its first 7 characters. */
  function ParseBearer(header: Option<string>): (r: Option<string>)
    ensures r.None? <==> header.None? || !Text.StartsWith(header.value, BearerPrefix)
    ensures r.Some? ==> header.value == BearerPrefix + r.value
  {
    if header.None? || !Text.StartsWith(header.value, BearerPrefix) then None
    else Some(header.value[7..])
  }

  /** Parsing recovers the token a client puts after the prefix. */
  lemma ParseBearerRoundTrip(token: string)
    ensures ParseBearer(Some(BearerPrefix + token)) == Some(token)
  {
    assert (BearerPrefix + token)[..7] == BearerPrefix;
    assert (BearerPrefix + token)[7..] == token;
  }

  /** The prefix is matched exactly: a lower-case scheme is refused. */
  lemma LowerCaseSchemeRefused(token: string)
    ensures ParseBearer(Some("bearer " + token)).None?
  {
    assert ("bearer " + token)[0] == 'b';
  }

  const NoToken := HttpError(401, "Access denied. No token provided.")
  const InvalidToken := HttpError(401, "Invalid token.")
  const InactiveUser := HttpError(401, "Invalid token or user not active.")

  /** `User.findById(id).populate('role')`: the user and its role, if the role exists. */
  function LoadPrincipal(users: map<Id, User>, roles: map<Id, Role>, id: Id): (r: Option<Principal>)
    ensures r.Some? <==> id in users
    ensures r.Some? ==> (r.value.user == users[id]
      && (r.value.role.Some? <==> users[id].role in roles)
      && (r.value.role.Some? ==> r.value.role.value == roles[users[id].role]))
  {
    if id !in users then None
    else
      var u := users[id];
      Some(Principal(u, if u.role in roles then Some(roles[u.role]) else None))
  }

  /** The decision of `authenticate`: the principal to attach, or the 401 to answer. */
  function Decide(header: Option<string>, verify: string -> Option<Id>,
                  users: map<Id, User>, roles: map<Id, Role>): (r: Result<Principal, HttpError>)
    ensures ParseBearer(header).None? ==> r == Err(NoToken)
    ensures ParseBearer(header).Some? && verify(ParseBearer(header).value).None? ==> r == Err(InvalidToken)
    ensures r.Ok? <==> (ParseBearer(header).Some? && verify(ParseBearer(header).value).Some?
      && verify(ParseBearer(header).value).value in users
      && users[verify(ParseBearer(header).value).value].isActive)
    ensures r.Ok? ==> (r.value.user.isActive
      && Some(r.value) == LoadPrincipal(users, roles, verify(ParseBearer(header).value).value))
    ensures r.Err? ==> r.error.status == 401
  {
    match ParseBearer(header)
    case None => Err(NoToken)
    case Some(token) =>
      match verify(token)
      case None => Err(InvalidToken)
      case Some(id) =>
        match LoadPrincipal(users, roles, id)
        case None => Err(InactiveUser)
        case Some(p) => if p.user.isActive then Ok(p) else Err(InactiveUser)
  }

  /** A valid token of a user who is missing or deactivated is refused all the same. */
  lemma DeactivatedUserRefused(header: Option<string>, verify: string -> Option<Id>,
                               users: map<Id, User>, roles: map<Id, Role>, id: Id)
    requires ParseBearer(header).Some? && verify(ParseBearer(header).value) == Some(id)
    requires id !in users || !users[id].isActive
    ensures Decide(header, verify, users, roles) == Err(InactiveUser)
  {
  }

  /** The request as the middleware changes it: `req.user` and the calls of `next`. */
  class Request {
    var user: Option<Principal>
    var nextCalls: nat
    /** The error answered, if any. */
    var response: Option<HttpError>

    constructor ()
      ensures user.None? && nextCalls == 0 && response.None?
    {
      user := None;
      nextCalls := 0;
      response := None;
    }

    /** `authenticate`: on success `req.user` is the freshly loaded user and `next` is
        called exactly once; otherwise the 401 is answered and `next` is not called. */
    method Authenticate(header: Option<string>, verify: string -> Option<Id>,
                        users: map<Id, User>, roles: map<Id, Role>)
      requires user.None? && nextCalls == 0 && response.None?
      modifies this
      ensures var d := Decide(header, verify, users, roles);
        && (d.Ok? ==> user == Some(d.value) && nextCalls == 1 && response.None?)
        && (d.Err? ==> user.None? && nextCalls == 0 && response == Some(d.error))
    {
      var d := Decide(header, verify, users, roles);
      if d.Ok? {
        user := Some(d.value);
        nextCalls := nextCalls + 1;
      } else {
        response := Some(d.error);
      }
    }
  }
}
