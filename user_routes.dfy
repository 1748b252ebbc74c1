/** The users router of src/routes/users.ts: every route behind `authenticate` and
    `requireRole('admin')`, and the zod schemas the create and update routes validate. */
module UserRoutes {
  import opened Wrappers
  import opened RequestSchema
  import opened Routing
  import opened Authorize

  datatype Handler = GetUsers | GetUserById | CreateUser | UpdateUser | DeleteUser

  /** `createUserSchema`; the email pattern is the `isEmail` parameter. */
  predicate CreateUserBody(b: Body, isEmail: string -> bool) {
    && Email(b, "email", isEmail) && StrMin(b, "password", 6)
    && StrMin(b, "firstName", 2) && StrMin(b, "lastName", 2)
    && IsString(b, "role") && IsString(b, "department") && IsString(b, "jobTitle")
    && (Absent(b, "phone") || IsString(b, "phone"))
    && (Absent(b, "emergencyContact") || IsString(b, "emergencyContact"))
    && IsString(b, "badgeNumber")
    && NumBetween(b, "accessLevel", 1, Some(10))
  }

  /** `updateUserSchema`: each field optional under the same checks, no password, and an
      optional boolean `isActive`. */
  predicate UpdateUserBody(b: Body, isEmail: string -> bool) {
    && (Absent(b, "email") || Email(b, "email", isEmail))
    && (Absent(b, "firstName") || StrMin(b, "firstName", 2))
    && (Absent(b, "lastName") || StrMin(b, "lastName", 2))
    && (Absent(b, "role") || IsString(b, "role"))
    && (Absent(b, "department") || IsString(b, "department"))
    && (Absent(b, "jobTitle") || IsString(b, "jobTitle"))
    && (Absent(b, "phone") || IsString(b, "phone"))
    && (Absent(b, "emergencyContact") || IsString(b, "emergencyContact"))
    && (Absent(b, "badgeNumber") || IsString(b, "badgeNumber"))
    && (Absent(b, "accessLevel") || NumBetween(b, "accessLevel", 1, Some(10)))
    && (Absent(b, "isActive") || Boolean(b, "isActive"))
  }

  /** Which body each route's `validate` step accepts. */
  predicate Accepts(h: Handler, b: Body, isEmail: string -> bool) {
    match h
    case CreateUser => CreateUserBody(b, isEmail)
    case UpdateUser => UpdateUserBody(b, isEmail)
    case _ => true
  }

  /** The `validate` steps of the router, for one request body. */
  function Validates(b: Body, isEmail: string -> bool): Handler -> bool {
    h => Accepts(h, b, isEmail)
  }

  /** The layers after `authenticate`, in registration order. */
  const Layers: seq<Layer<Handler>> := [
    Gate(["admin"]),
    Route(Get, [], GetUsers),
    Route(Get, [Param], GetUserById),
    Route(Post, [], CreateUser),
    Route(Put, [Param], UpdateUser),
    Route(Delete, [Param], DeleteUser)]

  function Handle(m: Method, path: seq<string>, auth: Result<Principal, HttpError>, b: Body,
                  isEmail: string -> bool): Result<Handler, Refusal> {
    Dispatch(Layers, m, path, auth, Validates(b, isEmail))
  }

  /** Only an admin, the role name compared case-insensitively, reaches any handler; any
      other authenticated user is answered 403 on every path, existing or not. */
  lemma AdminOnly(m: Method, path: seq<string>, p: Principal, b: Body, isEmail: string -> bool)
    ensures Handle(m, path, Ok(p), b, isEmail).Ok? ==> HasRoleAmong(p, ["admin"])
    ensures !HasRoleAmong(p, ["admin"]) ==> Handle(m, path, Ok(p), b, isEmail) == Err(Refused(InsufficientPermissions))
  {
    GateGuards(Layers, 0, m, path, p, Validates(b, isEmail));
  }

  /** An admin reaches the listing. */
  lemma AdminListsUsers(p: Principal, b: Body, isEmail: string -> bool)
    requires HasRoleAmong(p, ["admin"])
    ensures Handle(Get, [], Ok(p), b, isEmail) == Ok(GetUsers)
  {
    FirstStopSkips(Layers, 0, 1, Get, [], p);
    AnsweredByRoute(Layers, 1, Get, [], p, Validates(b, isEmail));
  }

  /** An admin reaches the lookup by id. */
  lemma AdminGetsUser(p: Principal, b: Body, isEmail: string -> bool, id: string)
    requires HasRoleAmong(p, ["admin"]) && id != ""
    ensures Handle(Get, [id], Ok(p), b, isEmail) == Ok(GetUserById)
  {
    assert SegmentMatches(Param, id);
    FirstStopSkips(Layers, 0, 2, Get, [id], p);
    AnsweredByRoute(Layers, 2, Get, [id], p, Validates(b, isEmail));
  }

  /** An admin reaches creation when the body passes `createUserSchema`. */
  lemma AdminCreatesUser(p: Principal, b: Body, isEmail: string -> bool)
    requires HasRoleAmong(p, ["admin"])
    ensures Handle(Post, [], Ok(p), b, isEmail) ==
      (if CreateUserBody(b, isEmail) then Ok(CreateUser) else Err(InvalidBody))
  {
    FirstStopSkips(Layers, 0, 3, Post, [], p);
    AnsweredByRoute(Layers, 3, Post, [], p, Validates(b, isEmail));
  }

  /** An admin reaches the update when the body passes `updateUserSchema`. */
  lemma AdminUpdatesUser(p: Principal, b: Body, isEmail: string -> bool, id: string)
    requires HasRoleAmong(p, ["admin"]) && id != ""
    ensures Handle(Put, [id], Ok(p), b, isEmail) ==
      (if UpdateUserBody(b, isEmail) then Ok(UpdateUser) else Err(InvalidBody))
  {
    assert SegmentMatches(Param, id);
    FirstStopSkips(Layers, 0, 4, Put, [id], p);
    AnsweredByRoute(Layers, 4, Put, [id], p, Validates(b, isEmail));
  }

  /** An admin reaches the deletion, which validates no body. */
  lemma AdminDeletesUser(p: Principal, b: Body, isEmail: string -> bool, id: string)
    requires HasRoleAmong(p, ["admin"]) && id != ""
    ensures Handle(Delete, [id], Ok(p), b, isEmail) == Ok(DeleteUser)
  {
    assert SegmentMatches(Param, id);
    FirstStopSkips(Layers, 0, 5, Delete, [id], p);
    AnsweredByRoute(Layers, 5, Delete, [id], p, Validates(b, isEmail));
  }

  /** Every body the create route accepts is accepted by the update route, unless it
      carries an `isActive` that is not a boolean. */
  lemma CreatableIsUpdatable(b: Body, isEmail: string -> bool)
    requires CreateUserBody(b, isEmail) && (Absent(b, "isActive") || Boolean(b, "isActive"))
    ensures UpdateUserBody(b, isEmail)
  {
  }

  /** The update schema does not name `password`, so no password, however short, makes an
      update body fail validation. */
  lemma UpdateIgnoresPassword(b: Body, v: Value, isEmail: string -> bool)
    ensures UpdateUserBody(b["password" := v], isEmail) <==> UpdateUserBody(b, isEmail)
  {
  }
}
