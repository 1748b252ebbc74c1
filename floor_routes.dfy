/** The floors router of src/routes/floors.ts: the two reads behind `authenticate` only,
    the writes behind `requireRole('admin')` as well, and the zod schemas of the create
    and update routes. */
module FloorRoutes {
  import opened Wrappers
  import Text
  import opened RequestSchema
  import opened Routing
  import opened Authorize
  import Accounts
  import Floors

  datatype Handler = GetFloors | GetFloorById | CreateFloor | UpdateFloor | DeleteFloor

  const StaffRoles: seq<string> := ["admin", "hr", "security", "employee"]

  /** `createFloorSchema`. */
  predicate CreateFloorBody(b: Body) {
    && StrMin(b, "name", 2)
    && NumBetween(b, "level", 0, None)
    && StrMin(b, "description", 5)
    && NonEmptyEnumArray(b, "accessRoles", StaffRoles)
  }

  /** `updateFloorSchema`: each field optional under the same checks, and an optional
      boolean `isActive`. */
  predicate UpdateFloorBody(b: Body) {
    && (Absent(b, "name") || StrMin(b, "name", 2))
    && (Absent(b, "level") || NumBetween(b, "level", 0, None))
    && (Absent(b, "description") || StrMin(b, "description", 5))
    && (Absent(b, "accessRoles") || NonEmptyEnumArray(b, "accessRoles", StaffRoles))
    && (Absent(b, "isActive") || Boolean(b, "isActive"))
  }

  predicate Accepts(h: Handler, b: Body) {
    match h
    case CreateFloor => CreateFloorBody(b)
    case UpdateFloor => UpdateFloorBody(b)
    case _ => true
  }

  /** The `validate` steps of the router, for one request body. */
  function Validates(b: Body): Handler -> bool {
    h => Accepts(h, b)
  }

  /** The layers after `authenticate`, in registration order: the gate sits between the
      reads and the writes. */
  const Layers: seq<Layer<Handler>> := [
    Route(Get, [], GetFloors),
    Route(Get, [Param], GetFloorById),
    Gate(["admin"]),
    Route(Post, [], CreateFloor),
    Route(Put, [Param], UpdateFloor),
    Route(Delete, [Param], DeleteFloor)]

  function Handle(m: Method, path: seq<string>, auth: Result<Principal, HttpError>, b: Body): Result<Handler, Refusal> {
    Dispatch(Layers, m, path, auth, Validates(b))
  }

  /** Any authenticated user, whatever the role, reaches the listing and the lookup. */
  lemma ReadsNeedOnlyAuthentication(p: Principal, b: Body, id: string)
    requires id != ""
    ensures Handle(Get, [], Ok(p), b) == Ok(GetFloors)
    ensures Handle(Get, [id], Ok(p), b) == Ok(GetFloorById)
  {
    assert SegmentMatches(Param, id);
    FirstStopSkips(Layers, 0, 1, Get, [id], p);
  }

  /** Every write that reaches a handler comes from an admin; anyone else is answered 403
      on every path of those methods. */
  lemma WritesNeedAdmin(m: Method, path: seq<string>, p: Principal, b: Body)
    requires m != Get
    ensures Handle(m, path, Ok(p), b).Ok? ==> HasRoleAmong(p, ["admin"])
    ensures !HasRoleAmong(p, ["admin"]) ==> Handle(m, path, Ok(p), b) == Err(Refused(InsufficientPermissions))
  {
    GateGuards(Layers, 2, m, path, p, Validates(b));
  }

  /** An admin reaches creation when the body passes `createFloorSchema`. */
  lemma AdminCreatesFloor(p: Principal, b: Body)
    requires HasRoleAmong(p, ["admin"])
    ensures Handle(Post, [], Ok(p), b) == (if CreateFloorBody(b) then Ok(CreateFloor) else Err(InvalidBody))
  {
    FirstStopSkips(Layers, 0, 3, Post, [], p);
    AnsweredByRoute(Layers, 3, Post, [], p, Validates(b));
  }

  /** An admin reaches the update when the body passes `updateFloorSchema`. */
  lemma AdminUpdatesFloor(p: Principal, b: Body, id: string)
    requires HasRoleAmong(p, ["admin"]) && id != ""
    ensures Handle(Put, [id], Ok(p), b) == (if UpdateFloorBody(b) then Ok(UpdateFloor) else Err(InvalidBody))
  {
    assert SegmentMatches(Param, id);
    FirstStopSkips(Layers, 0, 4, Put, [id], p);
    AnsweredByRoute(Layers, 4, Put, [id], p, Validates(b));
  }

  /** An admin reaches the deletion, which validates no body. */
  lemma AdminDeletesFloor(p: Principal, b: Body, id: string)
    requires HasRoleAmong(p, ["admin"]) && id != ""
    ensures Handle(Delete, [id], Ok(p), b) == Ok(DeleteFloor)
  {
    assert SegmentMatches(Param, id);
    FirstStopSkips(Layers, 0, 5, Delete, [id], p);
    AnsweredByRoute(Layers, 5, Delete, [id], p, Validates(b));
  }

  /** The fields the controller reads from a body, each absent unless it has the right
      JSON type. */
  function BodyOf(b: Body): (r: Floors.FloorBody)
    ensures r.name == StrOf(b, "name") && r.level == NumOf(b, "level") && r.description == StrOf(b, "description")
    ensures r.accessRoles == StringsOf(b, "accessRoles") && r.isActive == BoolOf(b, "isActive")
  {
    Floors.FloorBody(StrOf(b, "name"), NumOf(b, "level"), StrOf(b, "description"),
                     StringsOf(b, "accessRoles"), BoolOf(b, "isActive"))
  }

  /** A creation body the route accepts yields a floor the model's schema accepts, unless
      its name is blank: `min(2)` counts the spaces the `trim` setter removes. */
  lemma CreateAcceptedIsValid(id: Id, b: Body, now: Time)
    requires CreateFloorBody(b)
    ensures Floors.SchemaValid(Floors.NewFloor(id, BodyOf(b), now)) <==> Text.Trim(b["name"].s) != ""
  {
    var body := BodyOf(b);
    Floors.NewFloorValidity(id, body, now);
    var roles := body.accessRoles.value;
    assert forall i :: 0 <= i < |roles| ==> Accounts.IsStaffRole(roles[i]) by {
      forall i | 0 <= i < |roles| ensures Accounts.IsStaffRole(roles[i]) {
        assert roles[i] == b["accessRoles"].items[i].s;
      }
    }
    assert Floors.UpdateValid(body.(name := None));
  }

  /** An update body the route accepts passes the model's update validators, unless it
      carries a blank name. */
  lemma UpdateAcceptedIsValid(b: Body)
    requires UpdateFloorBody(b)
    requires "name" in b ==> Text.Trim(b["name"].s) != ""
    ensures Floors.UpdateValid(BodyOf(b))
  {
    var body := BodyOf(b);
    if body.accessRoles.Some? {
      var roles := body.accessRoles.value;
      forall i | 0 <= i < |roles| ensures Accounts.IsStaffRole(roles[i]) {
        assert roles[i] == b["accessRoles"].items[i].s;
      }
    }
  }
}
