/** The shifts router of src/routes/shifts.ts: the two reads behind `authenticate` only,
    the writes behind `requireRole('hr', 'admin')` as well, and the zod schemas of the
    create and update routes. */
module ShiftRoutes {
  import opened Wrappers
  import Text
  import opened RequestSchema
  import opened Routing
  import opened Authorize
  import Shifts
  import Accounts

  datatype Handler = GetShifts | GetShiftById | CreateShift | UpdateShift | DeleteShift

  const Weekdays: seq<string> := ["Monday", "Tuesday", "Wednesday", "Thursday", "Friday", "Saturday", "Sunday"]
  const StaffRoles: seq<string> := ["admin", "hr", "security", "employee"]

  /** `z.string().regex(/^([0-1]?[0-9]|2[0-3]):[0-5][0-9]$/)`. */
  predicate TimeField(b: Body, k: string) {
    k in b && b[k].Str? && Shifts.IsTime(b[k].s)
  }

  /** `createShiftSchema`. The order of the two times is not checked. */
  predicate CreateShiftBody(b: Body) {
    && StrMin(b, "name", 2)
    && TimeField(b, "startTime") && TimeField(b, "endTime")
    && NonEmptyEnumArray(b, "days", Weekdays)
    && NonEmptyEnumArray(b, "roles", StaffRoles)
  }

  /** `updateShiftSchema`: each field optional under the same checks, and an optional
      boolean `isActive`. */
  predicate UpdateShiftBody(b: Body) {
    && (Absent(b, "name") || StrMin(b, "name", 2))
    && (Absent(b, "startTime") || TimeField(b, "startTime"))
    && (Absent(b, "endTime") || TimeField(b, "endTime"))
    && (Absent(b, "days") || NonEmptyEnumArray(b, "days", Weekdays))
    && (Absent(b, "roles") || NonEmptyEnumArray(b, "roles", StaffRoles))
    && (Absent(b, "isActive") || Boolean(b, "isActive"))
  }

  predicate Accepts(h: Handler, b: Body) {
    match h
    case CreateShift => CreateShiftBody(b)
    case UpdateShift => UpdateShiftBody(b)
    case _ => true
  }

  /** The `validate` steps of the router, for one request body. */
  function Validates(b: Body): Handler -> bool {
    h => Accepts(h, b)
  }

  /** The layers after `authenticate`, in registration order: the gate sits between the
      reads and the writes. */
  const Layers: seq<Layer<Handler>> := [
    Route(Get, [], GetShifts),
    Route(Get, [Param], GetShiftById),
    Gate(["hr", "admin"]),
    Route(Post, [], CreateShift),
    Route(Put, [Param], UpdateShift),
    Route(Delete, [Param], DeleteShift)]

  function Handle(m: Method, path: seq<string>, auth: Result<Principal, HttpError>, b: Body): Result<Handler, Refusal> {
    Dispatch(Layers, m, path, auth, Validates(b))
  }

  /** Any authenticated user, whatever the role, reaches the listing and the lookup. */
  lemma ReadsNeedOnlyAuthentication(p: Principal, b: Body, id: string)
    requires id != ""
    ensures Handle(Get, [], Ok(p), b) == Ok(GetShifts)
    ensures Handle(Get, [id], Ok(p), b) == Ok(GetShiftById)
  {
    assert SegmentMatches(Param, id);
    FirstStopSkips(Layers, 0, 1, Get, [id], p);
  }

  /** Every write that reaches a handler comes from an `hr` or `admin` user; anyone else is
      answered 403 on every path of those methods. */
  lemma WritesNeedHrOrAdmin(m: Method, path: seq<string>, p: Principal, b: Body)
    requires m != Get
    ensures Handle(m, path, Ok(p), b).Ok? ==> HasRoleAmong(p, ["hr", "admin"])
    ensures !HasRoleAmong(p, ["hr", "admin"]) ==> Handle(m, path, Ok(p), b) == Err(Refused(InsufficientPermissions))
  {
    GateGuards(Layers, 2, m, path, p, Validates(b));
  }

  /** An `hr` or `admin` user reaches creation when the body passes `createShiftSchema`. */
  lemma ManagerCreatesShift(p: Principal, b: Body)
    requires HasRoleAmong(p, ["hr", "admin"])
    ensures Handle(Post, [], Ok(p), b) == (if CreateShiftBody(b) then Ok(CreateShift) else Err(InvalidBody))
  {
    FirstStopSkips(Layers, 0, 3, Post, [], p);
    AnsweredByRoute(Layers, 3, Post, [], p, Validates(b));
  }

  /** An `hr` or `admin` user reaches the update when the body passes `updateShiftSchema`. */
  lemma ManagerUpdatesShift(p: Principal, b: Body, id: string)
    requires HasRoleAmong(p, ["hr", "admin"]) && id != ""
    ensures Handle(Put, [id], Ok(p), b) == (if UpdateShiftBody(b) then Ok(UpdateShift) else Err(InvalidBody))
  {
    assert SegmentMatches(Param, id);
    FirstStopSkips(Layers, 0, 4, Put, [id], p);
    AnsweredByRoute(Layers, 4, Put, [id], p, Validates(b));
  }

  /** An `hr` or `admin` user reaches the deletion, which validates no body. */
  lemma ManagerDeletesShift(p: Principal, b: Body, id: string)
    requires HasRoleAmong(p, ["hr", "admin"]) && id != ""
    ensures Handle(Delete, [id], Ok(p), b) == Ok(DeleteShift)
  {
    assert SegmentMatches(Param, id);
    FirstStopSkips(Layers, 0, 5, Delete, [id], p);
    AnsweredByRoute(Layers, 5, Delete, [id], p, Validates(b));
  }

  /** The fields the controller reads from a body, each absent unless it has the right
      JSON type. */
  function BodyOf(b: Body): (r: Shifts.ShiftBody)
    ensures r.name == StrOf(b, "name") && r.startTime == StrOf(b, "startTime") && r.endTime == StrOf(b, "endTime")
    ensures r.days == StringsOf(b, "days") && r.roles == StringsOf(b, "roles") && r.isActive == BoolOf(b, "isActive")
  {
    Shifts.ShiftBody(StrOf(b, "name"), StrOf(b, "startTime"), StrOf(b, "endTime"),
                     StringsOf(b, "days"), StringsOf(b, "roles"), BoolOf(b, "isActive"))
  }

  /** A creation body the route accepts yields a shift the model's schema accepts, unless
      its name is blank: `min(2)` counts the spaces the `trim` setter removes. */
  lemma CreateAcceptedIsValid(id: Id, b: Body, now: Time)
    requires CreateShiftBody(b)
    ensures Shifts.SchemaValid(Shifts.NewShift(id, BodyOf(b), now)) <==> Text.Trim(b["name"].s) != ""
  {
    var body := BodyOf(b);
    Shifts.NewShiftValidity(id, body, now);
    var days := body.days.value;
    var roles := body.roles.value;
    assert forall i :: 0 <= i < |days| ==> Shifts.IsWeekday(days[i]) by {
      forall i | 0 <= i < |days| ensures Shifts.IsWeekday(days[i]) {
        assert days[i] == b["days"].items[i].s;
      }
    }
    assert forall i :: 0 <= i < |roles| ==> Accounts.IsStaffRole(roles[i]) by {
      forall i | 0 <= i < |roles| ensures Accounts.IsStaffRole(roles[i]) {
        assert roles[i] == b["roles"].items[i].s;
      }
    }
    assert Shifts.UpdateValid(body.(name := None, startTime := None, endTime := None));
  }

  /** The route lets a blank name through, which the model's schema then refuses. */
  lemma BlankNamePassesRoute(id: Id, b: Body, now: Time)
    requires CreateShiftBody(b)
    ensures CreateShiftBody(b["name" := Str("  ")])
    ensures !Shifts.SchemaValid(Shifts.NewShift(id, BodyOf(b["name" := Str("  ")]), now))
  {
    var c := b["name" := Str("  ")];
    assert Text.TrimStart("  ") == "";
    CreateAcceptedIsValid(id, c, now);
  }

  /** An overnight range, ending before it starts, passes the route. */
  lemma OvernightAccepted(b: Body)
    requires CreateShiftBody(b)
    ensures CreateShiftBody(b["startTime" := Str("22:00")]["endTime" := Str("06:00")])
  {
    Shifts.TimeExamples();
    assert Shifts.IsTime("22:00") && Shifts.IsTime("06:00");
  }

  /** An update body the route accepts passes the model's update validators, unless it
      carries a blank name. */
  lemma UpdateAcceptedIsValid(b: Body)
    requires UpdateShiftBody(b)
    requires "name" in b ==> Text.Trim(b["name"].s) != ""
    ensures Shifts.UpdateValid(BodyOf(b))
  {
  }
}
