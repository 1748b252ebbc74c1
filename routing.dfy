/** How an Express router of src/routes decides a request. Every router here first runs
    `authenticate` on every request (`router.use(authenticate)`); then its layers are tried
    in registration order: a `requireRole` layer either passes the request on or answers,
    and the first route whose method and path match handles the request, after its
    `validate` step when it has one. A request no layer answers falls through to the
    application's not-found handler. */
module Routing {
  import opened Wrappers
  import Text
  import opened Authorize

  datatype Method = Get | Post | Put | Delete

  /** One segment of a route path: a literal such as `generate`, or a `:param`. */
  datatype Pattern = Lit(name: string) | Param

  /** A layer after `authenticate`: `router.use(requireRole(...roles))`, or a route. */
  datatype Layer<H> = Gate(roles: seq<string>) | Route(verb: Method, pattern: seq<Pattern>, handler: H)

  /** Why a request does not reach a handler: an answer from `authenticate` or a gate, the
      `validate` step's refusal, or no matching route. */
  datatype Refusal = Refused(error: HttpError) | InvalidBody | NoRoute

  /** Literals are compared case-insensitively (Express's default routing): the routers'
      literals are written in lower case, so a segment matches one when its lower-casing
      does. A parameter takes any non-empty segment. */
  predicate SegmentMatches(p: Pattern, seg: string) {
    match p
    case Lit(name) => Text.Lower(seg) == name
    case Param => seg != ""
  }

  /** A path, split at `/` below the router's mount point, matches a pattern segment by
      segment. */
  predicate PathMatches(pattern: seq<Pattern>, path: seq<string>) {
    |pattern| == |path| && forall i :: 0 <= i < |path| ==> SegmentMatches(pattern[i], path[i])
  }

  /** A layer answers the request itself: a gate the principal fails, or a matching route. */
  predicate Stops<H>(l: Layer<H>, m: Method, path: seq<string>, p: Principal) {
    match l
    case Gate(roles) => !HasRoleAmong(p, roles)
    case Route(verb, pattern, _) => verb == m && PathMatches(pattern, path)
  }

  /** The position of the first layer from `from` on that answers the request. */
  function FirstStop<H>(layers: seq<Layer<H>>, from: nat, m: Method, path: seq<string>, p: Principal): (r: Option<nat>)
    ensures r.Some? ==> from <= r.value < |layers|
    decreases |layers| - from
  {
    if from >= |layers| then None
    else if Stops(layers[from], m, path, p) then Some(from)
    else FirstStop(layers, from + 1, m, path, p)
  }

  /** `FirstStop` finds the first answering layer, and none exactly when no layer answers. */
  lemma {:induction false} FirstStopIsFirst<H>(layers: seq<Layer<H>>, from: nat, m: Method, path: seq<string>, p: Principal)
    ensures var r := FirstStop(layers, from, m, path, p);
      && (r.Some? ==> Stops(layers[r.value], m, path, p))
      && (r.Some? ==> forall j :: from <= j < r.value ==> !Stops(layers[j], m, path, p))
      && (r.None? ==> forall j :: from <= j < |layers| ==> !Stops(layers[j], m, path, p))
    decreases |layers| - from
  {
    if from < |layers| && !Stops(layers[from], m, path, p) {
      FirstStopIsFirst(layers, from + 1, m, path, p);
    }
  }

  /** Layers that do not answer are passed over: the search from `from` ends where the
      search from `to` does. */
  lemma {:induction false} FirstStopSkips<H>(layers: seq<Layer<H>>, from: nat, to: nat, m: Method, path: seq<string>, p: Principal)
    requires from <= to <= |layers|
    requires forall j :: from <= j < to ==> !Stops(layers[j], m, path, p)
    ensures FirstStop(layers, from, m, path, p) == FirstStop(layers, to, m, path, p)
    decreases |layers| - from
  {
    if from < to {
      FirstStopSkips(layers, from + 1, to, m, path, p);
    }
  }

  /** The whole router: `authenticate` answers first when it refuses; otherwise the first
      layer that answers decides — a gate with its `requireRole` error, a route with its
      handler when `accepts` says its body passes validation. */
  function Dispatch<H>(layers: seq<Layer<H>>, m: Method, path: seq<string>,
                       auth: Result<Principal, HttpError>, accepts: H -> bool): (r: Result<H, Refusal>)
    ensures auth.Err? ==> r == Err(Refused(auth.error))
    ensures r == Err(NoRoute) <==> auth.Ok? && FirstStop(layers, 0, m, path, auth.value).None?
    ensures r.Ok? <==>
      && auth.Ok? && FirstStop(layers, 0, m, path, auth.value).Some?
      && layers[FirstStop(layers, 0, m, path, auth.value).value].Route?
      && accepts(layers[FirstStop(layers, 0, m, path, auth.value).value].handler)
    ensures r.Ok? ==> r.value == layers[FirstStop(layers, 0, m, path, auth.value).value].handler
  {
    if auth.Err? then Err(Refused(auth.error))
    else
      var stop := FirstStop(layers, 0, m, path, auth.value);
      FirstStopIsFirst(layers, 0, m, path, auth.value);
      if stop.None? then Err(NoRoute)
      else match layers[stop.value]
        case Gate(roles) => Err(Refused(RequireRole(Some(auth.value), roles).error))
        case Route(_, _, h) => if accepts(h) then Ok(h) else Err(InvalidBody)
  }

  /** A gate whose every earlier layer is a route of another method guards every request
      of method `m`: whatever reaches a handler holds one of the gate's roles, and a
      principal holding none of them is answered 403 whatever the path. */
  lemma GateGuards<H>(layers: seq<Layer<H>>, g: nat, m: Method, path: seq<string>, p: Principal, accepts: H -> bool)
    requires g < |layers| && layers[g].Gate?
    requires forall j :: 0 <= j < g ==> layers[j].Route? && layers[j].verb != m
    ensures Dispatch(layers, m, path, Ok(p), accepts).Ok? ==> HasRoleAmong(p, layers[g].roles)
    ensures !HasRoleAmong(p, layers[g].roles) ==>
      Dispatch(layers, m, path, Ok(p), accepts) == Err(Refused(InsufficientPermissions))
  {
    var stop := FirstStop(layers, 0, m, path, p);
    FirstStopIsFirst(layers, 0, m, path, p);
    if !HasRoleAmong(p, layers[g].roles) {
      assert Stops(layers[g], m, path, p);
      assert stop.Some? && stop.value == g;
    }
  }

  /** Once the layer that answers is known to be a route, the handler runs when its body
      validates. */
  lemma AnsweredByRoute<H>(layers: seq<Layer<H>>, i: nat, m: Method, path: seq<string>, p: Principal, accepts: H -> bool)
    requires FirstStop(layers, 0, m, path, p) == Some(i) && i < |layers| && layers[i].Route?
    ensures Dispatch(layers, m, path, Ok(p), accepts) ==
      (if accepts(layers[i].handler) then Ok(layers[i].handler) else Err(InvalidBody))
  {
  }

  /** Without gates, which layer answers does not depend on who asks. */
  lemma {:induction false} RoutesOnlyIgnorePrincipal<H>(layers: seq<Layer<H>>, from: nat, m: Method, path: seq<string>, p: Principal, q: Principal)
    requires forall j :: 0 <= j < |layers| ==> layers[j].Route?
    ensures FirstStop(layers, from, m, path, p) == FirstStop(layers, from, m, path, q)
    decreases |layers| - from
  {
    if from < |layers| {
      RoutesOnlyIgnorePrincipal(layers, from + 1, m, path, p, q);
    }
  }

  /** A router without gates needs authentication only: every authenticated principal gets
      the same answer. */
  lemma RoutesOnlyNeedAuthentication<H>(layers: seq<Layer<H>>, m: Method, path: seq<string>, p: Principal, q: Principal, accepts: H -> bool)
    requires forall j :: 0 <= j < |layers| ==> layers[j].Route?
    ensures Dispatch(layers, m, path, Ok(p), accepts) == Dispatch(layers, m, path, Ok(q), accepts)
  {
    RoutesOnlyIgnorePrincipal(layers, 0, m, path, p, q);
  }
}
