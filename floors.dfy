/** Floors: the schema of src/models/Floor.ts and the floor controller of
    src/controllers/floors.ts — a name search over a listing ordered by level, creation from
    the four floor fields, validated update, and deactivation in place of deletion. */
module Floors {
  import opened Wrappers
  import Text
  import Listing
  import Pagination
  import Accounts

  /** A floor. `level` is absent only in a document the schema refuses. */
  datatype Floor = Floor(
    id: Id, name: string, level: Option<int>, description: string,
    accessRoles: seq<string>, isActive: bool, createdAt: Time, updatedAt: Time)

  /** The schema's checks on a stored floor: a trimmed non-empty name, a level of at least 0,
      a non-empty description and each access role one of the four role names. */
  predicate SchemaValid(f: Floor) {
    && Accounts.TrimmedField(f.name)
    && f.level.Some? && f.level.value >= 0
    && f.description != ""
    && (forall i :: 0 <= i < |f.accessRoles| ==> Accounts.IsStaffRole(f.accessRoles[i]))
  }

  /** A request body for create or update: every field may be absent. */
  datatype FloorBody = FloorBody(
    name: Option<string>, level: Option<int>, description: Option<string>,
    accessRoles: Option<seq<string>>, isActive: Option<bool>)

  /** `new Floor({ name, level, description, accessRoles })`: only those four fields are
      taken from the body (an absent string is empty, an absent list is empty, an absent
      level stays absent), the name goes through its `trim` setter, and the floor is
      active. */
  function NewFloor(id: Id, b: FloorBody, now: Time): (f: Floor)
    ensures f.id == id && f.isActive && f.createdAt == now && f.updatedAt == now
    ensures f.name == Text.Trim(b.name.GetOr("")) && f.level == b.level
    ensures f.description == b.description.GetOr("") && f.accessRoles == b.accessRoles.GetOr([])
  {
    Floor(id, Text.Trim(b.name.GetOr("")), b.level, b.description.GetOr(""),
          b.accessRoles.GetOr([]), true, now, now)
  }

  /** An `isActive` in the creation body is ignored: a new floor is always active. */
  lemma CreateIgnoresIsActive(id: Id, b: FloorBody, now: Time)
    ensures NewFloor(id, b.(isActive := Some(false)), now) == NewFloor(id, b, now)
    ensures NewFloor(id, b, now).isActive
  {
  }

  /** `findByIdAndUpdate` with `runValidators`: each given field passes its path's checks. */
  predicate UpdateValid(b: FloorBody) {
    && (b.name.Some? ==> Text.Trim(b.name.value) != "")
    && (b.level.Some? ==> b.level.value >= 0)
    && (b.description.Some? ==> b.description.value != "")
    && (b.accessRoles.Some? ==>
          forall i :: 0 <= i < |b.accessRoles.value| ==> Accounts.IsStaffRole(b.accessRoles.value[i]))
  }

  /** A creation body passes the schema exactly when it carries a name that is not blank, a
      level and a description, and the given fields pass their checks. */
  lemma NewFloorValidity(id: Id, b: FloorBody, now: Time)
    ensures SchemaValid(NewFloor(id, b, now)) <==>
      && Text.Trim(b.name.GetOr("")) != ""
      && b.level.Some? && b.description.Some?
      && UpdateValid(b.(name := None))
  {
    Accounts.TrimmedFieldOfTrim(b.name.GetOr(""));
  }

  /** The update: every given field set (the name through its setter), the others kept,
      and `updatedAt` refreshed. */
  function ApplyUpdate(f: Floor, b: FloorBody, now: Time): (r: Floor)
    ensures r.id == f.id && r.createdAt == f.createdAt && r.updatedAt == now
    ensures r.name == (if b.name.Some? then Text.Trim(b.name.value) else f.name)
    ensures r.level == (if b.level.Some? then b.level else f.level)
    ensures r.description == b.description.GetOr(f.description)
    ensures r.accessRoles == b.accessRoles.GetOr(f.accessRoles)
    ensures r.isActive == b.isActive.GetOr(f.isActive)
  {
    Floor(f.id, if b.name.Some? then Text.Trim(b.name.value) else f.name,
          if b.level.Some? then b.level else f.level,
          b.description.GetOr(f.description), b.accessRoles.GetOr(f.accessRoles),
          b.isActive.GetOr(f.isActive), f.createdAt, now)
  }

  /** An update that passes its validators keeps a valid floor valid. */
  lemma UpdateKeepsSchema(f: Floor, b: FloorBody, now: Time)
    requires SchemaValid(f) && UpdateValid(b)
    ensures SchemaValid(ApplyUpdate(f, b, now))
  {
    if b.name.Some? {
      Accounts.TrimmedFieldOfTrim(b.name.value);
    }
  }

  /** The query string of `GET /floors`. */
  datatype FloorQuery = FloorQuery(page: Option<int>, limit: Option<int>, search: Option<string>)

  /** The name filter; an absent or empty search term filters nothing. Active and inactive
      floors alike are listed. */
  predicate Matches(q: FloorQuery, f: Floor) {
    q.search.None? || q.search.value == "" || Text.ContainsIgnoreCase(f.name, q.search.value)
  }

  /** `.sort({ level: 1 })` as a descending sort: the negated level, with a missing level
      placed first as the database places a missing value first. */
  function LevelKey(f: Floor): (k: int)
    ensures f.level.Some? ==> k == -f.level.value
    ensures f.level.Some? && f.level.value >= 0 ==> k <= 0
    ensures f.level.None? ==> k > 0
  {
    if f.level.Some? then -f.level.value else 1
  }

  /** Levels never decrease from left to right. */
  ghost predicate LevelsAscending(s: seq<Floor>) {
    forall i, j :: 0 <= i < j < |s| ==> s[i].level.Some? && s[j].level.Some? ==> s[i].level.value <= s[j].level.value
  }

  /** A sequence sorted by descending `LevelKey` lists the floors by ascending level. */
  lemma SortedByKeyIsAscending(s: seq<Floor>)
    requires Listing.SortedDesc(s, LevelKey)
    ensures LevelsAscending(s)
  {
    forall i, j | 0 <= i < j < |s| && s[i].level.Some? && s[j].level.Some?
      ensures s[i].level.value <= s[j].level.value
    {
      assert LevelKey(s[i]) >= LevelKey(s[j]);
    }
  }

  /** `getFloors`: the floors whose name contains the term, lowest level first, one page of
      them, and the pagination over all matches; a negative skip fails with 500. */
  function GetFloors(docs: seq<Floor>, q: FloorQuery): (r: Result<Listing.Page<Floor>, HttpError>)
    ensures r.Err? <==> Listing.SkipCount(Listing.QueryInt(q.page, 1), Listing.QueryInt(q.limit, 10)) < 0
    ensures r.Err? ==> r.error == HttpError(500, "Failed to fetch floors")
    ensures r.Ok? ==> forall i :: 0 <= i < |r.value.items| ==>
      r.value.items[i] in docs && Matches(q, r.value.items[i])
    ensures r.Ok? ==> LevelsAscending(r.value.items)
    ensures r.Ok? ==> |r.value.items| <= Listing.Abs(Listing.QueryInt(q.limit, 10))
    ensures r.Ok? ==> |r.value.items| == Listing.PageSize(Listing.Count(docs, f => Matches(q, f)), Listing.QueryInt(q.page, 1), Listing.QueryInt(q.limit, 10))
    ensures r.Ok? ==> forall k :: 0 <= k < |r.value.items| ==>
      r.value.items[k] == Listing.SortDesc(Listing.Filter(docs, f => Matches(q, f)), LevelKey)[Listing.SkipCount(Listing.QueryInt(q.page, 1), Listing.QueryInt(q.limit, 10)) + k]
    ensures r.Ok? ==> r.value.pagination.total == Listing.Count(docs, f => Matches(q, f))
    ensures r.Ok? ==> r.value.pagination == Pagination.GeneratePagination(Listing.Count(docs, f => Matches(q, f)), Listing.QueryInt(q.page, 1), Listing.QueryInt(q.limit, 10))
  {
    match Listing.ListPage(docs, f => Matches(q, f), LevelKey, Listing.QueryInt(q.page, 1), Listing.QueryInt(q.limit, 10))
    case None => Err(HttpError(500, "Failed to fetch floors"))
    case Some(p) =>
      SortedByKeyIsAscending(p.items);
      Ok(p)
  }

  /** The search looks at the name only, and deactivation does not hide a floor. */
  lemma SearchIgnoresAllButName(q: FloorQuery, f: Floor, g: Floor)
    requires f.name == g.name
    ensures Matches(q, f) == Matches(q, g)
  {
  }

  const FloorNotFound := HttpError(404, "Floor not found")

  /** `getFloorById`: the floor, or 404. */
  function GetFloorById(floors: map<Id, Floor>, id: Id): (r: Result<Floor, HttpError>)
    ensures r.Ok? <==> id in floors
    ensures r.Ok? ==> r.value == floors[id]
    ensures r.Err? ==> r.error == FloorNotFound
  {
    if id in floors then Ok(floors[id]) else Err(FloorNotFound)
  }

  /** The store's invariant: `order` lists each stored id once, each floor is stored under
      its own id below the next fresh one, and each passes the schema. */
  ghost predicate StoreValid(order: seq<Id>, floors: map<Id, Floor>, nextId: Id) {
    && Listing.Indexes(order, floors)
    && (forall id :: id in floors ==> floors[id].id == id && id < nextId)
    && (forall id :: id in floors ==> SchemaValid(floors[id]))
  }

  /** Storing a valid floor under the next fresh id keeps the invariant. */
  lemma StoreNewKeepsValid(order: seq<Id>, floors: map<Id, Floor>, nextId: Id, f: Floor)
    requires StoreValid(order, floors, nextId) && f.id == nextId && SchemaValid(f)
    ensures StoreValid(order + [f.id], floors[f.id := f], nextId + 1)
  {
    Listing.IndexesAppend(order, floors, f.id, f);
  }

  /** Replacing a stored floor by a valid one with the same id keeps the invariant. */
  lemma StoreReplaceKeepsValid(order: seq<Id>, floors: map<Id, Floor>, nextId: Id, f: Floor)
    requires StoreValid(order, floors, nextId) && f.id in floors && SchemaValid(f)
    ensures StoreValid(order, floors[f.id := f], nextId)
  {
    Listing.IndexesReplace(order, floors, f.id, f);
  }

  /** Every floor of a valid store has a level, so a listing of it is in plain ascending
      level order. */
  lemma StoredFloorsHaveLevels(order: seq<Id>, floors: map<Id, Floor>, nextId: Id)
    requires StoreValid(order, floors, nextId)
    ensures forall i :: 0 <= i < |order| ==> floors[order[i]].level.Some?
  {
  }

  /** The floor collection. */
  class FloorStore {
    var floors: map<Id, Floor>
    var order: seq<Id>
    var nextId: Id

    ghost predicate Valid()
      reads this
    {
      StoreValid(order, floors, nextId)
    }

    function Docs(): seq<Floor>
      reads this
      requires Valid()
    {
      Listing.Collect(order, floors)
    }

    constructor ()
      ensures Valid() && floors == map[] && order == []
    {
      floors := map[];
      order := [];
      nextId := 0;
    }

    /** `createFloor`: a floor built from the four fields is stored under a fresh id when it
        passes the schema; otherwise the answer is 500 and nothing is stored. */
    method CreateFloor(b: FloorBody, now: Time) returns (r: Result<Floor, HttpError>)
      requires Valid()
      modifies this
      ensures Valid()
      ensures var f := NewFloor(old(nextId), b, now);
        && (SchemaValid(f) ==> r == Ok(f) && floors == old(floors)[f.id := f] && order == old(order) + [f.id])
        && (!SchemaValid(f) ==>
              r == Err(HttpError(500, "Failed to create floor")) && floors == old(floors) && order == old(order))
    {
      var f := NewFloor(nextId, b, now);
      if !SchemaValid(f) {
        return Err(HttpError(500, "Failed to create floor"));
      }
      StoreNewKeepsValid(order, floors, nextId, f);
      floors := floors[f.id := f];
      order := order + [f.id];
      nextId := nextId + 1;
      r := Ok(f);
    }

    /** `updateFloor`: the given fields are validated before the lookup (500), an unknown id
        is 404, and otherwise that floor alone is updated. */
    method UpdateFloor(id: Id, b: FloorBody, now: Time) returns (r: Result<Floor, HttpError>)
      requires Valid()
      modifies this
      ensures Valid() && order == old(order) && nextId == old(nextId)
      ensures !UpdateValid(b) ==> r == Err(HttpError(500, "Failed to update floor")) && floors == old(floors)
      ensures UpdateValid(b) && id !in old(floors) ==> r == Err(FloorNotFound) && floors == old(floors)
      ensures UpdateValid(b) && id in old(floors) ==>
        r == Ok(ApplyUpdate(old(floors)[id], b, now)) && floors == old(floors)[id := r.value]
    {
      if !UpdateValid(b) {
        return Err(HttpError(500, "Failed to update floor"));
      }
      if id !in floors {
        return Err(FloorNotFound);
      }
      var f := ApplyUpdate(floors[id], b, now);
      UpdateKeepsSchema(floors[id], b, now);
      StoreReplaceKeepsValid(order, floors, nextId, f);
      floors := floors[id := f];
      r := Ok(f);
    }

    /** `deleteFloor`: deactivation; the floor stays, with `isActive` false. An unknown id is
        404 with no change. */
    method DeleteFloor(id: Id, now: Time) returns (r: Result<Floor, HttpError>)
      requires Valid()
      modifies this
      ensures Valid() && order == old(order) && nextId == old(nextId)
      ensures id !in old(floors) ==> r == Err(FloorNotFound) && floors == old(floors)
      ensures id in old(floors) ==>
        r == Ok(old(floors)[id].(isActive := false, updatedAt := now)) && floors == old(floors)[id := r.value]
    {
      if id !in floors {
        return Err(FloorNotFound);
      }
      var f := floors[id].(isActive := false, updatedAt := now);
      assert SchemaValid(f) by {
        assert f.(isActive := floors[id].isActive, updatedAt := floors[id].updatedAt) == floors[id];
      }
      StoreReplaceKeepsValid(order, floors, nextId, f);
      floors := floors[id := f];
      r := Ok(f);
    }
  }
}
