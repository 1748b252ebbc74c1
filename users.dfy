/** The user controller (src/controllers/users.ts): the searched, filtered and paged
    listing, lookup by id, creation and update with role resolution by name, duplicate-key
    answers, and deactivation in place of deletion. */
module Users {
  import opened Wrappers
  import Text
  import Listing
  import Pagination
  import opened Accounts

  /** Role lookup by `{ name: { $regex: new RegExp(name, 'i') } }`: a role matches when its
      name contains `name`, ignoring case (the name taken as a literal, unanchored). */
  predicate RoleMatches(role: Role, name: string) {
    Text.ContainsIgnoreCase(role.name, name)
  }

  /** `Role.findOne(...)`: the position of the first matching role in natural order. */
  function FindRoleFrom(roles: seq<Role>, name: string, from: nat): (r: Option<nat>)
    requires from <= |roles|
    ensures r.Some? ==> (from <= r.value < |roles| && RoleMatches(roles[r.value], name)
      && forall j :: from <= j < r.value ==> !RoleMatches(roles[j], name))
    ensures r.None? ==> forall j :: from <= j < |roles| ==> !RoleMatches(roles[j], name)
    decreases |roles| - from
  {
    if from == |roles| then None
    else if RoleMatches(roles[from], name) then Some(from)
    else FindRoleFrom(roles, name, from + 1)
  }

  /** The role `findOne` returns, if any. */
  function FindRole(roles: seq<Role>, name: string): (r: Option<Role>)
    ensures r.None? <==> forall j :: 0 <= j < |roles| ==> !RoleMatches(roles[j], name)
    ensures r.Some? ==> r.value in roles && RoleMatches(r.value, name)
  {
    match FindRoleFrom(roles, name, 0)
    case None => None
    case Some(i) => Some(roles[i])
  }

  /** Since the pattern is unanchored, a fragment of a role name selects that role: `min`
      finds the role named `admin`. */
  lemma RoleLookupIsUnanchored(admin: Role)
    requires admin.name == "admin"
    ensures FindRole([admin], "MIN") == Some(admin)
  {
    assert Text.Lower("admin") == "admin";
    assert Text.Lower("MIN") == "min";
    assert Text.OccursAt("admin", "min", 2);
  }

  /** An empty role name matches every role, so it selects the first one. */
  lemma EmptyRoleNameSelectsFirst(roles: seq<Role>)
    requires roles != []
    ensures FindRole(roles, "") == Some(roles[0])
  {
    Text.EmptyOccurs(Text.Lower(roles[0].name));
  }

  /** The query string of `GET /users`. */
  datatype UserQuery = UserQuery(
    page: Option<int>, limit: Option<int>, search: Option<string>, department: Option<string>)

  predicate Given(f: Option<string>) {
    f.Some? && f.value != ""
  }

  /** The `$or` of case-insensitive matches on first name, last name, email and badge. */
  predicate MatchesSearch(u: User, term: string) {
    Text.ContainsIgnoreCase(u.firstName, term) || Text.ContainsIgnoreCase(u.lastName, term)
    || Text.ContainsIgnoreCase(u.email, term) || Text.ContainsIgnoreCase(u.badgeNumber, term)
  }

  predicate Matches(q: UserQuery, u: User) {
    && (!Given(q.search) || MatchesSearch(u, q.search.value))
    && (!Given(q.department) || q.department.value == "all" || u.department == q.department.value)
  }

  function CreatedAt(u: User): int {
    u.createdAt
  }

  /** `getUsers`: the matching users, newest first, one page of them, and the pagination
      over all matches; a negative skip fails with 500. */
  function GetUsers(docs: seq<User>, q: UserQuery): (r: Result<Listing.Page<User>, HttpError>)
    ensures r.Err? <==> Listing.SkipCount(Listing.QueryInt(q.page, 1), Listing.QueryInt(q.limit, 10)) < 0
    ensures r.Err? ==> r.error == HttpError(500, "Failed to fetch users")
    ensures r.Ok? ==> forall i :: 0 <= i < |r.value.items| ==>
      r.value.items[i] in docs && Matches(q, r.value.items[i])
    ensures r.Ok? ==> Listing.SortedDesc(r.value.items, CreatedAt)
    ensures r.Ok? ==> |r.value.items| <= Listing.Abs(Listing.QueryInt(q.limit, 10))
    ensures r.Ok? ==> |r.value.items| == Listing.PageSize(Listing.Count(docs, u => Matches(q, u)), Listing.QueryInt(q.page, 1), Listing.QueryInt(q.limit, 10))
    ensures r.Ok? ==> forall k :: 0 <= k < |r.value.items| ==>
      r.value.items[k] == Listing.SortDesc(Listing.Filter(docs, u => Matches(q, u)), CreatedAt)[Listing.SkipCount(Listing.QueryInt(q.page, 1), Listing.QueryInt(q.limit, 10)) + k]
    ensures r.Ok? ==> r.value.pagination.total == Listing.Count(docs, u => Matches(q, u))
    ensures r.Ok? ==> r.value.pagination == Pagination.GeneratePagination(Listing.Count(docs, u => Matches(q, u)), Listing.QueryInt(q.page, 1), Listing.QueryInt(q.limit, 10))
  {
    match Listing.ListPage(docs, u => Matches(q, u), CreatedAt, Listing.QueryInt(q.page, 1), Listing.QueryInt(q.limit, 10))
    case None => Err(HttpError(500, "Failed to fetch users"))
    case Some(p) => Ok(p)
  }

  /** The department filter `all` filters nothing. */
  lemma DepartmentAllIgnored(q: UserQuery, u: User)
    requires q.department == Some("all")
    ensures Matches(q, u) <==> Matches(q.(department := None), u)
  {
  }

  /** A search term finds a user by a fragment of the badge number in any case. */
  lemma SearchFindsBadge(u: User, term: string)
    requires term != "" && Text.ContainsIgnoreCase(u.badgeNumber, term)
    ensures Matches(UserQuery(None, None, Some(term), None), u)
  {
  }

  /** No two users of a collection share an email or a badge number (the unique indexes). */
  ghost predicate UniqueKeys(users: map<Id, User>) {
    forall a, b :: a in users && b in users && a != b ==>
      users[a].email != users[b].email && users[a].badgeNumber != users[b].badgeNumber
  }

  /** Whether `u`, stored under `u.id`, collides with another user on a unique key: the
      first violated index in creation order (email before badge number) names the field. */
  function DuplicateKey(users: map<Id, User>, u: User): (r: Option<string>)
    ensures r == Some("email") <==> exists a :: a in users && a != u.id && users[a].email == u.email
    ensures r.None? <==> forall a :: a in users && a != u.id ==>
      users[a].email != u.email && users[a].badgeNumber != u.badgeNumber
    ensures r.Some? ==> r.value == "email" || r.value == "badgeNumber"
  {
    if exists a :: a in users && a != u.id && users[a].email == u.email then Some("email")
    else if exists a :: a in users && a != u.id && users[a].badgeNumber == u.badgeNumber then Some("badgeNumber")
    else None
  }

  /** Storing a user that collides with no other keeps the keys unique. */
  lemma StoreKeepsKeysUnique(users: map<Id, User>, u: User)
    requires UniqueKeys(users) && DuplicateKey(users, u).None?
    ensures UniqueKeys(users[u.id := u])
  {
  }

  /** The store's invariant: `order` lists each stored id once, every user is stored under
      its own id below the next fresh one, and the unique keys hold. */
  ghost predicate StoreValid(order: seq<Id>, users: map<Id, User>, nextId: Id) {
    && Listing.Indexes(order, users)
    && (forall id :: id in users ==> users[id].id == id && id < nextId)
    && UniqueKeys(users)
  }

  /** Storing a colliding-free user under the next fresh id keeps the invariant. */
  lemma StoreNewKeepsValid(order: seq<Id>, users: map<Id, User>, nextId: Id, u: User)
    requires StoreValid(order, users, nextId) && u.id == nextId && DuplicateKey(users, u).None?
    ensures StoreValid(order + [u.id], users[u.id := u], nextId + 1)
  {
    StoreKeepsKeysUnique(users, u);
    Listing.IndexesAppend(order, users, u.id, u);
  }

  /** Replacing a stored user by a colliding-free one with the same id keeps the invariant. */
  lemma StoreReplaceKeepsValid(order: seq<Id>, users: map<Id, User>, nextId: Id, u: User)
    requires StoreValid(order, users, nextId) && u.id in users && DuplicateKey(users, u).None?
    ensures StoreValid(order, users[u.id := u], nextId)
  {
    StoreKeepsKeysUnique(users, u);
    Listing.IndexesReplace(order, users, u.id, u);
  }

  /** Rewriting a stored user without touching its email or badge number collides with
      no other user. */
  lemma SameKeysNoDuplicate(users: map<Id, User>, u: User)
    requires UniqueKeys(users) && u.id in users
    requires u.email == users[u.id].email && u.badgeNumber == users[u.id].badgeNumber
    ensures DuplicateKey(users, u).None?
  {
  }

  /** The body of `POST /users`. */
  datatype CreateRequest = CreateRequest(role: string, input: UserInput)

  /** The body of `PUT /users/:id`: each field optional. */
  datatype UserUpdate = UserUpdate(
    role: Option<string>, email: Option<string>, firstName: Option<string>,
    lastName: Option<string>, department: Option<string>, jobTitle: Option<string>,
    phone: Option<string>, emergencyContact: Option<string>, badgeNumber: Option<string>,
    accessLevel: Option<int>, isActive: Option<bool>)

  /** With `runValidators`, each given field passes its path's validators after its setters. */
  predicate UpdateValid(upd: UserUpdate) {
    && (upd.email.Some? ==> NormalizeEmail(upd.email.value) != "")
    && (upd.firstName.Some? ==> Text.Trim(upd.firstName.value) != "")
    && (upd.lastName.Some? ==> Text.Trim(upd.lastName.value) != "")
    && (upd.department.Some? ==> IsDepartment(upd.department.value))
    && (upd.jobTitle.Some? ==> upd.jobTitle.value != "")
    && (upd.badgeNumber.Some? ==> upd.badgeNumber.value != "")
    && (upd.accessLevel.Some? ==> 1 <= upd.accessLevel.value <= 10)
  }

  function SetOr(o: Option<string>, current: string): string {
    if o.Some? then o.value else current
  }

  /** `findByIdAndUpdate(id, update)`: every given field set through its setter, the role
      replaced when one was resolved, the others kept, and `updatedAt` refreshed. */
  function ApplyUpdate(u: User, upd: UserUpdate, role: Option<Id>, now: Time): (r: User)
    ensures r.id == u.id && r.password == u.password && r.createdAt == u.createdAt
    ensures r.lastLogin == u.lastLogin && r.updatedAt == now
    ensures upd.email.Some? ==> r.email == NormalizeEmail(upd.email.value)
    ensures upd.firstName.Some? ==> r.firstName == Text.Trim(upd.firstName.value)
    ensures upd.lastName.Some? ==> r.lastName == Text.Trim(upd.lastName.value)
    ensures role.Some? ==> r.role == role.value
    ensures upd.department.Some? ==> r.department == upd.department.value
    ensures upd.jobTitle.Some? ==> r.jobTitle == upd.jobTitle.value
    ensures upd.phone.Some? ==> r.phone == Some(Text.Trim(upd.phone.value))
    ensures upd.emergencyContact.Some? ==> r.emergencyContact == Some(Text.Trim(upd.emergencyContact.value))
    ensures upd.badgeNumber.Some? ==> r.badgeNumber == upd.badgeNumber.value
    ensures upd.accessLevel.Some? ==> r.accessLevel == upd.accessLevel.value
    ensures upd.isActive.Some? ==> r.isActive == upd.isActive.value
    ensures upd.email.None? ==> r.email == u.email
    ensures upd.firstName.None? ==> r.firstName == u.firstName
    ensures upd.lastName.None? ==> r.lastName == u.lastName
    ensures role.None? ==> r.role == u.role
    ensures upd.department.None? ==> r.department == u.department
    ensures upd.jobTitle.None? ==> r.jobTitle == u.jobTitle
    ensures upd.phone.None? ==> r.phone == u.phone
    ensures upd.emergencyContact.None? ==> r.emergencyContact == u.emergencyContact
    ensures upd.badgeNumber.None? ==> r.badgeNumber == u.badgeNumber
    ensures upd.accessLevel.None? ==> r.accessLevel == u.accessLevel
    ensures upd.isActive.None? ==> r.isActive == u.isActive
  {
    User(u.id,
         if upd.email.Some? then NormalizeEmail(upd.email.value) else u.email,
         u.password,
         if upd.firstName.Some? then Text.Trim(upd.firstName.value) else u.firstName,
         if upd.lastName.Some? then Text.Trim(upd.lastName.value) else u.lastName,
         role.GetOr(u.role),
         SetOr(upd.department, u.department),
         SetOr(upd.jobTitle, u.jobTitle),
         if upd.phone.Some? then TrimOpt(upd.phone) else u.phone,
         if upd.emergencyContact.Some? then TrimOpt(upd.emergencyContact) else u.emergencyContact,
         SetOr(upd.badgeNumber, u.badgeNumber),
         upd.accessLevel.GetOr(u.accessLevel),
         upd.isActive.GetOr(u.isActive),
         u.lastLogin, u.createdAt, now)
  }

  /** An update that passes its validators keeps a valid user valid. */
  lemma UpdateKeepsSchema(u: User, upd: UserUpdate, role: Option<Id>, now: Time)
    requires SchemaValid(u) && UpdateValid(upd)
    ensures SchemaValid(ApplyUpdate(u, upd, role, now))
  {
    var r := ApplyUpdate(u, upd, role, now);
    if upd.firstName.Some? { TrimmedFieldOfTrim(upd.firstName.value); }
    if upd.lastName.Some? { TrimmedFieldOfTrim(upd.lastName.value); }
    assert r.lastName == (if upd.lastName.Some? then Text.Trim(upd.lastName.value) else u.lastName);
    assert TrimmedField(r.firstName) && TrimmedField(r.lastName);
    assert EmailField(r.email);
    assert OptionalTrimmed(r.phone) && OptionalTrimmed(r.emergencyContact);
  }

  const InvalidRole := HttpError(400, "Invalid role specified")
  const UserNotFound := HttpError(404, "User not found")

  function AlreadyExists(field: string): HttpError {
    HttpError(400, field + " already exists")
  }

  /** The answer of `createUser` for a store holding `users`, whose next fresh id is `id`:
      the role is resolved by name (400 when none matches); the new document is validated
      (a failure falls to the handler's generic 500); its password is hashed by the save
      hook; a collision on email or badge number answers 400 naming the field. */
  function CreateOutcome(users: map<Id, User>, roles: seq<Role>, id: Id, req: CreateRequest,
                         now: Time, hash: string -> string): (r: Result<User, HttpError>)
    ensures r.Ok? ==> r.value.id == id && DuplicateKey(users, r.value).None?
  {
    match FindRole(roles, req.role)
    case None => Err(InvalidRole)
    case Some(role) =>
      var plain := NewUser(id, req.input, role.id, now);
      if !SchemaValid(plain) then Err(HttpError(500, "Failed to create user"))
      else
        var u := PreSave(plain, true, hash);
        match DuplicateKey(users, u)
        case Some(field) => Err(AlreadyExists(field))
        case None => Ok(u)
  }

  /** What `createUser` answers, case by case: an unknown role is 400, an invalid document
      500, a duplicate key 400 naming the field; a success is the new valid user, active,
      with its password hashed and no key shared with any stored user. */
  lemma CreateOutcomeCases(users: map<Id, User>, roles: seq<Role>, id: Id, req: CreateRequest,
                           now: Time, hash: string -> string)
    ensures var r := CreateOutcome(users, roles, id, req, now, hash);
      && (FindRole(roles, req.role).None? <==> r == Err(InvalidRole))
      && (FindRole(roles, req.role).Some? ==> (
        var plain := NewUser(id, req.input, FindRole(roles, req.role).value.id, now);
        && (!SchemaValid(plain) <==> r == Err(HttpError(500, "Failed to create user")))
        && (SchemaValid(plain) ==> (
          && (r.Ok? <==> DuplicateKey(users, PreSave(plain, true, hash)).None?)
          && (r.Ok? ==> (r.value == PreSave(plain, true, hash) && r.value.isActive
                && r.value.password == hash(req.input.password)
                && r.value.email == NormalizeEmail(req.input.email)
                && r.value.role == FindRole(roles, req.role).value.id))
          && (r.Err? ==> r.error == AlreadyExists("email") || r.error == AlreadyExists("badgeNumber"))))))
  {
    var r := CreateOutcome(users, roles, id, req, now, hash);
    match FindRole(roles, req.role)
    case None =>
    case Some(role) =>
      var plain := NewUser(id, req.input, role.id, now);
      if SchemaValid(plain) {
        var dup := DuplicateKey(users, PreSave(plain, true, hash));
        if dup.Some? {
          assert r == Err(AlreadyExists(dup.value));
          assert dup.value == "email" || dup.value == "badgeNumber";
          assert AlreadyExists(dup.value).message[0] != InvalidRole.message[0];
        }
      }
  }

  /** `getUserById`: the user, or 404. */
  function GetUserById(users: map<Id, User>, id: Id): (r: Result<User, HttpError>)
    ensures r.Ok? <==> id in users
    ensures r.Ok? ==> r.value == users[id]
    ensures r.Err? ==> r.error == UserNotFound
  {
    if id in users then Ok(users[id]) else Err(UserNotFound)
  }

  /** The user collection with the role collection it refers to. */
  class UserStore {
    var users: map<Id, User>
    var order: seq<Id>
    var nextId: Id
    /** The role collection in natural order; the user controller only reads it. */
    const roles: seq<Role>

    ghost predicate Valid()
      reads this
    {
      StoreValid(order, users, nextId)
    }

    function Docs(): seq<User>
      reads this
      requires Valid()
    {
      Listing.Collect(order, users)
    }

    constructor (roles: seq<Role>)
      ensures Valid() && users == map[] && order == [] && this.roles == roles
    {
      users := map[];
      order := [];
      nextId := 0;
      this.roles := roles;
    }

    /** `createUser`: the answer is `CreateOutcome` over the store as it was; only a
        success stores the user, under the fresh id, at the end of the natural order. */
    method CreateUser(req: CreateRequest, now: Time, hash: string -> string) returns (r: Result<User, HttpError>)
      requires Valid()
      modifies this
      ensures Valid()
      ensures r == CreateOutcome(old(users), roles, old(nextId), req, now, hash)
      ensures r.Err? ==> users == old(users) && order == old(order)
      ensures r.Ok? ==> (r.value.id == old(nextId) && users == old(users)[old(nextId) := r.value]
        && order == old(order) + [old(nextId)])
    {
      r := CreateOutcome(users, roles, nextId, req, now, hash);
      if r.Ok? {
        StoreNew(r.value);
      }
    }

    /** The insertion of `save()`: a user free of collisions stored under the fresh id. */
    method StoreNew(u: User)
      requires Valid() && u.id == nextId && DuplicateKey(users, u).None?
      modifies this
      ensures Valid() && nextId == old(nextId) + 1
      ensures users == old(users)[u.id := u] && order == old(order) + [u.id]
    {
      StoreNewKeepsValid(order, users, nextId, u);
      users := users[u.id := u];
      order := order + [u.id];
      nextId := nextId + 1;
    }

    /** `updateUser`: a given, non-empty role name is resolved first (400 when none
        matches); the fields are validated before the lookup (500); an unknown id is 404;
        a collision on a unique key is 400. Only a success changes the store, and only
        that user. */
    method UpdateUser(id: Id, upd: UserUpdate, now: Time) returns (r: Result<User, HttpError>)
      requires Valid()
      modifies this
      ensures Valid() && order == old(order) && nextId == old(nextId)
      ensures Given(upd.role) && FindRole(roles, upd.role.value).None? ==> r == Err(InvalidRole)
      ensures r.Err? ==> users == old(users)
      ensures r.Ok? ==> UpdateValid(upd) && id in old(users)
      ensures !UpdateValid(upd) && !(Given(upd.role) && FindRole(roles, upd.role.value).None?) ==>
        r == Err(HttpError(500, "Failed to update user"))
      ensures UpdateValid(upd) && !(Given(upd.role) && FindRole(roles, upd.role.value).None?) && id !in old(users) ==>
        r == Err(UserNotFound)
      ensures UpdateValid(upd) && !(Given(upd.role) && FindRole(roles, upd.role.value).None?) && id in old(users) ==> (
        var role := if Given(upd.role) then Some(FindRole(roles, upd.role.value).value.id) else None;
        var dup := DuplicateKey(old(users), ApplyUpdate(old(users)[id], upd, role, now));
        && (r.Ok? <==> dup.None?)
        && (dup.Some? ==> r == Err(AlreadyExists(dup.value))))
      ensures r.Ok? ==> (
        var role := if Given(upd.role) then Some(FindRole(roles, upd.role.value).value.id) else None;
        && r.value == ApplyUpdate(old(users)[id], upd, role, now)
        && users == old(users)[id := r.value])
    {
      var role: Option<Id> := None;
      if Given(upd.role) {
        var found := FindRole(roles, upd.role.value);
        if found.None? {
          return Err(InvalidRole);
        }
        role := Some(found.value.id);
      }
      if !UpdateValid(upd) {
        return Err(HttpError(500, "Failed to update user"));
      }
      if id !in users {
        return Err(UserNotFound);
      }
      var u := ApplyUpdate(users[id], upd, role, now);
      var dup := DuplicateKey(users, u);
      if dup.Some? {
        return Err(AlreadyExists(dup.value));
      }
      StoreReplaceKeepsValid(order, users, nextId, u);
      users := users[id := u];
      r := Ok(u);
    }

    /** The login's `user.lastLogin = new Date(); user.save()`: the stored user gets the login
        time, and the timestamps plugin refreshes `updatedAt`; no other field or user changes,
        since the save hook leaves an unmodified password alone. */
    method RecordLogin(id: Id, now: Time)
      requires Valid() && id in users
      modifies this
      ensures Valid() && order == old(order) && nextId == old(nextId)
      ensures users == old(users)[id := old(users)[id].(lastLogin := Some(now), updatedAt := now)]
    {
      var u := users[id].(lastLogin := Some(now), updatedAt := now);
      SameKeysNoDuplicate(users, u);
      StoreReplaceKeepsValid(order, users, nextId, u);
      users := users[id := u];
    }

    /** `deleteUser`: deactivation. The record stays, with `isActive` false and every other
        field but `updatedAt` as it was; an unknown id is 404 with no change. */
    method DeleteUser(id: Id, now: Time) returns (r: Result<User, HttpError>)
      requires Valid()
      modifies this
      ensures Valid() && order == old(order) && nextId == old(nextId)
      ensures id !in old(users) ==> r == Err(UserNotFound) && users == old(users)
      ensures id in old(users) ==> (
        && r == Ok(old(users)[id].(isActive := false, updatedAt := now))
        && users == old(users)[id := r.value])
    {
      if id !in users {
        return Err(UserNotFound);
      }
      var u := users[id].(isActive := false, updatedAt := now);
      users := users[id := u];
      r := Ok(u);
    }
  }

  /** A deactivated user keeps its place in the collection and is still found by id. */
  method DeactivatedUserStillListed(store: UserStore, id: Id, now: Time)
    requires store.Valid() && id in store.users
    modifies store
    ensures id in store.users && !store.users[id].isActive
    ensures GetUserById(store.users, id).Ok?
    ensures store.order == old(store.order)
  {
    var _ := store.DeleteUser(id, now);
  }
}
