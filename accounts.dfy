/** User accounts and their roles: the schema of src/models/User.ts (constraints, the
    `fullName` virtual, the password pre-save rule and the `toJSON` transform) and the role
    and permission records of src/models/Role.ts and src/models/Permission.ts. */
module Accounts {
  import opened Wrappers
  import Text

  /** A role with its permissions. Permissions are held as their names: the role as the
      middleware sees it, with permission documents already resolved to their `name`. */
  datatype Role = Role(id: Id, name: string, permissions: seq<string>, accessLevel: int)

  datatype User = User(
    id: Id,
    email: string,
    /** The stored password: the bcrypt hash once saved. */
    password: string,
    firstName: string,
    lastName: string,
    role: Id,
    department: string,
    jobTitle: string,
    phone: Option<string>,
    emergencyContact: Option<string>,
    badgeNumber: string,
    accessLevel: int,
    isActive: bool,
    lastLogin: Option<Time>,
    createdAt: Time,
    updatedAt: Time)

  /** The six department names the schema's `enum` accepts. */
  predicate IsDepartment(d: string) {
    d in ["Engineering", "Security", "Human Resources", "Marketing", "Finance", "Operations"]
  }

  /** The four role names the shift and floor schemas accept in their role lists. */
  predicate IsStaffRole(r: string) {
    r in ["admin", "hr", "security", "employee"]
  }

  /** The `lowercase` then `trim` setters of `email`. */
  function NormalizeEmail(s: string): (r: string)
    ensures Text.Trimmed(r) && Text.IsLower(r)
    ensures |r| <= |s|
    ensures r == Text.Trim(Text.Lower(s))
  {
    var l := Text.Lower(s);
    Text.LowerFixpoint(s);
    TrimKeepsLower(l);
    Text.Trim(l)
  }

  /** Trimming removes characters only at the ends, so it keeps a string lower-case. */
  lemma TrimKeepsLower(l: string)
    requires Text.IsLower(l)
    ensures Text.IsLower(Text.Trim(l))
  {
    Text.TrimChars(l);
    var t := Text.Trim(l);
    forall k | 0 <= k < |t| ensures Text.LowerChar(t[k]) == t[k] {
      var j :| 0 <= j < |l| && l[j] == t[k];
    }
  }

  /** Normalising an email twice is normalising it once. */
  lemma NormalizeEmailIdempotent(s: string)
    ensures NormalizeEmail(NormalizeEmail(s)) == NormalizeEmail(s)
  {
    var n := NormalizeEmail(s);
    Text.LowerFixpoint(n);
    Text.TrimmedIsFixpoint(n);
  }

  /** The constraints the schema checks on save: required strings present, `email`,
      `firstName`, `lastName` and the optional contact strings in their set form (lower-cased
      or trimmed), a password of at least 6 characters, a known department, and
      `accessLevel` in 1..10. Validation runs before the hashing hook, so on creation the
      password checked is the plain one. */
  predicate SchemaValid(u: User) {
    && EmailField(u.email)
    && |u.password| >= 6
    && TrimmedField(u.firstName) && TrimmedField(u.lastName)
    && IsDepartment(u.department)
    && u.jobTitle != ""
    && OptionalTrimmed(u.phone) && OptionalTrimmed(u.emergencyContact)
    && u.badgeNumber != ""
    && 1 <= u.accessLevel <= 10
  }

  /** A required string with `trim: true`: present and trimmed. */
  predicate TrimmedField(s: string) {
    s != "" && Text.Trimmed(s)
  }

  /** A required string with `lowercase: true` and `trim: true`. */
  predicate EmailField(s: string) {
    TrimmedField(s) && Text.IsLower(s)
  }

  /** An optional string with `trim: true`. */
  predicate OptionalTrimmed(o: Option<string>) {
    o.Some? ==> Text.Trimmed(o.value)
  }

  /** The `fullName` virtual. */
  function FullName(u: User): (r: string)
    ensures |r| == |u.firstName| + 1 + |u.lastName|
    ensures r[..|u.firstName|] == u.firstName && r[|u.firstName|] == ' '
    ensures r[|u.firstName| + 1..] == u.lastName
  {
    u.firstName + " " + u.lastName
  }

  /** Since a stored first name is trimmed and so never ends in a space, the full name
      determines first and last name when the first name has no space inside. */
  lemma FullNameSplitsAtFirstSpace(u: User, v: User)
    requires FullName(u) == FullName(v)
    requires forall i :: 0 <= i < |u.firstName| ==> u.firstName[i] != ' '
    requires forall i :: 0 <= i < |v.firstName| ==> v.firstName[i] != ' '
    ensures u.firstName == v.firstName && u.lastName == v.lastName
  {
    var f := FullName(u);
    assert forall i :: 0 <= i < |u.firstName| ==> f[i] != ' ';
    assert forall i :: 0 <= i < |v.firstName| ==> f[i] != ' ';
    assert f[|u.firstName|] == ' ' && f[|v.firstName|] == ' ';
    assert u.firstName == f[..|u.firstName|] == v.firstName;
  }

  /** The save hook: when the password path was modified, the plain password is replaced by
      its hash (`hash` stands for bcrypt with a generated salt); otherwise nothing changes. */
  function PreSave(u: User, passwordModified: bool, hash: string -> string): (r: User)
    ensures !passwordModified ==> r == u
    ensures passwordModified ==> r.password == hash(u.password)
    ensures r.(password := u.password) == u
  {
    if passwordModified then u.(password := hash(u.password)) else u
  }

  /** A run of saves of one document: before each save a new plain password may have been
      assigned (`Some`), or the password left alone (`None`). */
  function SaveRun(u: User, plains: seq<Option<string>>, hash: string -> string): User
    decreases |plains|
  {
    if plains == [] then u
    else
      var before := SaveRun(u, plains[..|plains| - 1], hash);
      var p := plains[|plains| - 1];
      if p.Some? then PreSave(before.(password := p.value), true, hash) else PreSave(before, false, hash)
  }

  /** The plain password a run assigned last, if it assigned any. */
  function LastAssigned(plains: seq<Option<string>>): Option<string>
    decreases |plains|
  {
    if plains == [] then None
    else if plains[|plains| - 1].Some? then plains[|plains| - 1]
    else LastAssigned(plains[..|plains| - 1])
  }

  /** Whatever the run, the hook rewrites nothing but the password: the stored password is
      the hash of the plain password assigned last, and a run that never assigned one
      leaves the stored hash (and the whole document) as it was. */
  lemma {:induction false} SaveRunStoresLastHash(u: User, plains: seq<Option<string>>, hash: string -> string)
    ensures SaveRun(u, plains, hash).(password := u.password) == u
    ensures LastAssigned(plains).None? ==> SaveRun(u, plains, hash) == u
    ensures LastAssigned(plains).Some? ==>
      SaveRun(u, plains, hash).password == hash(LastAssigned(plains).value)
    decreases |plains|
  {
    if plains != [] {
      SaveRunStoresLastHash(u, plains[..|plains| - 1], hash);
    }
  }

  /** A value in serialised JSON. */
  datatype Json = JStr(s: string) | JNum(n: int) | JBool(b: bool) | JNull | JRef(ref: Id)

  /** The paths every user document holds, the version key `__v`, and (with
      `virtuals: true`) the `id` and `fullName` virtuals. */
  function RequiredPaths(u: User, version: nat): (d: map<string, Json>)
    ensures "password" in d && "__v" in d
    ensures "fullName" in d && d["fullName"] == JStr(FullName(u))
    ensures "email" in d && d["email"] == JStr(u.email)
    ensures "phone" !in d && "emergencyContact" !in d && "lastLogin" !in d
  {
    map[
      "_id" := JRef(u.id), "id" := JRef(u.id), "email" := JStr(u.email),
      "password" := JStr(u.password), "firstName" := JStr(u.firstName),
      "lastName" := JStr(u.lastName), "fullName" := JStr(FullName(u)),
      "role" := JRef(u.role), "department" := JStr(u.department),
      "jobTitle" := JStr(u.jobTitle),
      "badgeNumber" := JStr(u.badgeNumber), "accessLevel" := JNum(u.accessLevel),
      "isActive" := JBool(u.isActive),
      "createdAt" := JNum(u.createdAt), "updatedAt" := JNum(u.updatedAt),
      "__v" := JNum(version)]
  }

  /** The optional paths `phone`, `emergencyContact` and `lastLogin`: they have no default,
      so an unset one is not in the document at all. */
  function OptionalPaths(u: User): (d: map<string, Json>)
    ensures "phone" in d <==> u.phone.Some?
    ensures "emergencyContact" in d <==> u.emergencyContact.Some?
    ensures "lastLogin" in d <==> u.lastLogin.Some?
    ensures forall k :: k in d ==> k in {"phone", "emergencyContact", "lastLogin"}
  {
    var phone: map<string, Json> := if u.phone.Some? then map["phone" := JStr(u.phone.value)] else map[];
    var contact: map<string, Json> :=
      if u.emergencyContact.Some? then map["emergencyContact" := JStr(u.emergencyContact.value)] else map[];
    var login: map<string, Json> := if u.lastLogin.Some? then map["lastLogin" := JNum(u.lastLogin.value)] else map[];
    phone + contact + login
  }

  /** The document as mongoose holds it before serialisation: the required paths and
      virtuals, and the optional paths that are set. */
  function UserDocument(u: User, version: nat): (d: map<string, Json>)
    ensures "password" in d && "__v" in d
    ensures "fullName" in d && d["fullName"] == JStr(FullName(u))
    ensures "email" in d && d["email"] == JStr(u.email)
    ensures ("phone" in d <==> u.phone.Some?) && ("emergencyContact" in d <==> u.emergencyContact.Some?)
    ensures "lastLogin" in d <==> u.lastLogin.Some?
  {
    RequiredPaths(u, version) + OptionalPaths(u)
  }

  /** The `toJSON` transform: `password` and `__v` are deleted, every other key is kept
      with its value. */
  function ToJson(ret: map<string, Json>): (r: map<string, Json>)
    ensures "password" !in r && "__v" !in r
    ensures forall k :: k in ret && k != "password" && k != "__v" ==> k in r && r[k] == ret[k]
    ensures forall k :: k in r ==> k in ret
  {
    ret - {"password", "__v"}
  }

  /** A serialised user never carries the password or the version key, and carries the
      full name and every other field. */
  lemma SerialisedUserHasNoPassword(u: User, version: nat)
    ensures var j := ToJson(UserDocument(u, version));
      && "password" !in j && "__v" !in j
      && "fullName" in j && j["fullName"] == JStr(u.firstName + " " + u.lastName)
      && "email" in j && j["email"] == JStr(u.email)
      && |j.Keys| == |UserDocument(u, version).Keys| - 2
      && ("phone" in j <==> u.phone.Some?) && ("emergencyContact" in j <==> u.emergencyContact.Some?)
      && ("lastLogin" in j <==> u.lastLogin.Some?)
  {
    var d := UserDocument(u, version);
    var j := ToJson(d);
    var removed := {"password", "__v"};
    assert removed <= d.Keys && |removed| == 2;
    assert j.Keys == d.Keys - removed;
  }

  /** What a creator supplies; `accessLevel` may be absent and defaults to 1. */
  datatype UserInput = UserInput(
    email: string, password: string, firstName: string, lastName: string,
    department: string, jobTitle: string, phone: Option<string>,
    emergencyContact: Option<string>, badgeNumber: string, accessLevel: Option<int>)

  /** `new User(...)` before validation: the setters applied, `accessLevel` defaulting to 1,
      `isActive` to true, and both timestamps `now`. */
  function NewUser(id: Id, input: UserInput, role: Id, now: Time): (u: User)
    ensures u.id == id && u.role == role && u.isActive && u.lastLogin.None?
    ensures u.email == NormalizeEmail(input.email)
    ensures u.firstName == Text.Trim(input.firstName) && u.lastName == Text.Trim(input.lastName)
    ensures u.accessLevel == input.accessLevel.GetOr(1)
    ensures u.password == input.password && u.badgeNumber == input.badgeNumber
    ensures u.department == input.department && u.jobTitle == input.jobTitle
    ensures u.phone == TrimOpt(input.phone) && u.emergencyContact == TrimOpt(input.emergencyContact)
    ensures u.createdAt == now && u.updatedAt == now
  {
    User(id, NormalizeEmail(input.email), input.password, Text.Trim(input.firstName),
         Text.Trim(input.lastName), role, input.department, input.jobTitle,
         TrimOpt(input.phone), TrimOpt(input.emergencyContact), input.badgeNumber,
         input.accessLevel.GetOr(1), true, None, now, now)
  }

  function TrimOpt(o: Option<string>): (r: Option<string>)
    ensures r.Some? <==> o.Some?
    ensures r.Some? ==> Text.Trimmed(r.value) && r.value == Text.Trim(o.value)
  {
    if o.Some? then Some(Text.Trim(o.value)) else None
  }

  /** A new user is valid iff the supplied values are, read through the setters: an
      omitted access level is the valid default. */
  lemma NewUserValidity(id: Id, input: UserInput, role: Id, now: Time)
    ensures SchemaValid(NewUser(id, input, role, now)) <==>
      && NormalizeEmail(input.email) != ""
      && |input.password| >= 6
      && Text.Trim(input.firstName) != "" && Text.Trim(input.lastName) != ""
      && IsDepartment(input.department) && input.jobTitle != "" && input.badgeNumber != ""
      && 1 <= input.accessLevel.GetOr(1) <= 10
  {
    NewUserFields(id, input, role, now);
  }

  /** Field by field, the setters' output passes the field's check iff the input is present. */
  lemma NewUserFields(id: Id, input: UserInput, role: Id, now: Time)
    ensures var u := NewUser(id, input, role, now);
      && EmailField(u.email) == (NormalizeEmail(input.email) != "")
      && TrimmedField(u.firstName) == (Text.Trim(input.firstName) != "")
      && TrimmedField(u.lastName) == (Text.Trim(input.lastName) != "")
      && OptionalTrimmed(u.phone) && OptionalTrimmed(u.emergencyContact)
  {
    TrimmedFieldOfTrim(input.firstName);
    TrimmedFieldOfTrim(input.lastName);
  }

  /** The `trim` setter's output is a valid required field iff it is non-empty. */
  lemma TrimmedFieldOfTrim(s: string)
    ensures TrimmedField(Text.Trim(s)) == (Text.Trim(s) != "")
  {
    Text.TrimIdempotent(s);
  }
}
