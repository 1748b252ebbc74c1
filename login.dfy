/** The `login` handler of src/controllers/auth.ts: the credential decision, the login
    time recorded on success, the signed token and the user object returned. Password
    comparison (bcrypt) and token signing (jwt) are parameters. */
module Login {
  import opened Wrappers
  import Text
  import opened Accounts
  import Users
  import RequestSchema

  /** `loginSchema` of the login route: an email address (the `isEmail` parameter) and a
      password of at least 6 characters. */
  predicate LoginBody(b: RequestSchema.Body, isEmail: string -> bool) {
    RequestSchema.Email(b, "email", isEmail) && RequestSchema.StrMin(b, "password", 6)
  }

  /** The only claims the token carries. */
  datatype TokenPayload = TokenPayload(id: Id, email: string)

  /** The body of a successful login: the token and the user object. */
  datatype LoginData = LoginData(token: string, user: map<string, Json>)

  /** Every refused login gets this one answer, whatever the reason. */
  const InvalidCredentials := HttpError(401, "Invalid credentials")

  /** `User.findOne({ email })`: the position of the first user, in natural order, whose
      stored email equals `email`. */
  function FindByEmail(docs: seq<User>, email: string): (r: Option<nat>)
    ensures r.None? <==> forall i :: 0 <= i < |docs| ==> docs[i].email != email
    ensures r.Some? ==> (r.value < |docs| && docs[r.value].email == email
      && forall i :: 0 <= i < r.value ==> docs[i].email != email)
  {
    if docs == [] then None
    else if docs[0].email == email then Some(0)
    else
      match FindByEmail(docs[1..], email)
      case None => None
      case Some(i) => Some(i + 1)
  }

  /** The credential decision: the user found by the email as the schema's setters store it
      (lower-cased, trimmed), provided it is active and the password matches its hash. */
  function Credentials(docs: seq<User>, email: string, password: string,
                       compare: (string, string) -> bool): (r: Result<User, HttpError>)
    ensures r.Err? ==> r.error == InvalidCredentials
    ensures r.Ok? <==> (FindByEmail(docs, NormalizeEmail(email)).Some?
      && docs[FindByEmail(docs, NormalizeEmail(email)).value].isActive
      && compare(password, docs[FindByEmail(docs, NormalizeEmail(email)).value].password))
    ensures r.Ok? ==> (r.value in docs && r.value.isActive && r.value.email == NormalizeEmail(email)
      && compare(password, r.value.password))
  {
    var found := FindByEmail(docs, NormalizeEmail(email));
    if found.None? then Err(InvalidCredentials)
    else
      var u := docs[found.value];
      if !u.isActive || !compare(password, u.password) then Err(InvalidCredentials)
      else Ok(u)
  }

  /** The `user` object of the response: the listed fields and the `fullName` virtual; the
      password is not among them. The role is given by its reference. */
  function UserView(u: User): (r: map<string, Json>)
    ensures "password" !in r && "__v" !in r
    ensures "email" in r && r["email"] == JStr(u.email)
    ensures "lastLogin" in r && r["lastLogin"] == (if u.lastLogin.Some? then JNum(u.lastLogin.value) else JNull)
    ensures "fullName" in r && r["fullName"] == JStr(FullName(u))
  {
    map[
      "_id" := JRef(u.id), "email" := JStr(u.email), "firstName" := JStr(u.firstName),
      "lastName" := JStr(u.lastName), "fullName" := JStr(FullName(u)), "role" := JRef(u.role),
      "department" := JStr(u.department), "jobTitle" := JStr(u.jobTitle),
      "badgeNumber" := JStr(u.badgeNumber), "accessLevel" := JNum(u.accessLevel),
      "isActive" := JBool(u.isActive),
      "lastLogin" := if u.lastLogin.Some? then JNum(u.lastLogin.value) else JNull]
  }

  /** The user as saved by a successful login at `now`. */
  function LoggedIn(u: User, now: Time): (r: User)
    ensures r.lastLogin == Some(now) && r.updatedAt == now
    ensures r.(lastLogin := u.lastLogin, updatedAt := u.updatedAt) == u
  {
    u.(lastLogin := Some(now), updatedAt := now)
  }

  /** `login`: a refused login answers 401 `Invalid credentials` and changes nothing; an
      accepted one records the login time on that user only and answers the token signed
      over the user's id and email, with the user object as saved. */
  method Login(store: Users.UserStore, email: string, password: string, now: Time,
               compare: (string, string) -> bool, sign: TokenPayload -> string)
    returns (r: Result<LoginData, HttpError>)
    requires store.Valid()
    modifies store
    ensures store.Valid() && store.order == old(store.order) && store.nextId == old(store.nextId)
    ensures var c := Credentials(old(store.Docs()), email, password, compare);
      && (c.Err? ==> r == Err(InvalidCredentials) && store.users == old(store.users))
      && (c.Ok? ==> (
        var u := LoggedIn(c.value, now);
        && c.value.id in old(store.users)
        && store.users == old(store.users)[c.value.id := u]
        && r == Ok(LoginData(sign(TokenPayload(u.id, u.email)), UserView(u)))))
  {
    var docs := store.Docs();
    var c := Credentials(docs, email, password, compare);
    if c.Err? {
      return Err(InvalidCredentials);
    }
    var i := FindByEmail(docs, NormalizeEmail(email)).value;
    var id := store.order[i];
    assert c.value == store.users[id] && id == c.value.id;
    store.RecordLogin(id, now);
    var u := LoggedIn(c.value, now);
    r := Ok(LoginData(sign(TokenPayload(u.id, u.email)), UserView(u)));
  }

  /** An unknown email, an inactive user and a wrong password cannot be told apart. */
  lemma RefusalsAlike(docs: seq<User>, e1: string, p1: string, e2: string, p2: string,
                      compare: (string, string) -> bool)
    requires FindByEmail(docs, NormalizeEmail(e1)).None?
    requires FindByEmail(docs, NormalizeEmail(e2)).Some?
    requires var u := docs[FindByEmail(docs, NormalizeEmail(e2)).value];
      !u.isActive || !compare(p2, u.password)
    ensures Credentials(docs, e1, p1, compare) == Credentials(docs, e2, p2, compare) == Err(InvalidCredentials)
  {
  }

  /** Since emails are unique, the lookup finds the one user holding the email. */
  lemma LookupFindsTheHolder(store: Users.UserStore, k: Id, email: string)
    requires store.Valid() && k in store.users && store.users[k].email == NormalizeEmail(email)
    ensures var docs := store.Docs();
      FindByEmail(docs, NormalizeEmail(email)).Some?
      && docs[FindByEmail(docs, NormalizeEmail(email)).value] == store.users[k]
  {
    var docs := store.Docs();
    var j :| 0 <= j < |store.order| && store.order[j] == k;
    assert docs[j].email == NormalizeEmail(email);
    var i := FindByEmail(docs, NormalizeEmail(email)).value;
    assert store.users[store.order[i]].email == store.users[k].email;
  }

  /** A stored email needs no normalising: logging in with it as stored, active and with
      the right password, gives a token and a user object carrying that same email. */
  lemma StoredEmailLogsIn(docs: seq<User>, u: User, password: string,
                          compare: (string, string) -> bool, now: Time)
    requires u in docs && u.isActive && compare(password, u.password)
    requires EmailField(u.email)
    requires forall i :: 0 <= i < |docs| && docs[i].email == u.email ==> docs[i] == u
    ensures Credentials(docs, u.email, password, compare) == Ok(u)
    ensures UserView(LoggedIn(u, now))["email"] == JStr(u.email)
  {
    Text.LowerFixpoint(u.email);
    Text.TrimmedIsFixpoint(u.email);
    assert NormalizeEmail(u.email) == u.email;
    var j :| 0 <= j < |docs| && docs[j] == u;
    assert docs[j].email == u.email;
  }
}
