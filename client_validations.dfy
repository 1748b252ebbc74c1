/** The form schemas of src/lib/validations.ts, which the client checks before sending a
    request: login, user creation and report generation. */
module ClientValidations {
  import opened Wrappers
  import opened RequestSchema
  import ReportRoutes
  import ClientUtils
  import UserRoutes
  import Login

  /** `loginSchema`: an email address and a password of at least 6 characters. */
  predicate LoginForm(b: Body, isEmail: string -> bool) {
    Email(b, "email", isEmail) && StrMin(b, "password", 6)
  }

  /** `createUserSchema`. */
  predicate CreateUserForm(b: Body, isEmail: string -> bool) {
    && Email(b, "email", isEmail)
    && StrMin(b, "firstName", 2) && StrMin(b, "lastName", 2)
    && StrMin(b, "roleId", 1)
    && StrMin(b, "department", 2) && StrMin(b, "jobTitle", 2)
    && (Absent(b, "phone") || IsString(b, "phone"))
    && (Absent(b, "emergencyContact") || IsString(b, "emergencyContact"))
    && StrMin(b, "badgeNumber", 3)
    && NumBetween(b, "accessLevel", 1, Some(10))
  }

  /** The client's login form and the login route's schema accept the same bodies. */
  lemma LoginFormIsRouteSchema(b: Body, isEmail: string -> bool)
    ensures LoginForm(b, isEmail) <==> Login.LoginBody(b, isEmail)
  {
  }

  /** The user form is stricter than the users route on every field both name, but it asks
      for `roleId` where the route wants `role`, and for no password: a form body passes the
      route exactly when a password of at least 6 characters and a string `role` are added,
      and one without a password is refused. */
  lemma UserFormNeedsPasswordAndRole(b: Body, isEmail: string -> bool)
    requires CreateUserForm(b, isEmail)
    ensures UserRoutes.CreateUserBody(b, isEmail) <==> StrMin(b, "password", 6) && IsString(b, "role")
    ensures "password" !in b ==> !UserRoutes.CreateUserBody(b, isEmail)
  {
  }

  const ClientReportTypes: seq<string> := ["access", "compliance", "security", "attendance"]

  /** `generateReportSchema` of the client: a name of at least 3 characters, one of four
      types, and a date range of two strings. */
  predicate GenerateReportForm(b: Body) {
    && StrMin(b, "name", 3)
    && OneOf(b, "type", ClientReportTypes)
    && "dateRange" in b && b["dateRange"].Obj?
    && IsString(b["dateRange"].fields, "start") && IsString(b["dateRange"].fields, "end")
  }

  /** The client offers four of the server's six report types: `system` and `custom` are
      accepted by the server only. */
  lemma ClientTypesStrictSubset()
    ensures forall t :: t in ClientReportTypes ==> t in ReportRoutes.ReportTypes
    ensures "system" in ReportRoutes.ReportTypes && "system" !in ClientReportTypes
    ensures "custom" in ReportRoutes.ReportTypes && "custom" !in ClientReportTypes
  {
  }

  /** The name and type a client form accepts pass the server's checks too. */
  lemma ClientNameAndTypeAccepted(b: Body)
    requires GenerateReportForm(b)
    ensures StrMin(b, "name", 3) && OneOf(b, "type", ReportRoutes.ReportTypes)
  {
  }

  /** But the client form asks for no description and no date-time format, so a form it
      accepts can still be refused by the server's schema. */
  lemma ClientFormNotEnough(isDateTime: string -> bool)
    ensures var b := map["name" := Str("Weekly"), "type" := Str("access"),
                         "dateRange" := Obj(map["start" := Str(""), "end" := Str("")])];
      GenerateReportForm(b) && !ReportRoutes.GenerateReportBody(b, isDateTime)
  {
    var b := map["name" := Str("Weekly"), "type" := Str("access"),
                 "dateRange" := Obj(map["start" := Str(""), "end" := Str("")])];
    assert "description" !in b;
  }

  /** A generated badge number always meets the form's badge-number rule. */
  lemma GeneratedBadgeAccepted(b: Body, year: nat, random: nat)
    requires random < 10000 && "badgeNumber" in b && b["badgeNumber"] == Str(ClientUtils.BadgeNumber(year, random))
    ensures StrMin(b, "badgeNumber", 3)
  {
  }
}
