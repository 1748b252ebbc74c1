/** The zod checks the route files apply to request bodies: a body is a JSON object, and
    each schema is a conjunction of per-key checks, a key either required or optional
    (absent, or present and passing). Keys a schema does not name are not checked. */
module RequestSchema {
  import opened Wrappers

  /** A JSON value. Numbers are integers in this model. */
  datatype Value = Str(s: string) | Num(n: int) | Bool(b: bool) | Null | Arr(items: seq<Value>) | Obj(fields: map<string, Value>)

  /** A request body: a JSON object. */
  type Body = map<string, Value>

  /** `z.string().min(n)` on a present key. */
  predicate StrMin(b: Body, k: string, n: nat) {
    k in b && b[k].Str? && |b[k].s| >= n
  }

  /** `z.string()` on a present key. */
  predicate IsString(b: Body, k: string) {
    StrMin(b, k, 0)
  }

  /** `z.string().email()`; the email pattern is the `isEmail` parameter. */
  predicate Email(b: Body, k: string, isEmail: string -> bool) {
    k in b && b[k].Str? && isEmail(b[k].s)
  }

  /** `z.string().datetime()`; the ISO date-time pattern is the `isDateTime` parameter. */
  predicate DateTime(b: Body, k: string, isDateTime: string -> bool) {
    k in b && b[k].Str? && isDateTime(b[k].s)
  }

  /** `z.number().min(lo)`, and `.max(hi)` when `hi` is given. */
  predicate NumBetween(b: Body, k: string, lo: int, hi: Option<int>) {
    k in b && b[k].Num? && lo <= b[k].n && (hi.Some? ==> b[k].n <= hi.value)
  }

  /** `z.enum(names)`. */
  predicate OneOf(b: Body, k: string, names: seq<string>) {
    k in b && b[k].Str? && b[k].s in names
  }

  /** `z.array(z.enum(names)).min(1)`. */
  predicate NonEmptyEnumArray(b: Body, k: string, names: seq<string>) {
    && k in b && b[k].Arr? && |b[k].items| >= 1
    && forall i :: 0 <= i < |b[k].items| ==> b[k].items[i].Str? && b[k].items[i].s in names
  }

  /** `z.boolean()`. */
  predicate Boolean(b: Body, k: string) {
    k in b && b[k].Bool?
  }

  /** `.optional()`: an absent key passes; a present one, `null` included, is checked. */
  predicate Absent(b: Body, k: string) {
    k !in b
  }

  /** The strings of an array of strings, in order. */
  function Strings(items: seq<Value>): (r: seq<string>)
    requires forall i :: 0 <= i < |items| ==> items[i].Str?
    ensures |r| == |items| && forall i :: 0 <= i < |items| ==> r[i] == items[i].s
  {
    if items == [] then [] else [items[0].s] + Strings(items[1..])
  }

  /** The value of a string key, when there is one. */
  function StrOf(b: Body, k: string): (r: Option<string>)
    ensures r.Some? <==> k in b && b[k].Str?
    ensures r.Some? ==> r.value == b[k].s
  {
    if k in b && b[k].Str? then Some(b[k].s) else None
  }

  /** The value of a number key, when there is one. */
  function NumOf(b: Body, k: string): (r: Option<int>)
    ensures r.Some? <==> k in b && b[k].Num?
    ensures r.Some? ==> r.value == b[k].n
  {
    if k in b && b[k].Num? then Some(b[k].n) else None
  }

  /** The value of a boolean key, when there is one. */
  function BoolOf(b: Body, k: string): (r: Option<bool>)
    ensures r.Some? <==> k in b && b[k].Bool?
    ensures r.Some? ==> r.value == b[k].b
  {
    if k in b && b[k].Bool? then Some(b[k].b) else None
  }

  /** The value of a key holding an array of strings, when there is one. */
  function StringsOf(b: Body, k: string): (r: Option<seq<string>>)
    ensures r.Some? <==> k in b && b[k].Arr? && forall i :: 0 <= i < |b[k].items| ==> b[k].items[i].Str?
    ensures r.Some? ==> |r.value| == |b[k].items|
    ensures r.Some? ==> forall i :: 0 <= i < |r.value| ==> r.value[i] == b[k].items[i].s
  {
    if k in b && b[k].Arr? && forall i :: 0 <= i < |b[k].items| ==> b[k].items[i].Str? then
      Some(Strings(b[k].items))
    else
      None
  }
}
