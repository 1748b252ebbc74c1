/** Shifts: the schema of src/models/Shift.ts (with its `HH:MM` time pattern) and the shift
    controller of src/controllers/shifts.ts — a name search over a paged listing, creation
    from the five shift fields, validated update, and deactivation in place of deletion. */
module Shifts {
  import opened Wrappers
  import Text
  import Listing
  import Pagination
  import Accounts

  datatype Shift = Shift(
    id: Id, name: string, startTime: string, endTime: string,
    days: seq<string>, roles: seq<string>, isActive: bool, createdAt: Time, updatedAt: Time)

  predicate IsDigit(c: char) {
    '0' <= c <= '9'
  }

  /** A two-character hour of the time pattern: `[0-1][0-9]` or `2[0-3]`. */
  predicate TwoDigitHour(a: char, b: char) {
    ('0' <= a <= '1' && IsDigit(b)) || (a == '2' && '0' <= b <= '3')
  }

  /** The minutes of the time pattern: `[0-5][0-9]`. */
  predicate MinuteDigits(a: char, b: char) {
    '0' <= a <= '5' && IsDigit(b)
  }

  /** The whole string matches `^([0-1]?[0-9]|2[0-3]):[0-5][0-9]$`: a one-digit hour, or a
      two-character hour up to 23, then a colon and exactly two minute digits. */
  predicate IsTime(s: string) {
    || (|s| == 4 && IsDigit(s[0]) && s[1] == ':' && MinuteDigits(s[2], s[3]))
    || (|s| == 5 && TwoDigitHour(s[0], s[1]) && s[2] == ':' && MinuteDigits(s[3], s[4]))
  }

  /** The hour a matching string denotes. */
  function Hours(s: string): int
    requires IsTime(s)
  {
    if |s| == 4 then Text.DigitValue(s[0]) else 10 * Text.DigitValue(s[0]) + Text.DigitValue(s[1])
  }

  /** The minutes a matching string denotes. */
  function Minutes(s: string): int
    requires IsTime(s)
  {
    10 * Text.DigitValue(s[|s| - 2]) + Text.DigitValue(s[|s| - 1])
  }

  /** A matching string denotes a time of day: hours 0 to 23 and minutes 0 to 59. */
  lemma TimeBounds(s: string)
    requires IsTime(s)
    ensures 0 <= Hours(s) <= 23 && 0 <= Minutes(s) <= 59
  {
  }

  /** The digit character of `d` reads back as `d`. */
  lemma DigitRoundTrip(d: int)
    requires 0 <= d < 10
    ensures IsDigit(Text.DigitChar(d)) && Text.DigitValue(Text.DigitChar(d)) == d
  {
  }

  /** `n` with two digits, a leading zero below 10. */
  function Pad2(n: nat): (r: string)
    requires n < 100
    ensures |r| == 2 && IsDigit(r[0]) && IsDigit(r[1])
    ensures 10 * Text.DigitValue(r[0]) + Text.DigitValue(r[1]) == n
  {
    DigitRoundTrip(n / 10);
    DigitRoundTrip(n % 10);
    [Text.DigitChar(n / 10), Text.DigitChar(n % 10)]
  }

  /** Every time of day is accepted written `HH:MM`, and reads back as itself. */
  lemma PaddedTimeAccepted(h: nat, m: nat)
    requires h <= 23 && m <= 59
    ensures IsTime(Pad2(h) + ":" + Pad2(m))
    ensures Hours(Pad2(h) + ":" + Pad2(m)) == h && Minutes(Pad2(h) + ":" + Pad2(m)) == m
  {
    var s := Pad2(h) + ":" + Pad2(m);
    assert s[0] == Pad2(h)[0] && s[1] == Pad2(h)[1] && s[2] == ':';
    assert s[3] == Pad2(m)[0] && s[4] == Pad2(m)[1];
  }

  /** The hour may also be written without its leading zero (`9:05`). */
  lemma ShortHourAccepted(h: nat, m: nat)
    requires h <= 9 && m <= 59
    ensures IsTime([Text.DigitChar(h)] + ":" + Pad2(m))
    ensures Hours([Text.DigitChar(h)] + ":" + Pad2(m)) == h
    ensures Minutes([Text.DigitChar(h)] + ":" + Pad2(m)) == m
  {
    var s := [Text.DigitChar(h)] + ":" + Pad2(m);
    DigitRoundTrip(h);
    assert s[0] == Text.DigitChar(h) && s[1] == ':';
    assert s[2] == Pad2(m)[0] && s[3] == Pad2(m)[1];
  }

  /** The pattern at work: `9:05`, `23:59` and `00:00` pass; `24:00`, `9:5`, `12:60` and
      `123:00` fail. */
  lemma TimeExamples()
    ensures IsTime("9:05") && IsTime("23:59") && IsTime("00:00")
    ensures !IsTime("24:00") && !IsTime("9:5") && !IsTime("12:60") && !IsTime("123:00")
  {
  }

  predicate IsWeekday(d: string) {
    d in ["Monday", "Tuesday", "Wednesday", "Thursday", "Friday", "Saturday", "Sunday"]
  }

  /** The schema's checks on a stored shift: a trimmed non-empty name, both times matching
      the pattern, each day a weekday and each role one of the four role names. The order
      of the two times is not checked. */
  predicate SchemaValid(s: Shift) {
    && Accounts.TrimmedField(s.name)
    && IsTime(s.startTime) && IsTime(s.endTime)
    && (forall i :: 0 <= i < |s.days| ==> IsWeekday(s.days[i]))
    && (forall i :: 0 <= i < |s.roles| ==> Accounts.IsStaffRole(s.roles[i]))
  }

  /** A request body for create or update: every field may be absent. */
  datatype ShiftBody = ShiftBody(
    name: Option<string>, startTime: Option<string>, endTime: Option<string>,
    days: Option<seq<string>>, roles: Option<seq<string>>, isActive: Option<bool>)

  /** `new Shift({ name, startTime, endTime, days, roles })`: only those five fields are
      taken from the body (an absent string is empty, which `required` refuses; an absent
      list is empty), the name goes through its `trim` setter, and the shift is active. */
  function NewShift(id: Id, b: ShiftBody, now: Time): (s: Shift)
    ensures s.id == id && s.isActive && s.createdAt == now && s.updatedAt == now
    ensures s.name == Text.Trim(b.name.GetOr("")) && s.startTime == b.startTime.GetOr("")
    ensures s.endTime == b.endTime.GetOr("") && s.days == b.days.GetOr([]) && s.roles == b.roles.GetOr([])
  {
    Shift(id, Text.Trim(b.name.GetOr("")), b.startTime.GetOr(""), b.endTime.GetOr(""),
          b.days.GetOr([]), b.roles.GetOr([]), true, now, now)
  }

  /** An `isActive` in the creation body is ignored: a new shift is always active. */
  lemma CreateIgnoresIsActive(id: Id, b: ShiftBody, now: Time)
    ensures NewShift(id, b.(isActive := Some(false)), now) == NewShift(id, b, now)
    ensures NewShift(id, b, now).isActive
  {
  }

  /** An overnight shift, ending before it starts, passes the schema as long as its fields
      do: the order of the two times is never compared. */
  lemma OvernightShiftValid(id: Id, b: ShiftBody, now: Time)
    requires b.name.Some? && Accounts.TrimmedField(b.name.value)
    requires b.startTime.Some? && IsTime(b.startTime.value) && b.endTime.Some? && IsTime(b.endTime.value)
    requires Hours(b.endTime.value) < Hours(b.startTime.value)
    requires UpdateValid(b)
    ensures SchemaValid(NewShift(id, b, now))
    ensures SchemaValid(NewShift(id, b.(startTime := b.endTime, endTime := b.startTime), now))
  {
    Text.TrimmedIsFixpoint(b.name.value);
  }

  /** `findByIdAndUpdate` with `runValidators`: each given field passes its path's checks. */
  predicate UpdateValid(b: ShiftBody) {
    && (b.name.Some? ==> Text.Trim(b.name.value) != "")
    && (b.startTime.Some? ==> IsTime(b.startTime.value))
    && (b.endTime.Some? ==> IsTime(b.endTime.value))
    && (b.days.Some? ==> forall i :: 0 <= i < |b.days.value| ==> IsWeekday(b.days.value[i]))
    && (b.roles.Some? ==> forall i :: 0 <= i < |b.roles.value| ==> Accounts.IsStaffRole(b.roles.value[i]))
  }

  /** The update: every given field set (the name through its setter), the others kept,
      and `updatedAt` refreshed. */
  function ApplyUpdate(s: Shift, b: ShiftBody, now: Time): (r: Shift)
    ensures r.id == s.id && r.createdAt == s.createdAt && r.updatedAt == now
    ensures r.name == (if b.name.Some? then Text.Trim(b.name.value) else s.name)
    ensures r.startTime == b.startTime.GetOr(s.startTime) && r.endTime == b.endTime.GetOr(s.endTime)
    ensures r.days == b.days.GetOr(s.days) && r.roles == b.roles.GetOr(s.roles)
    ensures r.isActive == b.isActive.GetOr(s.isActive)
  {
    Shift(s.id, if b.name.Some? then Text.Trim(b.name.value) else s.name,
          b.startTime.GetOr(s.startTime), b.endTime.GetOr(s.endTime),
          b.days.GetOr(s.days), b.roles.GetOr(s.roles), b.isActive.GetOr(s.isActive),
          s.createdAt, now)
  }

  /** An update that passes its validators keeps a valid shift valid. */
  lemma UpdateKeepsSchema(s: Shift, b: ShiftBody, now: Time)
    requires SchemaValid(s) && UpdateValid(b)
    ensures SchemaValid(ApplyUpdate(s, b, now))
  {
    if b.name.Some? {
      Accounts.TrimmedFieldOfTrim(b.name.value);
    }
  }

  /** A creation body passes the schema exactly when its fields do. */
  lemma NewShiftValidity(id: Id, b: ShiftBody, now: Time)
    ensures SchemaValid(NewShift(id, b, now)) <==>
      && Text.Trim(b.name.GetOr("")) != ""
      && IsTime(b.startTime.GetOr("")) && IsTime(b.endTime.GetOr(""))
      && UpdateValid(b.(name := None, startTime := None, endTime := None))
  {
    Accounts.TrimmedFieldOfTrim(b.name.GetOr(""));
  }

  /** The query string of `GET /shifts`. */
  datatype ShiftQuery = ShiftQuery(page: Option<int>, limit: Option<int>, search: Option<string>)

  /** The name filter; an absent or empty search term filters nothing. Active and inactive
      shifts alike are listed. */
  predicate Matches(q: ShiftQuery, s: Shift) {
    q.search.None? || q.search.value == "" || Text.ContainsIgnoreCase(s.name, q.search.value)
  }

  function CreatedAt(s: Shift): int {
    s.createdAt
  }

  /** `getShifts`: the shifts whose name contains the term, newest first, one page of them,
      and the pagination over all matches; a negative skip fails with 500. */
  function GetShifts(docs: seq<Shift>, q: ShiftQuery): (r: Result<Listing.Page<Shift>, HttpError>)
    ensures r.Err? <==> Listing.SkipCount(Listing.QueryInt(q.page, 1), Listing.QueryInt(q.limit, 10)) < 0
    ensures r.Err? ==> r.error == HttpError(500, "Failed to fetch shifts")
    ensures r.Ok? ==> forall i :: 0 <= i < |r.value.items| ==>
      r.value.items[i] in docs && Matches(q, r.value.items[i])
    ensures r.Ok? ==> Listing.SortedDesc(r.value.items, CreatedAt)
    ensures r.Ok? ==> |r.value.items| <= Listing.Abs(Listing.QueryInt(q.limit, 10))
    ensures r.Ok? ==> |r.value.items| == Listing.PageSize(Listing.Count(docs, s => Matches(q, s)), Listing.QueryInt(q.page, 1), Listing.QueryInt(q.limit, 10))
    ensures r.Ok? ==> forall k :: 0 <= k < |r.value.items| ==>
      r.value.items[k] == Listing.SortDesc(Listing.Filter(docs, s => Matches(q, s)), CreatedAt)[Listing.SkipCount(Listing.QueryInt(q.page, 1), Listing.QueryInt(q.limit, 10)) + k]
    ensures r.Ok? ==> r.value.pagination.total == Listing.Count(docs, s => Matches(q, s))
    ensures r.Ok? ==> r.value.pagination == Pagination.GeneratePagination(Listing.Count(docs, s => Matches(q, s)), Listing.QueryInt(q.page, 1), Listing.QueryInt(q.limit, 10))
  {
    match Listing.ListPage(docs, s => Matches(q, s), CreatedAt, Listing.QueryInt(q.page, 1), Listing.QueryInt(q.limit, 10))
    case None => Err(HttpError(500, "Failed to fetch shifts"))
    case Some(p) => Ok(p)
  }

  /** The search looks at the name only, and deactivation does not hide a shift. */
  lemma SearchIgnoresAllButName(q: ShiftQuery, s: Shift, t: Shift)
    requires s.name == t.name
    ensures Matches(q, s) == Matches(q, t)
  {
  }

  const ShiftNotFound := HttpError(404, "Shift not found")

  /** `getShiftById`: the shift, or 404. */
  function GetShiftById(shifts: map<Id, Shift>, id: Id): (r: Result<Shift, HttpError>)
    ensures r.Ok? <==> id in shifts
    ensures r.Ok? ==> r.value == shifts[id]
    ensures r.Err? ==> r.error == ShiftNotFound
  {
    if id in shifts then Ok(shifts[id]) else Err(ShiftNotFound)
  }

  /** The store's invariant: `order` lists each stored id once, each shift is stored under
      its own id below the next fresh one, and each passes the schema. */
  ghost predicate StoreValid(order: seq<Id>, shifts: map<Id, Shift>, nextId: Id) {
    && Listing.Indexes(order, shifts)
    && (forall id :: id in shifts ==> shifts[id].id == id && id < nextId)
    && (forall id :: id in shifts ==> SchemaValid(shifts[id]))
  }

  /** Storing a valid shift under the next fresh id keeps the invariant. */
  lemma StoreNewKeepsValid(order: seq<Id>, shifts: map<Id, Shift>, nextId: Id, s: Shift)
    requires StoreValid(order, shifts, nextId) && s.id == nextId && SchemaValid(s)
    ensures StoreValid(order + [s.id], shifts[s.id := s], nextId + 1)
  {
    Listing.IndexesAppend(order, shifts, s.id, s);
  }

  /** Replacing a stored shift by a valid one with the same id keeps the invariant. */
  lemma StoreReplaceKeepsValid(order: seq<Id>, shifts: map<Id, Shift>, nextId: Id, s: Shift)
    requires StoreValid(order, shifts, nextId) && s.id in shifts && SchemaValid(s)
    ensures StoreValid(order, shifts[s.id := s], nextId)
  {
    Listing.IndexesReplace(order, shifts, s.id, s);
  }

  /** The shift collection. */
  class ShiftStore {
    var shifts: map<Id, Shift>
    var order: seq<Id>
    var nextId: Id

    ghost predicate Valid()
      reads this
    {
      StoreValid(order, shifts, nextId)
    }

    function Docs(): seq<Shift>
      reads this
      requires Valid()
    {
      Listing.Collect(order, shifts)
    }

    constructor ()
      ensures Valid() && shifts == map[] && order == []
    {
      shifts := map[];
      order := [];
      nextId := 0;
    }

    /** `createShift`: a shift built from the five fields is stored under a fresh id when it
        passes the schema; otherwise the answer is 500 and nothing is stored. */
    method CreateShift(b: ShiftBody, now: Time) returns (r: Result<Shift, HttpError>)
      requires Valid()
      modifies this
      ensures Valid()
      ensures var s := NewShift(old(nextId), b, now);
        && (SchemaValid(s) ==> r == Ok(s) && shifts == old(shifts)[s.id := s] && order == old(order) + [s.id])
        && (!SchemaValid(s) ==>
              r == Err(HttpError(500, "Failed to create shift")) && shifts == old(shifts) && order == old(order))
    {
      var s := NewShift(nextId, b, now);
      if !SchemaValid(s) {
        return Err(HttpError(500, "Failed to create shift"));
      }
      Add(s);
      r := Ok(s);
    }

    /** Storing a valid shift under the next fresh id. */
    method Add(s: Shift)
      requires Valid() && s.id == nextId && SchemaValid(s)
      modifies this
      ensures Valid() && nextId == old(nextId) + 1
      ensures shifts == old(shifts)[s.id := s] && order == old(order) + [s.id]
    {
      StoreNewKeepsValid(order, shifts, nextId, s);
      shifts := shifts[s.id := s];
      order := order + [s.id];
      nextId := nextId + 1;
    }

    /** `updateShift`: the given fields are validated before the lookup (500), an unknown id
        is 404, and otherwise that shift alone is updated. */
    method UpdateShift(id: Id, b: ShiftBody, now: Time) returns (r: Result<Shift, HttpError>)
      requires Valid()
      modifies this
      ensures Valid() && order == old(order) && nextId == old(nextId)
      ensures !UpdateValid(b) ==> r == Err(HttpError(500, "Failed to update shift")) && shifts == old(shifts)
      ensures UpdateValid(b) && id !in old(shifts) ==> r == Err(ShiftNotFound) && shifts == old(shifts)
      ensures UpdateValid(b) && id in old(shifts) ==>
        r == Ok(ApplyUpdate(old(shifts)[id], b, now)) && shifts == old(shifts)[id := r.value]
    {
      if !UpdateValid(b) {
        return Err(HttpError(500, "Failed to update shift"));
      }
      if id !in shifts {
        return Err(ShiftNotFound);
      }
      var s := ApplyUpdate(shifts[id], b, now);
      UpdateKeepsSchema(shifts[id], b, now);
      StoreReplaceKeepsValid(order, shifts, nextId, s);
      shifts := shifts[id := s];
      r := Ok(s);
    }

    /** `deleteShift`: deactivation; the shift stays, with `isActive` false. An unknown id is
        404 with no change. */
    method DeleteShift(id: Id, now: Time) returns (r: Result<Shift, HttpError>)
      requires Valid()
      modifies this
      ensures Valid() && order == old(order) && nextId == old(nextId)
      ensures id !in old(shifts) ==> r == Err(ShiftNotFound) && shifts == old(shifts)
      ensures id in old(shifts) ==>
        r == Ok(old(shifts)[id].(isActive := false, updatedAt := now)) && shifts == old(shifts)[id := r.value]
    {
      if id !in shifts {
        return Err(ShiftNotFound);
      }
      var s := shifts[id].(isActive := false, updatedAt := now);
      assert SchemaValid(s) by {
        assert s.(isActive := shifts[id].isActive, updatedAt := shifts[id].updatedAt) == shifts[id];
      }
      StoreReplaceKeepsValid(order, shifts, nextId, s);
      shifts := shifts[id := s];
      r := Ok(s);
    }
  }
}
