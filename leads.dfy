/** The lead record read from browser storage, its timestamps, the storage
    read itself, and the inclusive day-granular date-range predicate that the
    delay list and both dashboards apply to `lastContact || createdAt`. */
module Leads {
  import opened Optional

  /** A timestamp field: either a string `new Date` accepts (kept as its
      millisecond value) or one it rejects (kept as its text; the empty
      string is the falsy case). */
  datatype Moment = Valid(ms: int) | Unparseable(raw: string)

  /** A lead as stored under `leadsData` / `leads`. Absent JSON fields are
      `None`; `Some("")` is present but falsy. */
  datatype Lead = Lead(
    id: Option<string>,
    name: Option<string>,
    email: Option<string>,
    phone: Option<string>,
    company: Option<string>,
    status: Option<string>,
    stage: Option<string>,
    priority: Option<string>,
    source: Option<string>,
    createdAt: Option<Moment>,
    lastContact: Option<Moment>,
    notes: Option<string>,
    assignedTo: Option<string>,
    employee: Option<string>,
    isDuplicate: bool,
    duplicateStatus: Option<string>,
    callType: Option<string>)

  /** `x || ''` for an optional text field. */
  function Str(o: Option<string>): string {
    if o.Some? then o.value else ""
  }

  /** `a || b || ''`: the first of two text fields that is non-empty. */
  function FirstText(a: Option<string>, b: Option<string>): (r: string)
    ensures r == "" <==> Str(a) == "" && Str(b) == ""
    ensures r != "" ==> r == Str(a) || r == Str(b)
  {
    if Str(a) != "" then Str(a) else Str(b)
  }

  /** JavaScript truthiness of an optional timestamp field. */
  predicate IsTruthy(m: Option<Moment>) {
    m.Some? && m.value != Unparseable("")
  }

  predicate IsValid(m: Option<Moment>) {
    m.Some? && m.value.Valid?
  }

  /** `lead.lastContact || lead.createdAt`. */
  function LastAction(l: Lead): (m: Option<Moment>)
    ensures IsTruthy(l.lastContact) ==> m == l.lastContact
    ensures !IsTruthy(l.lastContact) ==> m == l.createdAt
  {
    if IsTruthy(l.lastContact) then l.lastContact else l.createdAt
  }

  /** What reading a JSON array from a storage key can give. */
  datatype StorageValue<T> = Absent | Unparsable | NonArray | Array(elems: seq<T>)

  /** Read-with-fallback: a missing key, a parse error or a non-array value
      all read as the empty list. */
  function ReadArray<T>(v: StorageValue<T>): (r: seq<T>)
    ensures v.Array? ==> r == v.elems
    ensures !v.Array? ==> r == []
  {
    match v
    case Array(elems) => elems
    case _ => []
  }

  const MsPerDay: int := 86400000

  /** Calendar day number of a millisecond timestamp. */
  function DayOf(ms: int): int {
    ms / MsPerDay
  }

  /** Inclusive, day-granular range test. No truthy bound: everything passes.
      An unparseable date passes (fail-open). A bound that does not parse
      compares false and so excludes nothing. */
  predicate InDayRange(date: Option<Moment>, from: Option<Moment>, to: Option<Moment>) {
    if !IsTruthy(from) && !IsTruthy(to) then true
    else if !IsValid(date) then true
    else
      var day := DayOf(date.value.ms);
      (!(IsTruthy(from) && IsValid(from)) || DayOf(from.value.ms) <= day)
      && (!(IsTruthy(to) && IsValid(to)) || day <= DayOf(to.value.ms))
  }

  /** With both bounds set and valid, the test is exactly
      `from_day <= day <= to_day`. */
  lemma InDayRangeBetween(ms: int, fromMs: int, toMs: int)
    ensures InDayRange(Some(Valid(ms)), Some(Valid(fromMs)), Some(Valid(toMs)))
      <==> DayOf(fromMs) <= DayOf(ms) <= DayOf(toMs)
  {
  }

  /** Inverted bounds exclude every parseable date; equal bounds keep exactly
      that day. */
  lemma InDayRangeInvertedAndSameDay(ms: int, fromMs: int, toMs: int)
    ensures DayOf(fromMs) > DayOf(toMs) ==> !InDayRange(Some(Valid(ms)), Some(Valid(fromMs)), Some(Valid(toMs)))
    ensures DayOf(fromMs) == DayOf(toMs) ==>
      (InDayRange(Some(Valid(ms)), Some(Valid(fromMs)), Some(Valid(toMs))) <==> DayOf(ms) == DayOf(fromMs))
  {
  }

  /** Time of day is ignored: two timestamps of the same day are treated
      alike, whatever the bounds. */
  lemma InDayRangeDayGranular(a: int, b: int, from: Option<Moment>, to: Option<Moment>)
    requires DayOf(a) == DayOf(b)
    ensures InDayRange(Some(Valid(a)), from, to) == InDayRange(Some(Valid(b)), from, to)
  {
  }

  /** The fail-open cases: no bound at all, or a date that does not parse. */
  lemma InDayRangeFailOpen(date: Option<Moment>, from: Option<Moment>, to: Option<Moment>)
    requires (!IsTruthy(from) && !IsTruthy(to)) || !IsValid(date)
    ensures InDayRange(date, from, to)
  {
  }
}
