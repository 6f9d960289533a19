/** The report record the dashboard receives from `GET /reports`, the count
    defaults the aggregations apply to it, and `filterDashboardData`
    (fe/src/utils/dataProcessing.js). */
module Reports {
  import opened Wrappers
  import opened Collections

  /** A calendar day, counted in days from a fixed Monday. Ordering days is
      ordering their `YYYY-MM-DD` strings. */
  type Day = int

  /** One report row. A field is `None` when the row lacks it (undefined or
      null); `printTime` is also `None` when falsy (0 or the empty string),
      since `item.date || item.print_time` skips such a value; `hour` is
      `None` when `parseInt` of the row's hour gives NaN. */
  datatype Record = Record(
    wardId: Option<string>,   // String(item.ward_id ?? item.wardId), when either is present
    date: Option<Day>,
    printTime: Option<Day>,   // the day `dayjs(item.print_time)` designates; None when print_time is falsy
    hour: Option<int>,
    procedure: Option<string>,
    domain: Option<string>,
    gender: Option<string>,
    ageGroup: Option<string>,
    age: Option<int>,
    authType: Option<string>,
    count: Option<int>)

  /** A string field is truthy when present and non-empty. */
  predicate Truthy(s: Option<string>)
  {
    s.Some? && s.value != ""
  }

  /** `item.count || 1`: a missing count and a count of 0 both weigh 1. It
      never weighs 0, and it differs from `count ?? 1` only on a count of 0. */
  function CountOr1(r: Record): (w: int)
    ensures w != 0
    ensures r.count != Some(0) ==> w == CountOrDefault(r)
    ensures r.count == Some(0) ==> w == 1 && CountOrDefault(r) == 0
  {
    if r.count.Some? && r.count.value != 0 then r.count.value else 1
  }

  /** `item.count ?? 1`: only a missing count weighs 1; a count of 0 stays 0,
      and it is the only way a row weighs nothing. */
  function CountOrDefault(r: Record): (w: int)
    ensures w == 0 <==> r.count == Some(0)
    ensures NonNegativeCount(r) ==> w >= 0
  {
    if r.count.Some? then r.count.value else 1
  }

  /** A row whose count, when present, is not negative (the database invariant). */
  predicate NonNegativeCount(r: Record)
  {
    r.count.None? || r.count.value >= 0
  }

  lemma PositiveWeight(r: Record)
    requires NonNegativeCount(r)
    ensures CountOr1(r) >= 1 && CountOrDefault(r) >= 0
  {
  }

  // ---------------------------------------------------------------------------
  // filterDashboardData

  /** `String(item.ward_id ?? item.wardId)`: a row with neither field reads as "undefined". */
  function WardKey(r: Record): string
  {
    match r.wardId
    case Some(w) => w
    case None => "undefined"
  }

  /** The row's day for the date filter: `dayjs(undefined)` is the current day. */
  function DayOf(r: Record, today: Day): Day
  {
    match r.date
    case Some(d) => d
    case None => today
  }

  function WardIs(ward: string): Record -> bool
  {
    r => WardKey(r) == ward
  }

  function DayWithin(start: Day, end: Day, today: Day): Record -> bool
  {
    r => start <= DayOf(r, today) <= end
  }

  /** Which rows the dashboard filter keeps: the ward filter applies when a
      ward is selected, the date filter when both ends of the range are set. */
  predicate Kept(r: Record, ward: Option<string>, start: Option<Day>, end: Option<Day>, today: Day)
  {
    && (ward.Some? ==> WardKey(r) == ward.value)
    && (start.Some? && end.Some? ==> start.value <= DayOf(r, today) <= end.value)
  }

  /** `filterDashboardData(data, wardId, [start, end])`: a ward filter, then an
      inclusive date filter. Each row is kept, as often as it occurs, exactly
      when `Kept` holds; with neither filter active the input comes back whole. */
  function FilterDashboardData(data: seq<Record>, ward: Option<string>, start: Option<Day>, end: Option<Day>, today: Day): (r: seq<Record>)
    ensures forall x :: multiset(r)[x] == if Kept(x, ward, start, end, today) then multiset(data)[x] else 0
    ensures ward.None? && (start.None? || end.None?) ==> r == data
  {
    var byWard := if ward.Some? then (FilterSpec(data, WardIs(ward.value)); Filter(data, WardIs(ward.value))) else data;
    if start.Some? && end.Some? then
      FilterSpec(byWard, DayWithin(start.value, end.value, today));
      Filter(byWard, DayWithin(start.value, end.value, today))
    else byWard
  }

  /** The filter keeps order: filtering a concatenation is concatenating the
      filtered parts, so the result is an order-preserving subsequence. */
  lemma {:induction false} FilterDashboardDataConcat(a: seq<Record>, b: seq<Record>, ward: Option<string>, start: Option<Day>, end: Option<Day>, today: Day)
    ensures FilterDashboardData(a + b, ward, start, end, today)
         == FilterDashboardData(a, ward, start, end, today) + FilterDashboardData(b, ward, start, end, today)
  {
    var wa := if ward.Some? then Filter(a, WardIs(ward.value)) else a;
    var wb := if ward.Some? then Filter(b, WardIs(ward.value)) else b;
    if ward.Some? {
      FilterConcat(a, b, WardIs(ward.value));
    }
    if start.Some? && end.Some? {
      FilterConcat(wa, wb, DayWithin(start.value, end.value, today));
    }
  }
}
