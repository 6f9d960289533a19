/** `getPrintsByTimeData` (fe/src/utils/dataProcessing.js): print counts per
    day or per week, in chronological order. */
module TimeSeries {
  import opened Wrappers
  import opened Collections
  import opened Reports

  /** `groupBy === 'Tuần'` selects weeks; every other value selects days. */
  datatype Granularity = ByDay | ByWeek

  function GranularityOf(groupBy: string): Granularity
  {
    if groupBy == "Tuần" then ByWeek else ByDay
  }

  /** The bucket key of a day. Days count from a Monday, so `d / 7` (floor
      division) numbers Monday-based weeks, standing in for the `GGGG-[W]WW`
      key. The model orders buckets chronologically, as the chart means to;
      whether `dayjs` parses the week string back for the sort is not
      modelled. */
  function Bucket(g: Granularity, d: Day): int
  {
    if g == ByWeek then d / 7 else d
  }

  /** `item.date || item.print_time`; rows with neither are skipped. */
  function StampOf(r: Record): Option<Day>
  {
    if r.date.Some? then r.date else r.printTime
  }

  function TimeKey(g: Granularity): Record -> Option<int>
  {
    r => match StampOf(r)
         case None => None
         case Some(d) => Some(Bucket(g, d))
  }

  /** Later buckets rank lower, so the descending sort lists them ascending. */
  function Earliness(e: Entry<int>): int
  {
    -e.name
  }

  datatype TimePoint = TimePoint(time: int, count: int)

  function CountOf(p: TimePoint): int { p.count }

  /** `getPrintsByTimeData(data, groupBy)`: the tally of `count || 1` per
      bucket, sorted by bucket; never more points than rows (what the points
      hold is `PrintsByTimeSpec`). */
  function PrintsByTime(data: seq<Record>, groupBy: string): (points: seq<TimePoint>)
    ensures |points| <= |data|
  {
    var sorted := SortDesc(Tally(data, TimeKey(GranularityOf(groupBy)), CountOr1), Earliness);
    seq(|sorted|, i requires 0 <= i < |sorted| => TimePoint(sorted[i].name, sorted[i].value))
  }

  /** One point per bucket, in strictly ascending bucket order, each carrying
      the sum of `count || 1` over the rows of its bucket; the buckets are
      exactly those of the dated rows, and the counts add up to the weight of
      every dated row. */
  lemma {:induction false} PrintsByTimeSpec(data: seq<Record>, groupBy: string)
    ensures var r := PrintsByTime(data, groupBy);
      var key := TimeKey(GranularityOf(groupBy));
      && (forall i, j :: 0 <= i < j < |r| ==> r[i].time < r[j].time)
      && (forall i :: 0 <= i < |r| ==> r[i].count == KeySum(data, key, CountOr1, r[i].time))
      && (forall k :: k in KeySet(data, key) <==> exists i :: 0 <= i < |r| && r[i].time == k)
      && SumBy(r, CountOf) == KeyTotal(data, key, CountOr1)
  {
    var key := TimeKey(GranularityOf(groupBy));
    var sorted := SortDesc(Tally(data, key, CountOr1), Earliness);
    var r := PrintsByTime(data, groupBy);
    SortedTallySpec(data, key, CountOr1, Earliness);
    forall i, j | 0 <= i < j < |r| ensures r[i].time < r[j].time {
      assert Earliness(sorted[i]) >= Earliness(sorted[j]);
      assert NameOf(sorted[i]) != NameOf(sorted[j]);
    }
    forall k | k in KeySet(data, key) ensures exists i :: 0 <= i < |r| && r[i].time == k {
      assert k in Names(sorted);
      var e :| e in sorted && e.name == k;
      var i :| 0 <= i < |sorted| && sorted[i] == e;
      assert r[i].time == k;
    }
    forall k | (exists i :: 0 <= i < |r| && r[i].time == k) ensures k in KeySet(data, key) {
      var i :| 0 <= i < |r| && r[i].time == k;
      assert sorted[i] in sorted;
    }
    SumAsPoints(sorted, r);
  }

  lemma {:induction false} SumAsPoints(entries: seq<Entry<int>>, points: seq<TimePoint>)
    requires |points| == |entries|
    requires forall i :: 0 <= i < |points| ==> points[i].count == entries[i].value
    ensures SumBy(points, CountOf) == SumBy(entries, ValueOf)
  {
    if entries != [] {
      var n := |entries| - 1;
      SumAsPoints(entries[..n], points[..n]);
    }
  }
}
