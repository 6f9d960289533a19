/** `getHourlyData` (fe/src/utils/dataProcessing.js): for each opening hour
    7..17, the total count, the number of distinct days seen at that hour, and
    the average per active day. */
module Hourly {
  import opened Wrappers
  import opened Collections
  import opened Reports

  const FirstHour := 7
  const LastHour := 17
  const Slots := 11

  /** The row's hour when it is a number within 7..17; any other row is skipped. */
  function OpenHour(r: Record): (h: Option<int>)
    ensures h.Some? ==> h == r.hour && FirstHour <= h.value <= LastHour
    ensures h.None? ==> r.hour.None? || r.hour.value < FirstHour || r.hour.value > LastHour
  {
    if r.hour.Some? && FirstHour <= r.hour.value <= LastHour then r.hour else None
  }

  /** Reference definitions, row by row. An hour's total is the sum the
      generic tally keeps for it when rows are keyed by their open hour, and
      an hour outside 7..17 has none. */
  function HourTotal(data: seq<Record>, h: int): (t: int)
    ensures t == KeySum(data, OpenHour, CountOr1, h)
    ensures h < FirstHour || h > LastHour ==> t == 0
  {
    if data == [] then 0
    else
      var r := data[|data| - 1];
      HourTotal(data[..|data| - 1], h) + (if OpenHour(r) == Some(h) then CountOr1(r) else 0)
  }

  function RowsAt(data: seq<Record>, h: int): nat
  {
    if data == [] then 0
    else RowsAt(data[..|data| - 1], h) + (if OpenHour(data[|data| - 1]) == Some(h) then 1 else 0)
  }

  /** The dates (a missing date being one value of its own) of the rows at `h`. */
  function DatesAt(data: seq<Record>, h: int): (dates: set<Option<Day>>)
    ensures h < FirstHour || h > LastHour ==> dates == {}
  {
    if data == [] then {}
    else
      var r := data[|data| - 1];
      DatesAt(data[..|data| - 1], h) + (if OpenHour(r) == Some(h) then {r.date} else {})
  }

  /** The weight of every row that falls in an opening hour. */
  function OpenTotal(data: seq<Record>): int
  {
    if data == [] then 0
    else
      var r := data[|data| - 1];
      OpenTotal(data[..|data| - 1]) + (if OpenHour(r).Some? then CountOr1(r) else 0)
  }

  datatype HourSlot = HourSlot(hour: int, count: real, totalCount: int, activeDays: int)

  function SlotTotal(s: HourSlot): int { s.totalCount }

  /** The slot the source builds for one hour from its two accumulators. */
  function MakeSlot(hour: int, total: int, days: int): (s: HourSlot)
    ensures s.hour == hour && s.totalCount == total && s.activeDays == days
    ensures days <= 0 ==> s.count == 0.0
    ensures days > 0 ==> s.count * days as real == total as real
  {
    HourSlot(hour, if days > 0 then total as real / days as real else 0.0, total, days)
  }

  /** `getHourlyData(data)`: exactly 11 slots for hours 7..17 in order; slot `i`
      holds, for hour 7 + i, the total of `count || 1` over the rows at that
      hour, the number of distinct dates among them, and (by `MakeSlot`) their
      average per active day, 0 when no day is active. */
  method GetHourlyData(data: seq<Record>) returns (slots: seq<HourSlot>)
    ensures |slots| == Slots
    ensures forall i :: 0 <= i < Slots ==>
      slots[i] == MakeSlot(FirstHour + i, HourTotal(data, FirstHour + i), |DatesAt(data, FirstHour + i)|)
    ensures SumBy(slots, SlotTotal) == OpenTotal(data)
  {
    var hourlyCounts := new int[Slots](_ => 0);
    var hourlyActiveDays := new int[Slots](_ => 0);
    var dateHourSeen: set<(Option<Day>, int)> := {};
    forall i | 0 <= i < Slots
      ensures hourlyCounts[..][i] == Totals([])[i] && hourlyActiveDays[..][i] == ActiveDays([])[i]
    {
      assert Totals([])[i] == HourTotal([], FirstHour + i) == 0;
      assert ActiveDays([])[i] == |DatesAt([], FirstHour + i)| == 0;
    }
    assert data[..0] == [];
    for k := 0 to |data|
      invariant hourlyCounts[..] == Totals(data[..k])
      invariant hourlyActiveDays[..] == ActiveDays(data[..k])
      invariant dateHourSeen == Seen(data[..k])
    {
      assert data[..k + 1] == data[..k] + [data[k]];
      dateHourSeen := CountRow(hourlyCounts, hourlyActiveDays, dateHourSeen, data[..k], data[k]);
    }
    assert data[..|data|] == data;
    slots := BuildSlots(hourlyCounts[..], hourlyActiveDays[..]);
    SlotsFromReference(data);
    SlotsConserveCount(data, slots);
  }

  /** The body of the loop over the rows: a row with a number hour in 7..17 adds
      `count || 1` to its hour, and one active day the first time its
      (date, hour) pair is seen. The accumulators hold what `before` gave. */
  method CountRow(hourlyCounts: array<int>, hourlyActiveDays: array<int>,
                  dateHourSeen: set<(Option<Day>, int)>, ghost before: seq<Record>, item: Record)
    returns (seen: set<(Option<Day>, int)>)
    requires hourlyCounts != hourlyActiveDays
    requires hourlyCounts[..] == Totals(before)
    requires hourlyActiveDays[..] == ActiveDays(before)
    requires dateHourSeen == Seen(before)
    modifies hourlyCounts, hourlyActiveDays
    ensures hourlyCounts[..] == Totals(before + [item])
    ensures hourlyActiveDays[..] == ActiveDays(before + [item])
    ensures seen == Seen(before + [item])
  {
    TotalsStep(before, item);
    ActiveDaysStep(before, item);
    SeenStep(before, item);
    seen := dateHourSeen;
    if item.hour.Some? && FirstHour <= item.hour.value <= LastHour {
      var hour := item.hour.value;
      var hourIndex := hour - FirstHour;
      SeenMeansDate(before, item.date, hour);
      hourlyCounts[hourIndex] := hourlyCounts[hourIndex] + CountOr1(item);
      if (item.date, hour) !in seen {
        hourlyActiveDays[hourIndex] := hourlyActiveDays[hourIndex] + 1;
        seen := seen + {(item.date, hour)};
      }
    }
  }

  /** The 11 slots built from the two accumulators, hour by hour. */
  function BuildSlots(totals: seq<int>, days: seq<int>): (slots: seq<HourSlot>)
    requires |totals| == |days| == Slots
    ensures |slots| == Slots
    ensures forall i :: 0 <= i < Slots ==> slots[i] == MakeSlot(FirstHour + i, totals[i], days[i])
  {
    seq(Slots, i requires 0 <= i < Slots => MakeSlot(FirstHour + i, totals[i], days[i]))
  }

  lemma SlotsFromReference(data: seq<Record>)
    ensures var slots := BuildSlots(Totals(data), ActiveDays(data));
      forall i :: 0 <= i < Slots ==>
        slots[i] == MakeSlot(FirstHour + i, HourTotal(data, FirstHour + i), |DatesAt(data, FirstHour + i)|)
  {
  }

  /** The two accumulators and the seen set the loop keeps, as functions of the
      rows read so far. */
  function Totals(data: seq<Record>): seq<int>
  {
    seq(Slots, i => HourTotal(data, FirstHour + i))
  }

  function ActiveDays(data: seq<Record>): seq<int>
  {
    seq(Slots, i => |DatesAt(data, FirstHour + i)|)
  }

  function Seen(data: seq<Record>): set<(Option<Day>, int)>
  {
    if data == [] then {}
    else
      var r := data[|data| - 1];
      Seen(data[..|data| - 1]) + (if OpenHour(r).Some? then {(r.date, OpenHour(r).value)} else {})
  }

  lemma {:induction false} SeenMeansDate(data: seq<Record>, d: Option<Day>, h: int)
    ensures (d, h) in Seen(data) <==> FirstHour <= h <= LastHour && d in DatesAt(data, h)
  {
    if data != [] {
      SeenMeansDate(data[..|data| - 1], d, h);
    }
  }

  /** How one more row `r` changes the reference definitions at hour `h`. */
  lemma HourStep(before: seq<Record>, r: Record, h: int)
    ensures HourTotal(before + [r], h) == HourTotal(before, h) + (if OpenHour(r) == Some(h) then CountOr1(r) else 0)
    ensures DatesAt(before + [r], h) == DatesAt(before, h) + (if OpenHour(r) == Some(h) then {r.date} else {})
  {
    assert (before + [r])[..|before|] == before;
  }

  lemma SeenStep(before: seq<Record>, r: Record)
    ensures Seen(before + [r]) == Seen(before) + (if OpenHour(r).Some? then {(r.date, OpenHour(r).value)} else {})
  {
    assert (before + [r])[..|before|] == before;
  }

  /** One more row adds its weight to its own hour's total only. */
  lemma TotalsStep(before: seq<Record>, r: Record)
    ensures Totals(before + [r]) ==
      if OpenHour(r).None? then Totals(before)
      else
        var j := OpenHour(r).value - FirstHour;
        Totals(before)[j := Totals(before)[j] + CountOr1(r)]
  {
    var totals := Totals(before);
    var expected :=
      if OpenHour(r).None? then totals
      else totals[OpenHour(r).value - FirstHour := totals[OpenHour(r).value - FirstHour] + CountOr1(r)];
    forall i | 0 <= i < Slots
      ensures Totals(before + [r])[i] == expected[i]
    {
      HourStep(before, r, FirstHour + i);
    }
  }

  /** One more row makes its hour one day more active exactly when its date is
      new at that hour. */
  lemma ActiveDaysStep(before: seq<Record>, r: Record)
    ensures ActiveDays(before + [r]) ==
      if OpenHour(r).None? || r.date in DatesAt(before, OpenHour(r).value) then ActiveDays(before)
      else
        var j := OpenHour(r).value - FirstHour;
        ActiveDays(before)[j := ActiveDays(before)[j] + 1]
  {
    if OpenHour(r).None? {
      ActiveDaysKept(before, r);
    } else if r.date in DatesAt(before, OpenHour(r).value) {
      ActiveDaysKept(before, r);
    } else {
      ActiveDaysGrow(before, r);
    }
  }

  lemma ActiveDaysKept(before: seq<Record>, r: Record)
    requires OpenHour(r).None? || r.date in DatesAt(before, OpenHour(r).value)
    ensures ActiveDays(before + [r]) == ActiveDays(before)
  {
    var days := ActiveDays(before);
    var after := ActiveDays(before + [r]);
    forall i | 0 <= i < Slots
      ensures after[i] == days[i]
    {
      ActiveDaysAt(before, r, FirstHour + i);
    }
  }

  lemma ActiveDaysGrow(before: seq<Record>, r: Record)
    requires OpenHour(r).Some? && r.date !in DatesAt(before, OpenHour(r).value)
    ensures var j := OpenHour(r).value - FirstHour;
      ActiveDays(before + [r]) == ActiveDays(before)[j := ActiveDays(before)[j] + 1]
  {
    var days := ActiveDays(before);
    var after := ActiveDays(before + [r]);
    var j := OpenHour(r).value - FirstHour;
    forall i | 0 <= i < Slots
      ensures after[i] == days[i] + (if i == j then 1 else 0)
    {
      ActiveDaysAt(before, r, FirstHour + i);
    }
  }

  lemma ActiveDaysAt(before: seq<Record>, r: Record, h: int)
    ensures |DatesAt(before + [r], h)| ==
      |DatesAt(before, h)| + (if OpenHour(r) == Some(h) && r.date !in DatesAt(before, h) then 1 else 0)
  {
    var dates := DatesAt(before, h);
    HourStep(before, r, h);
    if OpenHour(r) != Some(h) || r.date in dates {
      assert DatesAt(before + [r], h) == dates;
    } else {
      assert DatesAt(before + [r], h) == dates + {r.date};
    }
  }

  /** Each active day of an hour is the date of at least one row at that hour. */
  lemma {:induction false} ActiveDaysAtMostRows(data: seq<Record>, h: int)
    ensures |DatesAt(data, h)| <= RowsAt(data, h)
  {
    if data != [] {
      var n := |data| - 1;
      ActiveDaysAtMostRows(data[..n], h);
      var before := DatesAt(data[..n], h);
      if OpenHour(data[n]) == Some(h) {
        assert |before + {data[n].date}| <= |before| + 1;
      }
    }
  }

  /** An hour has an active day exactly when some row falls in it. */
  lemma {:induction false} ActiveIffRows(data: seq<Record>, h: int)
    ensures |DatesAt(data, h)| == 0 <==> RowsAt(data, h) == 0
  {
    if data != [] {
      var n := |data| - 1;
      ActiveIffRows(data[..n], h);
      if OpenHour(data[n]) == Some(h) {
        assert data[n].date in DatesAt(data, h);
      }
    }
  }

  /** With non-negative counts an hour's total is positive exactly when it has
      rows, so the average is 0 exactly when the hour has no active day. */
  lemma {:induction false} TotalPositiveIffRows(data: seq<Record>, h: int)
    requires forall r :: r in data ==> NonNegativeCount(r)
    ensures HourTotal(data, h) >= RowsAt(data, h)
    ensures HourTotal(data, h) > 0 <==> RowsAt(data, h) > 0
  {
    if data != [] {
      var n := |data| - 1;
      assert forall r :: r in data[..n] ==> r in data;
      TotalPositiveIffRows(data[..n], h);
      PositiveWeight(data[n]);
    }
  }

  /** The sum of the totals of hours `lo` up to but excluding `hi`. */
  function HoursTotal(data: seq<Record>, lo: int, hi: int): int
    decreases hi - lo
  {
    if lo >= hi then 0 else HourTotal(data, lo) + HoursTotal(data, lo + 1, hi)
  }

  lemma {:induction false} HoursTotalStep(data: seq<Record>, lo: int, hi: int)
    requires data != []
    ensures var n := |data| - 1; var r := data[n];
      HoursTotal(data, lo, hi)
      == HoursTotal(data[..n], lo, hi) + (if OpenHour(r).Some? && lo <= OpenHour(r).value < hi then CountOr1(r) else 0)
    decreases hi - lo
  {
    if lo < hi {
      HoursTotalStep(data, lo + 1, hi);
    }
  }

  lemma {:induction false} NoRowsNoTotal(lo: int, hi: int)
    ensures HoursTotal([], lo, hi) == 0
    decreases hi - lo
  {
    if lo < hi {
      NoRowsNoTotal(lo + 1, hi);
    }
  }

  /** Nothing is lost or counted twice: the eleven totals add up to the weight
      of every row in an opening hour; rows outside 7..17 contribute nothing. */
  lemma {:induction false} HourlyConservesCount(data: seq<Record>)
    ensures HoursTotal(data, FirstHour, LastHour + 1) == OpenTotal(data)
  {
    if data == [] {
      NoRowsNoTotal(FirstHour, LastHour + 1);
    } else {
      var n := |data| - 1;
      HourlyConservesCount(data[..n]);
      HoursTotalStep(data, FirstHour, LastHour + 1);
    }
  }

  /** Adding the next hour to a range of hours adds that hour's total. */
  lemma {:induction false} HoursTotalSplit(data: seq<Record>, lo: int, hi: int)
    requires lo <= hi
    ensures HoursTotal(data, lo, hi + 1) == HoursTotal(data, lo, hi) + HourTotal(data, hi)
    decreases hi - lo
  {
    if lo < hi {
      HoursTotalSplit(data, lo + 1, hi);
    }
  }

  /** The first `m` slots carry the totals of hours 7 up to 7 + m. */
  lemma {:induction false} SlotPrefixTotal(data: seq<Record>, slots: seq<HourSlot>, m: nat)
    requires m <= |slots|
    requires forall i :: 0 <= i < |slots| ==> slots[i].totalCount == HourTotal(data, FirstHour + i)
    ensures SumBy(slots[..m], SlotTotal) == HoursTotal(data, FirstHour, FirstHour + m)
  {
    if m > 0 {
      SlotPrefixTotal(data, slots, m - 1);
      assert slots[..m][..m - 1] == slots[..m - 1];
      HoursTotalSplit(data, FirstHour, FirstHour + m - 1);
    }
  }

  /** Eleven slots holding the hours' totals add up to the weight of every
      row printed in an opening hour. */
  lemma SlotsConserveCount(data: seq<Record>, slots: seq<HourSlot>)
    requires |slots| == Slots
    requires forall i :: 0 <= i < Slots ==> slots[i].totalCount == HourTotal(data, FirstHour + i)
    ensures SumBy(slots, SlotTotal) == OpenTotal(data)
  {
    SlotPrefixTotal(data, slots, Slots);
    assert slots[..Slots] == slots;
    HourlyConservesCount(data);
  }
}
