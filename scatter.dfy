/** `getScatterData` (fe/src/utils/dataProcessing.js): points of (hour, age,
    gender) weighted by prints. A row that has an age group but no age is
    spread over 3 to 5 made-up ages drawn from its group; `Math.random` is the
    stream `random`, whose `i`-th value is the `i`-th call's result. */
module Scatter {
  import opened Wrappers
  import opened Collections
  import opened Reports

  /** A stream of `Math.random()` results, each in [0, 1). */
  ghost predicate IsRandom(random: nat -> real)
  {
    forall i :: 0.0 <= random(i) < 1.0
  }

  /** `Math.floor(Math.random() * m)` on the draw numbered `i`. */
  function Draw(random: nat -> real, i: nat, m: int): int
  {
    (random(i) * m as real).Floor
  }

  lemma DrawRange(random: nat -> real, i: nat, m: int)
    requires 0.0 <= random(i) < 1.0
    requires m >= 1
    ensures 0 <= Draw(random, i, m) < m
  {
    var r := random(i);
    var x := r * m as real;
    assert 0.0 <= x by {
      NonNegativeProduct(r, m as real);
    }
    assert x < m as real by {
      NonNegativeProduct(1.0 - r, m as real - 1.0);
      assert m as real - x == (1.0 - r) * (m as real - 1.0) + (1.0 - r);
    }
  }

  lemma NonNegativeProduct(a: real, b: real)
    requires a >= 0.0 && b >= 0.0
    ensures a * b >= 0.0
  {
  }

  /** A value computed from the draws, and the number of the next unused draw. */
  datatype Drawn<T> = Drawn(value: T, next: nat)

  /** `randomAgeFromGroup(group)`: a uniform age inside the group's range,
      using one draw; an unknown group gives 25 and draws nothing. */
  function RandomAge(group: string, random: nat -> real, next: nat): Drawn<int>
  {
    match group
    case "<18" => Drawn(Draw(random, next, 6) + 12, next + 1)
    case "18-30" => Drawn(Draw(random, next, 13) + 18, next + 1)
    case "31-50" => Drawn(Draw(random, next, 20) + 31, next + 1)
    case ">50" => Drawn(Draw(random, next, 30) + 51, next + 1)
    case _ => Drawn(25, next)
  }

  /** The ages a group's made-up ages may take. */
  predicate AgeFits(group: string, age: int)
  {
    match group
    case "<18" => 12 <= age <= 17
    case "18-30" => 18 <= age <= 30
    case "31-50" => 31 <= age <= 50
    case ">50" => 51 <= age <= 80
    case _ => age == 25
  }

  lemma RandomAgeFits(group: string, random: nat -> real, next: nat)
    requires 0.0 <= random(next) < 1.0
    ensures AgeFits(group, RandomAge(group, random, next).value)
    ensures next <= RandomAge(group, random, next).next <= next + 1
    ensures RandomAge(group, random, next).next == next ==> RandomAge(group, random, next).value == 25
  {
    match group
    case "<18" => DrawRange(random, next, 6);
    case "18-30" => DrawRange(random, next, 13);
    case "31-50" => DrawRange(random, next, 20);
    case ">50" => DrawRange(random, next, 30);
    case _ =>
  }

  datatype AgePart = AgePart(age: int, count: int)

  function PartCount(p: AgePart): int { p.count }

  /** Prepends the parts already pushed to what the rest of the loop yields. */
  function After(done: seq<AgePart>, rest: Drawn<seq<AgePart>>): Drawn<seq<AgePart>>
  {
    Drawn(done + rest.value, rest.next)
  }

  /** Iterations `i` to `n - 1` of the splitting loop with `remaining` prints
      left: each but the last takes between 1 and what leaves 1 for each later
      part, drawn before its age; the last takes all that remains. */
  function PartsFrom(group: string, random: nat -> real, next: nat, i: nat, n: nat, remaining: int): (parts: Drawn<seq<AgePart>>)
    ensures |parts.value| == if i < n then n - i else 0
    ensures parts.next >= next
    decreases n - i
  {
    if i >= n then Drawn([], next)
    else if i == n - 1 then
      var age := RandomAge(group, random, next);
      Drawn([AgePart(age.value, remaining)], age.next)
    else
      var maxForThis := remaining - (n - i - 1);
      var c := Max(1, Draw(random, next, maxForThis) + 1);
      var age := RandomAge(group, random, next + 1);
      After([AgePart(age.value, c)], PartsFrom(group, random, age.next, i + 1, n, remaining - c))
  }

  /** The number of parts: `Math.min(count, 3 + Math.floor(Math.random() * 3))`,
      none when that is not positive. */
  function PartsWanted(count: int, random: nat -> real, next: nat): nat
  {
    var n := Min(count, 3 + Draw(random, next, 3));
    if n < 0 then 0 else n
  }

  /** The random split of a row's `count` over made-up ages of `group`. */
  function SplitCount(count: int, group: string, random: nat -> real, next: nat): (parts: Drawn<seq<AgePart>>)
    ensures |parts.value| <= Max(0, count)
    ensures parts.next > next
  {
    PartsFrom(group, random, next + 1, 0, PartsWanted(count, random, next), count)
  }

  /** The splitting loop as the source runs it, on `remaining`. */
  method SplitAges(count: int, group: string, random: nat -> real, start: nat) returns (ageCounts: seq<AgePart>, next: nat)
    ensures Drawn(ageCounts, next) == SplitCount(count, group, random, start)
  {
    var n := Min(count, 3 + Draw(random, start, 3));
    next := start + 1;
    ghost var wanted := PartsWanted(count, random, start);
    assert n > 0 ==> wanted == n;
    var remaining := count;
    ageCounts := [];
    assert [] + PartsFrom(group, random, next, 0, wanted, remaining).value == PartsFrom(group, random, next, 0, wanted, remaining).value;
    var i := 0;
    while i < n
      invariant 0 <= i && (i == 0 || i <= n)
      invariant After(ageCounts, PartsFrom(group, random, next, i, wanted, remaining)) == SplitCount(count, group, random, start)
      decreases n - i
    {
      ghost var rest := PartsFrom(group, random, next, i, wanted, remaining);
      if i == n - 1 {
        var age := RandomAge(group, random, next);
        assert rest == Drawn([AgePart(age.value, remaining)], age.next);
        assert PartsFrom(group, random, age.next, i + 1, wanted, remaining) == Drawn([], age.next);
        assert (ageCounts + [AgePart(age.value, remaining)]) + [] == ageCounts + rest.value;
        ageCounts := ageCounts + [AgePart(age.value, remaining)];
        next := age.next;
      } else {
        var maxForThis := remaining - (n - i - 1);
        var c := Max(1, Draw(random, next, maxForThis) + 1);
        var age := RandomAge(group, random, next + 1);
        ghost var tail := PartsFrom(group, random, age.next, i + 1, wanted, remaining - c);
        assert rest == After([AgePart(age.value, c)], tail);
        assert ageCounts + rest.value == (ageCounts + [AgePart(age.value, c)]) + tail.value;
        ageCounts := ageCounts + [AgePart(age.value, c)];
        next := age.next;
        remaining := remaining - c;
      }
      i := i + 1;
    }
    assert ageCounts + PartsFrom(group, random, next, i, wanted, remaining).value == ageCounts;
  }

  /** With `remaining` at least the number of parts still to make, the loop
      makes exactly that many parts, each of at least 1 print, summing to
      `remaining`, each with an age that fits the group. */
  lemma PartsFromSpec(group: string, random: nat -> real, next: nat, i: nat, n: nat, remaining: int)
    requires IsRandom(random)
    requires i <= n && (i < n ==> remaining >= n - i)
    ensures var parts := PartsFrom(group, random, next, i, n, remaining).value;
      && |parts| == n - i
      && (forall j :: 0 <= j < |parts| ==> parts[j].count >= 1 && AgeFits(group, parts[j].age))
      && (i < n ==> SumBy(parts, PartCount) == remaining)
  {
    PartsFit(group, random, next, i, n, remaining);
    assert AllFit(group, PartsFrom(group, random, next, i, n, remaining).value);
    PartsSum(group, random, next, i, n, remaining);
  }

  /** Every part takes at least one print and an age inside the group. */
  predicate AllFit(group: string, parts: seq<AgePart>)
  {
    forall j :: 0 <= j < |parts| ==> parts[j].count >= 1 && AgeFits(group, parts[j].age)
  }

  lemma {:induction false} PartsFit(group: string, random: nat -> real, next: nat, i: nat, n: nat, remaining: int)
    requires IsRandom(random)
    requires i <= n && (i < n ==> remaining >= n - i)
    ensures AllFit(group, PartsFrom(group, random, next, i, n, remaining).value)
    decreases n - i
  {
    if i == n - 1 {
      RandomAgeFits(group, random, next);
    } else if i < n - 1 {
      var maxForThis := remaining - (n - i - 1);
      DrawRange(random, next, maxForThis);
      var c := Max(1, Draw(random, next, maxForThis) + 1);
      var age := RandomAge(group, random, next + 1);
      RandomAgeFits(group, random, next + 1);
      var rest := PartsFrom(group, random, age.next, i + 1, n, remaining - c);
      PartsFit(group, random, age.next, i + 1, n, remaining - c);
      var parts := [AgePart(age.value, c)] + rest.value;
      assert PartsFrom(group, random, next, i, n, remaining).value == parts;
      forall j | 0 <= j < |parts| ensures parts[j].count >= 1 && AgeFits(group, parts[j].age) {
        if j > 0 {
          assert parts[j] == rest.value[j - 1];
        }
      }
    }
  }

  /** The parts take exactly the prints there are. */
  lemma {:induction false} PartsSum(group: string, random: nat -> real, next: nat, i: nat, n: nat, remaining: int)
    requires IsRandom(random)
    requires i <= n && (i < n ==> remaining >= n - i)
    ensures i < n ==> SumBy(PartsFrom(group, random, next, i, n, remaining).value, PartCount) == remaining
    decreases n - i
  {
    if i == n - 1 {
      assert [AgePart(RandomAge(group, random, next).value, remaining)][..0] == [];
    } else if i < n - 1 {
      var maxForThis := remaining - (n - i - 1);
      DrawRange(random, next, maxForThis);
      var c := Max(1, Draw(random, next, maxForThis) + 1);
      var age := RandomAge(group, random, next + 1);
      var rest := PartsFrom(group, random, age.next, i + 1, n, remaining - c);
      PartsSum(group, random, age.next, i + 1, n, remaining - c);
      var head := [AgePart(age.value, c)];
      assert PartsFrom(group, random, next, i, n, remaining).value == head + rest.value;
      SumByConcat(head, rest.value, PartCount);
      assert head[..0] == [];
    }
  }

  /** The split of a positive count makes between `min(count, 3)` and
      `min(count, 5)` parts of at least 1 print each, summing to the count,
      with ages from the group; a count below 1 makes no part. */
  lemma SplitSpec(count: int, group: string, random: nat -> real, next: nat)
    requires IsRandom(random)
    ensures var parts := SplitCount(count, group, random, next).value;
      && (count < 1 ==> parts == [])
      && (count >= 1 ==>
            && Min(count, 3) <= |parts| <= Min(count, 5)
            && SumBy(parts, PartCount) == count
            && (forall j :: 0 <= j < |parts| ==> parts[j].count >= 1 && AgeFits(group, parts[j].age)))
  {
    DrawRange(random, next, 3);
    PartsFromSpec(group, random, next + 1, 0, PartsWanted(count, random, next), count);
  }

  // ---------------------------------------------------------------------------
  // Expanding the rows into points

  datatype ScatterPoint = ScatterPoint(hour: int, age: int, gender: string, count: int)

  function PointCount(p: ScatterPoint): int { p.count }

  /** A row shows on the chart only with an hour from 7 to 18 and a gender. */
  predicate Plotted(r: Record)
  {
    r.hour.Some? && 7 <= r.hour.value <= 18 && Truthy(r.gender)
  }

  /** `!item.age && item.age_group`: the row's ages are made up. */
  predicate Randomised(r: Record)
  {
    (r.age.None? || r.age.value == 0) && Truthy(r.ageGroup)
  }

  function PartPoint(r: Record, p: AgePart): ScatterPoint
    requires Plotted(r)
  {
    ScatterPoint(r.hour.value, p.age, r.gender.value, p.count)
  }

  /** The points one row pushes to `expanded`. A randomised row draws its split
      whether or not it is plotted. */
  function RowPoints(r: Record, random: nat -> real, next: nat): (points: Drawn<seq<ScatterPoint>>)
    ensures !Plotted(r) ==> points.value == []
    ensures points.next >= next
    ensures !Randomised(r) ==> points.next == next
  {
    if Randomised(r) then
      var split := SplitCount(CountOrDefault(r), r.ageGroup.value, random, next);
      var parts := split.value;
      Drawn(if Plotted(r) then seq(|parts|, j requires 0 <= j < |parts| => PartPoint(r, parts[j])) else [], split.next)
    else if Plotted(r) && r.age.Some? then
      Drawn([ScatterPoint(r.hour.value, r.age.value, r.gender.value, CountOrDefault(r))], next)
    else Drawn([], next)
  }

  /** `expanded` after the `forEach` over `data`, with the draws used from `start` on. */
  function Expand(data: seq<Record>, random: nat -> real, start: nat): (points: Drawn<seq<ScatterPoint>>)
    ensures points.next >= start
  {
    if data == [] then Drawn([], start)
    else
      var before := Expand(data[..|data| - 1], random, start);
      var row := RowPoints(data[|data| - 1], random, before.next);
      Drawn(before.value + row.value, row.next)
  }

  /** The prints a row contributes to the chart: its `count ?? 1` when it is
      plotted and has an age or a positive count to split, else nothing. */
  function ScatterWeight(r: Record): int
  {
    if !Plotted(r) then 0
    else if Randomised(r) then (if CountOrDefault(r) >= 1 then CountOrDefault(r) else 0)
    else if r.age.Some? then CountOrDefault(r)
    else 0
  }

  /** Every expanded point has a plotted hour and a gender; the points carry
      exactly the prints of the plotted rows. */
  lemma {:induction false} ExpandSpec(data: seq<Record>, random: nat -> real, start: nat)
    requires IsRandom(random)
    ensures var points := Expand(data, random, start).value;
      && (forall j :: 0 <= j < |points| ==> 7 <= points[j].hour <= 18 && points[j].gender != "")
      && SumBy(points, PointCount) == SumBy(data, ScatterWeight)
  {
    if data != [] {
      var n := |data| - 1;
      var before := Expand(data[..n], random, start);
      var row := RowPoints(data[n], random, before.next);
      ExpandSpec(data[..n], random, start);
      RowPointsSpec(data[n], random, before.next);
      SumByConcat(before.value, row.value, PointCount);
    }
  }

  lemma RowPointsSpec(r: Record, random: nat -> real, next: nat)
    requires IsRandom(random)
    ensures var points := RowPoints(r, random, next).value;
      && (forall j :: 0 <= j < |points| ==> 7 <= points[j].hour <= 18 && points[j].gender != "")
      && SumBy(points, PointCount) == ScatterWeight(r)
  {
    var points := RowPoints(r, random, next).value;
    if Randomised(r) {
      var parts := SplitCount(CountOrDefault(r), r.ageGroup.value, random, next).value;
      SplitSpec(CountOrDefault(r), r.ageGroup.value, random, next);
      if Plotted(r) {
        PointsSum(r, parts, points);
      }
    } else if Plotted(r) && r.age.Some? {
      assert points[..0] == [];
    }
  }

  lemma {:induction false} PointsSum(r: Record, parts: seq<AgePart>, points: seq<ScatterPoint>)
    requires Plotted(r)
    requires |points| == |parts|
    requires forall j :: 0 <= j < |parts| ==> points[j] == PartPoint(r, parts[j])
    ensures SumBy(points, PointCount) == SumBy(parts, PartCount)
  {
    if parts != [] {
      var n := |parts| - 1;
      PointsSum(r, parts[..n], points[..n]);
    }
  }

  /** Rows with their own ages are never randomised: when no row is, the
      points do not depend on the draws. */
  lemma {:induction false} ExpandWithoutRandom(data: seq<Record>, random1: nat -> real, random2: nat -> real, start: nat)
    requires forall j :: 0 <= j < |data| ==> !Randomised(data[j])
    ensures Expand(data, random1, start) == Expand(data, random2, start)
  {
    if data != [] {
      var n := |data| - 1;
      assert forall j :: 0 <= j < n ==> data[..n][j] == data[j];
      ExpandWithoutRandom(data[..n], random1, random2, start);
    }
  }

  // ---------------------------------------------------------------------------
  // Grouping

  /** `${hour}-${age}-${gender}`: the hour and the age print as integers, so
      the string key tells the triples apart just as the triple does. */
  function PointKey(p: ScatterPoint): Option<(int, int, string)>
  {
    Some((p.hour, p.age, p.gender))
  }

  /** Earlier hours rank higher, so the descending sort lists hours ascending. */
  function Earliness(e: Entry<(int, int, string)>): int
  {
    -e.name.0
  }

  function ToPoint(e: Entry<(int, int, string)>): ScatterPoint
  {
    ScatterPoint(e.name.0, e.name.1, e.name.2, e.value)
  }

  /** The chart points for `data` under the draws `random`. */
  function ScatterData(data: seq<Record>, random: nat -> real): (points: seq<ScatterPoint>)
  {
    var sorted := SortDesc(Tally(Expand(data, random, 0).value, PointKey, PointCount), Earliness);
    seq(|sorted|, j requires 0 <= j < |sorted| => ToPoint(sorted[j]))
  }

  /** `getScatterData(data)`: expand the rows, sum the prints of equal (hour,
      age, gender) triples in first-seen order, and sort by hour. */
  method GetScatterData(data: seq<Record>, random: nat -> real) returns (result: seq<ScatterPoint>)
    ensures result == ScatterData(data, random)
  {
    var expanded: seq<ScatterPoint> := [];
    var next: nat := 0;
    assert data[..0] == [];
    for k := 0 to |data|
      invariant Drawn(expanded, next) == Expand(data[..k], random, 0)
    {
      assert data[..k + 1][..k] == data[..k];
      var item := data[k];
      var points: seq<ScatterPoint>;
      points, next := ExpandRow(item, random, next);
      expanded := expanded + points;
    }
    assert data[..|data|] == data;
    var grouped := GroupSum(expanded, PointKey, PointCount);
    var sorted := SortDesc(grouped, Earliness);
    result := seq(|sorted|, j requires 0 <= j < |sorted| => ToPoint(sorted[j]));
  }

  /** The body of the `forEach` callback for one row. */
  method ExpandRow(item: Record, random: nat -> real, start: nat) returns (points: seq<ScatterPoint>, next: nat)
    ensures Drawn(points, next) == RowPoints(item, random, start)
  {
    points := [];
    next := start;
    var plotted := item.hour.Some? && 7 <= item.hour.value <= 18 && Truthy(item.gender);
    if (item.age.None? || item.age.value == 0) && Truthy(item.ageGroup) {
      var ageCounts;
      ageCounts, next := SplitAges(CountOrDefault(item), item.ageGroup.value, random, start);
      for j := 0 to |ageCounts|
        invariant points == if plotted then seq(j, m requires 0 <= m < j => PartPoint(item, ageCounts[m])) else []
      {
        if plotted {
          points := points + [ScatterPoint(item.hour.value, ageCounts[j].age, item.gender.value, ageCounts[j].count)];
        }
      }
    } else if plotted && item.age.Some? {
      points := [ScatterPoint(item.hour.value, item.age.value, item.gender.value, CountOrDefault(item))];
    }
  }

  /** The points run by hour, each (hour, age, gender) triple once, each
      with the sum of the prints of its expanded rows. */
  lemma ScatterOrder(data: seq<Record>, random: nat -> real)
    ensures var points := ScatterData(data, random);
      var expanded := Expand(data, random, 0).value;
      && (forall i, j :: 0 <= i < j < |points| ==> points[i].hour <= points[j].hour)
      && (forall i, j :: 0 <= i < j < |points| ==>
            (points[i].hour, points[i].age, points[i].gender) != (points[j].hour, points[j].age, points[j].gender))
      && (forall i :: 0 <= i < |points| ==>
            points[i].count == KeySum(expanded, PointKey, PointCount, (points[i].hour, points[i].age, points[i].gender)))
  {
    var expanded := Expand(data, random, 0).value;
    var sorted := SortDesc(Tally(expanded, PointKey, PointCount), Earliness);
    var points := ScatterData(data, random);
    PointsOfSorted(data, random);
    SortedTallySpec(expanded, PointKey, PointCount, Earliness);
    forall i, j | 0 <= i < j < |points| ensures points[i].hour <= points[j].hour {
      assert points[i] == ToPoint(sorted[i]) && points[j] == ToPoint(sorted[j]);
      assert Earliness(sorted[i]) >= Earliness(sorted[j]);
    }
    forall i, j | 0 <= i < j < |points|
      ensures (points[i].hour, points[i].age, points[i].gender) != (points[j].hour, points[j].age, points[j].gender)
    {
      assert points[i] == ToPoint(sorted[i]) && points[j] == ToPoint(sorted[j]);
      assert NameOf(sorted[i]) != NameOf(sorted[j]);
    }
    forall i | 0 <= i < |points|
      ensures points[i].count == KeySum(expanded, PointKey, PointCount, (points[i].hour, points[i].age, points[i].gender))
    {
      assert points[i] == ToPoint(sorted[i]);
    }
  }

  /** Every point lies in the plotted hours 7..18 with a gender, and the
      points carry all the prints of the plotted rows. */
  lemma ScatterBounds(data: seq<Record>, random: nat -> real)
    requires IsRandom(random)
    ensures var points := ScatterData(data, random);
      && (forall i :: 0 <= i < |points| ==> 7 <= points[i].hour <= 18 && points[i].gender != "")
      && SumBy(points, PointCount) == SumBy(data, ScatterWeight)
  {
    ScatterHours(data, random);
    ScatterTotal(data, random);
  }

  lemma ScatterHours(data: seq<Record>, random: nat -> real)
    requires IsRandom(random)
    ensures var points := ScatterData(data, random);
      forall i :: 0 <= i < |points| ==> 7 <= points[i].hour <= 18 && points[i].gender != ""
  {
    var expanded := Expand(data, random, 0).value;
    ExpandSpec(data, random, 0);
    TallyInRange(expanded);
    PointsOfSorted(data, random);
  }

  /** The chart's points are the sorted sums, one point per triple. */
  lemma PointsOfSorted(data: seq<Record>, random: nat -> real)
    ensures var sorted := SortDesc(Tally(Expand(data, random, 0).value, PointKey, PointCount), Earliness);
      var points := ScatterData(data, random);
      |points| == |sorted| && forall i :: 0 <= i < |points| ==> points[i] == ToPoint(sorted[i])
  {
  }

  /** Summing equal triples and sorting keeps every triple inside the plotted
      hours with a gender when every point was. */
  lemma TallyInRange(expanded: seq<ScatterPoint>)
    requires forall j :: 0 <= j < |expanded| ==> 7 <= expanded[j].hour <= 18 && expanded[j].gender != ""
    ensures var sorted := SortDesc(Tally(expanded, PointKey, PointCount), Earliness);
      forall i :: 0 <= i < |sorted| ==> 7 <= sorted[i].name.0 <= 18 && sorted[i].name.2 != ""
  {
    var tally := Tally(expanded, PointKey, PointCount);
    var sorted := SortDesc(tally, Earliness);
    TallySpec(expanded, PointKey, PointCount);
    forall i | 0 <= i < |sorted| ensures 7 <= sorted[i].name.0 <= 18 && sorted[i].name.2 != "" {
      var key := sorted[i].name;
      assert sorted[i] in multiset(sorted);
      assert key in Names(tally);
      KeySetSpec(expanded, PointKey, key);
    }
  }

  lemma ScatterTotal(data: seq<Record>, random: nat -> real)
    requires IsRandom(random)
    ensures SumBy(ScatterData(data, random), PointCount) == SumBy(data, ScatterWeight)
  {
    var expanded := Expand(data, random, 0).value;
    var tally := Tally(expanded, PointKey, PointCount);
    var sorted := SortDesc(tally, Earliness);
    TallySpec(expanded, PointKey, PointCount);
    SumByPermutation(sorted, tally, ValueOf);
    ExpandSpec(data, random, 0);
    SumAsPoints(sorted, ScatterData(data, random));
    TotalOfPoints(expanded);
  }

  lemma {:induction false} SumAsPoints(entries: seq<Entry<(int, int, string)>>, points: seq<ScatterPoint>)
    requires |points| == |entries|
    requires forall i :: 0 <= i < |points| ==> points[i].count == entries[i].value
    ensures SumBy(points, PointCount) == SumBy(entries, ValueOf)
  {
    if entries != [] {
      var n := |entries| - 1;
      SumAsPoints(entries[..n], points[..n]);
    }
  }

  /** Every point has a key, so grouping keeps every print. */
  lemma {:induction false} TotalOfPoints(points: seq<ScatterPoint>)
    ensures KeyTotal(points, PointKey, PointCount) == SumBy(points, PointCount)
  {
    if points != [] {
      TotalOfPoints(points[..|points| - 1]);
    }
  }
}
