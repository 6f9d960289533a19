/** The `processedData` block of `FieldFrequencyChart`
    (fe/src/components/dashboard/charts/FieldFrequencyChart.js): the bar chart
    shows the five most frequent domains and one grey "Khác (k lĩnh vực)" bar
    for the others, each bar with its share of the total and its colour. */
module FieldChart {
  import opened Wrappers
  import opened Collections
  import opened Text

  /** How many domains get their own bar. */
  const TopFields: nat := 5

  /** The colour of the "Khác" bar. */
  const Grey: string := "#6c757d"

  /** `plotlyColors` of chartColors.js, used by position. */
  const Palette: seq<string> := ["#1890ff", "#E15759", "#F28E2B", "#59A14F", "#76B7B2",
                                 "#EDC948", "#B07AA1", "#FF9DA7", "#9C755F", "#BAB0AC",
                                 "#8CD17D", "#D37295", "#FABFD2", "#A0CBE8", "#FFBE7D"]

  /** `getPlotlyColor(i)`. */
  function PaletteColor(i: nat): (c: string)
    ensures c in Palette && c != Grey
  {
    Palette[i % |Palette|]
  }

  /** `item.value > 0 && item.name !== 'Khác'`. */
  function Included(e: Entry<string>): bool
  {
    e.value > 0 && e.name != "Khác"
  }

  /** A bar before its share and colour are added. */
  datatype Bar = Bar(name: string, value: int, isOther: bool, details: seq<Entry<string>>)

  /** A bar as the chart draws it: `percentage` is its share of the total in
      percent, 0 when the total is 0. */
  datatype FieldRow = FieldRow(name: string, value: int, isOther: bool, details: seq<Entry<string>>,
                               percentage: real, color: string)

  function BarValue(b: Bar): int { b.value }

  function RowValue(r: FieldRow): int { r.value }

  function RowPercentage(r: FieldRow): real { r.percentage }

  /** `allFields`: the included domains, most frequent first, ties in input order. */
  function Ranked(data: seq<Entry<string>>): seq<Entry<string>>
  {
    SortDesc(Filter(data, Included), ValueOf)
  }

  function KeptCount(data: seq<Entry<string>>): nat
  {
    Min(TopFields, |Ranked(data)|)
  }

  /** `Khác (${k} lĩnh vực)`: the label of the bar folding `k` fields. */
  function OtherName(k: nat): string
  {
    "Khác (" + NatToString(k) + " lĩnh vực)"
  }

  /** `sortedData`: the top fields, then the "Khác" bar when any are left. */
  function Bars(all: seq<Entry<string>>): (bars: seq<Bar>)
    ensures |bars| == Min(TopFields, |all|) + (if |all| > TopFields then 1 else 0)
    ensures forall i :: 0 <= i < |bars| ==> (bars[i].isOther <==> i == TopFields)
    ensures forall j :: 0 <= j < |all| ==>
      if j < TopFields then bars[j].name == all[j].name && bars[j].value == all[j].value
      else all[j] in bars[TopFields].details
  {
    var k := Min(TopFields, |all|);
    var rest := all[k..];
    seq(k, i requires 0 <= i < k => Bar(all[i].name, all[i].value, false, []))
      + (if |rest| > 0 then [Bar(OtherName(|rest|), SumBy(rest, ValueOf), true, rest)] else [])
  }

  /** `(value / total) * 100`, and 0 when the total is not positive. */
  function Percentage(value: int, total: int): (p: real)
    ensures total > 0 ==> p * total as real == (value * 100) as real
    ensures total <= 0 ==> p == 0.0
    ensures total > 0 && 0 <= value <= total ==> 0.0 <= p <= 100.0
  {
    if total > 0 then (value * 100) as real / total as real else 0.0
  }

  /** A bar with its share of `total` and its colour: grey exactly for the
      "Khác" bar. */
  function Decorate(b: Bar, index: nat, total: int): (row: FieldRow)
    ensures row.name == b.name && row.value == b.value && row.isOther == b.isOther && row.details == b.details
    ensures row.color == Grey <==> b.isOther
    ensures row.percentage == Percentage(b.value, total)
  {
    FieldRow(b.name, b.value, b.isOther, b.details, Percentage(b.value, total), if b.isOther then Grey else PaletteColor(index))
  }

  /** `processedData` for `data`: the "Khác" bar is grey and every other bar
      takes the palette colour of its position. */
  function ProcessedData(data: seq<Entry<string>>): (rows: seq<FieldRow>)
    ensures data == [] ==> rows == []
    ensures |rows| <= TopFields + 1
    ensures forall i :: 0 <= i < |rows| ==> rows[i].color == if rows[i].isOther then Grey else PaletteColor(i)
  {
    if data == [] then []
    else
      var bars := Bars(Ranked(data));
      var total := SumBy(bars, BarValue);
      seq(|bars|, i requires 0 <= i < |bars| => Decorate(bars[i], i, total))
  }

  /** The included fields ranked: every one passes the filter, their
      number is the filter's, and the values do not increase. */
  lemma RankedSpec(data: seq<Entry<string>>)
    ensures var all := Ranked(data);
      && |all| == |Filter(data, Included)|
      && (forall i :: 0 <= i < |all| ==> Included(all[i]))
      && (forall i, j :: 0 <= i < j < |all| ==> all[i].value >= all[j].value)
  {
    var all := Ranked(data);
    var filtered := Filter(data, Included);
    SortDescSpec(filtered, ValueOf, ValueOf, NameOf);
    FilterSpec(data, Included);
    forall i | 0 <= i < |all| ensures Included(all[i]) {
      assert all[i] in multiset(filtered);
    }
    forall i, j | 0 <= i < j < |all| ensures all[i].value >= all[j].value {
      assert ValueOf(all[i]) >= ValueOf(all[j]);
    }
  }

  /** The bars: one per top field, then the "Khác" bar when fields are left. */
  lemma BarsShape(all: seq<Entry<string>>)
    ensures var bars := Bars(all);
      var k := Min(TopFields, |all|);
      && |bars| == k + (if |all| > TopFields then 1 else 0)
      && (forall i :: 0 <= i < k ==> bars[i] == Bar(all[i].name, all[i].value, false, []))
      && (|all| > TopFields ==>
            bars[k] == Bar(OtherName(|all| - TopFields), SumBy(all[k..], ValueOf), true, all[k..]))
  {
  }

  lemma RowsOf(data: seq<Entry<string>>)
    requires data != []
    ensures var bars := Bars(Ranked(data));
      var rows := ProcessedData(data);
      |rows| == |bars| && forall i :: 0 <= i < |rows| ==>
        rows[i].name == bars[i].name && rows[i].value == bars[i].value
        && rows[i].isOther == bars[i].isOther && rows[i].details == bars[i].details
  {
  }

  /** The bars: one per top field, at most five, most frequent first, then
      one more exactly when more than five fields are included. */
  lemma TopBars(data: seq<Entry<string>>)
    requires data != []
    ensures var rows := ProcessedData(data);
      var all := Ranked(data);
      var n := |Filter(data, Included)|;
      var k := Min(TopFields, n);
      && |rows| == k + (if n > TopFields then 1 else 0)
      && (forall i :: 0 <= i < k ==>
            && rows[i].name == all[i].name && rows[i].value == all[i].value && !rows[i].isOther
            && rows[i].value > 0 && rows[i].name != "Khác")
      && (forall i, j :: 0 <= i < j < k ==> rows[i].value >= rows[j].value)
  {
    var all := Ranked(data);
    RankedSpec(data);
    BarsShape(all);
    RowsOf(data);
    var rows := ProcessedData(data);
    var k := Min(TopFields, |all|);
    forall i | 0 <= i < k ensures rows[i].value > 0 && rows[i].name != "Khác" {
      assert Included(all[i]);
    }
  }

  /** The last bar, when more than five fields are included, is the
      "Khác (k lĩnh vực)" bar for the `k` fields past the fifth: it sums them
      and lists them as its details. */
  lemma OtherBar(data: seq<Entry<string>>)
    requires data != []
    ensures var rows := ProcessedData(data);
      var all := Ranked(data);
      var n := |Filter(data, Included)|;
      var k := Min(TopFields, n);
      n > TopFields ==>
        && |rows| == k + 1
        && rows[k].isOther
        && rows[k].name == OtherName(n - TopFields)
        && rows[k].details == all[k..]
        && rows[k].value == SumBy(all[k..], ValueOf)
  {
    RankedSpec(data);
    BarsShape(Ranked(data));
    RowsOf(data);
  }

  /** None of the folded fields outranks a top field. */
  lemma FoldedFields(data: seq<Entry<string>>)
    ensures var all := Ranked(data);
      var k := Min(TopFields, |all|);
      forall e :: e in all[k..] ==> Included(e) && forall i :: 0 <= i < k ==> e.value <= all[i].value
  {
    var all := Ranked(data);
    RankedSpec(data);
    var k := Min(TopFields, |all|);
    forall e | e in all[k..] ensures Included(e) && forall i :: 0 <= i < k ==> e.value <= all[i].value {
      var j :| 0 <= j < |all[k..]| && all[k..][j] == e;
      assert e == all[k + j];
    }
  }

  /** The bars add up to the included fields: nothing is lost or counted twice. */
  lemma FieldSum(data: seq<Entry<string>>)
    ensures SumBy(ProcessedData(data), RowValue) == SumBy(Filter(data, Included), ValueOf)
  {
    if data != [] {
      var all := Ranked(data);
      assert SumBy(all, ValueOf) == SumBy(Filter(data, Included), ValueOf) by {
        SortDescSpec(Filter(data, Included), ValueOf, ValueOf, NameOf);
      }
      BarsSum(all);
      var bars := Bars(all);
      DecoratedSum(bars, SumBy(bars, BarValue), ProcessedData(data));
    } else {
      assert Filter(data, Included) == [];
    }
  }

  lemma BarsSum(all: seq<Entry<string>>)
    ensures SumBy(Bars(all), BarValue) == SumBy(all, ValueOf)
  {
    var k := Min(TopFields, |all|);
    var rest := all[k..];
    var top := seq(k, i requires 0 <= i < k => Bar(all[i].name, all[i].value, false, []));
    var other := if |rest| > 0 then [Bar(OtherName(|rest|), SumBy(rest, ValueOf), true, rest)] else [];
    assert Bars(all) == top + other;
    assert all == all[..k] + rest;
    SumByConcat(all[..k], rest, ValueOf);
    SumByConcat(top, other, BarValue);
    TopBarsSum(all[..k], top);
    if |rest| > 0 {
      assert other[..0] == [];
    }
  }

  lemma {:induction false} TopBarsSum(entries: seq<Entry<string>>, bars: seq<Bar>)
    requires |bars| == |entries|
    requires forall i :: 0 <= i < |bars| ==> bars[i].value == entries[i].value
    ensures SumBy(bars, BarValue) == SumBy(entries, ValueOf)
  {
    if entries != [] {
      var n := |entries| - 1;
      TopBarsSum(entries[..n], bars[..n]);
    }
  }

  lemma {:induction false} DecoratedSum(bars: seq<Bar>, total: int, rows: seq<FieldRow>)
    requires |rows| == |bars|
    requires forall i :: 0 <= i < |rows| ==> rows[i].value == bars[i].value
    ensures SumBy(rows, RowValue) == SumBy(bars, BarValue)
  {
    if bars != [] {
      var n := |bars| - 1;
      DecoratedSum(bars[..n], total, rows[..n]);
    }
  }

  /** With a zero total every share is 0; otherwise each share is the bar's
      value over the total in percent (`PercentageScales`), and the shares add
      up to 100. */
  lemma FieldShares(data: seq<Entry<string>>)
    ensures var rows := ProcessedData(data);
      var total := SumBy(rows, RowValue);
      && (forall i :: 0 <= i < |rows| ==> rows[i].percentage == Percentage(rows[i].value, total))
      && (total > 0 ==> ShareTotal(rows) == 100.0)
  {
    var rows := ProcessedData(data);
    if data != [] {
      var bars := Bars(Ranked(data));
      var total := SumBy(bars, BarValue);
      DecoratedSum(bars, total, rows);
      assert forall i :: 0 <= i < |rows| ==> rows[i].percentage == Percentage(rows[i].value, total);
      if total > 0 {
        SharesAddUp(rows, total);
      }
    }
  }

  lemma SharesAddUp(rows: seq<FieldRow>, total: int)
    requires total > 0 && SumBy(rows, RowValue) == total
    requires forall i :: 0 <= i < |rows| ==> rows[i].percentage == Percentage(rows[i].value, total)
    ensures ShareTotal(rows) == 100.0
  {
    SharesSum(rows, total);
    ScaleBack(ShareTotal(rows), SumBy(rows, RowValue), total);
  }

  /** Dividing out a positive total. */
  lemma ScaleBack(shares: real, sum: int, total: int)
    requires total > 0 && sum == total
    requires shares * total as real == sum as real * 100.0
    ensures shares == 100.0
  {
    Cancel(shares, 100.0, total as real);
  }

  /** The sum of the shares of `rows`. */
  function ShareTotal(rows: seq<FieldRow>): real
  {
    if rows == [] then 0.0 else ShareTotal(rows[..|rows| - 1]) + rows[|rows| - 1].percentage
  }

  lemma PercentageScales(value: int, total: int)
    requires total > 0
    ensures Percentage(value, total) * total as real == (value * 100) as real
  {
  }

  lemma Cancel(a: real, b: real, t: real)
    requires t > 0.0 && a * t == b * t
    ensures a == b
  {
  }

  lemma {:induction false} SharesSum(rows: seq<FieldRow>, total: int)
    requires total > 0
    requires forall i :: 0 <= i < |rows| ==> rows[i].percentage == Percentage(rows[i].value, total)
    ensures ShareTotal(rows) * total as real == SumBy(rows, RowValue) as real * 100.0
  {
    if rows != [] {
      var n := |rows| - 1;
      SharesSum(rows[..n], total);
      var p := rows[n].percentage;
      PercentageScales(rows[n].value, total);
      assert ShareTotal(rows) * total as real == ShareTotal(rows[..n]) * total as real + p * total as real;
    }
  }
}
