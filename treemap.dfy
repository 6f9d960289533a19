/** The `processData` block of `TopProceduresChart`
    (fe/src/components/dashboard/charts/TopProceduresChart.js): the treemap
    shows the `topK + 1` largest procedures and folds the rest into one grey
    "Khác" tile, merged into a kept tile whose label already starts with
    "Khác" when there is one. */
module TreemapChart {
  import opened Wrappers
  import opened Collections

  const OtherLabel: string := "Khác"

  /** The colour of the "Khác" tile. */
  const Grey: string := "#6c757d"

  /** The chart's own ten Plotly colours, used by position. */
  const Palette: seq<string> := ["#1f77b4", "#ff7f0e", "#2ca02c", "#d62728", "#9467bd",
                                 "#8c564b", "#e377c2", "#7f7f7f", "#bcbd22", "#17becf"]

  /** `getPlotlyColor(i)`. */
  function PaletteColor(i: nat): (c: string)
    ensures c in Palette && c != Grey
  {
    Palette[i % |Palette|]
  }

  function IsPositive(e: Entry<string>): bool { e.value > 0 }

  function Label(e: Entry<string>): string { e.name }

  function IntValue(x: int): int { x }

  /** `l && l.startsWith('Khác')`. */
  predicate StartsWithOther(tile: string)
  {
    |OtherLabel| <= |tile| && tile[..|OtherLabel|] == OtherLabel
  }

  /** `allProcedures`: the positive entries, largest first, ties in input order. */
  function Ranked(data: seq<Entry<string>>): seq<Entry<string>>
  {
    SortDesc(Filter(data, IsPositive), ValueOf)
  }

  /** How many entries get their own tile. */
  function KeptCount(data: seq<Entry<string>>, topK: nat): nat
  {
    Min(topK + 1, |Ranked(data)|)
  }

  /** `labels.findIndex(l => l && l.startsWith('Khác'))`, `None` for -1. */
  function FirstOther(labels: seq<string>): (r: Option<nat>)
    ensures r.None? <==> forall i :: 0 <= i < |labels| ==> !StartsWithOther(labels[i])
    ensures r.Some? ==>
      && r.value < |labels| && StartsWithOther(labels[r.value])
      && (forall i :: 0 <= i < r.value ==> !StartsWithOther(labels[i]))
  {
    if labels == [] then None
    else if StartsWithOther(labels[0]) then Some(0)
    else match FirstOther(labels[1..])
      case None => None
      case Some(i) => Some(i + 1)
  }

  /** The three parallel arrays the chart draws. */
  datatype Tiles = Tiles(labels: seq<string>, values: seq<int>, colors: seq<string>)

  datatype Treemap = Treemap(tiles: Tiles, otherCount: nat, otherValue: int, allProcedures: seq<Entry<string>>)

  /** The tiles of the first `k` ranked entries, coloured by position. */
  function KeptTiles(all: seq<Entry<string>>, k: nat): (t: Tiles)
    requires k <= |all|
    ensures |t.labels| == |t.values| == |t.colors| == k
    ensures forall i :: 0 <= i < k ==> t.colors[i] != Grey
    ensures SumBy(t.values, IntValue) == SumBy(all[..k], ValueOf)
  {
    var values := seq(k, i requires 0 <= i < k => all[i].value);
    ValuesSum(all[..k], values);
    Tiles(seq(k, i requires 0 <= i < k => all[i].name), values, seq(k, i requires 0 <= i < k => PaletteColor(i)))
  }

  /** Folding the remainder in: added to the first tile whose label starts
      with "Khác", which turns grey and is relabelled "Khác"; otherwise a new
      grey "Khác" tile when anything remains. */
  function Fold(kept: Tiles, otherValue: int, folded: nat): (t: Tiles)
    requires |kept.values| == |kept.labels| == |kept.colors|
    ensures |t.labels| == |t.values| == |t.colors|
    ensures |t.values| == |kept.values| + (if FirstOther(kept.labels).None? && folded > 0 then 1 else 0)
    ensures FirstOther(kept.labels).Some? || folded > 0 ==>
      SumBy(t.values, IntValue) == SumBy(kept.values, IntValue) + otherValue
  {
    match FirstOther(kept.labels)
    case Some(i) =>
      SumByUpdate(kept.values, i, kept.values[i] + otherValue, IntValue);
      Tiles(kept.labels[i := OtherLabel], kept.values[i := kept.values[i] + otherValue], kept.colors[i := Grey])
    case None =>
      if folded > 0 then
        SumByConcat(kept.values, [otherValue], IntValue);
        assert [otherValue][..0] == [];
        Tiles(kept.labels + [OtherLabel], kept.values + [otherValue], kept.colors + [Grey])
      else kept
  }

  /** What `processData` returns for `data` and `topK`: the three tile
      arrays have one entry per tile, at most `topK + 2`, and the folded
      entries are the positive ones past the first `topK + 1`. */
  function TreemapOf(data: seq<Entry<string>>, topK: nat): (t: Treemap)
    ensures |t.tiles.labels| == |t.tiles.values| == |t.tiles.colors| <= topK + 2
    ensures data != [] ==> t.otherCount == Max(0, |Filter(data, IsPositive)| - (topK + 1))
    ensures data == [] ==> t.tiles == Tiles([], [], [])
  {
    if data == [] then Treemap(Tiles([], [], []), 0, 0, [])
    else
      var all := Ranked(data);
      var k := KeptCount(data, topK);
      var rest := all[k..];
      Treemap(Fold(KeptTiles(all, k), SumBy(rest, ValueOf), |rest|), |rest|, SumBy(rest, ValueOf), all)
  }

  /** `processData`: rank and split the entries, then build the three tile
      arrays and fold the remainder into them. */
  method ProcessData(data: seq<Entry<string>>, topK: nat) returns (t: Treemap)
    ensures t == TreemapOf(data, topK)
  {
    if data == [] {
      return Treemap(Tiles([], [], []), 0, 0, []);
    }
    var allProcedures := Ranked(data);
    var k := Min(topK + 1, |allProcedures|);
    var otherProcedures := allProcedures[k..];
    var otherValue := SumBy(otherProcedures, ValueOf);
    var labels := seq(k, i requires 0 <= i < k => allProcedures[i].name);
    var values := seq(k, i requires 0 <= i < k => allProcedures[i].value);
    var colors := seq(k, i requires 0 <= i < k => PaletteColor(i));
    assert Tiles(labels, values, colors) == KeptTiles(allProcedures, k);
    labels, values, colors := FoldOther(labels, values, colors, otherValue, |otherProcedures|);
    t := Treemap(Tiles(labels, values, colors), |otherProcedures|, otherValue, allProcedures);
  }

  /** The in-place part of `processData`: find the "Khác" tile and add the
      remainder to it, or push a new one. */
  method FoldOther(labels0: seq<string>, values0: seq<int>, colors0: seq<string>, otherValue: int, otherCount: nat)
    returns (labels: seq<string>, values: seq<int>, colors: seq<string>)
    requires |values0| == |labels0| == |colors0|
    ensures Tiles(labels, values, colors) == Fold(Tiles(labels0, values0, colors0), otherValue, otherCount)
  {
    labels, values, colors := labels0, values0, colors0;
    var khacIdx := FindOther(labels);
    if khacIdx != -1 {
      values := values[khacIdx := values[khacIdx] + otherValue];
      labels := labels[khacIdx := OtherLabel];
      colors := colors[khacIdx := Grey];
    } else if otherCount > 0 {
      labels := labels + [OtherLabel];
      values := values + [otherValue];
      colors := colors + [Grey];
    }
  }

  /** `findIndex`: the first label starting with "Khác", or -1. */
  method FindOther(labels: seq<string>) returns (idx: int)
    ensures idx == -1 <==> FirstOther(labels).None?
    ensures idx != -1 ==> FirstOther(labels) == Some(idx)
  {
    var i := 0;
    while i < |labels|
      invariant 0 <= i <= |labels|
      invariant forall j :: 0 <= j < i ==> !StartsWithOther(labels[j])
    {
      if StartsWithOther(labels[i]) {
        FirstOtherAt(labels, i);
        return i;
      }
      i := i + 1;
    }
    return -1;
  }

  lemma {:induction false} FirstOtherAt(labels: seq<string>, i: nat)
    requires i < |labels| && StartsWithOther(labels[i])
    requires forall j :: 0 <= j < i ==> !StartsWithOther(labels[j])
    ensures FirstOther(labels) == Some(i)
  {
    if i > 0 {
      FirstOtherAt(labels[1..], i - 1);
    }
  }

  /** No value is lost or invented: the tiles add up to the sum of the
      positive input values. */
  lemma TreemapSum(data: seq<Entry<string>>, topK: nat)
    ensures SumBy(TreemapOf(data, topK).tiles.values, IntValue) == SumBy(Filter(data, IsPositive), ValueOf)
  {
    if data != [] {
      var all := Ranked(data);
      assert SumBy(all, ValueOf) == SumBy(Filter(data, IsPositive), ValueOf) by {
        SortDescSpec(Filter(data, IsPositive), ValueOf, ValueOf, NameOf);
      }
      SplitSum(all, KeptCount(data, topK));
    } else {
      assert Filter(data, IsPositive) == [];
    }
  }

  /** Keeping the first `k` entries and folding the rest keeps the sum. */
  lemma SplitSum(all: seq<Entry<string>>, k: nat)
    requires k <= |all|
    ensures SumBy(Fold(KeptTiles(all, k), SumBy(all[k..], ValueOf), |all[k..]|).values, IntValue) == SumBy(all, ValueOf)
  {
    var rest := all[k..];
    assert all == all[..k] + rest;
    SumByConcat(all[..k], rest, ValueOf);
    if rest == [] {
      assert SumBy(rest, ValueOf) == 0;
    }
  }

  lemma {:induction false} ValuesSum(entries: seq<Entry<string>>, values: seq<int>)
    requires |values| == |entries|
    requires forall i :: 0 <= i < |values| ==> values[i] == entries[i].value
    ensures SumBy(values, IntValue) == SumBy(entries, ValueOf)
  {
    if entries != [] {
      var n := |entries| - 1;
      ValuesSum(entries[..n], values[..n]);
    }
  }

  /** Every tile is either a kept entry, with its name, its value and the
      palette colour of its position, or the grey "Khác" tile; there is a grey
      tile exactly when something is folded or a kept label starts with
      "Khác", and then only one. */
  lemma TreemapTiles(data: seq<Entry<string>>, topK: nat)
    requires data != []
    ensures var t := TreemapOf(data, topK).tiles;
      var all := Ranked(data);
      var k := KeptCount(data, topK);
      var merged := FirstOther(KeptTiles(all, k).labels);
      && (forall j :: 0 <= j < |t.colors| ==>
            || (t.colors[j] == Grey && t.labels[j] == OtherLabel)
            || (j < k && t.colors[j] == PaletteColor(j) && t.labels[j] == all[j].name && t.values[j] == all[j].value))
      && ((exists j :: 0 <= j < |t.colors| && t.colors[j] == Grey) <==> (merged.Some? || k < |all|))
      && (forall i, j :: 0 <= i < j < |t.colors| && t.colors[i] == Grey ==> t.colors[j] != Grey)
  {
    var all := Ranked(data);
    var k := KeptCount(data, topK);
    var rest := all[k..];
    FoldTiles(all, k, SumBy(rest, ValueOf), |rest|);
  }

  lemma FoldTiles(all: seq<Entry<string>>, k: nat, otherValue: int, folded: nat)
    requires k <= |all|
    ensures var t := Fold(KeptTiles(all, k), otherValue, folded);
      var merged := FirstOther(KeptTiles(all, k).labels);
      && (forall j :: 0 <= j < |t.colors| ==>
            || (t.colors[j] == Grey && t.labels[j] == OtherLabel)
            || (j < k && t.colors[j] == PaletteColor(j) && t.labels[j] == all[j].name && t.values[j] == all[j].value))
      && ((exists j :: 0 <= j < |t.colors| && t.colors[j] == Grey) <==> (merged.Some? || folded > 0))
      && (forall i, j :: 0 <= i < j < |t.colors| && t.colors[i] == Grey ==> t.colors[j] != Grey)
  {
    var kept := KeptTiles(all, k);
    var t := Fold(kept, otherValue, folded);
    assert forall j :: 0 <= j < k ==> kept.colors[j] != Grey;
    match FirstOther(kept.labels)
    case Some(i) =>
      assert t.colors[i] == Grey;
    case None =>
      if folded > 0 {
        assert t.colors[k] == Grey;
      }
  }
}
