/** `getTopProcedures` (fe/src/utils/dataProcessing.js): the `topK`
    procedures with the most prints, their names shortened for the axis,
    followed by one "Khác" row for all the others. */
module Procedures {
  import opened Wrappers
  import opened Collections
  import opened Reports
  import opened Text

  /** The name a row without a procedure is counted under. */
  const Unknown: string := "Không xác định"

  /** Names longer than this are cut for display. */
  const MaxNameLength: nat := 30

  /** `item.procedure || 'Không xác định'`: every row has a key. */
  function ProcedureKey(r: Record): (k: Option<string>)
    ensures k.Some? && k.value != ""
    ensures Truthy(r.procedure) ==> k == r.procedure
    ensures !Truthy(r.procedure) ==> k == Some(Unknown)
  {
    Some(if Truthy(r.procedure) then r.procedure.value else Unknown)
  }

  datatype ProcedureRow = ProcedureRow(name: string, fullName: string, value: int, isOther: bool, details: seq<Entry<string>>)

  function RowValue(row: ProcedureRow): int { row.value }

  /** A name of at most 30 characters as it is; a longer one cut to its first
      30 characters followed by "...". */
  function Shorten(s: string): (t: string)
    ensures |s| <= MaxNameLength ==> t == s
    ensures |s| > MaxNameLength ==> |t| == MaxNameLength + 3 && t[..MaxNameLength] == s[..MaxNameLength] && t[MaxNameLength..] == "..."
  {
    if |s| > MaxNameLength then s[..MaxNameLength] + "..." else s
  }

  function TopRow(e: Entry<string>): ProcedureRow
  {
    ProcedureRow(Shorten(e.name), e.name, e.value, false, [])
  }

  /** The end of the summary row's full name, after the number of procedures. */
  const OtherSuffix: string := " thủ tục khác"

  /** The summary row for the procedures beyond the top `topK`: it carries
      them as its details with their summed prints, and its full name starts
      with the number of procedures it folds. */
  function OtherRow(rest: seq<Entry<string>>): (row: ProcedureRow)
    ensures row.isOther && row.details == rest && row.value == SumBy(rest, ValueOf)
    ensures |row.fullName| > |OtherSuffix| && row.fullName[|row.fullName| - |OtherSuffix|..] == OtherSuffix
    ensures var digits := row.fullName[..|row.fullName| - |OtherSuffix|];
      (forall i :: 0 <= i < |digits| ==> '0' <= digits[i] <= '9') && ParseDecimal(digits) == |rest|
  {
    var n := NatToString(|rest|);
    NatToStringRoundTrip(|rest|);
    assert (n + OtherSuffix)[..|n|] == n;
    ProcedureRow("Khác (" + n + " thủ tục)", n + OtherSuffix, SumBy(rest, ValueOf), true, rest)
  }

  /** The procedures with their summed `count || 1`, most printed first, ties
      in first-seen order. */
  function SortedProcedures(data: seq<Record>): (sorted: seq<Entry<string>>)
    ensures |sorted| <= |data|
  {
    SortDesc(Tally(data, ProcedureKey, CountOr1), ValueOf)
  }

  /** `getTopProcedures(data, topK)`: no rows for no data; otherwise the first
      `topK` procedures, then an "Khác" row when the rest sum to more than 0. */
  function GetTopProcedures(data: seq<Record>, topK: nat): (rows: seq<ProcedureRow>)
    ensures |rows| <= topK + 1
    ensures data == [] ==> rows == []
  {
    if data == [] then []
    else
      var sorted := SortedProcedures(data);
      var k := Min(topK, |sorted|);
      var top := TopRows(sorted, k);
      var rest := sorted[k..];
      top + OtherRows(rest)
  }

  /** The "Khác" row when the rest sums to more than 0, nothing otherwise. */
  function OtherRows(rest: seq<Entry<string>>): seq<ProcedureRow>
  {
    if SumBy(rest, ValueOf) > 0 then [OtherRow(rest)] else []
  }

  lemma OtherRowsSum(rest: seq<Entry<string>>)
    requires SumBy(rest, ValueOf) >= 0
    ensures SumBy(OtherRows(rest), RowValue) == SumBy(rest, ValueOf)
  {
    if SumBy(rest, ValueOf) > 0 {
      assert OtherRows(rest)[..0] == [];
    }
  }

  /** `sorted.slice(0, k).map(...)`: the display rows of the first `k` entries. */
  function TopRows(sorted: seq<Entry<string>>, k: nat): (top: seq<ProcedureRow>)
    requires k <= |sorted|
    ensures |top| == k
    ensures forall i :: 0 <= i < k ==> top[i] == TopRow(sorted[i])
  {
    seq(k, i requires 0 <= i < k => TopRow(sorted[i]))
  }

  /** The sorted entries: procedures of the data with their sums, values not
      increasing, names distinct. */
  lemma SortedFacts(data: seq<Record>)
    ensures var sorted := SortedProcedures(data);
      && (forall i :: 0 <= i < |sorted| ==>
            sorted[i].name in KeySet(data, ProcedureKey) && sorted[i].value == KeySum(data, ProcedureKey, CountOr1, sorted[i].name))
      && (forall i, j :: 0 <= i < j < |sorted| ==> sorted[i].value >= sorted[j].value && sorted[i].name != sorted[j].name)
  {
    var sorted := SortedProcedures(data);
    SortedTallySpec(data, ProcedureKey, CountOr1, ValueOf);
    forall i | 0 <= i < |sorted| ensures sorted[i].name in KeySet(data, ProcedureKey) {
      assert sorted[i] in sorted;
    }
    forall i, j | 0 <= i < j < |sorted| ensures sorted[i].value >= sorted[j].value && sorted[i].name != sorted[j].name {
      assert ValueOf(sorted[i]) >= ValueOf(sorted[j]);
      assert NameOf(sorted[i]) != NameOf(sorted[j]);
    }
  }

  /** The first rows are the most printed procedures: each carries a procedure
      some row names (or "Không xác định"), the sum of `count || 1` over its
      rows, its name shortened for display; no procedure appears twice and
      the values do not increase. */
  lemma TopRowsSpec(data: seq<Record>, topK: nat)
    ensures var rows := GetTopProcedures(data, topK);
      var k := Min(topK, |SortedProcedures(data)|);
      && |rows| >= k
      && (forall i :: 0 <= i < k ==>
            && rows[i].fullName in KeySet(data, ProcedureKey)
            && rows[i].value == KeySum(data, ProcedureKey, CountOr1, rows[i].fullName)
            && rows[i].name == Shorten(rows[i].fullName)
            && !rows[i].isOther)
      && (forall i, j :: 0 <= i < j < k ==> rows[i].value >= rows[j].value && rows[i].fullName != rows[j].fullName)
  {
    var sorted := SortedProcedures(data);
    var rows := GetTopProcedures(data, topK);
    var k := Min(topK, |sorted|);
    if data != [] {
      SortedFacts(data);
      assert rows[..k] == TopRows(sorted, k);
    } else {
      assert sorted == [] by { assert Tally(data, ProcedureKey, CountOr1) == []; }
    }
  }

  /** The "Khác" row: present exactly when the procedures past the first
      `topK` sum to more than 0; it is last, sums them, lists them as its
      details and counts them in its label; none of them outranks a listed
      procedure or is listed itself. */
  lemma OtherRowSpec(data: seq<Record>, topK: nat)
    requires data != []
    ensures var rows := GetTopProcedures(data, topK);
      var sorted := SortedProcedures(data);
      var k := Min(topK, |sorted|);
      var rest := sorted[k..];
      && (|rows| == k + 1 <==> SumBy(rest, ValueOf) > 0)
      && (|rows| == k + 1 ==>
            && rows[k] == OtherRow(rest)
            && rows[k].isOther
            && rows[k].value == SumBy(rest, ValueOf)
            && (forall e :: e in rows[k].details ==>
                  && e.name in KeySet(data, ProcedureKey)
                  && e.value == KeySum(data, ProcedureKey, CountOr1, e.name)
                  && (forall i :: 0 <= i < k ==> e.value <= rows[i].value && e.name != rows[i].fullName)))
  {
    var sorted := SortedProcedures(data);
    var rows := GetTopProcedures(data, topK);
    var k := Min(topK, |sorted|);
    var rest := sorted[k..];
    var top := TopRows(sorted, k);
    assert rows == top + OtherRows(rest);
    if SumBy(rest, ValueOf) > 0 {
      RestFacts(data, k);
    }
  }

  /** The entries past the first `k` are procedures of the data with their
      sums, none above or equal in name to one of the first `k`. */
  lemma RestFacts(data: seq<Record>, k: nat)
    requires k <= |SortedProcedures(data)|
    ensures var sorted := SortedProcedures(data);
      forall e :: e in sorted[k..] ==>
        && e.name in KeySet(data, ProcedureKey)
        && e.value == KeySum(data, ProcedureKey, CountOr1, e.name)
        && (forall i :: 0 <= i < k ==> e.value <= TopRow(sorted[i]).value && e.name != TopRow(sorted[i]).fullName)
  {
    var sorted := SortedProcedures(data);
    SortedFacts(data);
    forall e | e in sorted[k..]
      ensures e.name in KeySet(data, ProcedureKey) && e.value == KeySum(data, ProcedureKey, CountOr1, e.name)
      ensures forall i :: 0 <= i < k ==> e.value <= TopRow(sorted[i]).value && e.name != TopRow(sorted[i]).fullName
    {
      var j :| k <= j < |sorted| && sorted[j] == e;
    }
  }

  /** Every procedure row sums its weight into exactly one key. */
  lemma {:induction false} ProcedureTotal(data: seq<Record>)
    ensures KeyTotal(data, ProcedureKey, CountOr1) == SumBy(data, CountOr1)
  {
    if data != [] {
      ProcedureTotal(data[..|data| - 1]);
    }
  }

  /** Nothing is lost: with non-negative counts the values of the rows add
      up to the prints of every row of the data. */
  lemma TopProceduresTotal(data: seq<Record>, topK: nat)
    requires forall i :: 0 <= i < |data| ==> NonNegativeCount(data[i])
    ensures SumBy(GetTopProcedures(data, topK), RowValue) == SumBy(data, CountOr1)
  {
    ProcedureTotal(data);
    if data != [] {
      assert SumBy(SortedProcedures(data), ValueOf) == KeyTotal(data, ProcedureKey, CountOr1) by {
        SortedTallySpec(data, ProcedureKey, CountOr1, ValueOf);
      }
      RowsTotal(data, topK);
    } else {
      assert GetTopProcedures(data, topK) == [];
    }
  }

  /** The rows share out the sorted procedures' sum between them. */
  lemma RowsTotal(data: seq<Record>, topK: nat)
    requires data != []
    requires forall i :: 0 <= i < |data| ==> NonNegativeCount(data[i])
    ensures SumBy(GetTopProcedures(data, topK), RowValue) == SumBy(SortedProcedures(data), ValueOf)
  {
    var rows := GetTopProcedures(data, topK);
    var sorted := SortedProcedures(data);
    var k := Min(topK, |sorted|);
    var top := TopRows(sorted, k);
    var rest := sorted[k..];
    assert rows == top + OtherRows(rest);
    assert SumBy(rest, ValueOf) >= 0 by {
      TailWeighs(data, k);
    }
    SplitRowsSum(sorted, k);
  }



  /** The top rows and the "Khác" row share out the sum of the entries. */
  lemma SplitRowsSum(sorted: seq<Entry<string>>, k: nat)
    requires k <= |sorted|
    requires SumBy(sorted[k..], ValueOf) >= 0
    ensures SumBy(TopRows(sorted, k) + OtherRows(sorted[k..]), RowValue) == SumBy(sorted, ValueOf)
  {
    var top := TopRows(sorted, k);
    var rest := sorted[k..];
    var others := OtherRows(rest);
    SumByConcat(top, others, RowValue);
    TopRowsSum(sorted, k);
    OtherRowsSum(rest);
    assert sorted == sorted[..k] + rest;
    SumByConcat(sorted[..k], rest, ValueOf);
  }

  /** The top rows carry the values of the first `k` entries. */
  lemma TopRowsSum(sorted: seq<Entry<string>>, k: nat)
    requires k <= |sorted|
    ensures SumBy(TopRows(sorted, k), RowValue) == SumBy(sorted[..k], ValueOf)
  {
    var top := TopRows(sorted, k);
    forall i | 0 <= i < k ensures top[i].value == sorted[..k][i].value {
      assert top[i] == TopRow(sorted[i]);
    }
    RowsSum(sorted[..k], top);
  }

  /** With non-negative counts every procedure past the first `k` weighs at
      least 1. */
  lemma TailWeighs(data: seq<Record>, k: nat)
    requires forall i :: 0 <= i < |data| ==> NonNegativeCount(data[i])
    requires k <= |SortedProcedures(data)|
    ensures var rest := SortedProcedures(data)[k..];
      (forall i :: 0 <= i < |rest| ==> ValueOf(rest[i]) >= 1) && SumBy(rest, ValueOf) >= |rest|
  {
    var sorted := SortedProcedures(data);
    var rest := sorted[k..];
    forall i | 0 <= i < |data| ensures CountOr1(data[i]) >= 1 {
      PositiveWeight(data[i]);
    }
    SortedFacts(data);
    forall i | 0 <= i < |rest| ensures ValueOf(rest[i]) >= 1 {
      var e := sorted[k + i];
      assert rest[i] == e;
      KeySumPositive(data, ProcedureKey, CountOr1, e.name);
    }
    SumByAtLeastLength(rest, ValueOf);
  }

  lemma {:induction false} RowsSum(entries: seq<Entry<string>>, rows: seq<ProcedureRow>)
    requires |rows| == |entries|
    requires forall i :: 0 <= i < |rows| ==> rows[i].value == entries[i].value
    ensures SumBy(rows, RowValue) == SumBy(entries, ValueOf)
  {
    if entries != [] {
      var n := |entries| - 1;
      RowsSum(entries[..n], rows[..n]);
    }
  }

  /** With non-negative counts every procedure weighs at least 1, so the
      "Khác" row appears exactly when there are more procedures than `topK`. */
  lemma OtherIffMore(data: seq<Record>, topK: nat)
    requires data != []
    requires forall i :: 0 <= i < |data| ==> NonNegativeCount(data[i])
    ensures |GetTopProcedures(data, topK)| == topK + 1 <==> |SortedProcedures(data)| > topK
  {
    var sorted := SortedProcedures(data);
    var k := Min(topK, |sorted|);
    var rest := sorted[k..];
    assert |GetTopProcedures(data, topK)| == k + 1 <==> SumBy(rest, ValueOf) > 0 by {
      OtherRowSpec(data, topK);
    }
    TailWeighs(data, k);
    if |sorted| <= topK {
      assert rest == [];
    }
  }
}
