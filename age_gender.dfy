/** `getAgeGenderDistribution` (fe/src/utils/dataProcessing.js): per age
    group, the men, the women and every row with a gender, counted with
    `count ?? 1`, for the four known groups in their fixed order. */
module AgeGender {
  import opened Wrappers
  import opened Collections
  import opened Reports
  import opened Breakdowns

  /** The characters `String.prototype.trim` removes: WhiteSpace and
      LineTerminator of ECMAScript. */
  predicate IsJsSpace(c: char)
  {
    || c == ' ' || c == '\t' || c == '\n' || c == '\U{000B}' || c == '\U{000C}' || c == '\r'
    || c == '\U{00A0}' || c == '\U{1680}' || ('\U{2000}' <= c <= '\U{200A}')
    || c == '\U{2028}' || c == '\U{2029}' || c == '\U{202F}' || c == '\U{205F}'
    || c == '\U{3000}' || c == '\U{FEFF}'
  }

  function TrimStart(s: string): (t: string)
    ensures |t| <= |s| && t == s[|s| - |t|..]
    ensures forall i :: 0 <= i < |s| - |t| ==> IsJsSpace(s[i])
    ensures t == [] || !IsJsSpace(t[0])
  {
    if s != [] && IsJsSpace(s[0]) then TrimStart(s[1..]) else s
  }

  function TrimEnd(s: string): (t: string)
    ensures |t| <= |s| && t == s[..|t|]
    ensures forall i :: |t| <= i < |s| ==> IsJsSpace(s[i])
    ensures t == [] || !IsJsSpace(t[|t| - 1])
  {
    if s != [] && IsJsSpace(s[|s| - 1]) then TrimEnd(s[..|s| - 1]) else s
  }

  /** `s.trim()`: the middle of `s` between its leading and trailing spaces. */
  function Trim(s: string): string
  {
    TrimEnd(TrimStart(s))
  }

  /** A trimmed string has no space at either end and is no longer than the
      original; a string without spaces at its ends is its own trim. */
  lemma TrimSpec(s: string)
    ensures |Trim(s)| <= |s|
    ensures Trim(s) == [] || (!IsJsSpace(Trim(s)[0]) && !IsJsSpace(Trim(s)[|Trim(s)| - 1]))
    ensures s != [] && !IsJsSpace(s[0]) && !IsJsSpace(s[|s| - 1]) ==> Trim(s) == s
  {
  }

  /** The four groups the table lists, in order. */
  const AgeOrder: seq<string> := ["<18", "18-30", "31-50", ">50"]

  /** A row counts towards its trimmed age group when that group is non-empty
      and the row's lower-cased gender is non-empty. */
  function AgeKey(r: Record): Option<string>
  {
    if r.ageGroup.Some? && Trim(r.ageGroup.value) != "" && GenderWord(r) != "" then Some(Trim(r.ageGroup.value))
    else None
  }

  /** The group a row counts towards is non-empty and already trimmed, and a
      row without an age group or without a gender counts towards none. */
  lemma AgeKeySpec(r: Record)
    ensures AgeKey(r).Some? ==> var g := AgeKey(r).value; g != "" && Trim(g) == g && GenderWord(r) != ""
    ensures r.ageGroup.None? || GenderWord(r) == "" ==> AgeKey(r).None?
  {
    if AgeKey(r).Some? {
      TrimSpec(r.ageGroup.value);
      TrimSpec(Trim(r.ageGroup.value));
    }
  }

  function MaleKey(r: Record): Option<string>
  {
    if GenderOf(GenderWord(r)) == Some(Male) then AgeKey(r) else None
  }

  function FemaleKey(r: Record): Option<string>
  {
    if GenderOf(GenderWord(r)) == Some(Female) then AgeKey(r) else None
  }

  /** Rows with a gender that is neither: counted in the total only. */
  function OtherKey(r: Record): Option<string>
  {
    if GenderOf(GenderWord(r)).None? then AgeKey(r) else None
  }

  datatype AgeRow = AgeRow(ageRange: string, male: int, female: int, total: int)

  /** What the `result` object holds for a group after reading `data`. */
  function GroupRow(data: seq<Record>, g: string): AgeRow
  {
    AgeRow(g, KeySum(data, MaleKey, CountOrDefault, g), KeySum(data, FemaleKey, CountOrDefault, g),
           KeySum(data, AgeKey, CountOrDefault, g))
  }

  /** `ageOrder.filter(g => result[g]?.total > 0).map(g => result[g])`. */
  function Listed(order: seq<string>, result: map<string, AgeRow>): (rows: seq<AgeRow>)
    ensures |rows| <= |order|
  {
    if order == [] then []
    else
      (if order[0] in result && result[order[0]].total > 0 then [result[order[0]]] else [])
        + Listed(order[1..], result)
  }

  /** The `result` object after reading `data`: a row for every group some
      row with a gender names. */
  function AgeTable(data: seq<Record>): map<string, AgeRow>
  {
    map g | g in KeySet(data, AgeKey) :: GroupRow(data, g)
  }

  /** The table has a row for exactly the groups some row names: each key is
      a non-empty group with its own name as `ageRange`, and every row's
      group has a key. */
  lemma AgeTableKeys(data: seq<Record>)
    ensures var table := AgeTable(data);
      && (forall g :: g in table ==> g != "" && table[g].ageRange == g)
      && (forall i :: 0 <= i < |data| && AgeKey(data[i]).Some? ==> AgeKey(data[i]).value in table)
  {
    forall g | g in KeySet(data, AgeKey) ensures g != "" {
      KeySetSpec(data, AgeKey, g);
    }
    forall i | 0 <= i < |data| && AgeKey(data[i]).Some? ensures AgeKey(data[i]).value in KeySet(data, AgeKey) {
      KeySetSpec(data, AgeKey, AgeKey(data[i]).value);
    }
  }

  /** One row's contribution: `count ?? 1` to the men or the women by its
      gender, and to the total in every case. */
  function AddRecord(row: AgeRow, r: Record): AgeRow
  {
    var count := CountOrDefault(r);
    var gender := GenderOf(GenderWord(r));
    AgeRow(row.ageRange,
           row.male + (if gender == Some(Male) then count else 0),
           row.female + (if gender == Some(Female) then count else 0),
           row.total + count)
  }

  /** One row read into the table (the `forEach` callback): a row without a
      group leaves the table alone; otherwise its group's row, created empty
      when missing, takes the row's count. */
  function Accumulate(table: map<string, AgeRow>, r: Record): map<string, AgeRow>
  {
    match AgeKey(r)
    case None => table
    case Some(g) => table[g := AddRecord(if g in table then table[g] else AgeRow(g, 0, 0, 0), r)]
  }

  /** Reading a row touches only its own group: a row without a group leaves
      the table as it is; otherwise the group is added if missing, its total
      grows by the row's `count ?? 1`, and every other group keeps its row. */
  lemma AccumulateSpec(table: map<string, AgeRow>, r: Record)
    ensures var next := Accumulate(table, r);
      match AgeKey(r)
      case None => next == table
      case Some(g) =>
        && (forall h :: h in next <==> h in table || h == g)
        && (forall h :: h in table && h != g ==> next[h] == table[h])
        && next[g].ageRange == (if g in table then table[g].ageRange else g)
        && next[g].total == (if g in table then table[g].total else 0) + CountOrDefault(r)
  {
    match AgeKey(r)
    case None =>
    case Some(g) =>
      var start := if g in table then table[g] else AgeRow(g, 0, 0, 0);
      var next := table[g := AddRecord(start, r)];
      assert Accumulate(table, r) == next;
      assert next[g] == AddRecord(start, r);
  }

  /** `getAgeGenderDistribution(data)`: the rows of the groups of `AgeOrder`
      whose total is positive, each holding the sums of `count ?? 1` over the
      group's men, women and all its rows with a gender (`ListedSpec` and
      `GroupSplits` state what that list holds). */
  method GetAgeGenderDistribution(data: seq<Record>) returns (rows: seq<AgeRow>)
    ensures rows == Listed(AgeOrder, AgeTable(data))
  {
    var result: map<string, AgeRow> := map[];
    assert data[..0] == [];
    for k := 0 to |data|
      invariant result == AgeTable(data[..k])
    {
      assert data[..k + 1] == data[..k] + [data[k]];
      AgeTableStep(data[..k], data[k]);
      result := AddToResult(result, data[k]);
    }
    assert data[..|data|] == data;
    rows := Listed(AgeOrder, result);
  }

  /** The body of the `forEach` callback: skip a row without a trimmed age
      group or a gender, create the group's row on first sight, then add
      `count ?? 1` to the men or the women and to the total. */
  method AddToResult(result: map<string, AgeRow>, record: Record) returns (next: map<string, AgeRow>)
    ensures next == Accumulate(result, record)
  {
    next := result;
    match AgeKey(record) {
      case None =>
      case Some(ageGroup) =>
        var gender := GenderWord(record);
        ghost var start := if ageGroup in result then result[ageGroup] else AgeRow(ageGroup, 0, 0, 0);
        if ageGroup !in next {
          next := next[ageGroup := AgeRow(ageGroup, 0, 0, 0)];
        }
        var count := CountOrDefault(record);
        var row := next[ageGroup];
        assert row == start;
        if gender == "nam" || gender == "male" {
          row := row.(male := row.male + count);
        } else if gender == "nữ" || gender == "nu" || gender == "female" {
          row := row.(female := row.female + count);
        }
        assert row.(total := row.total + count) == AddRecord(start, record);
        next := next[ageGroup := row.(total := row.total + count)];
        assert next == result[ageGroup := AddRecord(start, record)];
    }
  }

  /** Reading one more row into the table built from `before` gives the
      table of `before + [r]`: the loop computes `AgeTable`. */
  lemma AgeTableStep(before: seq<Record>, r: Record)
    ensures AgeTable(before + [r]) == Accumulate(AgeTable(before), r)
  {
    var after := before + [r];
    assert after[..|before|] == before;
    match AgeKey(r) {
      case None =>
        assert KeySet(after, AgeKey) == KeySet(before, AgeKey);
        forall h | h in KeySet(before, AgeKey) ensures GroupRow(after, h) == GroupRow(before, h) {
        }
      case Some(g) =>
        AgeTableGrow(before, r, g);
    }
  }

  lemma AgeTableGrow(before: seq<Record>, r: Record, g: string)
    requires AgeKey(r) == Some(g)
    ensures AgeTable(before + [r]) == Accumulate(AgeTable(before), r)
  {
    var after := AgeTable(before + [r]);
    var next := Accumulate(AgeTable(before), r);
    forall h ensures (h in after <==> h in next) && (h in after ==> after[h] == next[h]) {
      GrowAt(before, r, g, h);
    }
    assert after.Keys == next.Keys;
  }

  /** The step of `AgeTableGrow` for one group `h`. */
  lemma GrowAt(before: seq<Record>, r: Record, g: string, h: string)
    requires AgeKey(r) == Some(g)
    ensures var after := AgeTable(before + [r]);
      var next := Accumulate(AgeTable(before), r);
      (h in after <==> h in next) && (h in after ==> after[h] == next[h])
  {
    var table := AgeTable(before);
    var start := if g in table then table[g] else AgeRow(g, 0, 0, 0);
    assert Accumulate(table, r) == table[g := AddRecord(start, r)];
    AgeKeysGrow(before, r, g);
    GroupRowStep(before, r, h);
    if h == g && g !in table {
      GroupAbsent(before, g);
    }
  }

  /** A row with group `g` adds `g` to the groups named. */
  lemma AgeKeysGrow(before: seq<Record>, r: Record, g: string)
    requires AgeKey(r) == Some(g)
    ensures KeySet(before + [r], AgeKey) == KeySet(before, AgeKey) + {g}
  {
    assert (before + [r])[..|before|] == before;
  }

  /** One more row changes only the row of its own group. */
  lemma GroupRowStep(before: seq<Record>, r: Record, h: string)
    ensures GroupRow(before + [r], h)
         == if AgeKey(r) == Some(h) then AddRecord(GroupRow(before, h), r) else GroupRow(before, h)
  {
    var after := before + [r];
    assert after[..|before|] == before;
  }

  /** A group no row names has all three sums 0. */
  lemma {:induction false} GroupAbsent(data: seq<Record>, g: string)
    requires g !in KeySet(data, AgeKey)
    ensures GroupRow(data, g) == AgeRow(g, 0, 0, 0)
  {
    if data != [] {
      GroupAbsent(data[..|data| - 1], g);
    }
  }

  /** Every listed row is the row `result` holds for one of the groups of
      `order`, and its total is positive. */
  lemma {:induction false} ListedMembers(order: seq<string>, result: map<string, AgeRow>)
    requires forall g :: g in result ==> result[g].ageRange == g
    ensures forall i :: 0 <= i < |Listed(order, result)| ==>
      var row := Listed(order, result)[i];
      row.ageRange in order && row.ageRange in result && row == result[row.ageRange] && row.total > 0
  {
    if order != [] {
      var rest := Listed(order[1..], result);
      ListedMembers(order[1..], result);
      forall i | 0 <= i < |rest| ensures rest[i].ageRange in order {
        var j :| 0 <= j < |order[1..]| && order[1..][j] == rest[i].ageRange;
        assert order[j + 1] == rest[i].ageRange;
      }
    }
  }

  /** The listed rows follow `order`. */
  lemma {:induction false} ListedOrdered(order: seq<string>, result: map<string, AgeRow>)
    requires forall g :: g in result ==> result[g].ageRange == g
    requires forall i, j :: 0 <= i < j < |order| ==> order[i] != order[j]
    ensures forall i, j :: 0 <= i < j < |Listed(order, result)| ==>
      IndexIn(order, Listed(order, result)[i].ageRange) < IndexIn(order, Listed(order, result)[j].ageRange)
  {
    if order != [] {
      var tail := order[1..];
      var rows := Listed(order, result);
      var rest := Listed(tail, result);
      ListedOrdered(tail, result);
      ListedMembers(tail, result);
      var head := if order[0] in result && result[order[0]].total > 0 then [result[order[0]]] else [];
      assert rows == head + rest;
      forall i | 0 <= i < |rest|
        ensures IndexIn(order, rest[i].ageRange) == IndexIn(tail, rest[i].ageRange) + 1
      {
        var j :| 0 <= j < |tail| && tail[j] == rest[i].ageRange;
        assert order[j + 1] == tail[j];
      }
      forall i, j | 0 <= i < j < |rows| ensures IndexIn(order, rows[i].ageRange) < IndexIn(order, rows[j].ageRange) {
        assert rows[j] == rest[j - |head|];
        if i >= |head| {
          assert rows[i] == rest[i - |head|];
        }
      }
    }
  }

  /** `rows` holds a row for group `g`. */
  predicate ListsGroup(rows: seq<AgeRow>, g: string)
  {
    exists i :: 0 <= i < |rows| && rows[i].ageRange == g
  }

  /** Every group of `order` whose row in `result` has a positive total is
      listed. */
  lemma {:induction false} ListedComplete(order: seq<string>, result: map<string, AgeRow>)
    requires forall g :: g in result ==> result[g].ageRange == g
    ensures forall g :: g in order && g in result && result[g].total > 0 ==> ListsGroup(Listed(order, result), g)
  {
    if order != [] {
      var tail := order[1..];
      var rows := Listed(order, result);
      var rest := Listed(tail, result);
      ListedComplete(tail, result);
      var head := if order[0] in result && result[order[0]].total > 0 then [result[order[0]]] else [];
      assert rows == head + rest;
      forall g | g in order && g in result && result[g].total > 0
        ensures ListsGroup(rows, g)
      {
        if g == order[0] {
          assert rows[0].ageRange == g;
        } else {
          var j :| 0 <= j < |order| && order[j] == g;
          assert tail[j - 1] == g;
          assert ListsGroup(rest, g);
          var i :| 0 <= i < |rest| && rest[i].ageRange == g;
          assert rows[|head| + i] == rest[i];
        }
      }
    }
  }

  /** What `getAgeGenderDistribution` returns: one row per group of
      `AgeOrder` that some row with a gender names and whose total is
      positive, in that order, each holding the group's sums of `count ?? 1`
      over its men, its women and all its rows. */
  lemma AgeDistributionSpec(data: seq<Record>)
    ensures var rows := Listed(AgeOrder, AgeTable(data));
      && (forall i :: 0 <= i < |rows| ==>
            rows[i].ageRange in AgeOrder && rows[i] == GroupRow(data, rows[i].ageRange) && rows[i].total > 0)
      && (forall i, j :: 0 <= i < j < |rows| ==> IndexIn(AgeOrder, rows[i].ageRange) < IndexIn(AgeOrder, rows[j].ageRange))
      && (forall g :: g in AgeOrder && KeySum(data, AgeKey, CountOrDefault, g) > 0 ==> ListsGroup(rows, g))
  {
    var table := AgeTable(data);
    ListedMembers(AgeOrder, table);
    ListedOrdered(AgeOrder, table);
    ListedComplete(AgeOrder, table);
    forall g | g in AgeOrder && KeySum(data, AgeKey, CountOrDefault, g) > 0 ensures g in table {
      if g !in KeySet(data, AgeKey) {
        KeySumAbsent(data, AgeKey, CountOrDefault, g);
      }
    }
  }

  /** The position of `g` in `order` (|order| when absent). */
  function IndexIn(order: seq<string>, g: string): nat
  {
    if order == [] then 0 else if order[0] == g then 0 else IndexIn(order[1..], g) + 1
  }

  /** The total of a group is its men, its women and its other genders, so
      with non-negative counts `male + female <= total`. */
  lemma {:induction false} GroupSplits(data: seq<Record>, g: string)
    ensures KeySum(data, MaleKey, CountOrDefault, g) + KeySum(data, FemaleKey, CountOrDefault, g)
          + KeySum(data, OtherKey, CountOrDefault, g) == KeySum(data, AgeKey, CountOrDefault, g)
    ensures (forall i :: 0 <= i < |data| ==> NonNegativeCount(data[i])) ==>
      KeySum(data, MaleKey, CountOrDefault, g) + KeySum(data, FemaleKey, CountOrDefault, g)
        <= KeySum(data, AgeKey, CountOrDefault, g)
  {
    if data != [] {
      var n := |data| - 1;
      GroupSplits(data[..n], g);
      if forall i :: 0 <= i < |data| ==> NonNegativeCount(data[i]) {
        assert forall i :: 0 <= i < |data[..n]| ==> data[..n][i] == data[i];
        assert forall i :: 0 <= i < |data| ==> CountOrDefault(data[i]) >= 0;
        KeySumBounds(data, OtherKey, CountOrDefault, g);
      }
    }
  }

  /** A row whose count is 0 adds nothing here, unlike in the charts that use
      `count || 1`: the same single row weighs 0 in this table and 1 in the
      domain breakdown. */
  lemma ZeroCountWeighsNothing(r: Record)
    requires r.count == Some(0) && Truthy(r.domain)
    requires AgeKey(r).Some?
    ensures KeySum([r], AgeKey, CountOrDefault, AgeKey(r).value) == 0
    ensures KeySum([r], DomainKey, CountOr1, r.domain.value) == 1
  {
    assert [r][..0] == [];
  }
}
