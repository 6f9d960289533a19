/** The category breakdowns of fe/src/utils/dataProcessing.js: prints per
    domain (`getDomainData`), the authentication-type and gender pies
    (`getAuthTypeData`, `getGenderData`) and the age-group by gender table
    (`getAgeGenderDistribution`). */
module Breakdowns {
  import opened Wrappers
  import opened Collections
  import opened Reports

  // ---------------------------------------------------------------------------
  // getDomainData

  /** `if (item.domain)`: rows with a missing or empty domain are skipped. */
  function DomainKey(r: Record): Option<string>
  {
    if Truthy(r.domain) then r.domain else None
  }

  /** `getDomainData(data)`: one entry per domain, largest first. Names are
      the distinct truthy domains of the rows, each value is the sum of
      `count || 1` over that domain's rows, and the values add up to the
      weight of every row that has a domain. */
  method GetDomainData(data: seq<Record>) returns (domains: seq<Entry<string>>)
    ensures SortedDesc(domains, ValueOf)
    ensures DistinctBy(domains, NameOf)
    ensures Names(domains) == KeySet(data, DomainKey)
    ensures forall i :: 0 <= i < |domains| ==>
      domains[i].value == KeySum(data, DomainKey, CountOr1, domains[i].name)
    ensures SumBy(domains, ValueOf) == KeyTotal(data, DomainKey, CountOr1)
  {
    var counts := GroupSum(data, DomainKey, CountOr1);
    domains := SortDesc(counts, ValueOf);
    SortedTallySpec(data, DomainKey, CountOr1, ValueOf);
  }

  /** A domain is listed exactly when some row carries it as a non-empty string. */
  lemma DomainNames(data: seq<Record>, name: string)
    ensures name in KeySet(data, DomainKey) <==>
      exists i :: 0 <= i < |data| && data[i].domain == Some(name) && name != ""
  {
    KeySetSpec(data, DomainKey, name);
  }

  // ---------------------------------------------------------------------------
  // The two pies

  /** One pie slice; its percentage is `value / total` (the formatting with
      `toFixed(1)` is not modelled). */
  datatype Slice = Slice(name: string, value: int, total: int)

  function SliceValue(s: Slice): int { s.value }

  /** `Object.entries(counts).filter(([_, v]) => v > 0).map(...)`: the
      categories with a positive value, in their fixed order. */
  function PositiveSlices(entries: seq<Entry<string>>, total: int): (r: seq<Slice>)
    ensures |r| <= |entries|
    ensures forall s :: s in r ==> s.value > 0 && s.total == total && Entry(s.name, s.value) in entries
    ensures forall e :: e in entries && e.value > 0 ==> Slice(e.name, e.value, total) in r
  {
    if entries == [] then []
    else
      (if entries[0].value > 0 then [Slice(entries[0].name, entries[0].value, total)] else [])
        + PositiveSlices(entries[1..], total)
  }

  /** Dropping the categories that are 0 loses nothing when none is negative. */
  lemma {:induction false} PositiveSlicesSum(entries: seq<Entry<string>>, total: int)
    requires forall i :: 0 <= i < |entries| ==> entries[i].value >= 0
    ensures SumBy(PositiveSlices(entries, total), SliceValue) == SumBy(entries, ValueOf)
  {
    if entries != [] {
      var head := if entries[0].value > 0 then [Slice(entries[0].name, entries[0].value, total)] else [];
      var rest := PositiveSlices(entries[1..], total);
      assert PositiveSlices(entries, total) == head + rest;
      PositiveSlicesSum(entries[1..], total);
      SumByConcat(head, rest, SliceValue);
      assert entries == [entries[0]] + entries[1..];
      SumByConcat([entries[0]], entries[1..], ValueOf);
      assert SumBy([entries[0]], ValueOf) == entries[0].value;
    }
  }

  lemma PairSum(a: string, x: int, b: string, y: int)
    ensures SumBy([Entry(a, x), Entry(b, y)], ValueOf) == x + y
  {
    var s := [Entry(a, x), Entry(b, y)];
    var first := [Entry(a, x)];
    assert first[..0] == [];
    assert SumBy(first, ValueOf) == x;
    assert s[..1] == first;
  }

  /** A pie of two non-negative categories adds up to their sum. */
  lemma PairPieSum(a: string, x: int, b: string, y: int, total: int)
    requires x >= 0 && y >= 0
    ensures SumBy(PositiveSlices([Entry(a, x), Entry(b, y)], total), SliceValue) == x + y
  {
    PositiveSlicesSum([Entry(a, x), Entry(b, y)], total);
    PairSum(a, x, b, y);
  }

  /** A pie over two categories that every counted item falls into, with
      non-negative weights: the total is the two sums and the slices add up
      to it. */
  lemma ClosedPairPie<T, K>(items: seq<T>, keyOf: T -> Option<K>, weight: T -> int, a: K, b: K, nameA: string, nameB: string)
    requires a != b
    requires forall i :: 0 <= i < |items| ==> keyOf(items[i]) in {None, Some(a), Some(b)}
    requires forall i :: 0 <= i < |items| ==> weight(items[i]) >= 0
    ensures KeyTotal(items, keyOf, weight) == KeySum(items, keyOf, weight, a) + KeySum(items, keyOf, weight, b)
    ensures SumBy(PositiveSlices([Entry(nameA, KeySum(items, keyOf, weight, a)), Entry(nameB, KeySum(items, keyOf, weight, b))],
                                 KeyTotal(items, keyOf, weight)), SliceValue)
         == KeyTotal(items, keyOf, weight)
  {
    TwoKeyTotal(items, keyOf, weight, a, b);
    KeySumBounds(items, keyOf, weight, a);
    KeySumBounds(items, keyOf, weight, b);
    PairPieSum(nameA, KeySum(items, keyOf, weight, a), nameB, KeySum(items, keyOf, weight, b), KeyTotal(items, keyOf, weight));
  }

  /** `count || 1` is never negative when `count` is not. */
  lemma CountsNonNegative(data: seq<Record>)
    requires forall i :: 0 <= i < |data| ==> NonNegativeCount(data[i])
    ensures forall i :: 0 <= i < |data| ==> CountOr1(data[i]) >= 0
  {
  }

  // getAuthTypeData

  datatype AuthType = Cccd | Qr

  function AuthName(a: AuthType): string
  {
    match a
    case Cccd => "CCCD"
    case Qr => "QR"
  }

  /** `toUpperCase` on the letters a..z; no other character upper-cases to one
      of the letters of "CCCD" or "QR", so the comparisons come out the same. */
  function UpperAscii(s: string): string
  {
    if s == [] then []
    else [if 'a' <= s[0] <= 'z' then (s[0] as int - 32) as char else s[0]] + UpperAscii(s[1..])
  }

  /** `record.auth_type?.toUpperCase() || 'CCCD'`, kept only when it names one
      of the two types: a missing or empty type counts as CCCD and any other
      type is dropped. */
  function AuthKey(r: Record): (k: Option<AuthType>)
    ensures !Truthy(r.authType) ==> k == Some(Cccd)
    ensures Truthy(r.authType) ==>
      (k == Some(Cccd) <==> UpperAscii(r.authType.value) == "CCCD") &&
      (k == Some(Qr) <==> UpperAscii(r.authType.value) == "QR")
  {
    var t := if Truthy(r.authType) then UpperAscii(r.authType.value) else "CCCD";
    if t == "CCCD" then Some(Cccd) else if t == "QR" then Some(Qr) else None
  }

  function AuthEntries(data: seq<Record>): seq<Entry<string>>
  {
    [Entry("CCCD", KeySum(data, AuthKey, CountOr1, Cccd)), Entry("QR", KeySum(data, AuthKey, CountOr1, Qr))]
  }

  /** `getAuthTypeData(data)`: the CCCD slice then the QR slice, each present
      when its sum of `count || 1` is positive, both out of the running total. */
  method GetAuthTypeData(data: seq<Record>) returns (slices: seq<Slice>)
    ensures slices == PositiveSlices(AuthEntries(data), KeyTotal(data, AuthKey, CountOr1))
  {
    var counts: map<AuthType, int> := map[Cccd := 0, Qr := 0];
    var total := 0;
    for k := 0 to |data|
      invariant counts.Keys == {Cccd, Qr}
      invariant counts[Cccd] == KeySum(data[..k], AuthKey, CountOr1, Cccd)
      invariant counts[Qr] == KeySum(data[..k], AuthKey, CountOr1, Qr)
      invariant total == KeyTotal(data[..k], AuthKey, CountOr1)
    {
      assert data[..k + 1] == data[..k] + [data[k]];
      KeyStep(data[..k], data[k], AuthKey, CountOr1, Cccd);
      KeyStep(data[..k], data[k], AuthKey, CountOr1, Qr);
      var record := data[k];
      match AuthKey(record) {
        case None =>
        case Some(t) =>
          counts := counts[t := counts[t] + CountOr1(record)];
          total := total + CountOr1(record);
      }
    }
    assert data[..|data|] == data;
    slices := PositiveSlices([Entry("CCCD", counts[Cccd]), Entry("QR", counts[Qr])], total);
  }

  /** Every key of an authentication type is one of the two. */
  lemma AuthPair<T>(items: seq<T>, keyOf: T -> Option<AuthType>)
    ensures forall i :: 0 <= i < |items| ==> keyOf(items[i]) in {None, Some(Cccd), Some(Qr)}
  {
    forall i | 0 <= i < |items| ensures keyOf(items[i]) in {None, Some(Cccd), Some(Qr)} {
      var t := keyOf(items[i]);
      assert t.None? || t.value == Cccd || t.value == Qr;
    }
  }

  /** The pie is a closed pair: every counted row is CCCD or QR, so the total
      is the two sums, and with non-negative counts the slices add up to it. */
  lemma AuthSlicesSum(data: seq<Record>)
    requires forall i :: 0 <= i < |data| ==> NonNegativeCount(data[i])
    ensures KeyTotal(data, AuthKey, CountOr1) == KeySum(data, AuthKey, CountOr1, Cccd) + KeySum(data, AuthKey, CountOr1, Qr)
    ensures SumBy(PositiveSlices(AuthEntries(data), KeyTotal(data, AuthKey, CountOr1)), SliceValue)
         == KeyTotal(data, AuthKey, CountOr1)
  {
    AuthPair(data, AuthKey);
    CountsNonNegative(data);
    ClosedPairPie(data, AuthKey, CountOr1, Cccd, Qr, "CCCD", "QR");
  }

  // getGenderData

  datatype Gender = Male | Female

  function GenderName(g: Gender): string
  {
    match g
    case Male => "Nam"
    case Female => "Nữ"
  }

  /** `toLowerCase` on A..Z and on 'Ữ'; no other character lower-cases to a
      letter of the gender words, so the comparisons come out the same. */
  function LowerVi(s: string): string
  {
    if s == [] then []
    else
      [if 'A' <= s[0] <= 'Z' then (s[0] as int + 32) as char else if s[0] == 'Ữ' then 'ữ' else s[0]]
        + LowerVi(s[1..])
  }

  /** The lower-cased gender, `''` when the row has none. */
  function GenderWord(r: Record): string
  {
    if r.gender.Some? then LowerVi(r.gender.value) else ""
  }

  /** `nam`/`male` are men, `nữ`/`nu`/`female` are women; anything else is
      neither. */
  function GenderOf(word: string): Option<Gender>
  {
    if word == "nam" || word == "male" then Some(Male)
    else if word == "nữ" || word == "nu" || word == "female" then Some(Female)
    else None
  }

  function GenderKey(r: Record): Option<Gender>
  {
    GenderOf(GenderWord(r))
  }

  function GenderEntries(data: seq<Record>): seq<Entry<string>>
  {
    [Entry("Nam", KeySum(data, GenderKey, CountOr1, Male)), Entry("Nữ", KeySum(data, GenderKey, CountOr1, Female))]
  }

  /** `getGenderData(data)`: the Nam slice then the Nữ slice, each present
      when its sum of `count || 1` is positive, both out of the running total
      of the recognised rows. */
  method GetGenderData(data: seq<Record>) returns (slices: seq<Slice>)
    ensures slices == PositiveSlices(GenderEntries(data), KeyTotal(data, GenderKey, CountOr1))
  {
    var counts: map<Gender, int> := map[Male := 0, Female := 0];
    var total := 0;
    for k := 0 to |data|
      invariant counts.Keys == {Male, Female}
      invariant counts[Male] == KeySum(data[..k], GenderKey, CountOr1, Male)
      invariant counts[Female] == KeySum(data[..k], GenderKey, CountOr1, Female)
      invariant total == KeyTotal(data[..k], GenderKey, CountOr1)
    {
      assert data[..k + 1] == data[..k] + [data[k]];
      KeyStep(data[..k], data[k], GenderKey, CountOr1, Male);
      KeyStep(data[..k], data[k], GenderKey, CountOr1, Female);
      counts, total := CountGender(counts, total, data[k]);
    }
    assert data[..|data|] == data;
    slices := PositiveSlices([Entry("Nam", counts[Male]), Entry("Nữ", counts[Female])], total);
  }

  /** The body of the `forEach` callback: `count || 1` goes to the row's
      gender and to the total, and a row of neither gender is skipped. */
  method CountGender(counts: map<Gender, int>, total: int, record: Record)
    returns (next: map<Gender, int>, nextTotal: int)
    requires counts.Keys == {Male, Female}
    ensures next.Keys == {Male, Female}
    ensures forall g :: g in next ==> next[g] == counts[g] + (if GenderKey(record) == Some(g) then CountOr1(record) else 0)
    ensures nextTotal == total + (if GenderKey(record).Some? then CountOr1(record) else 0)
  {
    var gender := GenderWord(record);
    if gender == "nam" || gender == "male" {
      next := counts[Male := counts[Male] + CountOr1(record)];
      nextTotal := total + CountOr1(record);
    } else if gender == "nữ" || gender == "nu" || gender == "female" {
      next := counts[Female := counts[Female] + CountOr1(record)];
      nextTotal := total + CountOr1(record);
    } else {
      next, nextTotal := counts, total;
    }
  }

  /** Every key of a gender is one of the two. */
  lemma GenderPair<T>(items: seq<T>, keyOf: T -> Option<Gender>)
    ensures forall i :: 0 <= i < |items| ==> keyOf(items[i]) in {None, Some(Male), Some(Female)}
  {
    forall i | 0 <= i < |items| ensures keyOf(items[i]) in {None, Some(Male), Some(Female)} {
      var g := keyOf(items[i]);
      assert g.None? || g.value == Male || g.value == Female;
    }
  }

  /** The gender pie is a closed pair as well: the total is the two sums, and
      with non-negative counts the slices add up to it. */
  lemma GenderSlicesSum(data: seq<Record>)
    requires forall i :: 0 <= i < |data| ==> NonNegativeCount(data[i])
    ensures KeyTotal(data, GenderKey, CountOr1) == KeySum(data, GenderKey, CountOr1, Male) + KeySum(data, GenderKey, CountOr1, Female)
    ensures SumBy(PositiveSlices(GenderEntries(data), KeyTotal(data, GenderKey, CountOr1)), SliceValue)
         == KeyTotal(data, GenderKey, CountOr1)
  {
    GenderPair(data, GenderKey);
    CountsNonNegative(data);
    ClosedPairPie(data, GenderKey, CountOr1, Male, Female, "Nam", "Nữ");
  }
}
