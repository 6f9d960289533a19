/** Generic pieces shared by the aggregations: an order-preserving filter, sums,
    the insertion-ordered accumulator that a JavaScript object or `Map` becomes
    when counts are added into it key by key, and the stable sort by a numeric
    rank that `Array.prototype.sort` performs with a `b - a` comparator. */
module Collections {
  import opened Wrappers

  /** One key of an accumulator object together with its running sum. */
  datatype Entry<K> = Entry(name: K, value: int)

  function NameOf<K>(e: Entry<K>): K { e.name }

  function ValueOf<K>(e: Entry<K>): int { e.value }

  function Min(a: int, b: int): int { if a <= b then a else b }

  function Max(a: int, b: int): int { if a >= b then a else b }

  // ---------------------------------------------------------------------------
  // Filtering

  /** `s.filter(p)`: the elements satisfying `p`, in order. */
  function Filter<T>(s: seq<T>, p: T -> bool): (r: seq<T>)
    ensures |r| <= |s|
  {
    if s == [] then []
    else Filter(s[..|s| - 1], p) + (if p(s[|s| - 1]) then [s[|s| - 1]] else [])
  }

  /** The filter keeps exactly the elements satisfying `p`, each as often as
      it occurs in `s` (FilterConcat adds that their order is kept). */
  lemma {:induction false} FilterSpec<T(!new)>(s: seq<T>, p: T -> bool)
    ensures forall x :: multiset(Filter(s, p))[x] == if p(x) then multiset(s)[x] else 0
  {
    if s != [] {
      var n := |s| - 1;
      assert s == s[..n] + [s[n]];
      FilterSpec(s[..n], p);
    }
  }

  /** Filtering distributes over concatenation: the result is the subsequence of
      kept elements in their original order. */
  lemma {:induction false} FilterConcat<T>(a: seq<T>, b: seq<T>, p: T -> bool)
    ensures Filter(a + b, p) == Filter(a, p) + Filter(b, p)
  {
    if b == [] {
      assert a + b == a;
    } else {
      var n := |b| - 1;
      assert (a + b)[..|a + b| - 1] == a + b[..n];
      assert (a + b)[|a + b| - 1] == b[n];
      FilterConcat(a, b[..n], p);
    }
  }

  // ---------------------------------------------------------------------------
  // Sums

  /** The sum of `weight` over `s`, folded from the left like `reduce`. */
  function SumBy<T>(s: seq<T>, weight: T -> int): int
  {
    if s == [] then 0 else SumBy(s[..|s| - 1], weight) + weight(s[|s| - 1])
  }

  lemma {:induction false} SumByConcat<T>(a: seq<T>, b: seq<T>, weight: T -> int)
    ensures SumBy(a + b, weight) == SumBy(a, weight) + SumBy(b, weight)
  {
    if b == [] {
      assert a + b == a;
    } else {
      var n := |b| - 1;
      assert (a + b)[..|a + b| - 1] == a + b[..n];
      SumByConcat(a, b[..n], weight);
    }
  }

  /** Replacing one element changes the sum by the difference of the weights. */
  lemma {:induction false} SumByUpdate<T>(s: seq<T>, i: nat, x: T, weight: T -> int)
    requires i < |s|
    ensures SumBy(s[i := x], weight) == SumBy(s, weight) - weight(s[i]) + weight(x)
  {
    var n := |s| - 1;
    if i < n {
      assert s[i := x][..n] == s[..n][i := x];
      SumByUpdate(s[..n], i, x, weight);
    } else {
      assert s[i := x][..n] == s[..n];
    }
  }

  /** A sum does not depend on the order of the summands. */
  lemma {:induction false} SumByPermutation<T>(a: seq<T>, b: seq<T>, weight: T -> int)
    requires multiset(a) == multiset(b)
    ensures SumBy(a, weight) == SumBy(b, weight)
    decreases |a|
  {
    if a == [] {
      assert |b| == |multiset(b)| == 0;
    } else {
      var n := |a| - 1;
      var x := a[n];
      assert a == a[..n] + [x];
      assert x in multiset(b);
      var j :| 0 <= j < |b| && b[j] == x;
      assert b == b[..j] + [x] + b[j + 1..];
      var rest := b[..j] + b[j + 1..];
      assert multiset(b) == multiset(b[..j]) + multiset{x} + multiset(b[j + 1..]);
      assert multiset(a) == multiset(a[..n]) + multiset{x};
      assert multiset(rest) == multiset(b[..j]) + multiset(b[j + 1..]);
      assert multiset(a[..n]) + multiset{x} == multiset(rest) + multiset{x};
      assert multiset(a[..n]) == (multiset(a[..n]) + multiset{x}) - multiset{x};
      assert multiset(rest) == (multiset(rest) + multiset{x}) - multiset{x};
      SumByPermutation(a[..n], rest, weight);
      SumByConcat(b[..j] + [x], b[j + 1..], weight);
      SumByConcat(b[..j], [x], weight);
      SumByConcat(b[..j], b[j + 1..], weight);
      assert SumBy([x], weight) == weight(x);
    }
  }

  // ---------------------------------------------------------------------------
  // Distinct keys

  predicate DistinctBy<T, K(==)>(s: seq<T>, key: T -> K)
  {
    forall i, j :: 0 <= i < j < |s| ==> key(s[i]) != key(s[j])
  }

  // ---------------------------------------------------------------------------
  // Stable sort by a numeric rank, largest rank first

  ghost predicate SortedDesc<T>(s: seq<T>, rank: T -> int)
  {
    forall i, j :: 0 <= i < j < |s| ==> rank(s[i]) >= rank(s[j])
  }

  /** Inserts `x` after every element whose rank is at least its own. */
  function InsertDesc<T>(x: T, s: seq<T>, rank: T -> int): (r: seq<T>)
    ensures multiset(r) == multiset(s) + multiset{x}
    ensures |r| == |s| + 1
  {
    if s == [] then [x]
    else if rank(s[0]) >= rank(x) then
      assert s == [s[0]] + s[1..];
      [s[0]] + InsertDesc(x, s[1..], rank)
    else [x] + s
  }

  lemma {:induction false} InsertDescSorted<T>(x: T, s: seq<T>, rank: T -> int)
    requires SortedDesc(s, rank)
    ensures SortedDesc(InsertDesc(x, s, rank), rank)
  {
    if s != [] && rank(s[0]) >= rank(x) {
      var t := InsertDesc(x, s[1..], rank);
      InsertDescSorted(x, s[1..], rank);
      forall j | 0 <= j < |t| ensures rank(s[0]) >= rank(t[j]) {
        assert t[j] in multiset(t);
        if t[j] != x {
          assert t[j] in multiset(s[1..]);
          var k :| 0 <= k < |s[1..]| && s[1..][k] == t[j];
          assert t[j] == s[k + 1];
        }
      }
    }
  }

  lemma {:induction false} InsertDescDistinct<T, K>(x: T, s: seq<T>, rank: T -> int, key: T -> K)
    requires DistinctBy(s, key)
    requires forall y :: y in s ==> key(y) != key(x)
    ensures DistinctBy(InsertDesc(x, s, rank), key)
  {
    if s != [] && rank(s[0]) >= rank(x) {
      var t := InsertDesc(x, s[1..], rank);
      InsertDescDistinct(x, s[1..], rank, key);
      forall j | 0 <= j < |t| ensures key(s[0]) != key(t[j]) {
        assert t[j] in multiset(t);
        if t[j] != x {
          assert t[j] in multiset(s[1..]);
          var k :| 0 <= k < |s[1..]| && s[1..][k] == t[j];
          assert t[j] == s[k + 1];
        }
      }
      assert InsertDesc(x, s, rank) == [s[0]] + t;
    }
  }

  /** `[...s].sort((a, b) => rank(b) - rank(a))`: a stable insertion sort that
      puts larger ranks first and keeps equal ranks in input order. */
  function SortDesc<T>(s: seq<T>, rank: T -> int): (r: seq<T>)
    ensures multiset(r) == multiset(s)
    ensures |r| == |s|
  {
    if s == [] then []
    else
      assert s == s[..|s| - 1] + [s[|s| - 1]];
      InsertDesc(s[|s| - 1], SortDesc(s[..|s| - 1], rank), rank)
  }

  /** The sort orders by rank, permutes its input, keeps sums and keeps keys distinct. */
  lemma SortDescSpec<T, K>(s: seq<T>, rank: T -> int, weight: T -> int, key: T -> K)
    ensures SortedDesc(SortDesc(s, rank), rank)
    ensures SumBy(SortDesc(s, rank), weight) == SumBy(s, weight)
    ensures DistinctBy(s, key) ==> DistinctBy(SortDesc(s, rank), key)
  {
    SumByPermutation(SortDesc(s, rank), s, weight);
    SortDescSorted(s, rank);
    if DistinctBy(s, key) {
      SortDescDistinct(s, rank, key);
    }
  }

  lemma {:induction false} SortDescSorted<T>(s: seq<T>, rank: T -> int)
    ensures SortedDesc(SortDesc(s, rank), rank)
  {
    if s != [] {
      var n := |s| - 1;
      SortDescSorted(s[..n], rank);
      InsertDescSorted(s[n], SortDesc(s[..n], rank), rank);
    }
  }

  lemma {:induction false} SortDescDistinct<T, K>(s: seq<T>, rank: T -> int, key: T -> K)
    requires DistinctBy(s, key)
    ensures DistinctBy(SortDesc(s, rank), key)
  {
    if s != [] {
      var n := |s| - 1;
      var prefix := SortDesc(s[..n], rank);
      assert DistinctBy(s[..n], key) by {
        forall i, j | 0 <= i < j < n ensures key(s[..n][i]) != key(s[..n][j]) {
          assert s[..n][i] == s[i] && s[..n][j] == s[j];
        }
      }
      SortDescDistinct(s[..n], rank, key);
      forall y | y in prefix ensures key(y) != key(s[n]) {
        assert y in multiset(s[..n]);
        var k :| 0 <= k < n && s[..n][k] == y;
        assert y == s[k];
      }
      InsertDescDistinct(s[n], prefix, rank, key);
    }
  }

  // ---------------------------------------------------------------------------
  // Insertion-ordered accumulation: `acc[k] = (acc[k] || 0) + w`

  /** Adds `w` to the entry named `k`, appending a new entry when there is none. */
  function Bump<K(==)>(acc: seq<Entry<K>>, k: K, w: int): (r: seq<Entry<K>>)
    ensures |acc| <= |r| <= |acc| + 1
  {
    if acc == [] then [Entry(k, w)]
    else if acc[0].name == k then [Entry(k, acc[0].value + w)] + acc[1..]
    else [acc[0]] + Bump(acc[1..], k, w)
  }

  /** The sum stored under `k`, 0 when `k` has no entry. */
  function Lookup<K(==)>(acc: seq<Entry<K>>, k: K): int
  {
    if acc == [] then 0
    else if acc[0].name == k then acc[0].value
    else Lookup(acc[1..], k)
  }

  function Names<K(==)>(acc: seq<Entry<K>>): set<K>
  {
    set e | e in acc :: e.name
  }

  /** Folds `items` into an accumulator: every item whose key is present adds
      its weight to the entry of that key; keys appear in first-seen order. */
  function Tally<T, K(==)>(items: seq<T>, keyOf: T -> Option<K>, weight: T -> int): (acc: seq<Entry<K>>)
    ensures |acc| <= |items|
  {
    if items == [] then []
    else
      var acc := Tally(items[..|items| - 1], keyOf, weight);
      var x := items[|items| - 1];
      match keyOf(x)
      case None => acc
      case Some(k) => Bump(acc, k, weight(x))
  }

  /** Reference definitions of what a tally holds, item by item. */
  function KeySum<T, K(==)>(items: seq<T>, keyOf: T -> Option<K>, weight: T -> int, k: K): int
  {
    if items == [] then 0
    else
      var x := items[|items| - 1];
      KeySum(items[..|items| - 1], keyOf, weight, k) + (if keyOf(x) == Some(k) then weight(x) else 0)
  }

  function KeyTotal<T, K>(items: seq<T>, keyOf: T -> Option<K>, weight: T -> int): int
  {
    if items == [] then 0
    else
      var x := items[|items| - 1];
      KeyTotal(items[..|items| - 1], keyOf, weight) + (if keyOf(x).Some? then weight(x) else 0)
  }

  function KeySet<T, K(==)>(items: seq<T>, keyOf: T -> Option<K>): set<K>
  {
    if items == [] then {}
    else
      var x := items[|items| - 1];
      KeySet(items[..|items| - 1], keyOf) + (if keyOf(x).Some? then {keyOf(x).value} else {})
  }

  /** A key is in the key set exactly when some item carries it. */
  lemma {:induction false} KeySetSpec<T, K>(items: seq<T>, keyOf: T -> Option<K>, k: K)
    ensures k in KeySet(items, keyOf) <==> exists i :: 0 <= i < |items| && keyOf(items[i]) == Some(k)
  {
    if items != [] {
      var n := |items| - 1;
      KeySetSpec(items[..n], keyOf, k);
      if k in KeySet(items[..n], keyOf) {
        var i :| 0 <= i < n && keyOf(items[..n][i]) == Some(k);
        assert items[i] == items[..n][i];
      }
      if i :| 0 <= i < |items| && keyOf(items[i]) == Some(k) {
        if i < n {
          assert items[..n][i] == items[i];
        }
      }
    }
  }

  /** With non-negative weights every key's sum is non-negative, and a key no
      item carries sums to 0. */
  lemma {:induction false} KeySumBounds<T, K>(items: seq<T>, keyOf: T -> Option<K>, weight: T -> int, k: K)
    requires forall i :: 0 <= i < |items| ==> weight(items[i]) >= 0
    ensures 0 <= KeySum(items, keyOf, weight, k) <= KeyTotal(items, keyOf, weight)
  {
    if items != [] {
      var n := |items| - 1;
      assert forall i :: 0 <= i < n ==> items[..n][i] == items[i];
      KeySumBounds(items[..n], keyOf, weight, k);
    }
  }

  lemma {:induction false} KeySumAbsent<T, K>(items: seq<T>, keyOf: T -> Option<K>, weight: T -> int, k: K)
    requires k !in KeySet(items, keyOf)
    ensures KeySum(items, keyOf, weight, k) == 0
  {
    if items != [] {
      KeySumAbsent(items[..|items| - 1], keyOf, weight, k);
    }
  }

  /** One more item adds its weight to its own key's sum and to the total. */
  lemma KeyStep<T, K>(before: seq<T>, x: T, keyOf: T -> Option<K>, weight: T -> int, k: K)
    ensures KeySum(before + [x], keyOf, weight, k)
         == KeySum(before, keyOf, weight, k) + (if keyOf(x) == Some(k) then weight(x) else 0)
    ensures KeyTotal(before + [x], keyOf, weight)
         == KeyTotal(before, keyOf, weight) + (if keyOf(x).Some? then weight(x) else 0)
  {
    assert (before + [x])[..|before|] == before;
  }

  /** With weights of at least 1, every key some item carries sums to at least 1. */
  lemma {:induction false} KeySumPositive<T, K>(items: seq<T>, keyOf: T -> Option<K>, weight: T -> int, k: K)
    requires forall i :: 0 <= i < |items| ==> weight(items[i]) >= 1
    requires k in KeySet(items, keyOf)
    ensures KeySum(items, keyOf, weight, k) >= 1
  {
    var n := |items| - 1;
    assert forall i :: 0 <= i < n ==> items[..n][i] == items[i];
    if k in KeySet(items[..n], keyOf) {
      KeySumPositive(items[..n], keyOf, weight, k);
      KeySumBounds(items[..n], keyOf, weight, k);
    } else {
      KeySumAbsent(items[..n], keyOf, weight, k);
    }
  }

  /** With weights of at least 1, a sum is at least the number of summands. */
  lemma {:induction false} SumByAtLeastLength<T>(s: seq<T>, weight: T -> int)
    requires forall i :: 0 <= i < |s| ==> weight(s[i]) >= 1
    ensures SumBy(s, weight) >= |s|
  {
    if s != [] {
      var n := |s| - 1;
      assert forall i :: 0 <= i < n ==> s[..n][i] == s[i];
      SumByAtLeastLength(s[..n], weight);
    }
  }

  /** When every key is one of `a` and `b`, the total is the two sums. */
  lemma {:induction false} TwoKeyTotal<T, K>(items: seq<T>, keyOf: T -> Option<K>, weight: T -> int, a: K, b: K)
    requires a != b
    requires forall i :: 0 <= i < |items| ==> keyOf(items[i]) in {None, Some(a), Some(b)}
    ensures KeyTotal(items, keyOf, weight) == KeySum(items, keyOf, weight, a) + KeySum(items, keyOf, weight, b)
  {
    if items != [] {
      var n := |items| - 1;
      assert forall i :: 0 <= i < n ==> items[..n][i] == items[i];
      TwoKeyTotal(items[..n], keyOf, weight, a, b);
    }
  }

  lemma DistinctCons<K>(e: Entry<K>, t: seq<Entry<K>>)
    ensures DistinctBy([e] + t, NameOf) <==> e.name !in Names(t) && DistinctBy(t, NameOf)
  {
    var s := [e] + t;
    if DistinctBy(s, NameOf) {
      forall i, j | 0 <= i < j < |t| ensures NameOf(t[i]) != NameOf(t[j]) {
        assert s[i + 1] == t[i] && s[j + 1] == t[j];
      }
      forall f | f in t ensures f.name != e.name {
        var j :| 0 <= j < |t| && t[j] == f;
        assert s[0] == e && s[j + 1] == f;
        assert NameOf(s[0]) != NameOf(s[j + 1]);
      }
    }
    if e.name !in Names(t) && DistinctBy(t, NameOf) {
      forall i, j | 0 <= i < j < |s| ensures NameOf(s[i]) != NameOf(s[j]) {
        if i == 0 {
          assert s[j] == t[j - 1];
          assert s[j] in t;
        } else {
          assert s[i] == t[i - 1] && s[j] == t[j - 1];
        }
      }
      assert DistinctBy(s, NameOf);
    }
  }

  /** Bumping keeps names distinct, adds `k` to the names, adds `w` to the
      sum under `k` only, and adds `w` to the sum of all values. */
  lemma BumpSpec<K>(acc: seq<Entry<K>>, k: K, w: int)
    requires DistinctBy(acc, NameOf)
    ensures DistinctBy(Bump(acc, k, w), NameOf)
    ensures Names(Bump(acc, k, w)) == Names(acc) + {k}
    ensures forall n :: Lookup(Bump(acc, k, w), n) == Lookup(acc, n) + (if n == k then w else 0)
    ensures SumBy(Bump(acc, k, w), ValueOf) == SumBy(acc, ValueOf) + w
  {
    BumpDistinct(acc, k, w);
    BumpLookup(acc, k, w);
    BumpSum(acc, k, w);
  }

  lemma {:induction false} BumpNames<K>(acc: seq<Entry<K>>, k: K, w: int)
    ensures Names(Bump(acc, k, w)) == Names(acc) + {k}
  {
    var r := Bump(acc, k, w);
    if acc == [] {
      assert r[0] in r;
    } else {
      assert acc[0] in acc;
      assert Names(acc) == {acc[0].name} + Names(acc[1..]) by { assert acc == [acc[0]] + acc[1..]; }
      assert r[0] in r;
      if acc[0].name == k {
        assert Names(r) == {k} + Names(acc[1..]) by { assert r == [r[0]] + acc[1..]; }
      } else {
        var t := Bump(acc[1..], k, w);
        BumpNames(acc[1..], k, w);
        assert Names(r) == {acc[0].name} + Names(t) by { assert r == [acc[0]] + t; }
      }
    }
  }

  lemma {:induction false} BumpDistinct<K>(acc: seq<Entry<K>>, k: K, w: int)
    requires DistinctBy(acc, NameOf)
    ensures DistinctBy(Bump(acc, k, w), NameOf)
    ensures Names(Bump(acc, k, w)) == Names(acc) + {k}
  {
    BumpNames(acc, k, w);
    if acc != [] {
      assert acc == [acc[0]] + acc[1..];
      DistinctCons(acc[0], acc[1..]);
      if acc[0].name == k {
        DistinctCons(Entry(k, acc[0].value + w), acc[1..]);
      } else {
        BumpDistinct(acc[1..], k, w);
        DistinctCons(acc[0], Bump(acc[1..], k, w));
      }
    }
  }

  lemma {:induction false} BumpLookup<K>(acc: seq<Entry<K>>, k: K, w: int)
    ensures forall n :: Lookup(Bump(acc, k, w), n) == Lookup(acc, n) + (if n == k then w else 0)
  {
    if acc != [] && acc[0].name != k {
      BumpLookup(acc[1..], k, w);
    }
  }

  lemma {:induction false} BumpSum<K>(acc: seq<Entry<K>>, k: K, w: int)
    ensures SumBy(Bump(acc, k, w), ValueOf) == SumBy(acc, ValueOf) + w
  {
    var r := Bump(acc, k, w);
    if acc == [] {
      assert SumBy(r, ValueOf) == SumBy(r[..0], ValueOf) + w;
    } else {
      assert acc == [acc[0]] + acc[1..];
      SumByConcat([acc[0]], acc[1..], ValueOf);
      assert SumBy([acc[0]], ValueOf) == acc[0].value by { assert [acc[0]][..0] == []; }
      if acc[0].name == k {
        var head := Entry(k, acc[0].value + w);
        SumByConcat([head], acc[1..], ValueOf);
        assert SumBy([head], ValueOf) == head.value by { assert [head][..0] == []; }
      } else {
        BumpSum(acc[1..], k, w);
        SumByConcat([acc[0]], Bump(acc[1..], k, w), ValueOf);
      }
    }
  }

  /** In an accumulator with distinct names, looking an entry's name up gives its value. */
  lemma {:induction false} LookupAt<K>(acc: seq<Entry<K>>, i: nat)
    requires DistinctBy(acc, NameOf) && i < |acc|
    ensures Lookup(acc, acc[i].name) == acc[i].value
  {
    if i > 0 {
      assert acc == [acc[0]] + acc[1..];
      DistinctCons(acc[0], acc[1..]);
      assert acc[i] == acc[1..][i - 1];
      assert acc[i] in acc[1..];
      LookupAt(acc[1..], i - 1);
    }
  }

  /** What a tally holds: distinct keys, exactly the keys seen, each with the sum
      of its items' weights, and altogether the weight of every keyed item. */
  lemma {:induction false} TallySpec<T, K>(items: seq<T>, keyOf: T -> Option<K>, weight: T -> int)
    ensures DistinctBy(Tally(items, keyOf, weight), NameOf)
    ensures Names(Tally(items, keyOf, weight)) == KeySet(items, keyOf)
    ensures forall n :: Lookup(Tally(items, keyOf, weight), n) == KeySum(items, keyOf, weight, n)
    ensures SumBy(Tally(items, keyOf, weight), ValueOf) == KeyTotal(items, keyOf, weight)
  {
    if items != [] {
      var n := |items| - 1;
      TallySpec(items[..n], keyOf, weight);
      match keyOf(items[n])
      case None =>
      case Some(k) => BumpSpec(Tally(items[..n], keyOf, weight), k, weight(items[n]));
    }
  }

  /** The same facts after sorting the tally by any rank: the chart series. */
  lemma SortedTallySpec<T, K>(items: seq<T>, keyOf: T -> Option<K>, weight: T -> int, rank: Entry<K> -> int)
    ensures var r := SortDesc(Tally(items, keyOf, weight), rank);
      && SortedDesc(r, rank)
      && DistinctBy(r, NameOf)
      && Names(r) == KeySet(items, keyOf)
      && (forall i :: 0 <= i < |r| ==> r[i].value == KeySum(items, keyOf, weight, r[i].name))
      && SumBy(r, ValueOf) == KeyTotal(items, keyOf, weight)
  {
    var t := Tally(items, keyOf, weight);
    var r := SortDesc(t, rank);
    TallySpec(items, keyOf, weight);
    SortDescSpec(t, rank, ValueOf, NameOf);
    forall i | 0 <= i < |r| ensures r[i].value == KeySum(items, keyOf, weight, r[i].name) {
      assert r[i] in multiset(t);
      var j :| 0 <= j < |t| && t[j] == r[i];
      LookupAt(t, j);
    }
    assert Names(r) == Names(t) by {
      forall e ensures e in r <==> e in t {
        assert e in r <==> e in multiset(r);
        assert e in t <==> e in multiset(t);
      }
    }
  }

  // ---------------------------------------------------------------------------
  // The same accumulation done in place, as the source's loops do it

  /** `Object.entries(counts)` for an object whose keys were added in `order`. */
  function Entries<K(==)>(order: seq<K>, counts: map<K, int>): (r: seq<Entry<K>>)
    requires forall k :: k in order ==> k in counts
  {
    if order == [] then [] else [Entry(order[0], counts[order[0]])] + Entries(order[1..], counts)
  }

  lemma {:induction false} EntriesIgnore<K>(order: seq<K>, counts: map<K, int>, k: K, v: int)
    requires forall n :: n in order ==> n in counts
    requires k !in order
    ensures Entries(order, counts[k := v]) == Entries(order, counts)
  {
    if order != [] {
      EntriesIgnore(order[1..], counts, k, v);
    }
  }

  lemma {:induction false} EntriesBumpExisting<K>(order: seq<K>, counts: map<K, int>, k: K, w: int)
    requires forall n :: n in order ==> n in counts
    requires forall a, b :: 0 <= a < b < |order| ==> order[a] != order[b]
    requires k in order
    ensures Entries(order, counts[k := counts[k] + w]) == Bump(Entries(order, counts), k, w)
  {
    var c := counts[k := counts[k] + w];
    if order[0] == k {
      EntriesIgnore(order[1..], counts, k, counts[k] + w);
    } else {
      EntriesBumpExisting(order[1..], counts, k, w);
    }
  }

  lemma {:induction false} EntriesBumpFresh<K>(order: seq<K>, counts: map<K, int>, k: K, w: int)
    requires forall n :: n in order ==> n in counts
    requires k !in order
    ensures Entries(order + [k], counts[k := w]) == Bump(Entries(order, counts), k, w)
  {
    if order == [] {
      assert order + [k] == [k];
    } else {
      assert (order + [k])[1..] == order[1..] + [k];
      EntriesBumpFresh(order[1..], counts, k, w);
    }
  }

  /** The `forEach` loop that adds each keyed item's weight into an object:
      it produces exactly the tally of the items. */
  method GroupSum<T, K(==)>(items: seq<T>, keyOf: T -> Option<K>, weight: T -> int) returns (entries: seq<Entry<K>>)
    ensures entries == Tally(items, keyOf, weight)
  {
    var counts: map<K, int> := map[];
    var order: seq<K> := [];
    for i := 0 to |items|
      invariant forall k :: k in counts <==> k in order
      invariant forall a, b :: 0 <= a < b < |order| ==> order[a] != order[b]
      invariant Entries(order, counts) == Tally(items[..i], keyOf, weight)
    {
      assert items[..i + 1][..i] == items[..i];
      var x := items[i];
      match keyOf(x) {
        case None =>
        case Some(k) =>
          if k in counts {
            EntriesBumpExisting(order, counts, k, weight(x));
            counts := counts[k := counts[k] + weight(x)];
          } else {
            EntriesBumpFresh(order, counts, k, weight(x));
            counts := counts[k := weight(x)];
            order := order + [k];
          }
      }
    }
    assert items[..|items|] == items;
    entries := Entries(order, counts);
  }
}
