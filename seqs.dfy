/**
  * Sequence utilities shared by the processors: order-preserving filters,
  * first-occurrence de-duplication (Python's `{str(x): x for x in xs}.values()`
  * on values whose `str` is injective) and a stable insertion sort (Python's
  * `list.sort` / `sorted` with a key are stable).
  */
module Seqs {

  /** The elements of `s` that satisfy `p`, in order (a list comprehension with a condition). */
  function Filter<T>(s: seq<T>, p: T -> bool): (r: seq<T>)
    ensures |r| <= |s|
    ensures forall i | 0 <= i < |r| :: p(r[i])
    ensures multiset(r) <= multiset(s)
    ensures forall i | 0 <= i < |s| && p(s[i]) :: multiset(r)[s[i]] == multiset(s)[s[i]]
    decreases |s|
  {
    if s == [] then []
    else
      var init := s[..|s| - 1];
      var last := s[|s| - 1];
      assert s == init + [last];
      var r := Filter(init, p) + (if p(last) then [last] else []);
      assert forall i | 0 <= i < |init| :: init[i] == s[i];
      assert forall x | x in multiset(r) :: p(x) by {
        forall x | x in multiset(r) ensures p(x) {
          assert x in r;
        }
      }
      r
  }

  /** Filtering distributes over concatenation: the filter keeps the relative order of its input. */
  lemma {:induction false} FilterAppend<T>(a: seq<T>, b: seq<T>, p: T -> bool)
    ensures Filter(a + b, p) == Filter(a, p) + Filter(b, p)
    decreases |b|
  {
    if b == [] {
      assert a + b == a;
    } else {
      var binit := b[..|b| - 1];
      assert (a + b)[..|a + b| - 1] == a + binit;
      FilterAppend(a, binit, p);
    }
  }

  /** Filtering twice with the same condition changes nothing the second time. */
  lemma {:induction false} FilterIdempotent<T>(s: seq<T>, p: T -> bool)
    ensures Filter(Filter(s, p), p) == Filter(s, p)
    decreases |s|
  {
    if s != [] {
      var init := s[..|s| - 1];
      var last := s[|s| - 1];
      var tail := if p(last) then [last] else [];
      FilterIdempotent(init, p);
      FilterAppend(Filter(init, p), tail, p);
      assert Filter(tail, p) == tail by {
        if p(last) {
          assert tail[..0] == [];
        }
      }
    }
  }

  /** How often `x` survives a filter: all its copies when it satisfies `p`, none otherwise. */
  lemma FilterCount<T>(s: seq<T>, p: T -> bool, x: T)
    ensures multiset(Filter(s, p))[x] == if p(x) then multiset(s)[x] else 0
  {
    var r := Filter(s, p);
    if p(x) {
      if x in s {
        var i :| 0 <= i < |s| && s[i] == x;
      }
    }
  }

  /** An element survives a filter iff it is in the input and passes it. */
  lemma FilterMember<T>(s: seq<T>, p: T -> bool, x: T)
    ensures x in Filter(s, p) <==> x in s && p(x)
  {
    FilterCount(s, p, x);
    assert x in Filter(s, p) <==> x in multiset(Filter(s, p));
    assert x in s <==> x in multiset(s);
  }

  /** An element survives two filters iff it is in the input and passes both. */
  lemma FilterTwice<T>(s: seq<T>, p: T -> bool, q: T -> bool, x: T)
    ensures x in Filter(Filter(s, p), q) <==> x in s && p(x) && q(x)
  {
    FilterCount(s, p, x);
    FilterCount(Filter(s, p), q, x);
    assert x in Filter(Filter(s, p), q) <==> x in multiset(Filter(Filter(s, p), q));
    assert x in s <==> x in multiset(s);
  }

  /** Multisets with the same count for every value are equal. */
  lemma MultisetExt<T>(m1: multiset<T>, m2: multiset<T>)
    requires forall x :: m1[x] == m2[x]
    ensures m1 == m2
  {
  }

  /** No value occurs twice. */
  predicate NoDup<T(==)>(s: seq<T>) {
    forall i, j :: 0 <= i < j < |s| ==> s[i] != s[j]
  }

  /** A list without repetitions holds each value at most once. */
  lemma {:induction false} NoDupCount<T>(s: seq<T>, x: T)
    requires NoDup(s)
    ensures multiset(s)[x] <= 1
    decreases |s|
  {
    if s != [] {
      var init := s[..|s| - 1];
      assert s == init + [s[|s| - 1]];
      assert NoDup(init);
      NoDupCount(init, x);
      if x == s[|s| - 1] {
        assert x !in init;
      }
    }
  }

  /** A list holding each value at most once has no repetitions. */
  lemma {:induction false} CountsNoDup<T>(s: seq<T>)
    requires forall x :: multiset(s)[x] <= 1
    ensures NoDup(s)
    decreases |s|
  {
    if s != [] {
      var init := s[..|s| - 1];
      var last := s[|s| - 1];
      assert s == init + [last];
      forall x ensures multiset(init)[x] <= 1 {
        assert multiset(s)[x] == multiset(init)[x] + multiset([last])[x];
      }
      CountsNoDup(init);
      assert multiset(init)[last] == 0 by {
        assert multiset(s)[last] == multiset(init)[last] + 1;
      }
      assert last !in init by {
        assert last !in multiset(init);
      }
    }
  }

  /** A permutation of a list without repetitions has none. */
  lemma NoDupPermutation<T>(a: seq<T>, b: seq<T>)
    requires NoDup(a) && multiset(a) == multiset(b)
    ensures NoDup(b)
  {
    forall x ensures multiset(b)[x] <= 1 {
      NoDupCount(a, x);
    }
    CountsNoDup(b);
  }

  /**
    * Keeps the first occurrence of every value, in order: Python's
    * `list({str(x): x for x in xs}.values())` when `str` is injective.
    */
  function Dedup<T(==)>(s: seq<T>): (r: seq<T>)
    ensures NoDup(r)
    ensures forall i | 0 <= i < |r| :: r[i] in s
    ensures forall i | 0 <= i < |s| :: s[i] in r
    ensures |r| <= |s|
    decreases |s|
  {
    if s == [] then []
    else
      var d := Dedup(s[..|s| - 1]);
      var last := s[|s| - 1];
      assert s == s[..|s| - 1] + [last];
      if last in d then d else d + [last]
  }

  /** Appending to a list `if x not in it` keeps it the de-duplication of everything offered so far. */
  lemma DedupSnoc<T>(s: seq<T>, x: T)
    ensures Dedup(s + [x]) == if x in Dedup(s) then Dedup(s) else Dedup(s) + [x]
  {
    assert (s + [x])[..|s + [x]| - 1] == s;
  }

  /** A list without repetitions is its own de-duplication. */
  lemma {:induction false} DedupOfNoDup<T>(s: seq<T>)
    requires NoDup(s)
    ensures Dedup(s) == s
    decreases |s|
  {
    if s != [] {
      var init := s[..|s| - 1];
      assert NoDup(init);
      DedupOfNoDup(init);
      assert s[|s| - 1] !in init;
      assert s == init + [s[|s| - 1]];
    }
  }

  // ---------------------------------------------------------------------------
  // Stable sorting by a key

  /** `le` is a total order, as Python's `<` / `<=` are on ints and on strings. */
  ghost predicate TotalOrder<K(!new)>(le: (K, K) -> bool) {
    && (forall a, b :: le(a, b) || le(b, a))
    && (forall a, b :: le(a, b) && le(b, a) ==> a == b)
    && (forall a, b, c :: le(a, b) && le(b, c) ==> le(a, c))
  }

  /** The keys of `s` never decrease. */
  predicate SortedBy<T, K>(s: seq<T>, key: T -> K, le: (K, K) -> bool) {
    forall i, j :: 0 <= i < j < |s| ==> le(key(s[i]), key(s[j]))
  }

  /** The elements of `s` whose key is `k`, in order. */
  function WithKey<T, K(==)>(s: seq<T>, key: T -> K, k: K): seq<T>
    decreases |s|
  {
    if s == [] then []
    else (if key(s[0]) == k then [s[0]] else []) + WithKey(s[1..], key, k)
  }

  /** Stability: elements with equal keys keep their relative order. */
  ghost predicate StableFor<T, K(!new)>(r: seq<T>, s: seq<T>, key: T -> K) {
    forall k :: WithKey(r, key, k) == WithKey(s, key, k)
  }

  /** Inserts `x` in front of the first element whose key is not below `x`'s. */
  function Insert<T, K>(x: T, r: seq<T>, key: T -> K, le: (K, K) -> bool): seq<T>
    decreases |r|
  {
    if r == [] || le(key(x), key(r[0])) then [x] + r else [r[0]] + Insert(x, r[1..], key, le)
  }

  /** A stable insertion sort by key: the model of Python's `sorted(s, key=key)`. */
  function SortBy<T, K>(s: seq<T>, key: T -> K, le: (K, K) -> bool): seq<T>
    decreases |s|
  {
    if s == [] then [] else Insert(s[0], SortBy(s[1..], key, le), key, le)
  }

  /** Every key in `Insert(x, r)` is at least `lo` when `x`'s and all of `r`'s are. */
  lemma {:induction false} InsertLowerBound<T, K>(x: T, r: seq<T>, key: T -> K, le: (K, K) -> bool, lo: K)
    requires le(lo, key(x))
    requires forall j | 0 <= j < |r| :: le(lo, key(r[j]))
    ensures forall j | 0 <= j < |Insert(x, r, key, le)| :: le(lo, key(Insert(x, r, key, le)[j]))
    decreases |r|
  {
    if r == [] || le(key(x), key(r[0])) {
    } else {
      InsertLowerBound(x, r[1..], key, le, lo);
      var ins := Insert(x, r[1..], key, le);
      assert Insert(x, r, key, le) == [r[0]] + ins;
    }
  }

  lemma {:induction false} InsertSorted<T, K(!new)>(x: T, r: seq<T>, key: T -> K, le: (K, K) -> bool)
    requires TotalOrder(le)
    requires SortedBy(r, key, le)
    ensures SortedBy(Insert(x, r, key, le), key, le)
    decreases |r|
  {
    if r == [] || le(key(x), key(r[0])) {
      var res := [x] + r;
      forall i, j | 0 <= i < j < |res| ensures le(key(res[i]), key(res[j])) {
        if i == 0 && j > 1 {
          assert le(key(r[0]), key(r[j - 1]));
        }
      }
    } else {
      var rest := r[1..];
      InsertSorted(x, rest, key, le);
      InsertLowerBound(x, rest, key, le, key(r[0]));
      var ins := Insert(x, rest, key, le);
      var res := [r[0]] + ins;
      assert Insert(x, r, key, le) == res;
      forall i, j | 0 <= i < j < |res| ensures le(key(res[i]), key(res[j])) {
        if i > 0 {
          assert res[i] == ins[i - 1] && res[j] == ins[j - 1];
        }
      }
    }
  }

  lemma {:induction false} InsertPermutes<T, K>(x: T, r: seq<T>, key: T -> K, le: (K, K) -> bool)
    ensures multiset(Insert(x, r, key, le)) == multiset([x] + r)
    decreases |r|
  {
    if r == [] || le(key(x), key(r[0])) {
    } else {
      InsertPermutes(x, r[1..], key, le);
      assert r == [r[0]] + r[1..];
    }
  }

  lemma {:induction false} InsertStable<T, K(!new)>(x: T, r: seq<T>, key: T -> K, le: (K, K) -> bool, k: K)
    requires TotalOrder(le)
    requires SortedBy(r, key, le)
    ensures WithKey(Insert(x, r, key, le), key, k) == WithKey([x] + r, key, k)
    decreases |r|
  {
    if r == [] || le(key(x), key(r[0])) {
    } else {
      var rest := r[1..];
      InsertStable(x, rest, key, le, k);
      var ins := Insert(x, rest, key, le);
      assert Insert(x, r, key, le) == [r[0]] + ins;
      assert ([r[0]] + ins)[1..] == ins;
      assert ([x] + rest)[1..] == rest;
      assert ([x] + r)[1..] == r;
      assert r == [r[0]] + rest;
      assert !(key(r[0]) == k && key(x) == k);
    }
  }

  /**
    * SortBy is a stable sort: the keys of the result are ordered, it is a
    * permutation of the input, and elements with equal keys keep their order.
    */
  lemma {:induction false} SortByFacts<T, K(!new)>(s: seq<T>, key: T -> K, le: (K, K) -> bool)
    requires TotalOrder(le)
    ensures SortedBy(SortBy(s, key, le), key, le)
    ensures multiset(SortBy(s, key, le)) == multiset(s)
    ensures StableFor(SortBy(s, key, le), s, key)
    decreases |s|
  {
    if s != [] {
      var rest := SortBy(s[1..], key, le);
      SortByFacts(s[1..], key, le);
      InsertSorted(s[0], rest, key, le);
      InsertPermutes(s[0], rest, key, le);
      assert s == [s[0]] + s[1..];
      forall k ensures WithKey(SortBy(s, key, le), key, k) == WithKey(s, key, k) {
        InsertStable(s[0], rest, key, le, k);
        assert ([s[0]] + rest)[1..] == rest;
      }
    }
  }

  /** A stable sort of an already sorted list returns it unchanged. */
  lemma {:induction false} SortBySorted<T, K(!new)>(s: seq<T>, key: T -> K, le: (K, K) -> bool)
    requires TotalOrder(le)
    requires SortedBy(s, key, le)
    ensures SortBy(s, key, le) == s
    decreases |s|
  {
    if s != [] {
      SortBySorted(s[1..], key, le);
      assert s == [s[0]] + s[1..];
    }
  }

  /** Filtering a sorted list leaves it sorted: the filter keeps the relative order. */
  lemma {:induction false} FilterSorted<T, K>(s: seq<T>, p: T -> bool, key: T -> K, le: (K, K) -> bool)
    requires SortedBy(s, key, le)
    ensures SortedBy(Filter(s, p), key, le)
    decreases |s|
  {
    if s != [] {
      var init := s[..|s| - 1];
      var last := s[|s| - 1];
      FilterSorted(init, p, key, le);
      var f := Filter(init, p);
      if p(last) {
        forall i | 0 <= i < |f| ensures le(key(f[i]), key(last)) {
          assert f[i] in multiset(init);
          var j :| 0 <= j < |init| && init[j] == f[i];
          assert s[j] == f[i];
        }
      }
    }
  }

  /** Python's `<=` on ints. */
  predicate IntLe(a: int, b: int) { a <= b }

  lemma IntLeTotalOrder()
    ensures TotalOrder(IntLe)
  {
  }

  // ---------------------------------------------------------------------------
  // Grouping by a key

  /** The keys that occur in `s`. */
  function KeysOf<T, K>(s: seq<T>, key: T -> K): set<K> {
    set i | 0 <= i < |s| :: key(s[i])
  }

  /** The condition "has key `k`". */
  function HasKey<T, K(==)>(key: T -> K, k: K): T -> bool {
    x => key(x) == k
  }

  /**
    * `s` grouped by `key`: every key that occurs maps to the elements with
    * that key, in order (a `defaultdict(list)` filled by one pass).
    */
  function GroupBy<T, K(==)>(s: seq<T>, key: T -> K): map<K, seq<T>> {
    map k | k in KeysOf(s, key) :: Filter(s, HasKey(key, k))
  }

  lemma GroupByEmpty<T, K>(key: T -> K)
    ensures GroupBy([], key) == map[]
  {
    assert KeysOf([], key) == {};
  }

  /** A key occurs exactly when its filter is non-empty. */
  lemma FilterHasKeyEmpty<T, K>(s: seq<T>, key: T -> K, k: K)
    ensures Filter(s, HasKey(key, k)) == [] <==> k !in KeysOf(s, key)
  {
    var r := Filter(s, HasKey(key, k));
    if k in KeysOf(s, key) {
      var i :| 0 <= i < |s| && key(s[i]) == k;
      assert HasKey(key, k)(s[i]);
      assert multiset(r)[s[i]] == multiset(s)[s[i]] > 0;
    }
  }

  lemma FilterSnoc<T>(s: seq<T>, x: T, p: T -> bool)
    ensures Filter(s + [x], p) == Filter(s, p) + (if p(x) then [x] else [])
  {
    assert (s + [x])[..|s|] == s;
  }

  /** The filter of a longer prefix extends the filter of the shorter one by at most the new element. */
  lemma FilterPrefixStep<T>(s: seq<T>, i: int, p: T -> bool)
    requires 0 <= i < |s|
    ensures Filter(s[..i + 1], p) == Filter(s[..i], p) + (if p(s[i]) then [s[i]] else [])
  {
    FilterSnoc(s[..i], s[i], p);
    assert s[..i + 1] == s[..i] + [s[i]];
  }

  lemma KeysOfSnoc<T, K>(s: seq<T>, x: T, key: T -> K)
    ensures KeysOf(s + [x], key) == KeysOf(s, key) + {key(x)}
  {
    var s' := s + [x];
    forall k | k in KeysOf(s', key) ensures k in KeysOf(s, key) + {key(x)} {
      var i :| 0 <= i < |s'| && key(s'[i]) == k;
      if i < |s| {
        assert s'[i] == s[i];
      }
    }
    forall k | k in KeysOf(s, key) ensures k in KeysOf(s', key) {
      var i :| 0 <= i < |s| && key(s[i]) == k;
      assert s'[i] == s[i];
    }
    assert key(s'[|s|]) == key(x);
  }

  /** Appending one element appends it to the group of its key and changes no other group. */
  lemma GroupBySnoc<T, K>(s: seq<T>, x: T, key: T -> K)
    ensures GroupBy(s + [x], key) ==
      GroupBy(s, key)[key(x) := (if key(x) in GroupBy(s, key) then GroupBy(s, key)[key(x)] else []) + [x]]
  {
    var g, g' := GroupBy(s, key), GroupBy(s + [x], key);
    var expected := g[key(x) := (if key(x) in g then g[key(x)] else []) + [x]];
    KeysOfSnoc(s, x, key);
    forall k | k in g' ensures k in expected && g'[k] == expected[k] {
      FilterSnoc(s, x, HasKey(key, k));
      if k == key(x) {
        FilterHasKeyEmpty(s, key, k);
      }
    }
    assert g'.Keys == expected.Keys;
  }

  /** `GroupBySnoc` on prefixes: the group of `s[i]` gains `s[i]` at its end. */
  lemma GroupByPrefixStep<T, K>(s: seq<T>, i: int, key: T -> K)
    requires 0 <= i < |s|
    ensures GroupBy(s[..i + 1], key) ==
      GroupBy(s[..i], key)[key(s[i]) := (if key(s[i]) in GroupBy(s[..i], key) then GroupBy(s[..i], key)[key(s[i])] else []) + [s[i]]]
  {
    assert s[..i + 1] == s[..i] + [s[i]];
    GroupBySnoc(s[..i], s[i], key);
  }

  /**
    * Grouping partitions the input: every element sits, with all its copies,
    * in the group of its own key, and every group holds only its key.
    */
  lemma GroupByPartition<T, K>(s: seq<T>, key: T -> K)
    ensures GroupBy(s, key).Keys == KeysOf(s, key)
    ensures forall i | 0 <= i < |s| ::
      key(s[i]) in GroupBy(s, key) && multiset(GroupBy(s, key)[key(s[i])])[s[i]] == multiset(s)[s[i]]
    ensures forall k, j | k in GroupBy(s, key) && 0 <= j < |GroupBy(s, key)[k]| :: key(GroupBy(s, key)[k][j]) == k
    ensures forall k | k in GroupBy(s, key) :: GroupBy(s, key)[k] != []
  {
    var g := GroupBy(s, key);
    forall i | 0 <= i < |s| ensures key(s[i]) in g && multiset(g[key(s[i])])[s[i]] == multiset(s)[s[i]] {
      assert HasKey(key, key(s[i]))(s[i]);
    }
    forall k, j | k in g && 0 <= j < |g[k]| ensures key(g[k][j]) == k {
      assert HasKey(key, k)(g[k][j]);
    }
    forall k | k in g ensures g[k] != [] {
      FilterHasKeyEmpty(s, key, k);
    }
  }

  /**
    * An element of the input sits in the group of its key, and a member of
    * a group has that group's key and comes from the input.
    */
  lemma GroupByMembership<T, K>(s: seq<T>, key: T -> K, x: T, k: K)
    ensures x in s && key(x) == k ==> k in GroupBy(s, key) && x in GroupBy(s, key)[k]
    ensures k in GroupBy(s, key) && x in GroupBy(s, key)[k] ==> key(x) == k && x in s
  {
    var g := GroupBy(s, key);
    GroupByPartition(s, key);
    if x in s && key(x) == k {
      var i :| 0 <= i < |s| && s[i] == x;
      assert multiset(g[key(x)])[x] == multiset(s)[x] > 0;
    }
    if k in g && x in g[k] {
      var j :| 0 <= j < |g[k]| && g[k][j] == x;
      assert x in multiset(g[k]);
    }
  }

  /** `g` files every element of `s` under its key, and only elements of `s` under their own key. */
  predicate GroupMembers<T(==), K(==)>(g: map<K, seq<T>>, s: seq<T>, key: T -> K) {
    && (forall k, x | k in g && x in g[k] :: key(x) == k && x in s)
    && (forall x | x in s :: key(x) in g && x in g[key(x)])
  }

  lemma GroupByMembers<T, K>(s: seq<T>, key: T -> K)
    ensures GroupMembers(GroupBy(s, key), s, key)
  {
    var g := GroupBy(s, key);
    forall k, x | k in g && x in g[k] ensures key(x) == k && x in s {
      GroupByMembership(s, key, x, k);
    }
    forall x | x in s ensures key(x) in g && x in g[key(x)] {
      GroupByMembership(s, key, x, key(x));
    }
  }
}
