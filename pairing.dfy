/**
  * Pairing outbound legs with return legs: the nested `for s in starts:
  * for b in backs:` loops of the matchers, which build one trip (priced
  * as the sum of the two legs) for every pair a policy accepts, outbound
  * leg outermost.
  */
module Pairing {
  import opened Seqs
  import opened Models

  /** A sub-multiset of converted flights is converted. */
  lemma ConvertedSubset(r: seq<FlightInfo>, s: seq<FlightInfo>)
    requires Converted(s) && multiset(r) <= multiset(s)
    ensures Converted(r)
  {
    forall i | 0 <= i < |r| ensures r[i].price.IntPrice? {
      assert r[i] in multiset(s);
      var j :| 0 <= j < |s| && s[j] == r[i];
    }
  }

  /** Every flight list of a grouped map carries int prices. */
  predicate AllConverted(grouped: map<string, seq<FlightInfo>>)
    reads set iata, i | iata in grouped && 0 <= i < |grouped[iata]| :: grouped[iata][i]
  {
    forall iata | iata in grouped :: Converted(grouped[iata])
  }

  /** Every group of a converted list is converted. */
  lemma GroupsConverted(data: seq<FlightInfo>, key: FlightInfo -> string)
    requires Converted(data)
    ensures AllConverted(GroupBy(data, key))
  {
    forall iata | iata in GroupBy(data, key) ensures Converted(GroupBy(data, key)[iata]) {
      ConvertedSubset(GroupBy(data, key)[iata], data);
    }
  }

  /** The trips of outbound leg `s` with each return leg in `backs` that `keep` accepts, in `backs` order. */
  function Row(s: FlightInfo, backs: seq<FlightInfo>, keep: (FlightInfo, FlightInfo) -> bool): (r: seq<Trip>)
    reads s, backs
    requires s.price.IntPrice? && Converted(backs)
    decreases |backs|
  {
    if backs == [] then []
    else
      var b := backs[|backs| - 1];
      Row(s, backs[..|backs| - 1], keep) + (if keep(s, b) then [TripOf(s, b)] else [])
  }

  /** Every accepted pair of `starts` x `backs` as a trip, outbound leg outermost. */
  function Pairs(starts: seq<FlightInfo>, backs: seq<FlightInfo>, keep: (FlightInfo, FlightInfo) -> bool): (r: seq<Trip>)
    reads starts, backs
    requires Converted(starts) && Converted(backs)
    decreases |starts|
  {
    if starts == [] then []
    else Pairs(starts[..|starts| - 1], backs, keep) + Row(starts[|starts| - 1], backs, keep)
  }

  /** A row holds trip `t` once per copy of its return leg, if `keep` accepts it and it is priced as a sum. */
  lemma {:induction false} RowCount(s: FlightInfo, backs: seq<FlightInfo>, keep: (FlightInfo, FlightInfo) -> bool, t: Trip)
    requires s.price.IntPrice? && Converted(backs)
    ensures multiset(Row(s, backs, keep))[t] ==
      if t.start == s && keep(s, t.back) && SumPriced(t) then multiset(backs)[t.back] else 0
    decreases |backs|
  {
    if backs != [] {
      var init := backs[..|backs| - 1];
      var b := backs[|backs| - 1];
      assert backs == init + [b];
      RowCount(s, init, keep, t);
      assert t == TripOf(s, b) <==> t.start == s && t.back == b && SumPriced(t);
    }
  }

  /**
    * Pairing is exhaustive and exact: trip `t` occurs once for every copy of
    * its outbound leg times every copy of its return leg when `keep`
    * accepts the pair and `t` is priced as the sum, and never otherwise.
    */
  lemma {:induction false} PairsCount(starts: seq<FlightInfo>, backs: seq<FlightInfo>, keep: (FlightInfo, FlightInfo) -> bool, t: Trip)
    requires Converted(starts) && Converted(backs)
    ensures multiset(Pairs(starts, backs, keep))[t] ==
      if keep(t.start, t.back) && SumPriced(t) then multiset(starts)[t.start] * multiset(backs)[t.back] else 0
    decreases |starts|
  {
    if starts != [] {
      var init: seq<FlightInfo> := starts[..|starts| - 1];
      var s := starts[|starts| - 1];
      PairsCount(init, backs, keep, t);
      RowCount(s, backs, keep, t);
      PairsLast(starts, backs, keep);
      assert starts == init + [s];
      assert multiset(starts)[t.start] == multiset(init)[t.start] + (if t.start == s then 1 else 0);
      CountStep(keep(t.start, t.back) && SumPriced(t), t.start == s, multiset(init)[t.start], multiset(backs)[t.back],
                multiset(Pairs(starts, backs, keep))[t], multiset(starts)[t.start]);
    }
  }

  /** The pairs of a non-empty outbound list: those of all but its last leg, then the last leg's row. */
  lemma PairsLast(starts: seq<FlightInfo>, backs: seq<FlightInfo>, keep: (FlightInfo, FlightInfo) -> bool)
    requires Converted(starts) && Converted(backs) && starts != []
    ensures Converted(starts[..|starts| - 1])
    ensures multiset(Pairs(starts, backs, keep))
         == multiset(Pairs(starts[..|starts| - 1], backs, keep)) + multiset(Row(starts[|starts| - 1], backs, keep))
  {
  }

  /** The counting step of `PairsCount`: one more copy of the outbound leg adds one row's worth. */
  lemma CountStep(k: bool, same: bool, a: int, c: int, total: int, n: int)
    requires total == (if k then a * c else 0) + (if same && k then c else 0)
    requires n == a + (if same then 1 else 0)
    ensures total == if k then n * c else 0
  {
    if k && same {
      MulSucc(a, c);
    }
  }

  lemma MulPositive(a: nat, c: nat)
    ensures a * c > 0 <==> a > 0 && c > 0
  {
    if a > 0 && c > 0 {
      assert a * c >= c;
    }
  }

  lemma MulSucc(a: int, c: int)
    ensures (a + 1) * c == a * c + c
  {
  }

  /** A trip is paired iff both legs are in the inputs, `keep` accepts them and it is priced as their sum. */
  lemma PairsMembership(starts: seq<FlightInfo>, backs: seq<FlightInfo>, keep: (FlightInfo, FlightInfo) -> bool, t: Trip)
    requires Converted(starts) && Converted(backs)
    ensures t in Pairs(starts, backs, keep) <==> t.start in starts && t.back in backs && keep(t.start, t.back) && SumPriced(t)
  {
    PairsCount(starts, backs, keep, t);
    MulPositive(multiset(starts)[t.start], multiset(backs)[t.back]);
    assert t.start in starts <==> t.start in multiset(starts);
    assert t.back in backs <==> t.back in multiset(backs);
  }

  /** Without repeated legs every accepted pair yields exactly one trip. */
  lemma PairsOnce(starts: seq<FlightInfo>, backs: seq<FlightInfo>, keep: (FlightInfo, FlightInfo) -> bool, t: Trip)
    requires Converted(starts) && Converted(backs)
    requires NoDup(starts) && NoDup(backs)
    ensures multiset(Pairs(starts, backs, keep))[t] <= 1
    ensures t.start in starts && t.back in backs && keep(t.start, t.back) && SumPriced(t) ==>
      multiset(Pairs(starts, backs, keep))[t] == 1
  {
    PairsCount(starts, backs, keep, t);
    NoDupCount(starts, t.start);
    NoDupCount(backs, t.back);
    ProductOfAtMostOnes(multiset(starts)[t.start], multiset(backs)[t.back]);
    assert t.start in starts <==> t.start in multiset(starts);
    assert t.back in backs <==> t.back in multiset(backs);
  }

  lemma ProductOfAtMostOnes(a: nat, c: nat)
    requires a <= 1 && c <= 1
    ensures a * c <= 1
    ensures a * c == 1 <==> a == 1 && c == 1
  {
    if a == 0 {
      assert a * c == 0;
    } else {
      assert a * c == c;
    }
  }

  lemma RowPrefixStep(s: FlightInfo, backs: seq<FlightInfo>, keep: (FlightInfo, FlightInfo) -> bool, j: int)
    requires s.price.IntPrice? && Converted(backs)
    requires 0 <= j < |backs|
    ensures Converted(backs[..j]) && Converted(backs[..j + 1])
    ensures Row(s, backs[..j + 1], keep) == Row(s, backs[..j], keep) + (if keep(s, backs[j]) then [TripOf(s, backs[j])] else [])
  {
    assert backs[..j + 1][..j] == backs[..j];
  }

  lemma PairsPrefixStep(starts: seq<FlightInfo>, backs: seq<FlightInfo>, keep: (FlightInfo, FlightInfo) -> bool, i: int)
    requires Converted(starts) && Converted(backs)
    requires 0 <= i < |starts|
    ensures Converted(starts[..i]) && Converted(starts[..i + 1])
    ensures Pairs(starts[..i + 1], backs, keep) == Pairs(starts[..i], backs, keep) + Row(starts[i], backs, keep)
  {
    assert starts[..i + 1][..i] == starts[..i];
  }

  /** The inner loop: each return leg `keep` accepts with `s`, in order. */
  method PairRow(s: FlightInfo, backs: seq<FlightInfo>, keep: (FlightInfo, FlightInfo) -> bool) returns (row: seq<Trip>)
    requires s.price.IntPrice? && Converted(backs)
    ensures row == Row(s, backs, keep)
  {
    row := [];
    assert backs[..0] == [];
    for j := 0 to |backs|
      invariant Converted(backs[..j])
      invariant row == Row(s, backs[..j], keep)
    {
      RowPrefixStep(s, backs, keep, j);
      var b := backs[j];
      if keep(s, b) {
        row := row + [TripOf(s, b)];
      }
    }
    assert backs[..|backs|] == backs;
  }

  /** The nested loops: each outbound leg in turn, each accepted return leg appended in order. */
  method PairUp(starts: seq<FlightInfo>, backs: seq<FlightInfo>, keep: (FlightInfo, FlightInfo) -> bool) returns (trips: seq<Trip>)
    requires Converted(starts) && Converted(backs)
    ensures trips == Pairs(starts, backs, keep)
  {
    trips := [];
    assert starts[..0] == [];
    for i := 0 to |starts|
      invariant Converted(starts[..i])
      invariant trips == Pairs(starts[..i], backs, keep)
    {
      PairsPrefixStep(starts, backs, keep, i);
      var row := PairRow(starts[i], backs, keep);
      trips := trips + row;
    }
    assert starts[..|starts|] == starts;
  }
}
