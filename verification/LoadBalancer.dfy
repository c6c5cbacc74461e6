/** Weighted round-robin over the read replicas, and its exact fairness. */
module LoadBalancing {
  import opened Multiples
  import opened Wrappers

  datatype ConfigurationError = LengthMismatch | NoKeys | WeightBelowOne

  predicate Accepted(keys: seq<string>, weights: seq<int>) {
    |keys| == |weights| && keys != [] && forall i :: 0 <= i < |weights| ==> weights[i] >= 1
  }

  /** Each key repeated as often as its weight says, in order. */
  function Expanded(keys: seq<string>, weights: seq<int>): (s: seq<string>)
    requires |keys| == |weights| && forall i :: 0 <= i < |weights| ==> weights[i] >= 1
    ensures keys != [] ==> s != []
  {
    if keys == [] then []
    else Expanded(keys[..|keys| - 1], weights[..|keys| - 1]) + Repeat(keys[|keys| - 1], weights[|keys| - 1])
  }

  function Repeat(key: string, n: nat): (s: seq<string>)
    ensures |s| == n && forall i :: 0 <= i < n ==> s[i] == key
  {
    seq(n, _ => key)
  }

  class LoadBalancer {
    const sequence: seq<string>
    var position: nat

    ghost predicate Valid()
      reads this
    {
      position < |sequence|
    }

    constructor (keys: seq<string>, weights: seq<int>)
      requires Accepted(keys, weights)
      ensures Valid() && position == 0 && sequence == Expanded(keys, weights)
    {
      var expanded := [];
      var i := 0;
      while i < |keys|
        invariant 0 <= i <= |keys|
        invariant expanded == Expanded(keys[..i], weights[..i])
      {
        expanded := expanded + Repeat(keys[i], weights[i]);
        i := i + 1;
        assert keys[..i][..i - 1] == keys[..i - 1] && weights[..i][..i - 1] == weights[..i - 1];
      }
      assert keys[..i] == keys && weights[..i] == weights;
      sequence := expanded;
      position := 0;
    }

    /** The constructor with its checks, in the source's order. */
    static method Create(keys: seq<string>, weights: seq<int>) returns (r: Result<LoadBalancer, ConfigurationError>)
      ensures r.Ok? <==> Accepted(keys, weights)
      ensures r.Ok? ==> fresh(r.value) && r.value.Valid()
      ensures r.Ok? ==> r.value.position == 0 && r.value.sequence == Expanded(keys, weights)
      ensures r == Err(LengthMismatch) <==> |keys| != |weights|
      ensures r == Err(NoKeys) <==> |keys| == |weights| == 0
    {
      if |keys| != |weights| {
        return Err(LengthMismatch);
      }
      if keys == [] {
        return Err(NoKeys);
      }
      if exists i :: 0 <= i < |weights| && weights[i] < 1 {
        return Err(WeightBelowOne);
      }
      var balancer := new LoadBalancer(keys, weights);
      r := Ok(balancer);
    }

    method Next() returns (key: string)
      requires Valid()
      modifies this
      ensures Valid()
      ensures [key] == Results(sequence, old(position), 1)
      ensures position == After(sequence, old(position))
    {
      key := sequence[position];
      position := if position + 1 == |sequence| then 0 else position + 1;
    }
  }

  function After(s: seq<string>, p: nat): (q: nat)
    requires p < |s|
    ensures q < |s|
  {
    if p + 1 == |s| then 0 else p + 1
  }

  /** The next `n` results when the cycle stands at `p`. */
  function Results(s: seq<string>, p: nat, n: nat): (r: seq<string>)
    requires p < |s|
    ensures |r| == n
    decreases n
  {
    if n == 0 then [] else [s[p]] + Results(s, After(s, p), n - 1)
  }

  /** The weight configured for `key`, summed over its entries. */
  function WeightOf(keys: seq<string>, weights: seq<int>, key: string): int
    requires |keys| == |weights|
  {
    if keys == [] then 0
    else WeightOf(keys[..|keys| - 1], weights[..|keys| - 1], key)
         + if keys[|keys| - 1] == key then weights[|keys| - 1] else 0
  }

  function TotalWeight(weights: seq<int>): int {
    if weights == [] then 0 else TotalWeight(weights[..|weights| - 1]) + weights[|weights| - 1]
  }

  lemma {:induction false} RepeatCounts(key: string, n: nat, other: string)
    ensures multiset(Repeat(key, n))[other] == if key == other then n else 0
  {
    if n > 0 {
      RepeatCounts(key, n - 1, other);
      assert Repeat(key, n) == Repeat(key, n - 1) + [key];
    }
  }

  lemma {:induction false} ExpandedCounts(keys: seq<string>, weights: seq<int>, key: string)
    requires |keys| == |weights| && forall i :: 0 <= i < |weights| ==> weights[i] >= 1
    ensures multiset(Expanded(keys, weights))[key] == WeightOf(keys, weights, key)
    ensures |Expanded(keys, weights)| == TotalWeight(weights)
  {
    if keys != [] {
      var n := |keys| - 1;
      ExpandedCounts(keys[..n], weights[..n], key);
      RepeatCounts(keys[n], weights[n], key);
      AppendCounts(Expanded(keys[..n], weights[..n]), Repeat(keys[n], weights[n]), key);
    }
  }

  lemma {:induction false} AppendCounts(a: seq<string>, b: seq<string>, key: string)
    ensures multiset(a + b)[key] == multiset(a)[key] + multiset(b)[key]
  {
  }

  lemma {:induction false} ExpandedKeys(keys: seq<string>, weights: seq<int>)
    requires |keys| == |weights| && forall i :: 0 <= i < |weights| ==> weights[i] >= 1
    ensures forall key :: key in Expanded(keys, weights) ==> key in keys
  {
    if keys != [] {
      var n := |keys| - 1;
      ExpandedKeys(keys[..n], weights[..n]);
    }
  }

  /** Up to the end of the sequence, the results are the sequence itself. */
  lemma {:induction false} ResultsAhead(s: seq<string>, p: nat, n: nat, m: nat)
    requires p < |s| && p + n <= |s|
    ensures Results(s, p, n + m) == s[p..p + n] + Results(s, if p + n == |s| then 0 else p + n, m)
    decreases n
  {
    if n > 0 {
      if p + 1 == |s| {
        assert s[p..p + n] == [s[p]];
      } else {
        ResultsAhead(s, p + 1, n - 1, m);
      }
    } else {
      assert s[p..p] == [];
    }
  }

  /** A whole turn from any position is a rotation of the sequence and comes back to that position. */
  lemma {:induction false} WholeTurn(s: seq<string>, p: nat, m: nat)
    requires p < |s|
    ensures Results(s, p, |s| + m) == s[p..] + s[..p] + Results(s, p, m)
  {
    ResultsAhead(s, p, |s| - p, p + m);
    ResultsAhead(s, 0, p, m);
  }

  function Found(s: seq<string>, p: nat, n: nat, key: string): nat
    requires p < |s|
  {
    multiset(Results(s, p, n))[key]
  }

  lemma {:induction false} TurnCounts(s: seq<string>, p: nat, m: nat, key: string)
    requires p < |s|
    ensures Found(s, p, |s| + m, key) == multiset(s)[key] + Found(s, p, m, key)
  {
    WholeTurn(s, p, m);
    RotationCounts(s, p, key);
  }

  lemma {:induction false} PartOfTurnCounts(s: seq<string>, p: nat, n: nat, key: string)
    requires p < |s| && n < |s|
    ensures Found(s, p, n, key) <= multiset(s)[key]
  {
    Prefix(s, p, n, |s| - n, key);
    TurnCounts(s, p, 0, key);
  }

  /** A count that grows by `w` with every `period` results, and by at most `w` within fewer. */
  lemma {:induction false} Fairness(count: nat -> nat, period: nat, w: nat, turns: nat, rest: nat)
    requires forall m: nat :: count(period + m) == w + count(m)
    requires forall m: nat :: m < period ==> count(m) <= w
    requires rest < period
    ensures Times(turns, w) <= count(Times(turns, period) + rest) <= Times(turns, w) + w
  {
    if turns > 0 {
      var m := Times(turns - 1, period) + rest;
      Fairness(count, period, w, turns - 1, rest);
      assert Times(turns, period) + rest == period + m;
      assert count(period + m) == w + count(m);
    }
  }

  lemma {:induction false} RotationCounts(s: seq<string>, p: nat, key: string)
    requires p < |s|
    ensures multiset(s[p..] + s[..p])[key] == multiset(s)[key]
  {
    assert s == s[..p] + s[p..];
  }

  lemma {:induction false} Prefix(s: seq<string>, p: nat, n: nat, m: nat, key: string)
    requires p < |s|
    ensures Found(s, p, n, key) <= Found(s, p, n + m, key)
    decreases n
  {
    if n > 0 {
      Prefix(s, After(s, p), n - 1, m, key);
    }
  }

  predicate Distinct(keys: seq<string>) {
    forall j, k :: 0 <= j < k < |keys| ==> keys[j] != keys[k]
  }

  /** The expanded sequence is as long as the total weight and holds key `i` as often as its weight says. */
  lemma {:induction false} KeyCounts(keys: seq<string>, weights: seq<int>, i: nat)
    requires Accepted(keys, weights) && i < |keys| && Distinct(keys)
    ensures |Expanded(keys, weights)| == TotalWeight(weights)
    ensures multiset(Expanded(keys, weights))[keys[i]] == weights[i]
  {
    ExpandedCounts(keys, weights, keys[i]);
    DistinctWeight(keys, weights, i);
  }

  /** Any window as long as the total weight holds key `i` exactly `weights[i]` times, from any starting point. */
  lemma {:induction false} WindowFairness(keys: seq<string>, weights: seq<int>, p: nat, i: nat)
    requires Accepted(keys, weights) && i < |keys| && Distinct(keys)
    requires p < |Expanded(keys, weights)|
    ensures TotalWeight(weights) > 0
    ensures multiset(Results(Expanded(keys, weights), p, TotalWeight(weights)))[keys[i]] == weights[i]
  {
    KeyCounts(keys, weights, i);
    ExactTurn(Expanded(keys, weights), p, keys[i]);
  }

  lemma {:induction false} ExactTurn(s: seq<string>, p: nat, key: string)
    requires p < |s|
    ensures multiset(Results(s, p, |s|))[key] == multiset(s)[key]
  {
    TurnCounts(s, p, 0, key);
  }

  /** Any `n` consecutive results hold key `i` between floor(n / W) * w and floor(n / W) * w + w times. */
  lemma {:induction false} WeightedFairness(keys: seq<string>, weights: seq<int>, p: nat, n: nat, i: nat)
    requires Accepted(keys, weights) && i < |keys| && Distinct(keys)
    requires p < |Expanded(keys, weights)|
    ensures TotalWeight(weights) > 0
    ensures var turns := n / TotalWeight(weights);
      turns * weights[i] <= multiset(Results(Expanded(keys, weights), p, n))[keys[i]] <= turns * weights[i] + weights[i]
  {
    KeyCounts(keys, weights, i);
    AnyRunCounts(Expanded(keys, weights), p, n, keys[i]);
  }

  lemma {:induction false} AnyRunCounts(s: seq<string>, p: nat, n: nat, key: string)
    requires p < |s|
    ensures var turns, w := n / |s|, multiset(s)[key];
      turns * w <= multiset(Results(s, p, n))[key] <= turns * w + w
  {
    var turns, rest := Divided(n, |s|);
    var w, count := multiset(s)[key], (m: nat) => Found(s, p, m, key);
    forall m: nat ensures count(|s| + m) == w + count(m) {
      TurnCounts(s, p, m, key);
    }
    forall m: nat | m < |s| ensures count(m) <= w {
      PartOfTurnCounts(s, p, m, key);
    }
    Fairness(count, |s|, w, turns, rest);
    TimesIsProduct(turns, w);
  }

  lemma {:induction false} DistinctWeight(keys: seq<string>, weights: seq<int>, i: nat)
    requires |keys| == |weights| && i < |keys| && Distinct(keys)
    ensures WeightOf(keys, weights, keys[i]) == weights[i]
  {
    var n := |keys| - 1;
    if i < n {
      DistinctWeight(keys[..n], weights[..n], i);
    } else {
      AbsentWeight(keys[..n], weights[..n], keys[i]);
    }
  }

  lemma {:induction false} AbsentWeight(keys: seq<string>, weights: seq<int>, key: string)
    requires |keys| == |weights| && key !in keys
    ensures WeightOf(keys, weights, key) == 0
  {
    if keys != [] {
      AbsentWeight(keys[..|keys| - 1], weights[..|keys| - 1], key);
    }
  }
}
