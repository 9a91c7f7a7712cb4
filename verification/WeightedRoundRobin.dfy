/** Smooth weighted round-robin: the router and its exact proportionality. */
module WeightedRoundRobin {
  import opened Providers

  // ----- The algorithm on values ------------------------------------------------

  function EffectiveWeight(p: ProviderInfo): (w: int)
    ensures w >= 1
  {
    if p.weight <= 0 then 1 else p.weight
  }

  function Weights(infos: seq<ProviderInfo>): (ws: seq<int>)
    ensures |ws| == |infos|
    ensures forall i :: 0 <= i < |ws| ==> ws[i] == EffectiveWeight(infos[i])
  {
    seq(|infos|, i requires 0 <= i < |infos| => EffectiveWeight(infos[i]))
  }

  ghost predicate Positive(ws: seq<int>) {
    forall i :: 0 <= i < |ws| ==> ws[i] >= 1
  }

  function Sum(s: seq<int>): int {
    if s == [] then 0 else Sum(s[..|s|-1]) + s[|s|-1]
  }

  function Zeros(n: nat): (z: seq<int>)
    ensures |z| == n && forall i :: 0 <= i < n ==> z[i] == 0
  {
    seq(n, _ => 0)
  }

  function Add(c: seq<int>, w: seq<int>): (r: seq<int>)
    requires |c| == |w|
    ensures |r| == |c| && forall i :: 0 <= i < |c| ==> r[i] == c[i] + w[i]
  {
    seq(|c|, i requires 0 <= i < |c| => c[i] + w[i])
  }

  /** The least index that holds the greatest value. */
  ghost predicate IsFirstMax(c: seq<int>, m: nat) {
    && m < |c|
    && (forall i :: 0 <= i < |c| ==> c[i] <= c[m])
    && (forall i :: 0 <= i < m ==> c[i] < c[m])
  }

  function FirstMax(c: seq<int>): (m: nat)
    requires |c| > 0
    ensures IsFirstMax(c, m)
  {
    if |c| == 1 then 0
    else
      var m := FirstMax(c[..|c|-1]);
      if c[|c|-1] > c[m] then |c| - 1 else m
  }

  lemma FirstMaxIs(c: seq<int>, m: nat)
    requires m < |c|
    requires forall i :: 0 <= i < |c| ==> c[i] <= c[m]
    requires forall i :: 0 <= i < m ==> c[i] < c[m]
    ensures m == FirstMax(c)
  {
    hide FirstMax;
    var f := FirstMax(c);
    assert c[f] <= c[m] <= c[f];
  }

  /** The provider one round picks. */
  function Pick(c: seq<int>, w: seq<int>): (m: nat)
    requires |c| == |w| > 0
    ensures m < |w|
  {
    FirstMax(Add(c, w))
  }

  /** The current weights after that round. */
  function Next(c: seq<int>, w: seq<int>): (r: seq<int>)
    requires |c| == |w| > 0
    ensures |r| == |w|
  {
    var a := Add(c, w);
    a[Pick(c, w) := a[Pick(c, w)] - Sum(w)]
  }

  /** The current weights after `k` rounds from `c`. */
  function Iterate(c: seq<int>, w: seq<int>, k: nat): (r: seq<int>)
    requires |c| == |w| > 0
    ensures |r| == |w|
  {
    if k == 0 then c else Next(Iterate(c, w, k - 1), w)
  }

  /** How often provider `i` is picked in the first `k` rounds from `c`. */
  function Picked(c: seq<int>, w: seq<int>, k: nat, i: nat): (n: nat)
    requires |c| == |w| > 0
    ensures n <= k
  {
    if k == 0 then 0
    else Picked(c, w, k - 1, i) + if Pick(Iterate(c, w, k - 1), w) == i then 1 else 0
  }

  // ----- Sums ---------------------------------------------------------------------

  lemma {:induction false} SumAdd(c: seq<int>, w: seq<int>)
    requires |c| == |w|
    ensures Sum(Add(c, w)) == Sum(c) + Sum(w)
  {
    if c != [] {
      var n := |c| - 1;
      SumAdd(c[..n], w[..n]);
      assert Add(c, w)[..n] == Add(c[..n], w[..n]);
    }
  }

  lemma {:induction false} SumUpdate(c: seq<int>, i: nat, x: int)
    requires i < |c|
    ensures Sum(c[i := x]) == Sum(c) - c[i] + x
  {
    var n := |c| - 1;
    if i == n {
      assert c[i := x][..n] == c[..n];
    } else {
      assert c[i := x][..n] == c[..n][i := x];
      SumUpdate(c[..n], i, x);
    }
  }

  /** One entry against all the others. */
  lemma {:induction false} SumMinusOne(c: seq<int>, lo: int, j: nat)
    requires j < |c| && forall i :: 0 <= i < |c| ==> lo <= c[i]
    ensures c[j] + (|c| - 1) * lo <= Sum(c)
  {
    var n := |c| - 1;
    if j < n {
      SumMinusOne(c[..n], lo, j);
    } else {
      SumLowerBound(c[..n], lo);
    }
  }

  lemma {:induction false} SumLowerBound(c: seq<int>, lo: int)
    requires forall i :: 0 <= i < |c| ==> lo <= c[i]
    ensures |c| * lo <= Sum(c)
  {
    if c != [] {
      SumLowerBound(c[..|c|-1], lo);
    }
  }

  lemma {:induction false} SumZeros(n: nat)
    ensures Sum(Zeros(n)) == 0
  {
    if n > 0 {
      assert Zeros(n)[..n-1] == Zeros(n - 1);
      SumZeros(n - 1);
    }
  }

  /** Entrywise below with equal sums means equal. */
  lemma {:induction false} DominatedWithEqualSum(a: seq<int>, b: seq<int>)
    requires |a| == |b| && (forall i :: 0 <= i < |a| ==> a[i] <= b[i])
    ensures Sum(a) <= Sum(b)
    ensures Sum(a) == Sum(b) ==> a == b
  {
    if a != [] {
      var n := |a| - 1;
      DominatedWithEqualSum(a[..n], b[..n]);
      assert a == a[..n] + [a[n]] && b == b[..n] + [b[n]];
    }
  }

  // ----- Invariants over every run ------------------------------------------------

  /** What every reachable state satisfies: zero sum, and no weight at or below -W. */
  ghost predicate Balanced(c: seq<int>, w: seq<int>) {
    && |c| == |w| > 0
    && Positive(w)
    && Sum(c) == 0
    && forall i :: 0 <= i < |c| ==> c[i] >= 1 - Sum(w)
  }

  lemma MulMonotone(a: int, b: int, c: int)
    requires a >= 0 && b <= c
    ensures a * b <= a * c
  {
  }

  lemma PositiveFactor(n: int, x: int)
    requires n >= 0 && n * x > 0
    ensures x > 0
  {
    if x <= 0 {
      MulMonotone(n, x, 0);
    }
  }

  lemma NextBalanced(c: seq<int>, w: seq<int>)
    requires Balanced(c, w)
    ensures Balanced(Next(c, w), w)
  {
    hide Sum, FirstMax;
    var a, m := Add(c, w), Pick(c, w);
    SumAdd(c, w);
    SumUpdate(a, m, a[m] - Sum(w));
    SumLowerBound(w, 1);
    // A maximum of 0 or less would force the sum, which is W >= 1, to be 0 or less.
    SumUpperBound(a, a[m]);
    PositiveFactor(|a|, a[m]);
  }

  lemma {:induction false} SumUpperBound(c: seq<int>, hi: int)
    requires forall i :: 0 <= i < |c| ==> c[i] <= hi
    ensures Sum(c) <= |c| * hi
  {
    if c != [] {
      SumUpperBound(c[..|c|-1], hi);
    }
  }

  lemma NextAt(c: seq<int>, w: seq<int>, i: nat)
    requires |c| == |w| && i < |w|
    ensures Next(c, w)[i] == c[i] + w[i] - if Pick(c, w) == i then Sum(w) else 0
  {
  }

  lemma LedgerStep(c: int, k: int, wi: int, W: int, n: int, b: int)
    requires b == 0 || b == 1
    ensures c + (k - 1) * wi - W * n + wi - (if b == 1 then W else 0) == c + k * wi - W * (n + b)
  {
  }

  /** The ledger: after k rounds a weight is its start plus k*w_i minus W per pick. */
  lemma {:induction false} Ledger(c: seq<int>, w: seq<int>, k: nat, i: nat)
    requires |c| == |w| && i < |w|
    ensures Iterate(c, w, k)[i] == c[i] + k * w[i] - Sum(w) * Picked(c, w, k, i)
  {
    hide Next, Pick, Sum;
    if k > 0 {
      Ledger(c, w, k - 1, i);
      var before := Iterate(c, w, k - 1);
      var b := if Pick(before, w) == i then 1 else 0;
      NextAt(before, w, i);
      LedgerStep(c[i], k, w[i], Sum(w), Picked(c, w, k - 1, i), b);
      assert Picked(c, w, k, i) == Picked(c, w, k - 1, i) + b;
      assert Iterate(c, w, k) == Next(before, w);
    }
  }

  lemma {:induction false} IterateBalanced(c: seq<int>, w: seq<int>, k: nat)
    requires Balanced(c, w)
    ensures Balanced(Iterate(c, w, k), w)
  {
    assert |c| == |w| > 0;
    hide Balanced, Next;
    if k > 0 {
      IterateBalanced(c, w, k - 1);
      NextBalanced(Iterate(c, w, k - 1), w);
    }
  }

  lemma ZerosBalanced(w: seq<int>)
    requires |w| > 0 && Positive(w)
    ensures Balanced(Zeros(|w|), w)
  {
    SumZeros(|w|);
    SumLowerBound(w, 1);
  }

  lemma Negated(n: int, x: int)
    ensures n * (1 - x) == -(n * (x - 1))
  {
  }

  /** Fairness after every number of picks: W*n_i stays within W-1 above k*w_i, and
      within (n-1)(W-1) below it. */
  lemma Proportional(w: seq<int>, k: nat, i: nat)
    requires i < |w| && Positive(w)
    ensures Sum(Iterate(Zeros(|w|), w, k)) == 0
    ensures Sum(w) * Picked(Zeros(|w|), w, k, i) <= k * w[i] + Sum(w) - 1
    ensures Sum(w) * Picked(Zeros(|w|), w, k, i) >= k * w[i] - (|w| - 1) * (Sum(w) - 1)
  {
    hide Iterate, Picked, Sum;
    var c, W := Iterate(Zeros(|w|), w, k), Sum(w);
    ZerosBalanced(w);
    IterateBalanced(Zeros(|w|), w, k);
    Ledger(Zeros(|w|), w, k, i);
    SumMinusOne(c, 1 - W, i);
    Negated(|w| - 1, W);
  }

  // ----- The exact period ----------------------------------------------------------

  function PickCounts(w: seq<int>, k: nat): (r: seq<int>)
    requires |w| > 0
    ensures |r| == |w|
    ensures forall i :: 0 <= i < |w| ==> r[i] == Picked(Zeros(|w|), w, k, i)
  {
    seq(|w|, i requires 0 <= i < |w| => Picked(Zeros(|w|), w, k, i))
  }

  /** Each round picks exactly one provider. */
  lemma {:induction false} PickCountsSum(w: seq<int>, k: nat)
    requires |w| > 0
    ensures Sum(PickCounts(w, k)) == k
  {
    hide Sum, PickCounts, Pick, Iterate, Picked;
    if k == 0 {
      NothingPicked(w);
      SumZeros(|w|);
    } else {
      PickCountsSum(w, k - 1);
      var before := PickCounts(w, k - 1);
      var m := Pick(Iterate(Zeros(|w|), w, k - 1), w);
      PickCountsNext(w, k);
      SumUpdate(before, m, before[m] + 1);
    }
  }

  lemma NothingPicked(w: seq<int>)
    requires |w| > 0
    ensures PickCounts(w, 0) == Zeros(|w|)
  {
  }

  lemma PickCountsNext(w: seq<int>, k: nat)
    requires |w| > 0 && k > 0
    ensures var before := PickCounts(w, k - 1);
            var m := Pick(Iterate(Zeros(|w|), w, k - 1), w);
            PickCounts(w, k) == before[m := before[m] + 1]
  {
    hide PickCounts, Pick, Iterate;
    var before := PickCounts(w, k - 1);
    var m := Pick(Iterate(Zeros(|w|), w, k - 1), w);
    forall i | 0 <= i < |w| ensures PickCounts(w, k)[i] == before[m := before[m] + 1][i] {
      assert Picked(Zeros(|w|), w, k, i) == Picked(Zeros(|w|), w, k - 1, i) + if m == i then 1 else 0;
    }
  }

  lemma AtMostShare(n: int, wi: int, W: int)
    requires W > 0 && W * n <= W * wi + W - 1
    ensures n <= wi
  {
    assert W * (wi + 1) == W * wi + W;
    if n >= wi + 1 {
      MulMonotone(W, wi + 1, n);
    }
  }

  /** From zero weights, W picks choose every provider exactly w_i times and return
      the router to zero weights. */
  lemma ExactPeriod(w: seq<int>)
    requires |w| > 0 && Positive(w)
    ensures Sum(w) > 0
    ensures forall i :: 0 <= i < |w| ==> Picked(Zeros(|w|), w, Sum(w), i) == w[i]
    ensures Iterate(Zeros(|w|), w, Sum(w)) == Zeros(|w|)
  {
    hide Iterate, Picked, Sum;
    var z, W := Zeros(|w|), Sum(w);
    SumLowerBound(w, 1);
    var counts := PickCounts(w, W);
    forall i | 0 <= i < |w| ensures counts[i] <= w[i] {
      Proportional(w, W, i);
      AtMostShare(counts[i], w[i], W);
    }
    PickCountsSum(w, W);
    DominatedWithEqualSum(counts, w);
    forall i | 0 <= i < |w| ensures Iterate(z, w, W)[i] == 0 {
      Ledger(z, w, W, i);
      assert counts[i] == w[i];
    }
  }

  lemma {:induction false} IterateAdd(c: seq<int>, w: seq<int>, a: nat, b: nat, i: nat)
    requires |c| == |w| > 0
    ensures Iterate(c, w, a + b) == Iterate(Iterate(c, w, a), w, b)
    ensures Picked(c, w, a + b, i) == Picked(c, w, a, i) + Picked(Iterate(c, w, a), w, b, i)
  {
    hide Next, Pick, Sum;
    if b > 0 {
      IterateAdd(c, w, a, b - 1, i);
      assert a + (b - 1) == a + b - 1;
      var mid := Iterate(c, w, a);
      assert Iterate(mid, w, b) == Next(Iterate(mid, w, b - 1), w);
      assert Iterate(c, w, a + b) == Next(Iterate(c, w, a + b - 1), w);
    }
  }

  /** Not only the first: every window of W consecutive picks, wherever it starts,
      chooses every provider exactly w_i times. */
  lemma EveryWindow(w: seq<int>, k: nat, i: nat)
    requires i < |w| && Positive(w)
    ensures Sum(w) > 0
    ensures Picked(Zeros(|w|), w, k + Sum(w), i) - Picked(Zeros(|w|), w, k, i) == w[i]
  {
    hide Iterate, Picked;
    var z, W := Zeros(|w|), Sum(w);
    ExactPeriod(w);
    IterateAdd(z, w, W, k, i);
    assert W + k == k + W;
  }

  // ----- The router ----------------------------------------------------------------

  datatype RouterState = RouterState(weights: seq<int>, ids: seq<string>)

  /** The weights a call works on: fresh zeros whenever the healthy names changed. */
  function Prepared(st: RouterState, healthy: seq<ProviderInfo>): (r: seq<int>)
    requires |st.weights| == |st.ids|
    ensures |r| == |healthy|
  {
    if st.ids != Names(healthy) then Zeros(|healthy|) else st.weights
  }

  function SelectState(st: RouterState, infos: seq<ProviderInfo>): (r: RouterState)
    requires |st.weights| == |st.ids|
    ensures |r.weights| == |r.ids|
  {
    var healthy := FilterHealthy(infos);
    if healthy == [] then st
    else RouterState(Next(Prepared(st, healthy), Weights(healthy)), Names(healthy))
  }

  function SelectResult(st: RouterState, infos: seq<ProviderInfo>): Selection
    requires |st.weights| == |st.ids|
  {
    var healthy := FilterHealthy(infos);
    if infos == [] then NoProviders
    else if healthy == [] then AllProvidersUnhealthy
    else Selected(healthy[Pick(Prepared(st, healthy), Weights(healthy))])
  }

  function SelectRun(st: RouterState, infos: seq<ProviderInfo>, k: nat): (r: RouterState)
    requires |st.weights| == |st.ids|
    ensures |r.weights| == |r.ids|
  {
    if k == 0 then st else SelectState(SelectRun(st, infos, k - 1), infos)
  }

  /** Whatever the router did before, once the healthy names differ from the last
      ones its next calls run the algorithm from zero weights: call k+1 returns the
      k-th pick, so the proportionality results are about the providers returned. */
  lemma {:induction false} RouterFollowsAlgorithm(st: RouterState, infos: seq<ProviderInfo>, k: nat)
    requires |st.weights| == |st.ids|
    requires FilterHealthy(infos) != []
    requires var healthy := FilterHealthy(infos);
             |st.ids| != |healthy| || exists i :: 0 <= i < |healthy| && st.ids[i] != healthy[i].name
    ensures var healthy := FilterHealthy(infos);
            var w := Weights(healthy);
            && SelectRun(st, infos, k + 1) == RouterState(Iterate(Zeros(|w|), w, k + 1), Names(healthy))
            && SelectResult(SelectRun(st, infos, k), infos)
               == Selected(healthy[Pick(Iterate(Zeros(|w|), w, k), w)])
  {
    hide FilterHealthy, Weights, Names, Zeros, Next, Pick;
    var z := Zeros(|Weights(FilterHealthy(infos))|);
    var before := SelectRun(st, infos, k);
    if k > 0 {
      RouterFollowsAlgorithm(st, infos, k - 1);
    } else {
      assert before == st;
    }
    assert FilterHealthy([]) == [] by {
      NoneHealthy();
    }
    assert SelectRun(st, infos, k + 1) == SelectState(before, infos);
    assert Prepared(before, FilterHealthy(infos)) == Iterate(z, Weights(FilterHealthy(infos)), k);
  }

  /** A current weight after its provider's weight, 1 if none is configured, was added. */
  ghost function Raised(current: int, p: ProviderInfo): int {
    current + if p.weight > 0 then p.weight else 1
  }

  /** While the healthy names stay what they were, at every position, the weights are carried on: the
      first provider whose raised weight is highest is the answer, and it alone pays the total. */
  lemma RouterCarriesWeights(st: RouterState, infos: seq<ProviderInfo>) returns (m: nat)
    requires |st.weights| == |st.ids| && FilterHealthy(infos) != []
    requires var healthy := FilterHealthy(infos);
             |st.ids| == |healthy| && forall i :: 0 <= i < |healthy| ==> st.ids[i] == healthy[i].name
    ensures var healthy := FilterHealthy(infos);
            && m < |healthy| && SelectResult(st, infos) == Selected(healthy[m])
            && (forall i :: 0 <= i < |healthy| ==> Raised(st.weights[i], healthy[i]) <= Raised(st.weights[m], healthy[m]))
            && (forall i :: 0 <= i < m ==> Raised(st.weights[i], healthy[i]) < Raised(st.weights[m], healthy[m]))
            && SelectState(st, infos).ids == st.ids
            && forall i :: 0 <= i < |healthy| ==>
                 SelectState(st, infos).weights[i]
                 == Raised(st.weights[i], healthy[i]) - if i == m then Sum(Weights(healthy)) else 0
  {
    hide FilterHealthy, Sum, FirstMax;
    NoneHealthy();
    var healthy := FilterHealthy(infos);
    assert Names(healthy) == st.ids;
    m := Pick(st.weights, Weights(healthy));
    var up := Add(st.weights, Weights(healthy));
    assert forall i :: 0 <= i < |healthy| ==> up[i] == Raised(st.weights[i], healthy[i]);
  }

  /** The router's first `k` answers on an unchanged list. */
  function Answers(st: RouterState, infos: seq<ProviderInfo>, k: nat): (r: seq<Selection>)
    requires |st.weights| == |st.ids|
    ensures |r| == k
  {
    if k == 0 then [] else Answers(st, infos, k - 1) + [SelectResult(SelectRun(st, infos, k - 1), infos)]
  }

  ghost predicate Distinct(infos: seq<ProviderInfo>) {
    forall i, j :: 0 <= i < j < |infos| ==> infos[i] != infos[j]
  }

  lemma {:induction false} AnswersArePicks(st: RouterState, infos: seq<ProviderInfo>, k: nat, i: nat)
    requires |st.weights| == |st.ids|
    requires Distinct(FilterHealthy(infos)) && i < |FilterHealthy(infos)|
    requires var healthy := FilterHealthy(infos);
             |st.ids| != |healthy| || exists j :: 0 <= j < |healthy| && st.ids[j] != healthy[j].name
    ensures var healthy := FilterHealthy(infos);
            var w := Weights(healthy);
            multiset(Answers(st, infos, k))[Selected(healthy[i])] == Picked(Zeros(|w|), w, k, i)
  {
    hide FilterHealthy, Weights, Names, Zeros, SelectRun, SelectResult, Iterate, Pick;
    if k > 0 {
      var healthy := FilterHealthy(infos);
      AnswersArePicks(st, infos, k - 1, i);
      RouterFollowsAlgorithm(st, infos, k - 1);
      var m := Pick(Iterate(Zeros(|Weights(healthy)|), Weights(healthy), k - 1), Weights(healthy));
      assert healthy[m] == healthy[i] <==> m == i;
    }
  }

  /** Whatever the router did before: once the healthy list changes, its next W answers name each
      provider exactly as often as its configured weight (1 if none is configured). */
  lemma RouterServesWeights(st: RouterState, infos: seq<ProviderInfo>, i: nat)
    requires |st.weights| == |st.ids|
    requires Distinct(FilterHealthy(infos)) && i < |FilterHealthy(infos)|
    requires var healthy := FilterHealthy(infos);
             |st.ids| != |healthy| || exists j :: 0 <= j < |healthy| && st.ids[j] != healthy[j].name
    ensures var healthy := FilterHealthy(infos);
            Sum(Weights(healthy)) > 0
            && multiset(Answers(st, infos, Sum(Weights(healthy))))[Selected(healthy[i])]
               == if healthy[i].weight > 0 then healthy[i].weight else 1
  {
    hide Answers, Picked, Iterate, FilterHealthy, Sum, Names;
    var w := Weights(FilterHealthy(infos));
    ExactPeriod(w);
    AnswersArePicks(st, infos, Sum(w), i);
  }

  class WeightedRoundRobinRouter {
    var currentWeights: array<int>
    var lastProviderIDs: seq<string>

    ghost predicate Valid()
      reads this
    {
      currentWeights.Length == |lastProviderIDs|
    }

    ghost function State(): (st: RouterState)
      reads this, currentWeights
    {
      RouterState(currentWeights[..], lastProviderIDs)
    }

    constructor ()
      ensures Valid() && fresh(currentWeights)
      ensures State() == RouterState([], [])
    {
      currentWeights := new int[0];
      lastProviderIDs := [];
    }

    method Select(infos: seq<ProviderInfo>) returns (r: Selection)
      requires Valid()
      modifies this, currentWeights
      ensures Valid() && (currentWeights == old(currentWeights) || fresh(currentWeights))
      ensures State() == SelectState(old(State()), infos)
      ensures r == SelectResult(old(State()), infos)
      ensures infos == [] ==> r == NoProviders
      ensures infos != [] && FilterHealthy(infos) == [] ==> r == AllProvidersUnhealthy
    {
      hide FirstMax, Sum, FilterHealthy;
      if |infos| == 0 {
        return NoProviders;
      }
      var healthy := FilterHealthy(infos);
      if |healthy| == 0 {
        return AllProvidersUnhealthy;
      }
      ghost var c, w := Prepared(State(), healthy), Weights(healthy);
      var currentIDs := Names(healthy);
      if lastProviderIDs != currentIDs {
        currentWeights := new int[|healthy|](_ => 0);
        lastProviderIDs := currentIDs;
      }
      assert currentWeights[..] == c;
      var totalWeight := Sum(Weights(healthy));
      AddWeights(healthy);
      var maxIdx := FindMax();
      currentWeights[maxIdx] := currentWeights[maxIdx] - totalWeight;
      assert currentWeights[..] == Next(c, w);
      r := Selected(healthy[maxIdx]);
    }

    // Step 1: every current weight grows by its configured weight.
    method AddWeights(healthy: seq<ProviderInfo>)
      requires |healthy| == currentWeights.Length
      modifies currentWeights
      ensures currentWeights[..] == Add(old(currentWeights[..]), Weights(healthy))
    {
      var i := 0;
      while i < |healthy|
        invariant 0 <= i <= |healthy| == currentWeights.Length
        invariant forall j :: 0 <= j < i ==> currentWeights[j] == old(currentWeights[j]) + EffectiveWeight(healthy[j])
        invariant forall j :: i <= j < |healthy| ==> currentWeights[j] == old(currentWeights[j])
      {
        currentWeights[i] := currentWeights[i] + EffectiveWeight(healthy[i]);
        i := i + 1;
      }
    }

    // Step 2: the first index with the highest current weight.
    method FindMax() returns (maxIdx: nat)
      requires currentWeights.Length > 0
      ensures maxIdx < currentWeights.Length
      ensures maxIdx == FirstMax(currentWeights[..])
    {
      hide FirstMax;
      var maxWeight := currentWeights[0];
      maxIdx := 0;
      var i := 1;
      while i < currentWeights.Length
        invariant 1 <= i <= currentWeights.Length
        invariant 0 <= maxIdx < i && maxWeight == currentWeights[maxIdx]
        invariant forall j :: 0 <= j < i ==> currentWeights[j] <= maxWeight
        invariant forall j :: 0 <= j < maxIdx ==> currentWeights[j] < maxWeight
      {
        if currentWeights[i] > maxWeight {
          maxIdx, maxWeight := i, currentWeights[i];
        }
        i := i + 1;
      }
      FirstMaxIs(currentWeights[..], maxIdx);
    }
  }
}
