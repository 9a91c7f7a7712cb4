/** The shuffle router: a deck of provider positions, dealt out and shuffled again. */
module Shuffle {
  import opened Providers
  import opened Randomness

  // ----- Decks ----------------------------------------------------------------------------

  function Identity(n: nat): (r: seq<int>)
    ensures |r| == n && forall i :: 0 <= i < n ==> r[i] == i
  {
    seq(n, i => i)
  }

  /** A rearrangement of 0 .. n-1. */
  ghost predicate IsDeck(deck: seq<int>, n: nat) {
    multiset(deck) == multiset(Identity(n))
  }

  lemma {:induction false} IdentityHasEach(n: nat, v: int)
    ensures multiset(Identity(n))[v] == if 0 <= v < n then 1 else 0
  {
    if n > 0 {
      IdentityHasEach(n - 1, v);
      assert Identity(n) == Identity(n - 1) + [n - 1];
    }
  }

  lemma DeckSize(deck: seq<int>, n: nat)
    requires IsDeck(deck, n)
    ensures |deck| == n
  {
    assert |multiset(deck)| == |deck| && |multiset(Identity(n))| == n;
  }

  lemma DeckInRange(deck: seq<int>, n: nat, k: nat)
    requires IsDeck(deck, n) && k < |deck|
    ensures 0 <= deck[k] < n
  {
    IdentityHasEach(n, deck[k]);
    assert deck[k] in multiset(deck);
  }

  /** The first `r` cards hold each position at most once. */
  lemma PartOfDeck(deck: seq<int>, n: nat, r: nat, v: int)
    requires IsDeck(deck, n) && r <= |deck| && 0 <= v < n
    ensures multiset(deck[..r])[v] <= 1 && (r == n ==> multiset(deck[..r])[v] == 1)
  {
    IdentityHasEach(n, v);
    DeckSize(deck, n);
    assert deck == deck[..r] + deck[r..];
    assert multiset(deck) == multiset(deck[..r]) + multiset(deck[r..]);
    assert r == n ==> deck[..r] == deck;
  }

  // ----- Shuffling -----------------------------------------------------------------------------

  function Swap(s: seq<int>, i: nat, j: nat): (r: seq<int>)
    requires i < |s| && j < |s|
    ensures |r| == |s|
  {
    s[i := s[j]][j := s[i]]
  }

  /** The first `k` elements shuffled: the last of them changes places with the one drawn, itself
      included, and then those before it are shuffled. */
  function Shuffled(s: seq<int>, rand: nat -> nat, k: nat): (r: seq<int>)
    requires k <= |s| && InBounds(rand)
    ensures |r| == |s|
    decreases k
  {
    if k <= 1 then s else Shuffled(Swap(s, k - 1, rand(k)), rand, k - 1)
  }

  lemma ShuffledStep(s: seq<int>, rand: nat -> nat, k: nat)
    requires k <= |s| && InBounds(rand)
    ensures k <= 1 ==> Shuffled(s, rand, k) == s
    ensures k > 1 ==> rand(k) < k && Shuffled(s, rand, k) == Shuffled(Swap(s, k - 1, rand(k)), rand, k - 1)
  {
    hide Swap;
  }

  lemma {:induction false} ShuffledKeeps(s: seq<int>, rand: nat -> nat, k: nat)
    requires k <= |s| && InBounds(rand)
    ensures multiset(Shuffled(s, rand, k)) == multiset(s)
    decreases k
  {
    ShuffledStep(s, rand, k);
    hide Shuffled;
    if k > 1 {
      ShuffledKeeps(Swap(s, k - 1, rand(k)), rand, k - 1);
    }
  }

  /** Positions from `k` on stay, and the draws below larger bounds play no part. */
  lemma {:induction false} ShuffledLocal(s: seq<int>, rand: nat -> nat, other: nat -> nat, k: nat)
    requires k <= |s| && InBounds(rand) && InBounds(other)
    requires forall n: nat :: 1 < n <= k ==> rand(n) == other(n)
    ensures Shuffled(s, rand, k) == Shuffled(s, other, k)
    ensures Shuffled(s, rand, k)[k..] == s[k..]
    decreases k
  {
    if k > 1 {
      var next := Swap(s, k - 1, rand(k));
      ShuffledLocal(next, rand, other, k - 1);
      assert next[k..] == s[k..];
      assert Shuffled(next, rand, k - 1)[k - 1..][1..] == next[k - 1..][1..];
    }
  }

  /** The draw decides what stands at the end. */
  lemma LastDrawn(s: seq<int>, rand: nat -> nat, k: nat)
    requires 1 < k <= |s| && InBounds(rand)
    ensures Shuffled(s, rand, k)[k - 1] == s[rand(k)]
  {
    var next := Swap(s, k - 1, rand(k));
    ShuffledLocal(next, rand, rand, k - 1);
    assert Shuffled(next, rand, k - 1)[k - 1..][0] == next[k - 1..][0];
  }

  /** Every order can come up: some draws shuffle `s` into any rearrangement of it. */
  lemma {:induction false} EveryOrder(s: seq<int>, target: seq<int>, k: nat) returns (rand: nat -> nat)
    requires k <= |s| == |target| && multiset(s[..k]) == multiset(target[..k]) && s[k..] == target[k..]
    ensures InBounds(rand) && Shuffled(s, rand, k) == target
    decreases k
  {
    hide Shuffled, Swap, InBounds;
    if k <= 1 {
      rand := AlwaysZero();
      ShuffledStep(s, rand, k);
      ShortOrder(s, target, k);
    } else {
      var j := DrawOf(s, target, k);
      var next := Swap(s, k - 1, j);
      SwapPlaces(s, target, k, j);
      var rest := EveryOrder(next, target, k - 1);
      rand := DrawFirst(k, j, rest);
      ShuffledStep(s, rand, k);
      ShuffledLocal(next, rand, rest, k - 1);
    }
  }

  lemma AlwaysZero() returns (rand: nat -> nat)
    ensures InBounds(rand)
  {
    rand := (n: nat) => 0;
  }

  lemma DrawFirst(k: nat, j: nat, rest: nat -> nat) returns (rand: nat -> nat)
    requires j < k && InBounds(rest)
    ensures InBounds(rand) && rand(k) == j && forall n: nat :: n != k ==> rand(n) == rest(n)
  {
    rand := (n: nat) => if n == k then j else rest(n);
  }

  lemma ShortOrder(s: seq<int>, target: seq<int>, k: nat)
    requires k <= 1 && k <= |s| == |target| && multiset(s[..k]) == multiset(target[..k]) && s[k..] == target[k..]
    ensures s == target
  {
    if k == 1 {
      assert s[..1] == [s[0]] && target[..1] == [target[0]];
      assert s[0] in multiset(target[..1]);
    }
    assert s == s[..k] + s[k..] && target == target[..k] + target[k..];
  }

  lemma DrawOf(s: seq<int>, target: seq<int>, k: nat) returns (j: nat)
    requires 0 < k <= |s| == |target| && multiset(s[..k]) == multiset(target[..k])
    ensures j < k && s[j] == target[k - 1]
  {
    assert target[..k][k - 1] in multiset(target[..k]);
    assert target[k - 1] in s[..k];
    j :| 0 <= j < |s[..k]| && s[..k][j] == target[k - 1];
  }

  /** With the right element at the end, the others are still a rearrangement. */
  lemma SwapPlaces(s: seq<int>, target: seq<int>, k: nat, j: nat)
    requires j < k <= |s| == |target| && s[j] == target[k - 1]
    requires multiset(s[..k]) == multiset(target[..k]) && s[k..] == target[k..]
    ensures var next := Swap(s, k - 1, j);
            multiset(next[..k - 1]) == multiset(target[..k - 1]) && next[k - 1..] == target[k - 1..]
  {
    var next := Swap(s, k - 1, j);
    SwapFront(s, k, j);
    hide Swap;
    var front := next[..k - 1];
    LastOf(next, k);
    LastOf(target, k);
    AppendedSame(front, target[..k - 1], s[j]);
  }

  lemma SwapFront(s: seq<int>, k: nat, j: nat)
    requires j < k <= |s|
    ensures var next := Swap(s, k - 1, j);
            multiset(next[..k]) == multiset(s[..k]) && next[k..] == s[k..] && next[k - 1] == s[j]
  {
    var next := Swap(s, k - 1, j);
    assert next[..k] == s[..k][k - 1 := s[j]][j := s[k - 1]];
  }

  lemma LastOf(s: seq<int>, k: nat)
    requires 0 < k <= |s|
    ensures s[..k] == s[..k - 1] + [s[k - 1]] && s[k - 1..] == [s[k - 1]] + s[k..]
  {
  }

  lemma AppendedSame(a: seq<int>, b: seq<int>, x: int)
    requires multiset(a + [x]) == multiset(b + [x])
    ensures multiset(a) == multiset(b)
  {
    assert multiset(a) + multiset{x} == multiset(b) + multiset{x};
    assert multiset(a) == multiset(a + [x]) - multiset{x};
  }

  ghost predicate Distinct(s: seq<int>) {
    forall i, j :: 0 <= i < j < |s| ==> s[i] != s[j]
  }

  /** And only one sequence of draws gives it, so fair draws make all orders equally likely. */
  lemma {:induction false} OrderTellsDraws(s: seq<int>, rand: nat -> nat, other: nat -> nat, k: nat, n: nat)
    requires k <= |s| && Distinct(s) && InBounds(rand) && InBounds(other)
    requires Shuffled(s, rand, k) == Shuffled(s, other, k) && 1 < n <= k
    ensures rand(n) == other(n)
    decreases k
  {
    LastDrawn(s, rand, k);
    LastDrawn(s, other, k);
    ShuffledStep(s, rand, k);
    ShuffledStep(s, other, k);
    hide Shuffled, Swap;
    SameDraw(s, rand(k), other(k));
    if n < k {
      SwapKeepsDistinct(s, k - 1, rand(k));
      OrderTellsDraws(Swap(s, k - 1, rand(k)), rand, other, k - 1, n);
    }
  }

  lemma SameDraw(s: seq<int>, i: nat, j: nat)
    requires Distinct(s) && i < |s| && j < |s| && s[i] == s[j]
    ensures i == j
  {
  }

  lemma SwapKeepsDistinct(s: seq<int>, i: nat, j: nat)
    requires i < |s| && j < |s| && Distinct(s)
    ensures Distinct(Swap(s, i, j))
  {
  }

  /** The deck a reshuffle makes. */
  function Deck(n: nat, rand: nat -> nat): (r: seq<int>)
    requires InBounds(rand)
    ensures IsDeck(r, n)
  {
    ShuffledKeeps(Identity(n), rand, n);
    Shuffled(Identity(n), rand, n)
  }

  /** A reshuffle can make every deck, and each with one sequence of draws only. */
  lemma EveryDeckOnce(deck: seq<int>, n: nat) returns (rand: nat -> nat)
    requires IsDeck(deck, n)
    ensures InBounds(rand) && Deck(n, rand) == deck
    ensures forall other, m: nat {:trigger other(m)} :: InBounds(other) && Deck(n, other) == deck && 1 < m <= n ==> other(m) == rand(m)
  {
    DeckSize(deck, n);
    assert Identity(n)[..n] == Identity(n) && deck[..n] == deck;
    rand := EveryOrder(Identity(n), deck, n);
    forall other: nat -> nat, m: nat | InBounds(other) && Deck(n, other) == deck && 1 < m <= n ensures other(m) == rand(m) {
      OrderTellsDraws(Identity(n), other, rand, n, m);
    }
  }

  // ----- The router on values ---------------------------------------------------------------

  datatype State = State(order: seq<int>, position: nat, lastLen: nat)

  /** What holds between calls: the order is a deck of the last size, and the position is inside
      it or at its end. */
  ghost predicate Fits(s: State) {
    IsDeck(s.order, s.lastLen) && s.position <= |s.order|
  }

  predicate NeedsReshuffle(s: State, n: nat) {
    |s.order| == 0 || n != s.lastLen || s.position >= |s.order|
  }

  /** The state to deal from: the current one, or a new one with the deck `shuffle`. */
  function Prepared(s: State, n: nat, shuffle: seq<int>): State {
    if NeedsReshuffle(s, n) then State(shuffle, 0, n) else s
  }

  /** The state after dealing one position out of `n`. */
  function Next(s: State, n: nat, shuffle: seq<int>): State {
    var p := Prepared(s, n, shuffle);
    p.(position := p.position + 1)
  }

  lemma PreparedFits(s: State, n: nat, shuffle: seq<int>)
    requires Fits(s) && n > 0 && IsDeck(shuffle, n)
    ensures var p := Prepared(s, n, shuffle);
            Fits(p) && p.lastLen == n == |p.order| && p.position < n
  {
    DeckSize(s.order, s.lastLen);
    DeckSize(shuffle, n);
  }

  /** The position dealt. */
  function Dealt(s: State, n: nat, shuffle: seq<int>): (idx: int)
    requires Fits(s) && n > 0 && IsDeck(shuffle, n)
    ensures 0 <= idx < n
  {
    PreparedFits(s, n, shuffle);
    var p := Prepared(s, n, shuffle);
    DeckInRange(p.order, n, p.position);
    p.order[p.position]
  }

  // ----- Any changes in the number of healthy providers ----------------------------------------

  ghost predicate Decks(sizes: seq<nat>, shuffles: seq<seq<int>>) {
    |sizes| == |shuffles| && forall k :: 0 <= k < |sizes| ==> sizes[k] > 0 && IsDeck(shuffles[k], sizes[k])
  }

  /** The state after calls that saw these numbers of healthy providers, none of them zero. */
  function Run(s: State, sizes: seq<nat>, shuffles: seq<seq<int>>): State
    requires |sizes| == |shuffles|
  {
    if sizes == [] then s
    else
      var last := |sizes| - 1;
      Next(Run(s, sizes[..last], shuffles[..last]), sizes[last], shuffles[last])
  }

  /** The order stays a rearrangement of 0 .. lastLen-1 and the position inside it, however the
      number of healthy providers changes: no deal reads outside the deck or the healthy list. */
  lemma {:induction false} AlwaysFits(s: State, sizes: seq<nat>, shuffles: seq<seq<int>>)
    requires Fits(s) && Decks(sizes, shuffles)
    ensures Fits(Run(s, sizes, shuffles))
    ensures sizes != [] ==> Run(s, sizes, shuffles).lastLen == sizes[|sizes| - 1] && Run(s, sizes, shuffles).position > 0
  {
    if sizes != [] {
      hide Fits;
      var last := |sizes| - 1;
      AlwaysFits(s, sizes[..last], shuffles[..last]);
      NextFits(Run(s, sizes[..last], shuffles[..last]), sizes[last], shuffles[last]);
    }
  }

  lemma NextFits(s: State, n: nat, shuffle: seq<int>)
    requires Fits(s) && n > 0 && IsDeck(shuffle, n)
    ensures Fits(Next(s, n, shuffle))
    ensures Next(s, n, shuffle).lastLen == n && Next(s, n, shuffle).position > 0
  {
    PreparedFits(s, n, shuffle);
  }

  // ----- A constant number of healthy providers ---------------------------------------------------

  ghost predicate AllDecks(n: nat, shuffles: seq<seq<int>>) {
    forall k :: 0 <= k < |shuffles| ==> IsDeck(shuffles[k], n)
  }

  function After(s: State, n: nat, shuffles: seq<seq<int>>): (r: State)
    requires Fits(s) && n > 0 && AllDecks(n, shuffles)
    ensures Fits(r)
  {
    if shuffles == [] then s
    else
      var before := After(s, n, shuffles[..|shuffles| - 1]);
      NextFits(before, n, shuffles[|shuffles| - 1]);
      Next(before, n, shuffles[|shuffles| - 1])
  }

  /** The positions dealt one after the other. */
  function Deals(s: State, n: nat, shuffles: seq<seq<int>>): (r: seq<int>)
    requires Fits(s) && n > 0 && AllDecks(n, shuffles)
    ensures |r| == |shuffles|
  {
    if shuffles == [] then []
    else
      var front := shuffles[..|shuffles| - 1];
      Deals(s, n, front) + [Dealt(After(s, n, front), n, shuffles[|shuffles| - 1])]
  }

  lemma DealOn(s: State, n: nat, shuffle: seq<int>)
    requires Fits(s) && n > 0 && IsDeck(shuffle, n) && !NeedsReshuffle(s, n)
    ensures Next(s, n, shuffle) == State(s.order, s.position + 1, n)
    ensures s.position < |s.order| && Dealt(s, n, shuffle) == s.order[s.position]
  {
  }

  lemma DealFirst(s: State, n: nat, shuffle: seq<int>)
    requires Fits(s) && n > 0 && IsDeck(shuffle, n) && NeedsReshuffle(s, n)
    ensures Next(s, n, shuffle) == State(shuffle, 1, n)
    ensures |shuffle| == n && Dealt(s, n, shuffle) == shuffle[0]
  {
    DeckSize(shuffle, n);
  }

  /** From a reshuffle on, after q whole decks and r more cards, the r cards are the start of the
      deck that was shuffled last. */
  lemma {:induction false} DealsByDeck(s: State, n: nat, shuffles: seq<seq<int>>, q: nat, r: nat)
    requires Fits(s) && n > 0 && AllDecks(n, shuffles) && NeedsReshuffle(s, n)
    requires |shuffles| == q * n + r && 1 <= r <= n
    ensures q * n < |shuffles| && |shuffles[q * n]| == n
    ensures After(s, n, shuffles) == State(shuffles[q * n], r, n)
    ensures Deals(s, n, shuffles) == Deals(s, n, shuffles[..q * n]) + shuffles[q * n][..r]
    decreases q, r
  {
    hide IsDeck, Fits, Next, Dealt;
    var start, k := q * n, |shuffles| - 1;
    var front, deck := shuffles[..k], shuffles[start];
    DeckSize(deck, n);
    var before := After(s, n, front);
    assert After(s, n, shuffles) == Next(before, n, shuffles[k]);
    assert Deals(s, n, shuffles) == Deals(s, n, front) + [Dealt(before, n, shuffles[k])];
    hide After, Deals;
    if r > 1 {
      DealsByDeck(s, n, front, q, r - 1);
      assert front[..start] == shuffles[..start] && front[start] == deck;
      DealOn(before, n, shuffles[k]);
      assert deck[..r] == deck[..r - 1] + [deck[r - 1]];
    } else {
      assert front == shuffles[..start];
      DeckDone(s, n, front, q);
      DealFirst(before, n, deck);
      assert deck[..1] == [deck[0]];
    }
  }

  lemma DeckDone(s: State, n: nat, shuffles: seq<seq<int>>, q: nat)
    requires Fits(s) && n > 0 && AllDecks(n, shuffles) && NeedsReshuffle(s, n) && |shuffles| == q * n
    ensures NeedsReshuffle(After(s, n, shuffles), n)
    decreases q, 0
  {
    if q > 0 {
      hide IsDeck, Fits, After, Deals;
      Unfold(q, n);
      DealsByDeck(s, n, shuffles, q - 1, n);
    }
  }

  lemma Unfold(q: nat, n: nat)
    requires q > 0
    ensures q * n == (q - 1) * n + n
  {
  }

  lemma NoDeals(s: State, n: nat)
    requires Fits(s) && n > 0 && AllDecks(n, [])
    ensures Deals(s, n, []) == []
  {
  }

  lemma DeckAdds(dealt: seq<int>, deck: seq<int>, n: nat, v: int)
    requires IsDeck(deck, n) && 0 <= v < n
    ensures multiset(dealt + deck)[v] == multiset(dealt)[v] + 1
  {
    PartOfDeck(deck, n, |deck|, v);
    DeckSize(deck, n);
    assert deck[..|deck|] == deck;
  }

  /** After q whole decks every provider was dealt exactly q times. */
  lemma {:induction false} WholeDecks(s: State, n: nat, shuffles: seq<seq<int>>, q: nat, v: int)
    requires Fits(s) && n > 0 && AllDecks(n, shuffles) && NeedsReshuffle(s, n)
    requires |shuffles| == q * n && 0 <= v < n
    ensures multiset(Deals(s, n, shuffles))[v] == q
  {
    hide IsDeck, Fits, NeedsReshuffle, After, Deals;
    if q == 0 {
      assert shuffles == [];
      NoDeals(s, n);
    } else {
      Unfold(q, n);
      LastDeck(s, n, shuffles, (q - 1) * n, q - 1);
      WholeDecks(s, n, shuffles[..(q - 1) * n], q - 1, v);
      DeckAdds(Deals(s, n, shuffles[..(q - 1) * n]), shuffles[(q - 1) * n], n, v);
    }
  }

  lemma LastDeck(s: State, n: nat, shuffles: seq<seq<int>>, start: nat, q: nat)
    requires Fits(s) && n > 0 && AllDecks(n, shuffles) && NeedsReshuffle(s, n)
    requires start == q * n && |shuffles| == start + n
    ensures Deals(s, n, shuffles) == Deals(s, n, shuffles[..start]) + shuffles[start]
  {
    hide IsDeck, Fits, NeedsReshuffle, After, Deals;
    DealsByDeck(s, n, shuffles, q, n);
    assert shuffles[start][..n] == shuffles[start];
  }

  /** Everyone gets one before anyone gets seconds: from a reshuffle on, with a constant number of
      healthy providers, the numbers of deals of any two providers differ by at most one. */
  lemma FairDeal(s: State, n: nat, shuffles: seq<seq<int>>, v: int, w: int)
    requires Fits(s) && n > 0 && AllDecks(n, shuffles) && NeedsReshuffle(s, n)
    requires 0 <= v < n && 0 <= w < n
    ensures multiset(Deals(s, n, shuffles))[v] <= multiset(Deals(s, n, shuffles))[w] + 1
  {
    hide IsDeck, Fits, Deals, NeedsReshuffle;
    if shuffles == [] {
      NoDeals(s, n);
    } else {
      var q, r := (|shuffles| - 1) / n, (|shuffles| - 1) % n + 1;
      FairAfter(s, n, shuffles, q, r, v);
      FairAfter(s, n, shuffles, q, r, w);
    }
  }

  lemma FairAfter(s: State, n: nat, shuffles: seq<seq<int>>, q: nat, r: nat, v: int)
    requires Fits(s) && n > 0 && AllDecks(n, shuffles) && NeedsReshuffle(s, n)
    requires |shuffles| == q * n + r && 1 <= r <= n && 0 <= v < n
    ensures q <= multiset(Deals(s, n, shuffles))[v] <= q + 1
  {
    hide IsDeck, Fits, Deals, NeedsReshuffle, After;
    DealsByDeck(s, n, shuffles, q, r);
    WholeDecks(s, n, shuffles[..q * n], q, v);
    PartOfDeck(shuffles[q * n], n, r, v);
  }

  // ----- The router ---------------------------------------------------------------------------------

  class ShuffleRouter {
    var shuffledOrder: array<int>
    var position: nat
    var lastLen: nat

    ghost function Value(): State
      reads this, shuffledOrder
    {
      State(shuffledOrder[..], position, lastLen)
    }

    ghost predicate Valid()
      reads this, shuffledOrder
    {
      Fits(Value())
    }

    constructor ()
      ensures Valid() && fresh(shuffledOrder)
      ensures Value() == State([], 0, 0)
    {
      shuffledOrder := new int[0];
      position, lastLen := 0, 0;
      new;
      assert shuffledOrder[..] == Identity(0);
    }

    /** Deals the next healthy provider. */
    method Select(infos: seq<ProviderInfo>, rand: nat -> nat) returns (r: Selection)
      requires Valid() && InBounds(rand)
      modifies this, shuffledOrder
      ensures Valid() && (shuffledOrder == old(shuffledOrder) || fresh(shuffledOrder))
      ensures infos == [] ==> r == NoProviders && Value() == old(Value())
      ensures infos != [] && FilterHealthy(infos) == [] ==> r == AllProvidersUnhealthy && Value() == old(Value())
      ensures var healthy := FilterHealthy(infos);
              healthy != [] ==>
                var deck := Deck(|healthy|, rand);
                && Value() == Next(old(Value()), |healthy|, deck)
                && r == Selected(healthy[Dealt(old(Value()), |healthy|, deck)])
    {
      hide FilterHealthy, IsDeck, Shuffled;
      if |infos| == 0 {
        assert FilterHealthy([]) == [] by {
          NoneHealthy();
        }
        return NoProviders;
      }
      var healthy := FilterHealthy(infos);
      if |healthy| == 0 {
        return AllProvidersUnhealthy;
      }
      var n := |healthy|;
      var needsReshuffle := shuffledOrder.Length == 0 || n != lastLen || position >= shuffledOrder.Length;
      ghost var before := Value();
      if needsReshuffle {
        Reshuffle(n, rand);
      }
      ghost var deck := Deck(n, rand);
      assert Value() == Prepared(before, n, deck);
      PreparedFits(before, n, deck);
      NextFits(before, n, deck);
      DeckInRange(shuffledOrder[..], n, position);
      var idx := shuffledOrder[position];
      position := position + 1;
      r := Selected(healthy[idx]);
    }

    method Reshuffle(numProviders: nat, rand: nat -> nat)
      requires InBounds(rand)
      modifies this
      ensures fresh(shuffledOrder) && shuffledOrder[..] == Deck(numProviders, rand)
      ensures position == 0 && lastLen == numProviders
    {
      hide Shuffled;
      shuffledOrder := new int[numProviders](i => i);
      assert shuffledOrder[..] == Identity(numProviders);
      FisherYates(shuffledOrder, rand);
      position := 0;
      lastLen := numProviders;
    }
  }

  /** Swaps every element, from the last, with one at or before it. */
  method FisherYates(a: array<int>, rand: nat -> nat)
    requires InBounds(rand)
    modifies a
    ensures a[..] == Shuffled(old(a[..]), rand, a.Length)
  {
    hide Shuffled, Swap;
    var i := a.Length - 1;
    while i > 0
      invariant -1 <= i < a.Length
      invariant i >= 0 ==> Shuffled(a[..], rand, i + 1) == Shuffled(old(a[..]), rand, a.Length)
      invariant i < 0 ==> a[..] == Shuffled(old(a[..]), rand, a.Length)
    {
      ShuffledStep(a[..], rand, i + 1);
      var j := rand(i + 1);
      ghost var before := a[..];
      a[i], a[j] := a[j], a[i];
      Swapped(a, before, i, j);
      i := i - 1;
    }
    if i == 0 {
      ShuffledStep(a[..], rand, 1);
    }
  }

  lemma Swapped(a: array<int>, before: seq<int>, i: nat, j: nat)
    requires |before| == a.Length && i < a.Length && j < a.Length
    requires a[i] == before[j] && a[j] == before[i]
    requires forall k :: 0 <= k < a.Length && k != i && k != j ==> a[k] == before[k]
    ensures a[..] == Swap(before, i, j)
  {
  }
}
