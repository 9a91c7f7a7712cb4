/** The global concurrency limiter: every interleaving of its atomic operations. */
module Limiter {

  // ----- The interleaved machine ----------------------------------------------------------

  /** Where a goroutine stands: before TryAcquire, about to add without a limit, about to load
      the counter, about to compare and swap, or holding a slot it has yet to release. */
  datatype Pc = Idle | Unlimited | Looping(limit: int) | Loaded(limit: int, seen: int) | Holding

  datatype State = State(limit: int, current: int, threads: seq<Pc>)

  /** One atomic operation: somebody stores a limit, or a goroutine does its next one. */
  datatype Step = Store(limit: int) | Move(thread: nat)

  ghost predicate InRange(steps: seq<Step>, n: nat) {
    forall i :: 0 <= i < |steps| && steps[i].Move? ==> steps[i].thread < n
  }

  function Next(s: State, step: Step): (r: State)
    requires step.Move? ==> step.thread < |s.threads|
    ensures |r.threads| == |s.threads|
  {
    match step
    case Store(limit) => s.(limit := limit)
    case Move(t) =>
      match s.threads[t]
      case Idle =>
        s.(threads := s.threads[t := if s.limit <= 0 then Unlimited else Looping(s.limit)])
      case Unlimited =>
        s.(current := s.current + 1, threads := s.threads[t := Holding])
      case Looping(limit) =>
        s.(threads := s.threads[t := if s.current >= limit then Idle else Loaded(limit, s.current)])
      case Loaded(limit, seen) =>
        if s.current == seen then s.(current := seen + 1, threads := s.threads[t := Holding])
        else s.(threads := s.threads[t := Looping(limit)])
      case Holding =>
        s.(current := s.current - 1, threads := s.threads[t := Idle])
  }

  function Run(s: State, steps: seq<Step>): (r: State)
    requires InRange(steps, |s.threads|)
    ensures |r.threads| == |s.threads|
  {
    if steps == [] then s else Next(Run(s, steps[..|steps| - 1]), steps[|steps| - 1])
  }

  function Initial(n: nat, limit: int): State {
    State(limit, 0, seq(n, _ => Idle))
  }

  // ----- Counting goroutines --------------------------------------------------------------

  function Holders(threads: seq<Pc>): nat {
    if threads == [] then 0
    else Holders(threads[..|threads| - 1]) + if threads[|threads| - 1].Holding? then 1 else 0
  }

  /** Goroutines whose compare-and-swap is bound to fail as things stand. */
  function Stale(threads: seq<Pc>, current: int): (n: nat)
    ensures n <= |threads|
  {
    if threads == [] then 0
    else Stale(threads[..|threads| - 1], current) + if IsStale(threads[|threads| - 1], current) then 1 else 0
  }

  predicate IsStale(pc: Pc, current: int) {
    pc.Loaded? && pc.seen != current
  }

  lemma {:induction false} HoldersUpdate(threads: seq<Pc>, t: nat, pc: Pc)
    requires t < |threads|
    ensures Holders(threads[t := pc])
         == Holders(threads) - (if threads[t].Holding? then 1 else 0) + if pc.Holding? then 1 else 0
  {
    var n := |threads| - 1;
    if t == n {
      assert threads[t := pc][..n] == threads[..n];
    } else {
      assert threads[t := pc][..n] == threads[..n][t := pc];
      HoldersUpdate(threads[..n], t, pc);
    }
  }

  lemma {:induction false} StaleUpdate(threads: seq<Pc>, t: nat, pc: Pc, current: int)
    requires t < |threads|
    ensures Stale(threads[t := pc], current)
         == Stale(threads, current) - (if IsStale(threads[t], current) then 1 else 0)
          + if IsStale(pc, current) then 1 else 0
  {
    var n := |threads| - 1;
    if t == n {
      assert threads[t := pc][..n] == threads[..n];
    } else {
      assert threads[t := pc][..n] == threads[..n][t := pc];
      StaleUpdate(threads[..n], t, pc, current);
    }
  }

  /** A goroutine that is not waiting to swap leaves room for at most the others. */
  lemma StaleOthers(threads: seq<Pc>, t: nat, current: int)
    requires t < |threads| && !threads[t].Loaded?
    ensures Stale(threads, current) <= |threads| - 1
  {
    StaleUpdate(threads, t, Loaded(0, current + 1), current);
  }

  // ----- Every reachable state -------------------------------------------------------------

  ghost predicate Accounted(s: State) {
    && s.current == Holders(s.threads)
    && forall t :: 0 <= t < |s.threads| && s.threads[t].Loaded? ==> s.threads[t].seen < s.threads[t].limit
  }

  lemma {:induction false} NoHolders(threads: seq<Pc>)
    requires forall t :: 0 <= t < |threads| ==> threads[t] == Idle
    ensures Holders(threads) == 0
    ensures forall c :: Stale(threads, c) == 0
  {
    if threads != [] {
      NoHolders(threads[..|threads| - 1]);
    }
  }

  lemma NextAccounted(s: State, step: Step)
    requires step.Move? ==> step.thread < |s.threads|
    requires Accounted(s)
    ensures Accounted(Next(s, step))
  {
    hide Holders;
    if step.Move? {
      var t := step.thread;
      HoldersUpdate(s.threads, t, Next(s, step).threads[t]);
    }
  }

  /** The counter is the number of slots held, so it is never negative. */
  lemma {:induction false} CounterIsHolders(n: nat, limit: int, steps: seq<Step>)
    requires InRange(steps, n)
    ensures Accounted(Run(Initial(n, limit), steps))
    ensures Run(Initial(n, limit), steps).current >= 0
  {
    if steps == [] {
      NoHolders(Initial(n, limit).threads);
    } else {
      var before := steps[..|steps| - 1];
      CounterIsHolders(n, limit, before);
      NextAccounted(Run(Initial(n, limit), before), steps[|steps| - 1]);
    }
  }

  /** An acquire that read limit L is refused exactly when L slots or more are held at its load
      of the counter, and never succeeds by moving the counter above L, whatever limits were
      stored in the meantime. */
  lemma LimitReadIsKept(n: nat, limit: int, steps: seq<Step>, t: nat)
    requires t < n && InRange(steps, n)
    ensures var s := Run(Initial(n, limit), steps);
            var s' := Next(s, Move(t));
            && (s.threads[t].Looping? ==> (s'.threads[t] == Idle <==> Holders(s.threads) >= s.threads[t].limit))
            && (s.threads[t].Loaded? && s'.threads[t] == Holding ==> s'.current <= s.threads[t].limit)
  {
    hide Holders, Run;
    CounterIsHolders(n, limit, steps);
  }

  /** A slot that is released is one slot less, held by nobody. */
  lemma ReleaseFrees(n: nat, limit: int, steps: seq<Step>, t: nat)
    requires t < n && InRange(steps, n) && Run(Initial(n, limit), steps).threads[t] == Holding
    ensures var s := Run(Initial(n, limit), steps);
            var s' := Next(s, Move(t));
            s'.threads[t] == Idle && Holders(s'.threads) == Holders(s.threads) - 1 && s'.current == s.current - 1
  {
    hide Holders, Run;
    CounterIsHolders(n, limit, steps);
    var s := Run(Initial(n, limit), steps);
    NextAccounted(s, Move(t));
  }

  // ----- The largest limit bounds the counter -------------------------------------------------

  /** The largest limit stored so far. */
  function Largest(limit: int, steps: seq<Step>): (l: int)
    ensures l >= limit
  {
    if steps == [] then limit
    else
      var before := Largest(limit, steps[..|steps| - 1]);
      match steps[|steps| - 1]
      case Store(x) => if x > before then x else before
      case Move(_) => before
  }

  ghost predicate AllPositive(steps: seq<Step>) {
    forall i :: 0 <= i < |steps| && steps[i].Store? ==> steps[i].limit > 0
  }

  ghost predicate Within(s: State, bound: int) {
    && 0 < s.limit <= bound && s.current <= bound
    && forall t :: 0 <= t < |s.threads| ==>
         match s.threads[t]
         case Unlimited => false
         case Looping(limit) => limit <= bound
         case Loaded(limit, seen) => seen < limit <= bound
         case _ => true
  }

  lemma NextWithin(s: State, step: Step, bound: int, bound': int)
    requires step.Move? ==> step.thread < |s.threads|
    requires Within(s, bound) && bound <= bound'
    requires step.Store? ==> 0 < step.limit <= bound'
    ensures Within(Next(s, step), bound')
  {
    if step.Move? {
      var t := step.thread;
      var s' := Next(s, step);
      assert forall u :: 0 <= u < |s.threads| && u != t ==> s'.threads[u] == s.threads[u];
    }
  }

  lemma WithinInitial(n: nat, limit: int)
    requires limit > 0
    ensures Within(Initial(n, limit), limit)
  {
  }

  lemma WithinBounds(s: State, bound: int)
    requires Within(s, bound)
    ensures s.current <= bound
  {
  }

  /** As long as every limit stored is positive, the number of slots held never exceeds the
      largest limit stored so far. */
  lemma {:induction false} NeverAboveLargestLimit(n: nat, limit: int, steps: seq<Step>)
    requires InRange(steps, n) && limit > 0 && AllPositive(steps)
    ensures Within(Run(Initial(n, limit), steps), Largest(limit, steps))
    ensures Holders(Run(Initial(n, limit), steps).threads) <= Largest(limit, steps)
  {
    hide Within, Holders;
    if steps == [] {
      WithinInitial(n, limit);
    } else {
      var last := |steps| - 1;
      NeverAboveLargestLimit(n, limit, steps[..last]);
      NextWithin(Run(Initial(n, limit), steps[..last]), steps[last], Largest(limit, steps[..last]), Largest(limit, steps));
    }
    CounterIsHolders(n, limit, steps);
    WithinBounds(Run(Initial(n, limit), steps), Largest(limit, steps));
  }

  lemma RunNone(s: State)
    ensures InRange([], |s.threads|) && Run(s, []) == s
  {
  }

  lemma RunOne(s: State, steps: seq<Step>, step: Step)
    requires InRange(steps, |s.threads|) && (step.Move? ==> step.thread < |s.threads|)
    ensures InRange(steps + [step], |s.threads|)
    ensures Run(s, steps + [step]) == Next(Run(s, steps), step)
  {
    hide Next;
    assert (steps + [step])[..|steps|] == steps;
  }

  // ----- When the current limit bounds the counter -------------------------------------------------

  /** The limits stored by a run, in order. */
  function StoresOf(steps: seq<Step>): seq<int> {
    if steps == [] then []
    else
      var before := StoresOf(steps[..|steps| - 1]);
      if steps[|steps| - 1].Store? then before + [steps[|steps| - 1].limit] else before
  }

  /** The last limit, and the largest, of a limiter that is given these one after the other. */
  function Last(limit: int, stores: seq<int>): int {
    if stores == [] then limit else stores[|stores| - 1]
  }

  function Peak(limit: int, stores: seq<int>): (p: int)
    ensures p >= limit && forall i :: 0 <= i < |stores| ==> p >= stores[i]
  {
    if stores == [] then limit
    else
      var before := Peak(limit, stores[..|stores| - 1]);
      if stores[|stores| - 1] > before then stores[|stores| - 1] else before
  }

  lemma {:induction false} LimitIsLast(n: nat, limit: int, steps: seq<Step>)
    requires InRange(steps, n)
    ensures Run(Initial(n, limit), steps).limit == Last(limit, StoresOf(steps))
    ensures Largest(limit, steps) == Peak(limit, StoresOf(steps))
  {
    if steps != [] {
      var front := steps[..|steps| - 1];
      LimitIsLast(n, limit, front);
      var before := StoresOf(front);
      if steps[|steps| - 1].Store? {
        assert StoresOf(steps)[..|before|] == before;
      }
    }
  }

  lemma {:induction false} StoresPositive(steps: seq<Step>)
    requires forall i :: 0 <= i < |StoresOf(steps)| ==> StoresOf(steps)[i] > 0
    ensures AllPositive(steps)
  {
    if steps != [] {
      var front, last := steps[..|steps| - 1], steps[|steps| - 1];
      var before := StoresOf(front);
      assert forall i :: 0 <= i < |before| ==> before[i] == StoresOf(steps)[i];
      StoresPositive(front);
      if last.Store? {
        assert StoresOf(steps)[|before|] == last.limit;
      }
    }
  }

  /** The first `k` of `n` goroutines hold a slot, the others are idle. */
  function Held(n: nat, k: nat): seq<Pc> {
    seq(n, i => if i < k then Holding else Idle)
  }

  /** `k` whole acquires, one goroutine after the other. */
  function Acquiring(k: nat): seq<Step> {
    if k == 0 then [] else Acquiring(k - 1) + [Move(k - 1)] + [Move(k - 1)] + [Move(k - 1)]
  }

  lemma OneAcquire(s: State, steps: seq<Step>, n: nat, k: nat, limit: int)
    requires k < n && k < limit && |s.threads| == n && InRange(steps, n)
    requires Run(s, steps) == State(limit, k, Held(n, k))
    ensures var all := steps + [Move(k)] + [Move(k)] + [Move(k)];
            InRange(all, n) && Run(s, all) == State(limit, k + 1, Held(n, k + 1))
  {
    hide Run, InRange;
    var a := steps + [Move(k)];
    RunOne(s, steps, Move(k));
    assert Run(s, a) == State(limit, k, Held(n, k)[k := Looping(limit)]);
    RunOne(s, a, Move(k));
    assert Held(n, k)[k := Looping(limit)][k := Loaded(limit, k)] == Held(n, k)[k := Loaded(limit, k)];
    assert Run(s, a + [Move(k)]) == State(limit, k, Held(n, k)[k := Loaded(limit, k)]);
    RunOne(s, a + [Move(k)], Move(k));
    assert Held(n, k)[k := Loaded(limit, k)][k := Holding] == Held(n, k + 1);
  }

  lemma {:induction false} AcquiresRun(s: State, steps: seq<Step>, n: nat, k: nat, limit: int)
    requires k <= n && k <= limit && |s.threads| == n && InRange(steps, n)
    requires Run(s, steps) == State(limit, 0, Held(n, 0))
    ensures InRange(steps + Acquiring(k), n)
    ensures Run(s, steps + Acquiring(k)) == State(limit, k, Held(n, k))
    ensures StoresOf(steps + Acquiring(k)) == StoresOf(steps)
  {
    hide Run, StoresOf, InRange, Held;
    if k == 0 {
      assert steps + [] == steps;
    } else {
      AcquiresRun(s, steps, n, k - 1, limit);
      var before := steps + Acquiring(k - 1);
      OneAcquire(s, before, n, k - 1, limit);
      assert steps + Acquiring(k) == before + [Move(k - 1)] + [Move(k - 1)] + [Move(k - 1)];
      NoStore(before, k - 1);
      NoStore(before + [Move(k - 1)], k - 1);
      NoStore(before + [Move(k - 1)] + [Move(k - 1)], k - 1);
    }
  }

  lemma NoStore(steps: seq<Step>, t: nat)
    ensures StoresOf(steps + [Move(t)]) == StoresOf(steps)
  {
    assert (steps + [Move(t)])[..|steps|] == steps;
  }

  lemma OneStore(steps: seq<Step>, limit: int)
    ensures StoresOf(steps + [Store(limit)]) == StoresOf(steps) + [limit]
  {
    assert (steps + [Store(limit)])[..|steps|] == steps;
  }

  /** Stores alone change nothing but the limit. */
  lemma {:induction false} StoresRun(s: State, steps: seq<Step>, stores: seq<int>) returns (all: seq<Step>)
    requires InRange(steps, |s.threads|)
    ensures InRange(all, |s.threads|)
    ensures Run(s, all) == Run(s, steps).(limit := Last(Run(s, steps).limit, stores))
    ensures StoresOf(all) == StoresOf(steps) + stores
  {
    hide Run, StoresOf, InRange;
    if stores == [] {
      all := steps;
      assert StoresOf(steps) + [] == StoresOf(steps);
    } else {
      var front, last := stores[..|stores| - 1], stores[|stores| - 1];
      var before := StoresRun(s, steps, front);
      all := before + [Store(last)];
      RunOne(s, before, Store(last));
      OneStore(before, last);
      assert StoresOf(steps) + front + [last] == StoresOf(steps) + stores;
    }
  }

  /** Where the largest limit stands: the stores up to it, and those behind it. */
  lemma {:induction false} PeakAt(limit: int, stores: seq<int>) returns (m: nat)
    ensures m <= |stores| && Last(limit, stores[..m]) == Peak(limit, stores)
  {
    if stores == [] {
      m := 0;
    } else {
      var front := stores[..|stores| - 1];
      m := PeakAt(limit, front);
      assert front[..m] == stores[..m];
      if stores[|stores| - 1] > Peak(limit, front) {
        m := |stores|;
        assert stores[..m] == stores;
      }
    }
  }

  /** The bound is reached: whatever limits are stored, in some interleaving as many slots are held
      at the end as there are goroutines, or as the largest of the limits allows. */
  lemma FillsUp(n: nat, limit: int, stores: seq<int>) returns (steps: seq<Step>)
    requires limit > 0 && forall i :: 0 <= i < |stores| ==> stores[i] > 0
    ensures InRange(steps, n) && StoresOf(steps) == stores
    ensures Holders(Run(Initial(n, limit), steps).threads) == if n <= Peak(limit, stores) then n else Peak(limit, stores)
  {
    Empty(n, limit);
    hide *;
    var s := Initial(n, limit);
    var k := if n <= Peak(limit, stores) then n else Peak(limit, stores);
    var m := PeakAt(limit, stores);
    var first := StoresRun(s, [], stores[..m]);
    AcquiresRun(s, first, n, k, Peak(limit, stores));
    var middle := first + Acquiring(k);
    steps := StoresRun(s, middle, stores[m..]);
    assert [] + stores[..m] + stores[m..] == stores;
    CounterIsCounted(n, limit, steps);
  }

  /** Before anything has happened. */
  lemma Empty(n: nat, limit: int)
    ensures var s := Initial(n, limit);
            && |s.threads| == n && InRange([], n) && StoresOf([]) == []
            && Run(s, []) == s == State(limit, 0, Held(n, 0))
  {
  }

  lemma CounterIsCounted(n: nat, limit: int, steps: seq<Step>)
    requires InRange(steps, n)
    ensures Holders(Run(Initial(n, limit), steps).threads) == Run(Initial(n, limit), steps).current
  {
    hide Holders, Run;
    CounterIsHolders(n, limit, steps);
  }

  lemma {:induction false} HoldersAtMost(threads: seq<Pc>)
    ensures Holders(threads) <= |threads|
  {
    if threads != [] {
      HoldersAtMost(threads[..|threads| - 1]);
    }
  }

  /** Every interleaving of these stores and any acquires and releases ends with no more slots held
      than the limit then in force. */
  ghost predicate CurrentLimitBinds(n: nat, limit: int, stores: seq<int>) {
    forall steps {:trigger StoresOf(steps)} :: InRange(steps, n) && StoresOf(steps) == stores ==>
      Holders(Run(Initial(n, limit), steps).threads) <= Run(Initial(n, limit), steps).limit
  }

  /** Lowering a limit does not bind the slots already taken, nor an acquire that already read the
      old limit. So the current limit is a bound exactly when no earlier limit was larger, or there
      are no more goroutines than it allows. */
  lemma CurrentLimitBindsIff(n: nat, limit: int, stores: seq<int>)
    requires limit > 0 && forall i :: 0 <= i < |stores| ==> stores[i] > 0
    ensures CurrentLimitBinds(n, limit, stores) <==>
            Peak(limit, stores) <= Last(limit, stores) || n <= Last(limit, stores)
  {
    InitialThreads(n, limit);
    hide Run, Holders, StoresOf, InRange, Last, Peak, Initial;
    if CurrentLimitBinds(n, limit, stores) {
      var steps := FillsUp(n, limit, stores);
      LimitIsLast(n, limit, steps);
    }
    if Peak(limit, stores) <= Last(limit, stores) || n <= Last(limit, stores) {
      forall steps | InRange(steps, n) && StoresOf(steps) == stores
        ensures Holders(Run(Initial(n, limit), steps).threads) <= Run(Initial(n, limit), steps).limit
      {
        LimitIsLast(n, limit, steps);
        StoresPositive(steps);
        NeverAboveLargestLimit(n, limit, steps);
        HoldersAtMost(Run(Initial(n, limit), steps).threads);
      }
    }
  }

  lemma InitialThreads(n: nat, limit: int)
    ensures |Initial(n, limit).threads| == n
  {
  }

  /** The smallest instance: two slots held under the limit 1, the second taken after it was stored. */
  lemma LoweringIsNotRetroactive()
    ensures exists steps ::
              && InRange(steps, 2) && AllPositive(steps)
              && Run(Initial(2, 2), steps).limit == 1 && Run(Initial(2, 2), steps).current == 2
  {
    hide Run, InRange;
    var s := Initial(2, 2);
    assert s.threads == [Idle, Idle];
    RunNone(s);
    var a := [] + [Move(0)];
    RunOne(s, [], Move(0));
    assert Run(s, a) == State(2, 0, [Looping(2), Idle]);
    var b := a + [Move(0)];
    RunOne(s, a, Move(0));
    assert Run(s, b) == State(2, 0, [Loaded(2, 0), Idle]);
    var c := b + [Move(0)];
    RunOne(s, b, Move(0));
    assert Run(s, c) == State(2, 1, [Holding, Idle]);
    var d := c + [Move(1)];
    RunOne(s, c, Move(1));
    assert Run(s, d) == State(2, 1, [Holding, Looping(2)]);
    var e := d + [Store(1)];
    RunOne(s, d, Store(1));
    var f := e + [Move(1)];
    RunOne(s, e, Move(1));
    assert Run(s, f) == State(1, 1, [Holding, Loaded(2, 1)]);
    RunOne(s, f, Move(1));
    assert Run(s, f + [Move(1)]) == State(1, 2, [Holding, Holding]);
  }

  // ----- Lock freedom -----------------------------------------------------------------------

  function FailedSwap(s: State, step: Step): nat
    requires step.Move? ==> step.thread < |s.threads|
  {
    if step.Move? && IsStale(s.threads[step.thread], s.current) then 1 else 0
  }

  /** Compare-and-swaps that failed. */
  function Failures(s: State, steps: seq<Step>): nat
    requires InRange(steps, |s.threads|)
  {
    if steps == [] then 0
    else
      Failures(s, steps[..|steps| - 1]) + FailedSwap(Run(s, steps[..|steps| - 1]), steps[|steps| - 1])
  }

  /** Steps that changed the counter: slots taken and slots released. */
  function Changes(s: State, steps: seq<Step>): nat
    requires InRange(steps, |s.threads|)
  {
    if steps == [] then 0
    else
      var before := Run(s, steps[..|steps| - 1]);
      Changes(s, steps[..|steps| - 1])
      + if Next(before, steps[|steps| - 1]).current != before.current then 1 else 0
  }

  lemma StepPays(s: State, step: Step)
    requires |s.threads| > 0 && (step.Move? ==> step.thread < |s.threads|)
    ensures var s' := Next(s, step);
            FailedSwap(s, step) + Stale(s'.threads, s'.current)
            <= Stale(s.threads, s.current) + if s'.current == s.current then 0 else |s.threads| - 1
  {
    hide Stale;
    var s' := Next(s, step);
    if s'.current != s.current {
      StaleOthers(s'.threads, step.thread, s'.current);
    } else if step.Move? {
      StaleUpdate(s.threads, step.thread, s'.threads[step.thread], s.current);
    }
  }

  lemma OneMore(a: int, n: int)
    ensures n * (a + 1) == n * a + n
  {
  }

  /** Retries are paid for by progress: a swap fails only because another goroutine took or
      released a slot, and one such change defeats at most every other goroutine once. */
  lemma {:induction false} LockFree(n: nat, limit: int, steps: seq<Step>)
    requires n > 0 && InRange(steps, n)
    ensures var s := Run(Initial(n, limit), steps);
            Failures(Initial(n, limit), steps) + Stale(s.threads, s.current)
            <= (n - 1) * Changes(Initial(n, limit), steps)
  {
    hide Stale, Next, IsStale;
    var s0 := Initial(n, limit);
    if steps == [] {
      NoHolders(s0.threads);
    } else {
      var before := steps[..|steps| - 1];
      LockFree(n, limit, before);
      StepPays(Run(s0, before), steps[|steps| - 1]);
      OneMore(Changes(s0, before), n - 1);
    }
  }

  // ----- One acquire amid the others ----------------------------------------------------------

  lemma {:induction false} RunAppend(s: State, a: seq<Step>, b: seq<Step>)
    requires InRange(a, |s.threads|) && InRange(b, |s.threads|)
    ensures InRange(a + b, |s.threads|) && Run(s, a + b) == Run(Run(s, a), b)
  {
    if b == [] {
      assert a + b == a;
    } else {
      var last := |b| - 1;
      RunAppend(s, a, b[..last]);
      assert (a + b)[..|a + b| - 1] == a + b[..last];
    }
  }

  ghost predicate Spares(steps: seq<Step>, me: nat) {
    forall i :: 0 <= i < |steps| ==> steps[i] != Move(me)
  }

  lemma {:induction false} RunSpares(s: State, steps: seq<Step>, me: nat)
    requires InRange(steps, |s.threads|) && me < |s.threads| && Spares(steps, me)
    ensures Run(s, steps).threads[me] == s.threads[me]
  {
    if steps != [] {
      RunSpares(s, steps[..|steps| - 1], me);
    }
  }

  /** A run of the machine whose last step is an operation of `me` in the midst of an acquire. */
  ghost predicate Ends(s: State, trace: seq<Step>, me: nat)
    requires me < |s.threads|
  {
    && trace != [] && trace[|trace| - 1] == Move(me)
    && InRange(trace, |s.threads|)
    && !Run(s, trace[..|trace| - 1]).threads[me].Idle?
    && !Run(s, trace[..|trace| - 1]).threads[me].Holding?
  }

  lemma EndsAfter(s: State, before: seq<Step>, steps: seq<Step>, me: nat)
    requires me < |s.threads| && InRange(before, |s.threads|) && Ends(Run(s, before), steps, me)
    ensures Ends(s, before + steps, me) && Run(s, before + steps) == Run(Run(s, before), steps)
    ensures InRange(before + steps, |s.threads|)
  {
    hide Next;
    RunAppend(s, before, steps);
    RunAppend(s, before, steps[..|steps| - 1]);
    assert (before + steps)[..|before + steps| - 1] == before + steps[..|steps| - 1];
  }

  /** After `trace`, a batch of the others and then one operation of `me`. */
  lemma Amid(s: State, trace: seq<Step>, batch: seq<Step>, me: nat)
    requires me < |s.threads| && InRange(trace, |s.threads|) && InRange(batch, |s.threads|) && Spares(batch, me)
    ensures InRange(trace + batch, |s.threads|) && InRange(trace + batch + [Move(me)], |s.threads|)
    ensures Run(s, trace + batch) == Run(Run(s, trace), batch)
    ensures Run(s, trace + batch).threads[me] == Run(s, trace).threads[me]
    ensures Run(s, trace + batch + [Move(me)]) == Next(Run(s, trace + batch), Move(me))
    ensures (trace + batch + [Move(me)])[..|trace + batch|] == trace + batch
  {
    hide Next;
    RunAppend(s, trace, batch);
    RunSpares(Run(s, trace), batch, me);
    var all := trace + batch + [Move(me)];
    assert all[..|all| - 1] == trace + batch;
  }

  // ----- No limit ---------------------------------------------------------------------------

  /** A goroutine that compares against a limit compares against a positive one. */
  ghost predicate OnlyPositive(pc: Pc) {
    (pc.Looping? || pc.Loaded?) ==> pc.limit > 0
  }

  lemma {:induction false} LimitsReadArePositive(n: nat, limit: int, steps: seq<Step>)
    requires InRange(steps, n)
    ensures forall t :: 0 <= t < n ==> OnlyPositive(Run(Initial(n, limit), steps).threads[t])
  {
    if steps != [] {
      LimitsReadArePositive(n, limit, steps[..|steps| - 1]);
    }
  }

  /** A limit of 0 or less admits everybody: a goroutine that starts to acquire while it is in force
      has its slot after its own next operation, whatever the counter says and whatever the others
      store, take and release in between. */
  lemma NoLimitAdmits(n: nat, limit: int, steps: seq<Step>, t: nat, between: seq<Step>)
    requires t < n && InRange(steps, n) && InRange(between, n) && Spares(between, t)
    requires var s := Run(Initial(n, limit), steps); s.threads[t] == Idle && s.limit <= 0
    ensures InRange(steps + [Move(t)] + between + [Move(t)], n)
    ensures Run(Initial(n, limit), steps + [Move(t)] + between + [Move(t)]).threads[t] == Holding
  {
    hide Run, InRange;
    var s := Initial(n, limit);
    RunOne(s, steps, Move(t));
    Amid(s, steps + [Move(t)], between, t);
  }

  // ----- The limiter -----------------------------------------------------------------------

  /** What the others do in their `k`-th turn. */
  function Turn(others: seq<seq<Step>>, k: nat): (batch: seq<Step>)
    ensures if k < |others| then batch == others[k] && batch in others else batch == []
  {
    if k < |others| then others[k] else []
  }

  class ConcurrencyLimiter {
    var limit: int
    var current: int
    // Where every goroutine stands. It lets the others run between two operations of one.
    var threads: seq<Pc>

    function Abstract(): State
      reads this
    {
      State(limit, current, threads)
    }

    constructor (maxLimit: int, n: nat)
      ensures Abstract() == Initial(n, maxLimit)
    {
      limit, current, threads := maxLimit, 0, seq(n, _ => Idle);
    }

    method SetLimit(maxLimit: int)
      modifies this`limit
      ensures Abstract() == Next(old(Abstract()), Store(maxLimit))
    {
      limit := maxLimit;
    }

    /** The scheduler lets the other goroutines run. */
    method Yield(batch: seq<Step>)
      requires InRange(batch, |threads|)
      modifies this
      ensures Abstract() == Run(old(Abstract()), batch)
    {
      var i := 0;
      while i < |batch|
        invariant 0 <= i <= |batch| && |threads| == old(|threads|)
        invariant Abstract() == Run(old(Abstract()), batch[..i])
      {
        assert batch[..i + 1][..i] == batch[..i];
        var s := Next(Abstract(), batch[i]);
        limit, current, threads := s.limit, s.current, s.threads;
        i := i + 1;
      }
      assert batch[..i] == batch;
    }

    /** One round of the loop: load the counter, and swap it unless the limit is reached. The
        others run before each of the two. A swap fails only if they do. */
    method TrySwap(me: nat, limit: int, first: seq<Step>, second: seq<Step>)
      returns (done: bool, ok: bool, ghost steps: seq<Step>)
      requires me < |threads| && threads[me] == Looping(limit)
      requires InRange(first, |threads|) && Spares(first, me) && InRange(second, |threads|) && Spares(second, me)
      modifies this
      ensures |threads| == old(|threads|)
      ensures Ends(old(Abstract()), steps, me) && Abstract() == Run(old(Abstract()), steps)
      ensures threads[me] == if !done then Looping(limit) else if ok then Holding else Idle
      ensures second == [] ==> done
      ensures first == [] && second == [] ==> (ok <==> old(current) < limit)
    {
      hide Run, InRange;
      ghost var s0 := Abstract();
      RunNone(s0);
      Yield(first);
      Amid(s0, [], first, me);
      steps := [] + first + [Move(me)];
      var seen := current;
      if seen >= limit {
        threads := threads[me := Idle];
        return true, false, steps;
      }
      threads := threads[me := Loaded(limit, seen)];
      RunNone(Abstract());
      Yield(second);
      Amid(s0, steps, second, me);
      steps := steps + second + [Move(me)];
      if current == seen {
        current := seen + 1;
        threads := threads[me := Holding];
        return true, true, steps;
      }
      threads := threads[me := Looping(limit)];
      return false, false, steps;
    }

    /** An acquire interrupted before each of its atomic operations by a batch of steps of the
        others. It is a run of the machine, and it ends: a swap fails only after a batch. */
    method TryAcquire(me: nat, others: seq<seq<Step>>) returns (ok: bool, ghost trace: seq<Step>)
      requires me < |threads| && threads[me] == Idle
      requires forall b :: b in others ==> InRange(b, |threads|) && Spares(b, me)
      modifies this
      ensures |threads| == old(|threads|)
      ensures Ends(old(Abstract()), trace, me) && Abstract() == Run(old(Abstract()), trace)
      ensures threads[me] == if ok then Holding else Idle
      ensures Run(old(Abstract()), Turn(others, 0)).limit <= 0 ==> ok
      ensures others == [] ==> (ok <==> old(limit) <= 0 || old(current) < old(limit))
    {
      hide Run, InRange, Ends;
      ghost var s0 := Abstract();
      RunNone(s0);
      Yield(Turn(others, 0));
      Amid(s0, [], Turn(others, 0), me);
      trace := [] + Turn(others, 0) + [Move(me)];
      var limit := this.limit;
      threads := threads[me := if limit <= 0 then Unlimited else Looping(limit)];
      if limit <= 0 {
        trace := AddUnlimited(s0, trace, me, Turn(others, 1));
        return true, trace;
      }
      var turn := 1;
      while true
        invariant |threads| == |s0.threads| && InRange(trace, |threads|)
        invariant Abstract() == Run(s0, trace) && threads[me] == Looping(limit)
        invariant others == [] ==> turn == 1 && current == s0.current && limit == s0.limit
        decreases |others| - turn
      {
        ghost var steps;
        var done;
        done, ok, steps := TrySwap(me, limit, Turn(others, turn), Turn(others, turn + 1));
        EndsAfter(s0, trace, steps, me);
        trace := trace + steps;
        if done {
          return;
        }
        turn := turn + 2;
      }
    }

    method AddUnlimited(ghost s0: State, ghost trace: seq<Step>, me: nat, batch: seq<Step>)
      returns (ghost trace': seq<Step>)
      requires me < |threads| == |s0.threads| && threads[me] == Unlimited
      requires InRange(trace, |threads|) && Abstract() == Run(s0, trace)
      requires InRange(batch, |threads|) && Spares(batch, me)
      modifies this
      ensures |threads| == old(|threads|) && threads[me] == Holding
      ensures Ends(s0, trace', me) && Abstract() == Run(s0, trace')
    {
      hide Run, InRange;
      Yield(batch);
      Amid(s0, trace, batch, me);
      trace' := trace + batch + [Move(me)];
      current := current + 1;
      threads := threads[me := Holding];
    }

    method Release(me: nat)
      requires me < |threads| && threads[me] == Holding
      modifies this`current, this`threads
      ensures Abstract() == Next(old(Abstract()), Move(me))
      ensures current == old(current) - 1 && threads == old(threads)[me := Idle]
    {
      current := current - 1;
      threads := threads[me := Idle];
    }
  }
}
