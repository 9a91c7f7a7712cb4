/** The least-loaded router: its scan for the minimum, the conservation of its counters, and the
    balance it keeps. */
module LeastLoaded {
  import opened Options
  import opened Providers
  import opened Randomness

  // ----- The scan ---------------------------------------------------------------------------

  /** The minimum so far, with -1 for none, and the positions that hold it. */
  datatype Best = Best(minLoad: int, candidates: seq<nat>)

  function Scan(loads: seq<int>): Best {
    if loads == [] then Best(-1, [])
    else
      var n := |loads| - 1;
      var b := Scan(loads[..n]);
      if b.minLoad == -1 || loads[n] < b.minLoad then Best(loads[n], [n])
      else if loads[n] == b.minLoad then Best(b.minLoad, b.candidates + [n])
      else b
  }

  function Min(loads: seq<int>): (m: int)
    requires loads != []
    ensures m in loads && forall i :: 0 <= i < |loads| ==> m <= loads[i]
  {
    var n := |loads| - 1;
    if n == 0 then loads[0]
    else
      var m := Min(loads[..n]);
      if loads[n] < m then loads[n] else m
  }

  /** The positions that hold `m`, in order. */
  function Positions(loads: seq<int>, m: int): (r: seq<nat>)
    ensures forall k :: 0 <= k < |r| ==> r[k] < |loads| && loads[r[k]] == m
    ensures forall i :: 0 <= i < |loads| && loads[i] == m ==> i in r
  {
    if loads == [] then []
    else
      var n := |loads| - 1;
      var before := Positions(loads[..n], m);
      if loads[n] == m then before + [n] else before
  }

  ghost predicate Exact(loads: seq<int>)
    requires loads != []
  {
    Scan(loads) == Best(Min(loads), Positions(loads, Min(loads)))
  }

  lemma {:induction false} ScanTakesALoad(loads: seq<int>)
    requires loads != []
    ensures Scan(loads).minLoad in loads
  {
    if |loads| > 1 {
      ScanTakesALoad(loads[..|loads| - 1]);
    }
  }

  lemma {:induction false} NoPositions(loads: seq<int>, m: int)
    requires forall i :: 0 <= i < |loads| ==> loads[i] != m
    ensures Positions(loads, m) == []
  {
    if loads != [] {
      NoPositions(loads[..|loads| - 1], m);
    }
  }

  lemma MinOfFront(loads: seq<int>)
    requires |loads| > 1
    ensures Min(loads) == if loads[|loads| - 1] < Min(loads[..|loads| - 1]) then loads[|loads| - 1] else Min(loads[..|loads| - 1])
  {
  }

  /** The scan finds exactly the positions of the minimum, unless the minimum is -1 and stands
      somewhere before the end: there the sentinel makes the next load replace it. */
  lemma {:induction false} SentinelExact(loads: seq<int>)
    requires loads != []
    ensures Exact(loads) <==> Min(loads) != -1 || -1 !in loads[..|loads| - 1]
  {
    var n := |loads| - 1;
    if n == 0 {
      assert Positions(loads[..0], loads[0]) == [];
      assert Positions(loads, loads[0]) == [0];
    } else {
      var front, x := loads[..n], loads[n];
      SentinelExact(front);
      ScanTakesALoad(front);
      MinOfFront(loads);
      ExactStep(loads);
    }
  }

  lemma ExactStep(loads: seq<int>)
    requires |loads| > 1
    requires var front := loads[..|loads| - 1];
             (Exact(front) <==> Min(front) != -1 || -1 !in front[..|front| - 1]) && Scan(front).minLoad in front
    ensures Exact(loads) <==> Min(loads) != -1 || -1 !in loads[..|loads| - 1]
  {
    var n := |loads| - 1;
    var front, x := loads[..n], loads[n];
    MinOfFront(loads);
    hide Min;
    var b := Scan(front);
    if Min(front) != -1 {
      if x < Min(front) {
        NoPositions(front, x);
      }
    } else if x < -1 {
      NoPositions(front, x);
    } else {
      var i :| 0 <= i < |front| && front[i] == -1;
      assert i in Positions(loads, -1);
      assert Positions(loads, -1) != [n];
    }
  }

  // ----- Breaking ties by priority -------------------------------------------------------------

  ghost predicate Descending(infos: seq<ProviderInfo>) {
    forall i, j :: 0 <= i < j < |infos| ==> infos[i].priority >= infos[j].priority
  }

  /** Puts `p` behind every provider of at least its priority. */
  function Insert(infos: seq<ProviderInfo>, p: ProviderInfo): (r: seq<ProviderInfo>)
    ensures r != []
  {
    if infos == [] || infos[|infos| - 1].priority >= p.priority then infos + [p]
    else Insert(infos[..|infos| - 1], p) + [infos[|infos| - 1]]
  }

  /** The stable descending sort. */
  function SortByPriority(infos: seq<ProviderInfo>): (r: seq<ProviderInfo>)
    ensures infos != [] ==> r != []
  {
    if infos == [] then [] else Insert(SortByPriority(infos[..|infos| - 1]), infos[|infos| - 1])
  }

  /** The providers of one priority, in order. */
  function OfPriority(infos: seq<ProviderInfo>, priority: int): (r: seq<ProviderInfo>)
    ensures forall p :: p in r <==> p in infos && p.priority == priority
  {
    if infos == [] then []
    else
      var front, last := infos[..|infos| - 1], infos[|infos| - 1];
      assert infos == front + [last];
      if last.priority == priority then OfPriority(front, priority) + [last] else OfPriority(front, priority)
  }

  lemma {:induction false} InsertSorts(infos: seq<ProviderInfo>, p: ProviderInfo)
    requires Descending(infos)
    ensures Descending(Insert(infos, p))
    ensures forall q :: q in Insert(infos, p) <==> q in infos || q == p
  {
    if infos != [] && infos[|infos| - 1].priority < p.priority {
      var front, last := infos[..|infos| - 1], infos[|infos| - 1];
      InsertSorts(front, p);
      var r := Insert(front, p);
      assert infos == front + [last];
      forall i | 0 <= i < |r| ensures r[i].priority >= last.priority {
        assert r[i] in r;
      }
      hide Insert;
    }
  }

  lemma {:induction false} InsertKeepsTiers(infos: seq<ProviderInfo>, p: ProviderInfo, priority: int)
    ensures OfPriority(Insert(infos, p), priority) == OfPriority(infos + [p], priority)
  {
    hide OfPriority;
    if infos != [] && infos[|infos| - 1].priority < p.priority {
      var front, last := infos[..|infos| - 1], infos[|infos| - 1];
      InsertKeepsTiers(front, p, priority);
      assert infos == front + [last];
      Commutes(front, p, last, Insert(front, p), priority);
    }
  }

  /** A provider of lower priority may be put before or behind `p`. */
  lemma Commutes(front: seq<ProviderInfo>, p: ProviderInfo, last: ProviderInfo, r: seq<ProviderInfo>, priority: int)
    requires OfPriority(r, priority) == OfPriority(front + [p], priority) && last.priority != p.priority
    ensures OfPriority(r + [last], priority) == OfPriority(front + [last] + [p], priority)
  {
    hide OfPriority;
    OfPrioritySnoc(r, last, priority);
    OfPrioritySnoc(front, p, priority);
    OfPrioritySnoc(front, last, priority);
    OfPrioritySnoc(front + [last], p, priority);
  }

  lemma OfPrioritySnoc(infos: seq<ProviderInfo>, p: ProviderInfo, priority: int)
    ensures OfPriority(infos + [p], priority)
         == if p.priority == priority then OfPriority(infos, priority) + [p] else OfPriority(infos, priority)
  {
    assert (infos + [p])[..|infos + [p]| - 1] == infos;
  }

  lemma {:induction false} Sorts(infos: seq<ProviderInfo>)
    ensures Descending(SortByPriority(infos))
    ensures forall q :: q in SortByPriority(infos) <==> q in infos
    ensures forall priority :: OfPriority(SortByPriority(infos), priority) == OfPriority(infos, priority)
  {
    hide OfPriority, Insert, Descending;
    if infos != [] {
      var front, last := infos[..|infos| - 1], infos[|infos| - 1];
      assert infos == front + [last];
      Sorts(front);
      var s := SortByPriority(front);
      InsertSorts(s, last);
      forall priority ensures OfPriority(Insert(s, last), priority) == OfPriority(infos, priority) {
        InsertKeepsTiers(s, last, priority);
        OfPrioritySnoc(s, last, priority);
        OfPrioritySnoc(front, last, priority);
      }
    } else {
      SortsNone();
    }
  }

  lemma SortsNone()
    ensures Descending([]) && SortByPriority([]) == []
  {
  }

  /** The leading providers of the first one's priority. */
  method PriorityTies(candidates: seq<ProviderInfo>) returns (ties: seq<ProviderInfo>)
    requires candidates != [] && Descending(candidates)
    ensures ties == OfPriority(candidates, candidates[0].priority) && ties != []
  {
    hide OfPriority;
    var highestPriority := candidates[0].priority;
    ties := [];
    var i := 0;
    OfPriorityNone(highestPriority);
    while i < |candidates|
      invariant 0 <= i <= |candidates| && (i > 0 ==> ties != [])
      invariant ties == OfPriority(candidates[..i], highestPriority)
    {
      if candidates[i].priority != highestPriority {
        LowerFollow(candidates, i, highestPriority);
        return;
      }
      assert candidates[..i + 1] == candidates[..i] + [candidates[i]];
      OfPrioritySnoc(candidates[..i], candidates[i], highestPriority);
      ties := ties + [candidates[i]];
      i := i + 1;
    }
    assert candidates[..i] == candidates;
  }

  lemma OfPriorityNone(priority: int)
    ensures OfPriority([], priority) == []
  {
  }

  lemma {:induction false} LowerFollow(infos: seq<ProviderInfo>, i: nat, priority: int)
    requires i <= |infos| && forall j :: i <= j < |infos| ==> infos[j].priority != priority
    ensures OfPriority(infos, priority) == OfPriority(infos[..i], priority)
  {
    if i == |infos| {
      assert infos[..i] == infos;
    } else {
      var front := infos[..|infos| - 1];
      LowerFollow(front, i, priority);
      assert front[..i] == infos[..i];
    }
  }

  // ----- The choice ------------------------------------------------------------------------------

  /** The counter of a provider; one never asked for reads 0. */
  function Load(inFlight: map<string, int>, name: string): int {
    if name in inFlight then inFlight[name] else 0
  }

  function Loads(inFlight: map<string, int>, infos: seq<ProviderInfo>): (r: seq<int>)
    ensures |r| == |infos| && forall i :: 0 <= i < |r| ==> r[i] == Load(inFlight, infos[i].name)
  {
    seq(|infos|, i requires 0 <= i < |infos| => Load(inFlight, infos[i].name))
  }

  function At(infos: seq<ProviderInfo>, positions: seq<nat>): (r: seq<ProviderInfo>)
    requires forall k :: 0 <= k < |positions| ==> positions[k] < |infos|
    ensures |r| == |positions| && forall k :: 0 <= k < |r| ==> r[k] == infos[positions[k]]
  {
    seq(|positions|, k requires 0 <= k < |positions| => infos[positions[k]])
  }

  lemma {:induction false} ScanInRange(loads: seq<int>)
    ensures forall k :: 0 <= k < |Scan(loads).candidates| ==> Scan(loads).candidates[k] < |loads|
    ensures loads != [] ==> Scan(loads).candidates != []
  {
    if loads != [] {
      ScanInRange(loads[..|loads| - 1]);
    }
  }

  /** `p` is what the router may choose: healthy, of least load, and of the highest priority
      among those. */
  ghost predicate BestChoice(inFlight: map<string, int>, infos: seq<ProviderInfo>, p: ProviderInfo) {
    && p in infos && p.healthy
    && forall q :: q in infos && q.healthy ==>
         && Load(inFlight, p.name) <= Load(inFlight, q.name)
         && (Load(inFlight, q.name) == Load(inFlight, p.name) ==> q.priority <= p.priority)
  }

  ghost predicate NonNegative(inFlight: map<string, int>) {
    forall name :: Load(inFlight, name) >= 0
  }

  /** The providers the random choice is between, given the loads that were read. */
  function TiesOf(healthy: seq<ProviderInfo>, loads: seq<int>): (r: seq<ProviderInfo>)
    requires healthy != [] && |loads| == |healthy|
  {
    ScanInRange(loads);
    var candidates := At(healthy, Scan(loads).candidates);
    OfPriority(candidates, SortByPriority(candidates)[0].priority)
  }

  function Ties(inFlight: map<string, int>, healthy: seq<ProviderInfo>): (r: seq<ProviderInfo>)
    requires healthy != []
  {
    TiesOf(healthy, Loads(inFlight, healthy))
  }

  /** The `i`-th provider was read with a load no larger than any other, and has the highest
      priority among those read with that load. */
  ghost predicate BestAt(healthy: seq<ProviderInfo>, loads: seq<int>, i: nat)
    requires |loads| == |healthy| && i < |healthy|
  {
    forall j :: 0 <= j < |healthy| ==>
      loads[i] <= loads[j] && (loads[j] == loads[i] ==> healthy[j].priority <= healthy[i].priority)
  }

  ghost predicate BestAsRead(healthy: seq<ProviderInfo>, loads: seq<int>, p: ProviderInfo)
    requires |loads| == |healthy|
  {
    exists i :: 0 <= i < |healthy| && healthy[i] == p && BestAt(healthy, loads, i)
  }

  lemma TiesAsRead(healthy: seq<ProviderInfo>, loads: seq<int>, p: ProviderInfo)
    requires healthy != [] && |loads| == |healthy|
    requires forall i :: 0 <= i < |loads| ==> loads[i] >= 0
    ensures p in TiesOf(healthy, loads) <==> BestAsRead(healthy, loads, p)
  {
    hide Scan, Min, Positions, SortByPriority, OfPriority, BestAsRead;
    SentinelExact(loads);
    ScanInRange(loads);
    var least := Positions(loads, Min(loads));
    var candidates := At(healthy, least);
    Sorts(candidates);
    var sorted := SortByPriority(candidates);
    assert sorted[0] in candidates;
    forall q | q in candidates ensures q.priority <= sorted[0].priority {
      var i :| 0 <= i < |sorted| && sorted[i] == q;
    }
    TopIsBest(healthy, loads, candidates, sorted[0].priority, p);
  }

  lemma TopIsBest(healthy: seq<ProviderInfo>, loads: seq<int>, candidates: seq<ProviderInfo>, top: int, p: ProviderInfo)
    requires healthy != [] && |loads| == |healthy| && candidates == At(healthy, Positions(loads, Min(loads)))
    requires forall q :: q in candidates ==> q.priority <= top
    requires exists q :: q in candidates && q.priority == top
    ensures p in candidates && p.priority == top <==> BestAsRead(healthy, loads, p)
  {
    hide Min, Positions, BestAt;
    var least := Positions(loads, Min(loads));
    if p in candidates && p.priority == top {
      var k :| 0 <= k < |candidates| && candidates[k] == p;
      TopIsBestAt(healthy, loads, candidates, top, k);
    }
    if BestAsRead(healthy, loads, p) {
      var i :| 0 <= i < |healthy| && healthy[i] == p && BestAt(healthy, loads, i);
      var q :| q in candidates && q.priority == top;
      var l :| 0 <= l < |candidates| && candidates[l] == q;
      var k := BestIsCandidate(healthy, loads, i, least[l]);
      assert candidates[k] == p;
    }
  }

  lemma TopIsBestAt(healthy: seq<ProviderInfo>, loads: seq<int>, candidates: seq<ProviderInfo>, top: int, k: nat)
    requires healthy != [] && |loads| == |healthy| && candidates == At(healthy, Positions(loads, Min(loads)))
    requires forall q :: q in candidates ==> q.priority <= top
    requires k < |candidates| && candidates[k].priority == top
    ensures BestAt(healthy, loads, Positions(loads, Min(loads))[k])
  {
    hide Min, Positions;
    var least := Positions(loads, Min(loads));
    forall j | 0 <= j < |healthy| && loads[j] == Min(loads) ensures healthy[j].priority <= top {
      var l :| 0 <= l < |least| && least[l] == j;
      assert candidates[l] in candidates;
    }
  }

  /** The best provider is at a position of the minimum, with a priority no lower than that of any
      such position `m`. */
  lemma BestIsCandidate(healthy: seq<ProviderInfo>, loads: seq<int>, i: nat, m: nat) returns (k: nat)
    requires |loads| == |healthy| && i < |healthy| && BestAt(healthy, loads, i)
    requires m < |healthy| && loads[m] == Min(loads)
    ensures k < |Positions(loads, Min(loads))| && Positions(loads, Min(loads))[k] == i
    ensures healthy[m].priority <= healthy[i].priority
  {
    hide Min, Positions;
    assert loads[i] == Min(loads);
    var least := Positions(loads, Min(loads));
    k :| 0 <= k < |least| && least[k] == i;
  }

  /** As long as no counter is negative, the router chooses between exactly the best providers. */
  lemma TiesAreBest(inFlight: map<string, int>, infos: seq<ProviderInfo>, p: ProviderInfo)
    requires NonNegative(inFlight) && FilterHealthy(infos) != []
    ensures p in Ties(inFlight, FilterHealthy(infos)) <==> BestChoice(inFlight, infos, p)
  {
    hide TiesOf, FilterHealthy, Load;
    var healthy := FilterHealthy(infos);
    var loads := Loads(inFlight, healthy);
    forall i | 0 <= i < |loads| ensures loads[i] >= 0 {
      assert loads[i] == Load(inFlight, healthy[i].name);
    }
    TiesAsRead(healthy, loads, p);
    hide BestAsRead, BestChoice;
    if BestAsRead(healthy, loads, p) {
      ReadIsChoice(inFlight, infos, p);
    }
    if BestChoice(inFlight, infos, p) {
      ChoiceIsRead(inFlight, infos, p);
    }
  }

  lemma ReadIsChoice(inFlight: map<string, int>, infos: seq<ProviderInfo>, p: ProviderInfo)
    requires var healthy := FilterHealthy(infos); BestAsRead(healthy, Loads(inFlight, healthy), p)
    ensures BestChoice(inFlight, infos, p)
  {
    hide FilterHealthy, Load;
    var healthy := FilterHealthy(infos);
    var loads := Loads(inFlight, healthy);
    var i :| 0 <= i < |healthy| && healthy[i] == p && BestAt(healthy, loads, i);
    forall q | q in infos && q.healthy
      ensures Load(inFlight, p.name) <= Load(inFlight, q.name)
      ensures Load(inFlight, q.name) == Load(inFlight, p.name) ==> q.priority <= p.priority
    {
      var j :| 0 <= j < |healthy| && healthy[j] == q;
      assert loads[i] <= loads[j];
    }
  }

  lemma ChoiceIsRead(inFlight: map<string, int>, infos: seq<ProviderInfo>, p: ProviderInfo)
    requires BestChoice(inFlight, infos, p)
    ensures var healthy := FilterHealthy(infos); BestAsRead(healthy, Loads(inFlight, healthy), p)
  {
    hide FilterHealthy, Load;
    var healthy := FilterHealthy(infos);
    var loads := Loads(inFlight, healthy);
    var i :| 0 <= i < |healthy| && healthy[i] == p;
    forall j | 0 <= j < |healthy|
      ensures loads[i] <= loads[j] && (loads[j] == loads[i] ==> healthy[j].priority <= healthy[i].priority)
    {
      assert healthy[j] in healthy;
    }
    assert BestAt(healthy, loads, i);
  }

  lemma NothingScanned()
    ensures Scan([]) == Best(-1, [])
  {
  }

  lemma ScanNext(loads: seq<int>, i: nat)
    requires i < |loads|
    ensures var b := Scan(loads[..i]);
            Scan(loads[..i + 1])
            == if b.minLoad == -1 || loads[i] < b.minLoad then Best(loads[i], [i])
               else if loads[i] == b.minLoad then Best(b.minLoad, b.candidates + [i])
               else b
  {
    assert loads[..i + 1][..i] == loads[..i];
  }

  lemma CreatedAtZero(inFlight: map<string, int>, name: string)
    requires name !in inFlight
    ensures forall other :: Load(inFlight[name := 0], other) == Load(inFlight, other)
  {
  }

  lemma AtSnoc(infos: seq<ProviderInfo>, positions: seq<nat>, i: nat)
    requires i < |infos| && forall k :: 0 <= k < |positions| ==> positions[k] < |infos|
    ensures At(infos, positions + [i]) == At(infos, positions) + [infos[i]] && At(infos, [i]) == [infos[i]]
  {
  }

  class LeastLoadedRouter {
    var inFlight: map<string, int>

    constructor ()
      ensures inFlight == map[]
    {
      inFlight := map[];
    }

    /** The counter of a provider, created at 0. */
    method GetCounter(name: string) returns (load: int)
      modifies this`inFlight
      ensures load == Load(old(inFlight), name)
      ensures inFlight == if name in old(inFlight) then old(inFlight) else old(inFlight)[name := 0]
    {
      if name !in inFlight {
        inFlight := inFlight[name := 0];
      }
      load := inFlight[name];
    }

    method Acquire(name: string)
      modifies this
      ensures inFlight == Count(old(inFlight), name, 1)
    {
      var load := GetCounter(name);
      inFlight := inFlight[name := load + 1];
    }

    method Release(name: string)
      modifies this
      ensures inFlight == Count(old(inFlight), name, -1)
    {
      var load := GetCounter(name);
      inFlight := inFlight[name := load - 1];
    }

    /** Chooses a provider; the counters read the same afterwards. */
    method Select(infos: seq<ProviderInfo>, rand: nat -> nat) returns (r: Selection)
      requires InBounds(rand)
      modifies this
      ensures forall name :: Load(inFlight, name) == Load(old(inFlight), name)
      ensures infos == [] ==> r == NoProviders
      ensures infos != [] && FilterHealthy(infos) == [] ==> r == AllProvidersUnhealthy
      ensures FilterHealthy(infos) != [] ==>
                var ties := Ties(old(inFlight), FilterHealthy(infos));
                ties != [] && rand(|ties|) < |ties| && r == Selected(ties[rand(|ties|)])
    {
      hide Scan, OfPriority, SortByPriority, FilterHealthy, Load;
      if |infos| == 0 {
        assert FilterHealthy(infos) == [] by {
          NoneHealthy();
        }
        return NoProviders;
      }
      var healthy := FilterHealthy(infos);
      if |healthy| == 0 {
        return AllProvidersUnhealthy;
      }
      var candidates := Lightest(healthy);
      candidates := SortByPriority(candidates);
      ghost var unsorted := At(healthy, Scan(Loads(old(inFlight), healthy)).candidates);
      Sorts(unsorted);
      var priorityTies := PriorityTies(candidates);
      assert priorityTies == Ties(old(inFlight), healthy);
      if |priorityTies| == 1 {
        return Selected(priorityTies[0]);
      }
      return Selected(priorityTies[rand(|priorityTies|)]);
    }

    method Lightest(healthy: seq<ProviderInfo>) returns (candidates: seq<ProviderInfo>)
      requires healthy != []
      modifies this
      ensures forall name :: Load(inFlight, name) == Load(old(inFlight), name)
      ensures forall k :: 0 <= k < |Scan(Loads(old(inFlight), healthy)).candidates| ==>
                Scan(Loads(old(inFlight), healthy)).candidates[k] < |healthy|
      ensures candidates == At(healthy, Scan(Loads(old(inFlight), healthy)).candidates) && candidates != []
    {
      NothingScanned();
      hide Scan, Load, At;
      ghost var loads := Loads(inFlight, healthy);
      ghost var positions: seq<nat> := [];
      var minLoad := -1;
      candidates := [];
      var i := 0;
      while i < |healthy|
        invariant 0 <= i <= |healthy|
        invariant forall name :: Load(inFlight, name) == Load(old(inFlight), name)
        invariant Scan(loads[..i]) == Best(minLoad, positions)
        invariant forall k :: 0 <= k < |positions| ==> positions[k] < |healthy|
        invariant candidates == At(healthy, positions)
      {
        ScanNext(loads, i);
        ghost var before := inFlight;
        var load := GetCounter(healthy[i].name);
        if healthy[i].name !in before {
          CreatedAtZero(before, healthy[i].name);
        }
        AtSnoc(healthy, positions, i);
        assert load == loads[i];
        if minLoad == -1 || load < minLoad {
          minLoad, positions := load, [i];
          candidates := [healthy[i]];
        } else if load == minLoad {
          positions := positions + [i];
          candidates := candidates + [healthy[i]];
        }
        i := i + 1;
      }
      assert loads[..i] == loads;
      ScanInRange(loads);
    }
  }

  // ----- Conservation over every interleaving of requests ------------------------------------------

  /** A request takes a provider, or the request of position `i` lets its provider go. */
  datatype Step = Take(name: string) | Drop(i: nat)

  /** The counters, and the provider each request still holds. */
  datatype State = State(inFlight: map<string, int>, holding: seq<Option<string>>)

  function Count(inFlight: map<string, int>, name: string, change: int): map<string, int> {
    inFlight[name := Load(inFlight, name) + change]
  }

  function Next(s: State, step: Step): State {
    match step
    case Take(name) => State(Count(s.inFlight, name, 1), s.holding + [Some(name)])
    case Drop(i) =>
      if i >= |s.holding| || s.holding[i].None? then s
      else State(Count(s.inFlight, s.holding[i].value, -1), s.holding[i := None])
  }

  function Run(steps: seq<Step>): State {
    if steps == [] then State(map[], [])
    else Next(Run(steps[..|steps| - 1]), steps[|steps| - 1])
  }

  function Holding(holding: seq<Option<string>>, name: string): nat {
    if holding == [] then 0
    else Holding(holding[..|holding| - 1], name) + if holding[|holding| - 1] == Some(name) then 1 else 0
  }

  lemma {:induction false} HoldingUpdate(holding: seq<Option<string>>, i: nat, name: string)
    requires i < |holding|
    ensures Holding(holding[i := None], name) == Holding(holding, name) - if holding[i] == Some(name) then 1 else 0
  {
    var n := |holding| - 1;
    if i == n {
      assert holding[i := None][..n] == holding[..n];
    } else {
      assert holding[i := None][..n] == holding[..n][i := None];
      HoldingUpdate(holding[..n], i, name);
    }
  }

  /** Each counter is the number of requests that took the provider and have not let it go. */
  lemma {:induction false} CountersConserved(steps: seq<Step>, name: string)
    ensures Load(Run(steps).inFlight, name) == Holding(Run(steps).holding, name)
  {
    if steps != [] {
      var before, step := Run(steps[..|steps| - 1]), steps[|steps| - 1];
      CountersConserved(steps[..|steps| - 1], name);
      match step {
        case Take(taken) =>
          assert (before.holding + [Some(taken)])[..|before.holding|] == before.holding;
        case Drop(i) =>
          if i < |before.holding| && before.holding[i].Some? {
            HoldingUpdate(before.holding, i, name);
          }
      }
    }
  }

  /** The takes of a run, in order. */
  ghost function Takes(steps: seq<Step>): seq<string> {
    if steps == [] then []
    else
      var before, last := Takes(steps[..|steps| - 1]), steps[|steps| - 1];
      if last.Take? then before + [last.name] else before
  }

  /** Every take is a request that holds the provider it named until it is dropped. */
  lemma {:induction false} HoldsUntilDropped(steps: seq<Step>, i: nat)
    requires i < |Takes(steps)|
    ensures |Run(steps).holding| == |Takes(steps)|
    ensures Run(steps).holding[i] == if DroppedAfter(steps, i) then None else Some(Takes(steps)[i])
  {
    if steps != [] {
      var front, last := steps[..|steps| - 1], steps[|steps| - 1];
      SameLength(front);
      if i < |Takes(front)| {
        HoldsUntilDropped(front, i);
      } else {
        NotDroppedYet(front, i);
      }
      DroppedSnoc(front, last, i);
      assert steps == front + [last];
    }
  }

  lemma {:induction false} SameLength(steps: seq<Step>)
    ensures |Run(steps).holding| == |Takes(steps)|
  {
    if steps != [] {
      SameLength(steps[..|steps| - 1]);
    }
  }

  /** Request `i` was there and was dropped. */
  ghost predicate DroppedAfter(steps: seq<Step>, i: nat) {
    exists k :: 0 <= k < |steps| && steps[k] == Drop(i) && i < |Takes(steps[..k])|
  }

  lemma NotDroppedYet(steps: seq<Step>, i: nat)
    requires i >= |Takes(steps)|
    ensures !DroppedAfter(steps, i)
  {
    hide Takes;
    forall k | 0 <= k < |steps| ensures |Takes(steps[..k])| <= |Takes(steps)| {
      TakesGrow(steps, k);
    }
  }

  lemma {:induction false} TakesGrow(steps: seq<Step>, k: nat)
    requires k <= |steps|
    ensures |Takes(steps[..k])| <= |Takes(steps)|
  {
    if k == |steps| {
      assert steps[..k] == steps;
    } else {
      assert steps[..|steps| - 1][..k] == steps[..k];
      TakesGrow(steps[..|steps| - 1], k);
    }
  }

  lemma DroppedSnoc(front: seq<Step>, last: Step, i: nat)
    ensures DroppedAfter(front + [last], i) <==> DroppedAfter(front, i) || (last == Drop(i) && i < |Takes(front)|)
  {
    hide Takes;
    var all := front + [last];
    assert all[..|front|] == front;
    forall k | 0 <= k < |front| ensures all[k] == front[k] && all[..k] == front[..k] {
    }
    if DroppedAfter(front, i) {
      var k :| 0 <= k < |front| && front[k] == Drop(i) && i < |Takes(front[..k])|;
      assert all[k] == Drop(i) && i < |Takes(all[..k])|;
    }
    if last == Drop(i) && i < |Takes(front)| {
      assert all[|front|] == Drop(i) && i < |Takes(all[..|front|])|;
    }
  }

  /** So the sentinel is harmless: whatever requests came and went, the router chooses between
      exactly the best providers. */
  lemma AlwaysBest(steps: seq<Step>, infos: seq<ProviderInfo>, p: ProviderInfo)
    requires FilterHealthy(infos) != []
    ensures p in Ties(Run(steps).inFlight, FilterHealthy(infos)) <==> BestChoice(Run(steps).inFlight, infos, p)
  {
    hide Run, Ties, FilterHealthy, Load;
    forall name ensures Load(Run(steps).inFlight, name) >= 0 {
      CountersConserved(steps, name);
    }
    TiesAreBest(Run(steps).inFlight, infos, p);
  }

  /** `loads` were read one by one during the run, the i-th after `at[i]` of its steps. */
  ghost predicate ReadDuring(steps: seq<Step>, at: seq<nat>, healthy: seq<ProviderInfo>, loads: seq<int>) {
    && |at| == |loads| == |healthy|
    && (forall i :: 0 <= i < |at| ==> at[i] <= |steps|)
    && (forall i, j :: 0 <= i < j < |at| ==> at[i] <= at[j])
    && (forall i :: 0 <= i < |at| ==> loads[i] == Load(Run(steps[..at[i]]).inFlight, healthy[i].name))
  }

  /** The router reads its counters one after the other while other requests come and go. What it
      chooses between are exactly the providers of least load as read, and of the highest priority
      among those. */
  lemma BestAmidOthers(steps: seq<Step>, at: seq<nat>, healthy: seq<ProviderInfo>, loads: seq<int>, p: ProviderInfo)
    requires healthy != [] && ReadDuring(steps, at, healthy, loads)
    ensures p in TiesOf(healthy, loads) <==> BestAsRead(healthy, loads, p)
  {
    hide Run, TiesOf, BestAsRead, Load;
    forall i | 0 <= i < |loads| ensures loads[i] >= 0 {
      CountersConserved(steps[..at[i]], healthy[i].name);
    }
    TiesAsRead(healthy, loads, p);
  }

  // ----- Balance ---------------------------------------------------------------------------------------

  /** The counters after each pick was taken and none was let go. */
  function TakeAll(inFlight: map<string, int>, picks: seq<ProviderInfo>): map<string, int> {
    if picks == [] then inFlight
    else Count(TakeAll(inFlight, picks[..|picks| - 1]), picks[|picks| - 1].name, 1)
  }

  /** Each pick is one the router may choose after the picks before it were taken. */
  ghost predicate RouterPicks(inFlight: map<string, int>, infos: seq<ProviderInfo>, picks: seq<ProviderInfo>) {
    forall k :: 0 <= k < |picks| ==> BestChoice(TakeAll(inFlight, picks[..k]), infos, picks[k])
  }

  function PickCount(picks: seq<ProviderInfo>, name: string): nat {
    if picks == [] then 0
    else PickCount(picks[..|picks| - 1], name) + if picks[|picks| - 1].name == name then 1 else 0
  }

  /** From rest, with every provider healthy, select-then-acquire keeps the numbers of picks of
      any two providers within one of each other. */
  lemma {:induction false} Balanced(
    inFlight: map<string, int>, infos: seq<ProviderInfo>, picks: seq<ProviderInfo>, p: ProviderInfo, q: ProviderInfo)
    requires forall name :: Load(inFlight, name) == 0
    requires forall r :: r in infos ==> r.healthy
    requires RouterPicks(inFlight, infos, picks) && p in infos && q in infos
    ensures Load(TakeAll(inFlight, picks), p.name) == PickCount(picks, p.name)
    ensures PickCount(picks, p.name) <= PickCount(picks, q.name) + 1
  {
    if picks != [] {
      hide BestChoice, TakeAll;
      var n := |picks| - 1;
      var front := picks[..n];
      RouterPicked(inFlight, infos, picks);
      Balanced(inFlight, infos, front, p, q);
      Balanced(inFlight, infos, front, q, p);
      LightestPick(TakeAll(inFlight, front), infos, picks[n], q);
      CountsPick(inFlight, picks, p.name);
    }
  }

  lemma RouterPicked(inFlight: map<string, int>, infos: seq<ProviderInfo>, picks: seq<ProviderInfo>)
    requires RouterPicks(inFlight, infos, picks) && picks != []
    ensures RouterPicks(inFlight, infos, picks[..|picks| - 1])
    ensures BestChoice(TakeAll(inFlight, picks[..|picks| - 1]), infos, picks[|picks| - 1])
  {
    hide BestChoice, TakeAll;
    var front := picks[..|picks| - 1];
    forall k | 0 <= k < |front| ensures BestChoice(TakeAll(inFlight, front[..k]), infos, front[k]) {
      assert front[..k] == picks[..k];
    }
  }

  lemma LightestPick(inFlight: map<string, int>, infos: seq<ProviderInfo>, pick: ProviderInfo, q: ProviderInfo)
    requires BestChoice(inFlight, infos, pick) && q in infos && q.healthy
    ensures Load(inFlight, pick.name) <= Load(inFlight, q.name)
  {
  }

  lemma CountsPick(inFlight: map<string, int>, picks: seq<ProviderInfo>, name: string)
    requires picks != []
    ensures Load(TakeAll(inFlight, picks), name)
         == Load(TakeAll(inFlight, picks[..|picks| - 1]), name) + if picks[|picks| - 1].name == name then 1 else 0
  {
  }
}
