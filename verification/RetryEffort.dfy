/** The relay does not give up early: a run that ends on a retryable answer, or without one, has
    used up its attempts, or every round, key and repetition that it was allowed. */
module RetryEffort {
  import opened Options
  import opened Peek
  import opened RetryProtocol

  // ----- What a run that gives up has tried -----------------------------------------------

  /** One round: the provider it went to, and the keys it used there. */
  datatype Visit = Visit(provider: string, keys: seq<string>)

  ghost function Providers(visits: seq<Visit>): set<string> {
    set v | v in visits :: v.provider
  }

  /** What provider selection answers when these visits have been made. */
  ghost function Chosen(env: Env, visits: seq<Visit>): Option<string>
    requires WellBehaved(env)
  {
    SelectProvider(env, State(Providers(visits), {}, []), |visits|)
  }

  /** Key `key` of this slot got `tries` attempts in a row, or a 403. */
  ghost predicate KeySpent(attempts: seq<Attempt>, r: nat, k: nat, provider: string, key: string, tries: nat) {
    exists lo: nat, hi: nat :: KeyRun(attempts, lo, hi, r, k, provider, key) && (hi - lo == tries || attempts[hi - 1].Status() == 403)
  }

  ghost predicate KeyRun(attempts: seq<Attempt>, lo: nat, hi: nat, r: nat, k: nat, provider: string, key: string) {
    lo < hi <= |attempts| && forall j :: lo <= j < hi ==> Is(attempts[j], r, k, provider, key)
  }

  ghost predicate Is(a: Attempt, r: nat, k: nat, provider: string, key: string) {
    a.round == r && a.slot == k && a.provider == provider && a.keyID == key
  }

  /** An attempt before slot `k` of round `r` used this key. */
  ghost predicate Tried(attempts: seq<Attempt>, r: nat, k: nat, provider: string, key: string) {
    exists j :: 0 <= j < |attempts| && Before(attempts[j], r, k)
      && attempts[j].provider + ":" + attempts[j].keyID == provider + ":" + key
  }

  ghost predicate Before(a: Attempt, r: nat, k: nat) {
    a.round < r || (a.round == r && a.slot < k)
  }

  /** The pool ran dry within three draws, or gave three keys that had been tried before. */
  ghost predicate NoKeyLeft(env: Env, attempts: seq<Attempt>, r: nat, k: nat, provider: string) {
    && env.proxy(r, provider).Pooled?
    && exists d: nat :: (d == 3 || (d < 3 && env.getKey(r, k, d) == None)) && DrawsTried(env, attempts, r, k, provider, d)
  }

  /** The first `d` draws gave keys that had been tried before. */
  ghost predicate DrawsTried(env: Env, attempts: seq<Attempt>, r: nat, k: nat, provider: string, d: nat) {
    forall e: nat :: e < d ==> env.getKey(r, k, e).Some? && Tried(attempts, r, k, provider, env.getKey(r, k, e).value)
  }

  /** Every key slot of the round was used up, or there was no key for it. */
  ghost predicate VisitSpent(env: Env, attempts: seq<Attempt>, r: nat, v: Visit, slots: nat, tries: nat) {
    && |v.keys| <= slots
    && (forall k :: 0 <= k < |v.keys| ==> KeySpent(attempts, r, k, v.provider, v.keys[k], tries))
    && (|v.keys| < slots ==> NoKeyLeft(env, attempts, r, |v.keys|, v.provider))
  }

  ghost predicate AllSpent(env: Env, attempts: seq<Attempt>, visits: seq<Visit>, slots: nat, tries: nat)
    requires WellBehaved(env)
  {
    forall r :: 0 <= r < |visits| ==>
      && Chosen(env, visits[..r]) == Some(visits[r].provider)
      && !env.proxy(r, visits[r].provider).ProxyError?
      && VisitSpent(env, attempts, r, visits[r], slots, tries)
  }

  // ----- One key ----------------------------------------------------------------------------

  lemma {:induction false} SameKeySpends(env: Env, st: State, r: nat, k: nat, provider: string, keyID: string, pooled: bool, s: nat)
    requires s <= env.cfg.SameKeyRetries()
    ensures var f := SameKeyLevel(env, st, r, k, provider, keyID, pooled, s);
            && |f.st.attempts| >= |st.attempts|
            && (f.Next? && CanRetry(env, f.st) ==>
                  && |f.st.attempts| > |st.attempts|
                  && (|f.st.attempts| - |st.attempts| == env.cfg.SameKeyRetries() + 1 - s
                      || f.st.attempts[|f.st.attempts| - 1].Status() == 403))
    decreases env.cfg.SameKeyRetries() - s
  {
    hide StatusOf;
    if CanRetry(env, st) && s < env.cfg.SameKeyRetries() {
      SameKeySpends(env, Record(env, st, r, k, provider, keyID, pooled), r, k, provider, keyID, pooled, s + 1);
    }
  }

  // ----- The keys of one round ------------------------------------------------------------

  /** Every excluded key was tried before this slot. */
  ghost predicate AllTried(st: State, r: nat, k: nat) {
    forall x :: x in st.excludedKeys ==>
      exists j :: 0 <= j < |st.attempts| && Before(st.attempts[j], r, k)
                  && st.attempts[j].provider + ":" + st.attempts[j].keyID == x
  }

  lemma NoneDrawn(env: Env, st: State, provider: string, r: nat, k: nat)
    requires AllTried(st, r, k) && SelectKey(env, st, provider, env.proxy(r, provider).Pooled?, r, k) == None
    ensures NoKeyLeft(env, st.attempts, r, k, provider)
  {
    hide DrawKey;
    var d := FirstUntried(env, st, provider, r, k, 0);
    assert DrawsTried(env, st.attempts, r, k, provider, d);
  }

  lemma KeyIsSpent(env: Env, before: seq<Attempt>, after: seq<Attempt>, r: nat, k: nat, provider: string, key: string, tries: nat)
    requires before < after
    requires forall i :: |before| <= i < |after| ==> Is(after[i], r, k, provider, key)
    requires |after| - |before| == tries || after[|after| - 1].Status() == 403
    ensures KeySpent(after, r, k, provider, key, tries)
  {
    assert KeyRun(after, |before|, |after|, r, k, provider, key);
  }

  lemma ExcludedTried(st: State, st': State, r: nat, k: nat, provider: string, key: string)
    requires AllTried(st, r, k) && st.attempts < st'.attempts && st'.excludedKeys == st.excludedKeys
    requires Is(st'.attempts[|st.attempts|], r, k, provider, key)
    ensures AllTried(ExcludeKey(st', provider, key), r, k + 1)
  {
    forall x | x in st'.excludedKeys + {provider + ":" + key}
      ensures exists j :: 0 <= j < |st'.attempts| && Before(st'.attempts[j], r, k + 1)
                && st'.attempts[j].provider + ":" + st'.attempts[j].keyID == x
    {
      if x == provider + ":" + key {
        assert Before(st'.attempts[|st.attempts|], r, k + 1);
      } else {
        var j :| 0 <= j < |st.attempts| && Before(st.attempts[j], r, k)
                 && st.attempts[j].provider + ":" + st.attempts[j].keyID == x;
        assert st'.attempts[j] == st.attempts[j] && Before(st'.attempts[j], r, k + 1);
      }
    }
  }

  lemma {:induction false} KeySpends(env: Env, st: State, r: nat, provider: string, k: nat) returns (keys: seq<string>)
    requires AllRetryable(st.attempts) && AllTried(st, r, k) && k <= env.cfg.KeyRetries() + 1
    ensures var f := KeyLevel(env, st, r, provider, env.proxy(r, provider).Pooled?, k);
            f.Next? && CanRetry(env, f.st) ==>
              && k + |keys| <= env.cfg.KeyRetries() + 1
              && (forall m :: 0 <= m < |keys| ==> KeySpent(f.st.attempts, r, k + m, provider, keys[m], env.cfg.SameKeyRetries() + 1))
              && (k + |keys| < env.cfg.KeyRetries() + 1 ==> NoKeyLeft(env, f.st.attempts, r, k + |keys|, provider))
              && AllTried(f.st, r, k + |keys|)
    decreases env.cfg.KeyRetries() + 1 - k
  {
    hide SameKeyLevel, SelectKey, AllTried, KeySpent, NoKeyLeft, AllRetryable;
    var pooled := env.proxy(r, provider).Pooled?;
    keys := [];
    var key := SelectKey(env, st, provider, pooled, r, k);
    if k <= env.cfg.KeyRetries() {
      if key.None? {
        NoneDrawn(env, st, provider, r, k);
      } else {
        SameKeyAdds(env, st, r, k, provider, key.value, pooled, 0);
        SameKeySpends(env, st, r, k, provider, key.value, pooled, 0);
        var f := SameKeyLevel(env, st, r, k, provider, key.value, pooled, 0);
        if f.Next? && CanRetry(env, f.st) {
          KeyIsSpent(env, st.attempts, f.st.attempts, r, k, provider, key.value, env.cfg.SameKeyRetries() + 1);
          ExcludedTried(st, f.st, r, k, provider, key.value);
          var next := ExcludeKey(f.st, provider, key.value);
          var rest := KeySpends(env, next, r, provider, k + 1);
          KeyAdds(env, next, r, provider, pooled, k + 1);
          keys := [key.value] + rest;
          SpentStays(f.st.attempts, KeyLevel(env, next, r, provider, pooled, k + 1).st.attempts,
                     r, k, provider, key.value, env.cfg.SameKeyRetries() + 1);
        }
      }
    }
  }

  lemma SpentStays(before: seq<Attempt>, after: seq<Attempt>, r: nat, k: nat, provider: string, key: string, tries: nat)
    requires before <= after && KeySpent(before, r, k, provider, key, tries)
    ensures KeySpent(after, r, k, provider, key, tries)
  {
    var lo: nat, hi: nat :| KeyRun(before, lo, hi, r, k, provider, key)
                            && (hi - lo == tries || before[hi - 1].Status() == 403);
    RunStays(before, after, lo, hi, r, k, provider, key);
  }

  lemma RunStays(before: seq<Attempt>, after: seq<Attempt>, lo: nat, hi: nat, r: nat, k: nat, provider: string, key: string)
    requires before <= after && KeyRun(before, lo, hi, r, k, provider, key)
    ensures KeyRun(after, lo, hi, r, k, provider, key) && after[hi - 1] == before[hi - 1]
  {
    assert forall j :: lo <= j < hi ==> after[j] == before[j];
  }

  lemma TriedStays(before: seq<Attempt>, after: seq<Attempt>, r: nat, k: nat, provider: string, key: string)
    requires before <= after && Tried(before, r, k, provider, key)
    ensures Tried(after, r, k, provider, key)
  {
    var j :| 0 <= j < |before| && Before(before[j], r, k)
             && before[j].provider + ":" + before[j].keyID == provider + ":" + key;
    assert after[j] == before[j];
  }

  lemma NoKeyStays(env: Env, before: seq<Attempt>, after: seq<Attempt>, r: nat, k: nat, provider: string)
    requires before <= after && NoKeyLeft(env, before, r, k, provider)
    ensures NoKeyLeft(env, after, r, k, provider)
  {
    hide Tried;
    var d: nat :| (d == 3 || (d < 3 && env.getKey(r, k, d) == None)) && DrawsTried(env, before, r, k, provider, d);
    forall e: nat | e < d ensures Tried(after, r, k, provider, env.getKey(r, k, e).value) {
      TriedStays(before, after, r, k, provider, env.getKey(r, k, e).value);
    }
    assert DrawsTried(env, after, r, k, provider, d);
  }

  lemma AllSpentStays(env: Env, before: seq<Attempt>, after: seq<Attempt>, visits: seq<Visit>, slots: nat, tries: nat)
    requires WellBehaved(env) && before <= after && AllSpent(env, before, visits, slots, tries)
    ensures AllSpent(env, after, visits, slots, tries)
  {
    hide Chosen, KeySpent, NoKeyLeft;
    forall r | 0 <= r < |visits| ensures VisitSpent(env, after, r, visits[r], slots, tries) {
      var v := visits[r];
      forall k | 0 <= k < |v.keys| ensures KeySpent(after, r, k, v.provider, v.keys[k], tries) {
        SpentStays(before, after, r, k, v.provider, v.keys[k], tries);
      }
      if |v.keys| < slots {
        NoKeyStays(env, before, after, r, |v.keys|, v.provider);
      }
    }
  }

  // ----- The rounds -----------------------------------------------------------------------

  lemma VisitIsSpent(env: Env, attempts: seq<Attempt>, r: nat, v: Visit, slots: nat, tries: nat)
    requires |v.keys| <= slots
    requires forall m :: 0 <= m < |v.keys| ==> KeySpent(attempts, r, 0 + m, v.provider, v.keys[m], tries)
    requires |v.keys| < slots ==> NoKeyLeft(env, attempts, r, 0 + |v.keys|, v.provider)
    ensures VisitSpent(env, attempts, r, v, slots, tries)
  {
    hide KeySpent, NoKeyLeft;
    forall k | 0 <= k < |v.keys| ensures KeySpent(attempts, r, k, v.provider, v.keys[k], tries) {
      assert 0 + k == k;
    }
  }

  /** What was tried in one round was tried before the next. */
  lemma TriedByRound(st: State, r: nat, k: nat, provider: string)
    requires AllTried(st, r, k)
    ensures AllTried(ExcludeProvider(st, provider), r + 1, 0)
  {
    forall x | x in st.excludedKeys
      ensures exists j :: 0 <= j < |st.attempts| && Before(st.attempts[j], r + 1, 0)
                          && st.attempts[j].provider + ":" + st.attempts[j].keyID == x
    {
      var j :| 0 <= j < |st.attempts| && Before(st.attempts[j], r, k)
               && st.attempts[j].provider + ":" + st.attempts[j].keyID == x;
      assert Before(st.attempts[j], r + 1, 0);
    }
  }

  lemma OneMoreVisit(env: Env, st: State, visits: seq<Visit>, v: Visit, slots: nat, tries: nat)
    requires WellBehaved(env)
    requires AllSpent(env, st.attempts, visits, slots, tries) && VisitSpent(env, st.attempts, |visits|, v, slots, tries)
    requires Chosen(env, visits) == Some(v.provider) && !env.proxy(|visits|, v.provider).ProxyError?
    ensures AllSpent(env, st.attempts, visits + [v], slots, tries)
    ensures Providers(visits + [v]) == Providers(visits) + {v.provider}
  {
    hide Chosen, VisitSpent;
    var all := visits + [v];
    forall r | 0 <= r < |all|
      ensures Chosen(env, all[..r]) == Some(all[r].provider) && VisitSpent(env, st.attempts, r, all[r], slots, tries)
    {
      assert all[..r] == visits[..r];
      assert visits[..|visits|] == visits;
    }
    forall p ensures p in Providers(all) <==> p in Providers(visits) + {v.provider} {
      if p in Providers(visits) {
        var u :| u in visits && u.provider == p;
        assert u in all;
      }
      assert v in all;
    }
  }

  ghost predicate Retryable(f: Flow) {
    f.st.attempts == [] || f.st.attempts[|f.st.attempts| - 1].Status() in {429, 403}
  }

  lemma {:induction false} ProviderSpends(env: Env, st: State, before: seq<Visit>) returns (visits: seq<Visit>)
    requires WellBehaved(env) && AllRetryable(st.attempts) && CanRetry(env, st)
    requires |before| <= env.cfg.ProviderRetries() + 1 && AllTried(st, |before|, 0)
    requires st.excludedProviders == Providers(before)
    requires AllSpent(env, st.attempts, before, env.cfg.KeyRetries() + 1, env.cfg.SameKeyRetries() + 1)
    ensures var f := ProviderLevel(env, st, |before|);
            Retryable(f) && CanRetry(env, f.st) ==>
              && |visits| <= env.cfg.ProviderRetries() + 1
              && AllSpent(env, f.st.attempts, visits, env.cfg.KeyRetries() + 1, env.cfg.SameKeyRetries() + 1)
              && (|visits| < env.cfg.ProviderRetries() + 1 ==>
                    Chosen(env, visits) == None || env.proxy(|visits|, Chosen(env, visits).value).ProxyError?)
              && (f.st.attempts == [] ==>
                    f.answer == LocalError(if |visits| == env.cfg.ProviderRetries() + 1 then NothingTried
                                           else if Chosen(env, visits) == None then SelectionFailed
                                           else ProxyFailed))
    decreases env.cfg.ProviderRetries() + 1 - |before|
  {
    hide KeyLevel, SelectProvider, AllTried, AllSpent, VisitSpent, AllRetryable;
    var r := |before|;
    visits := before;
    SelectIgnoresOthers(env, st, {}, [], r);
    var p := SelectProvider(env, st, r);
    assert Chosen(env, before) == p;
    if r <= env.cfg.ProviderRetries() && p.Some? && !env.proxy(r, p.value).ProxyError? {
      var pooled := env.proxy(r, p.value).Pooled?;
      KeyAdds(env, st, r, p.value, pooled, 0);
      var keys := KeySpends(env, st, r, p.value, 0);
      var f := KeyLevel(env, st, r, p.value, pooled, 0);
      if f.Next? && CanRetry(env, f.st) {
        var v := Visit(p.value, keys);
        VisitIsSpent(env, f.st.attempts, r, v, env.cfg.KeyRetries() + 1, env.cfg.SameKeyRetries() + 1);
        AllSpentStays(env, st.attempts, f.st.attempts, before, env.cfg.KeyRetries() + 1, env.cfg.SameKeyRetries() + 1);
        OneMoreVisit(env, f.st, before, v, env.cfg.KeyRetries() + 1, env.cfg.SameKeyRetries() + 1);
        TriedByRound(f.st, r, |keys|, p.value);
        visits := ProviderSpends(env, ExcludeProvider(f.st, p.value), before + [v]);
      }
    }
  }

  /** The relay never gives up early. If the request ends without an answer other than 429 and 403,
      then the configured number of attempts was made, or else every round ran its course: it went
      to the provider that selection named, each of its key slots got all its attempts or a 403 or
      found no untried key, and after fewer rounds than configured there was no provider, or no
      proxy for it. The error of a request that was never attempted tells these two apart. */
  lemma NeverGivesUpEarly(env: Env) returns (visits: seq<Visit>)
    requires WellBehaved(env)
    requires Run(env).st.attempts != [] ==> LastOf(Run(env).st).Status() == 429 || LastOf(Run(env).st).Status() == 403
    ensures var attempts := Run(env).st.attempts;
            var cfg := env.cfg;
            var rounds := if cfg.providerRetries <= 0 then 2 else cfg.providerRetries + 1;
            var slots := if cfg.keyRetries <= 0 then 3 else cfg.keyRetries + 1;
            var tries := if cfg.sameKeyRetries <= 0 then 2 else cfg.sameKeyRetries + 1;
            || |attempts| == (if cfg.maxTotalAttempts <= 0 then 5 else cfg.maxTotalAttempts)
            || (&& |visits| <= rounds
                && AllSpent(env, attempts, visits, slots, tries)
                && (|visits| < rounds ==> Chosen(env, visits) == None || env.proxy(|visits|, Chosen(env, visits).value).ProxyError?)
                && (attempts == [] ==>
                      BufferedDelivery(env).statuses == [if |visits| < rounds && Chosen(env, visits).Some? then 500 else 503]))
  {
    hide ProviderLevel, SelectProvider, StatusOf;
    assert AllSpent(env, START.attempts, [], env.cfg.KeyRetries() + 1, env.cfg.SameKeyRetries() + 1);
    visits := ProviderSpends(env, START, []);
    ProviderBound(env, START, 0);
    RunShape(env);
  }

  // ----- Enough of everything -------------------------------------------------------------

  /** The identifier drawn first at this slot. */
  ghost function FirstKey(env: Env, r: nat, k: nat): string
    requires env.getKey(r, k, 0).Some?
  {
    env.getKey(r, k, 0).value
  }

  /** The pools never run dry: each slot draws a new key at once. Identifiers have no colon, so a
      key is new whichever provider it belongs to. */
  ghost predicate FreshKeys(env: Env) {
    && (forall r: nat, k: nat :: env.getKey(r, k, 0).Some? && ':' !in FirstKey(env, r, k) && FirstKey(env, r, k) != "default")
    && forall r: nat, k: nat, r': nat, k': nat :: (r, k) != (r', k') ==> FirstKey(env, r, k) != FirstKey(env, r', k')
  }

  /** No proxy fails, and there is a default provider, or the router always answers and more
      candidates have keys than there are rounds. */
  ghost predicate EnoughProviders(env: Env, rounds: nat) {
    && (forall r: nat, p: string :: !env.proxy(r, p).ProxyError?)
    && (forall r: nat, cs: seq<string> :: cs != [] ==> env.route(r, cs).Some?)
    && forall r: nat :: match env.candidates(r)
                        case None => env.defaultProvider.Some?
                        case Some(all) => |set c | c in all && env.hasKeys(r, c)| >= rounds
  }

  ghost predicate AlwaysLimited(env: Env) {
    forall n: nat, p: string, key: string, body: Option<string> :: StatusOf(env.backend(n, p, key, body)) == 429
  }

  function Min(a: int, b: int): int {
    if a <= b then a else b
  }

  /** Nothing but keys of earlier slots is excluded. */
  ghost predicate OldKeys(env: Env, excluded: set<string>, r: nat, k: nat)
    requires FreshKeys(env)
  {
    forall x :: x in excluded ==> exists p: string, key: string :: x == p + ":" + key && OldKey(env, key, r, k)
  }

  ghost predicate OldKey(env: Env, key: string, r: nat, k: nat)
    requires FreshKeys(env)
  {
    key == "default" || exists r': nat, k': nat :: (r' < r || (r' == r && k' < k)) && key == FirstKey(env, r', k')
  }

  lemma {:induction false} SameKeyFull(env: Env, st: State, r: nat, k: nat, provider: string, keyID: string, pooled: bool, s: nat)
    requires AlwaysLimited(env) && s <= env.cfg.SameKeyRetries() + 1 && |st.attempts| <= env.cfg.MaxTotalAttempts()
    ensures var f := SameKeyLevel(env, st, r, k, provider, keyID, pooled, s);
            && f.Next? && f.st.excludedKeys == st.excludedKeys && f.st.excludedProviders == st.excludedProviders
            && |f.st.attempts| == Min(|st.attempts| + (env.cfg.SameKeyRetries() + 1 - s), env.cfg.MaxTotalAttempts())
    decreases env.cfg.SameKeyRetries() + 1 - s
  {
    hide StatusOf;
    if s <= env.cfg.SameKeyRetries() && CanRetry(env, st) {
      SameKeyFull(env, Record(env, st, r, k, provider, keyID, pooled), r, k, provider, keyID, pooled, s + 1);
    }
  }

  /** The text behind the last colon is told by the whole. */
  lemma AfterColon(p: string, a: string, q: string, b: string)
    requires ':' !in a && ':' !in b && p + ":" + a == q + ":" + b
    ensures a == b
  {
    LastColon(p, a);
    LastColon(q, b);
    assert a == (p + ":" + a)[|p| + 1..] && b == (q + ":" + b)[|q| + 1..];
  }

  lemma LastColon(p: string, a: string)
    requires ':' !in a
    ensures (p + ":" + a)[|p|] == ':'
    ensures forall i :: |p| < i < |p + ":" + a| ==> (p + ":" + a)[i] != ':'
  {
    forall i | |p| < i < |p + ":" + a| ensures (p + ":" + a)[i] != ':' {
      assert (p + ":" + a)[i] == a[i - |p| - 1];
    }
  }

  lemma NewKey(env: Env, st: State, provider: string, r: nat, k: nat)
    requires FreshKeys(env) && OldKeys(env, st.excludedKeys, r, k)
    ensures SelectKey(env, st, provider, true, r, k) == Some(FirstKey(env, r, k))
  {
    var key := FirstKey(env, r, k);
    if JoinKey(provider, key) in st.excludedKeys {
      var p: string, former: string :| provider + ":" + key == p + ":" + former && OldKey(env, former, r, k);
      assert ':' !in former;
      AfterColon(provider, key, p, former);
      assert false;
    }
  }

  lemma OldKeysGrow(env: Env, st: State, provider: string, key: string, r: nat, k: nat)
    requires FreshKeys(env) && OldKeys(env, st.excludedKeys, r, k) && (key == "default" || key == FirstKey(env, r, k))
    ensures OldKeys(env, ExcludeKey(st, provider, key).excludedKeys, r, k + 1)
  {
    assert OldKey(env, key, r, k + 1);
    forall x | x in ExcludeKey(st, provider, key).excludedKeys
      ensures exists p: string, former: string :: x == p + ":" + former && OldKey(env, former, r, k + 1)
    {
      if x in st.excludedKeys {
        var p: string, former: string :| x == p + ":" + former && OldKey(env, former, r, k);
        assert OldKey(env, former, r, k + 1);
      } else {
        assert x == provider + ":" + key;
      }
    }
  }

  lemma {:induction false} KeyFull(env: Env, st: State, r: nat, provider: string, pooled: bool, k: nat)
    requires AlwaysLimited(env) && FreshKeys(env) && OldKeys(env, st.excludedKeys, r, k)
    requires k <= env.cfg.KeyRetries() + 1 && |st.attempts| <= env.cfg.MaxTotalAttempts()
    ensures var f := KeyLevel(env, st, r, provider, pooled, k);
            && f.Next? && f.st.excludedProviders == st.excludedProviders
            && |f.st.attempts| == Min(|st.attempts| + (env.cfg.KeyRetries() + 1 - k) * (env.cfg.SameKeyRetries() + 1),
                                      env.cfg.MaxTotalAttempts())
            && (CanRetry(env, f.st) ==> OldKeys(env, f.st.excludedKeys, r, env.cfg.KeyRetries() + 1))
    decreases env.cfg.KeyRetries() + 1 - k, 1
  {
    if k > env.cfg.KeyRetries() {
      assert KeyLevel(env, st, r, provider, pooled, k) == Next(st);
    } else {
      OneMoreKey(env, st, r, provider, pooled, k);
    }
  }

  lemma OneMoreKey(env: Env, st: State, r: nat, provider: string, pooled: bool, k: nat)
    requires AlwaysLimited(env) && FreshKeys(env) && OldKeys(env, st.excludedKeys, r, k)
    requires k <= env.cfg.KeyRetries() && |st.attempts| <= env.cfg.MaxTotalAttempts()
    ensures var f := KeyLevel(env, st, r, provider, pooled, k);
            && f.Next? && f.st.excludedProviders == st.excludedProviders
            && |f.st.attempts| == Min(|st.attempts| + (env.cfg.KeyRetries() + 1 - k) * (env.cfg.SameKeyRetries() + 1),
                                      env.cfg.MaxTotalAttempts())
            && (CanRetry(env, f.st) ==> OldKeys(env, f.st.excludedKeys, r, env.cfg.KeyRetries() + 1))
    decreases env.cfg.KeyRetries() + 1 - k, 0
  {
    hide *;
    var m, most, slots := env.cfg.SameKeyRetries() + 1, env.cfg.MaxTotalAttempts(), env.cfg.KeyRetries() + 1;
    var key := TakesKey(env, st, provider, pooled, r, k);
    SameKeyFull(env, st, r, k, provider, key, pooled, 0);
    KeyOf(env, st, r, provider, pooled, k, key);
    var f := SameKeyLevel(env, st, r, k, provider, key, pooled, 0);
    var next := ExcludeKey(f.st, provider, key);
    OldKeysGrow(env, f.st, provider, key, r, k);
    assert |next.attempts| == Min(|st.attempts| + m, most);
    MinStep(|st.attempts|, slots, k, m, most);
    if CanRetry(env, next) {
      KeyFull(env, next, r, provider, pooled, k + 1);
    }
  }

  lemma KeyOf(env: Env, st: State, r: nat, provider: string, pooled: bool, k: nat, key: string)
    requires k <= env.cfg.KeyRetries() && SelectKey(env, st, provider, pooled, r, k) == Some(key)
    requires SameKeyLevel(env, st, r, k, provider, key, pooled, 0).Next?
    ensures var f := SameKeyLevel(env, st, r, k, provider, key, pooled, 0);
            var next := ExcludeKey(f.st, provider, key);
            && KeyLevel(env, st, r, provider, pooled, k)
               == (if CanRetry(env, next) then KeyLevel(env, next, r, provider, pooled, k + 1) else Next(next))
            && (CanRetry(env, next) <==> |f.st.attempts| < env.cfg.MaxTotalAttempts())
            && next.attempts == f.st.attempts && next.excludedProviders == f.st.excludedProviders
  {
    hide SameKeyLevel, SelectKey;
  }

  lemma TakesKey(env: Env, st: State, provider: string, pooled: bool, r: nat, k: nat) returns (key: string)
    requires FreshKeys(env) && OldKeys(env, st.excludedKeys, r, k)
    ensures SelectKey(env, st, provider, pooled, r, k) == Some(key)
    ensures key == "default" || key == FirstKey(env, r, k)
  {
    key := if pooled then FirstKey(env, r, k) else "default";
    NewKey(env, st, provider, r, k);
  }

  lemma OldKeysNextRound(env: Env, excluded: set<string>, r: nat, k: nat)
    requires FreshKeys(env) && OldKeys(env, excluded, r, k)
    ensures OldKeys(env, excluded, r + 1, 0)
  {
    forall x | x in excluded
      ensures exists p: string, former: string :: x == p + ":" + former && OldKey(env, former, r + 1, 0)
    {
      var p: string, former: string :| x == p + ":" + former && OldKey(env, former, r, k);
      assert OldKey(env, former, r + 1, 0);
    }
  }

  /** A larger set has a member that a smaller one has not. */
  lemma NotAll(a: set<string>, b: set<string>) returns (x: string)
    requires |a| > |b|
    ensures x in a && x !in b
  {
    if forall y :: y in a ==> y in b {
      Subset(a, b);
      assert false;
    }
    x :| x in a && x !in b;
  }

  lemma {:induction false} Subset(a: set<string>, b: set<string>)
    requires a <= b
    ensures |a| <= |b|
    decreases a
  {
    if a != {} {
      var x :| x in a;
      Subset(a - {x}, b - {x});
    }
  }

  lemma TakesProvider(env: Env, st: State, r: nat, rounds: nat)
    requires WellBehaved(env) && EnoughProviders(env, rounds) && |st.excludedProviders| < rounds
    ensures SelectProvider(env, st, r).Some? && !env.proxy(r, SelectProvider(env, st, r).value).ProxyError?
  {
    if env.candidates(r).Some? {
      var withKeys := set c | c in env.candidates(r).value && env.hasKeys(r, c);
      var c := NotAll(withKeys, st.excludedProviders);
      SelectsEligible(env, st, r);
      assert Eligible(env, st, r, c);
    }
  }

  lemma {:induction false} ProviderFull(env: Env, st: State, r: nat)
    requires WellBehaved(env) && AlwaysLimited(env) && FreshKeys(env) && EnoughProviders(env, env.cfg.ProviderRetries() + 1)
    requires r <= env.cfg.ProviderRetries() + 1 && |st.attempts| <= env.cfg.MaxTotalAttempts()
    requires OldKeys(env, st.excludedKeys, r, 0) && |st.excludedProviders| <= r
    ensures var perProvider := (env.cfg.KeyRetries() + 1) * (env.cfg.SameKeyRetries() + 1);
            |ProviderLevel(env, st, r).st.attempts|
            == Min(|st.attempts| + (env.cfg.ProviderRetries() + 1 - r) * perProvider, env.cfg.MaxTotalAttempts())
    decreases env.cfg.ProviderRetries() + 1 - r, 1
  {
    if r > env.cfg.ProviderRetries() {
      assert ProviderLevel(env, st, r).st == st;
    } else {
      OneMoreRound(env, st, r);
    }
  }

  lemma OneMoreRound(env: Env, st: State, r: nat)
    requires WellBehaved(env) && AlwaysLimited(env) && FreshKeys(env) && EnoughProviders(env, env.cfg.ProviderRetries() + 1)
    requires r <= env.cfg.ProviderRetries() && |st.attempts| <= env.cfg.MaxTotalAttempts()
    requires OldKeys(env, st.excludedKeys, r, 0) && |st.excludedProviders| <= r
    ensures var perProvider := (env.cfg.KeyRetries() + 1) * (env.cfg.SameKeyRetries() + 1);
            |ProviderLevel(env, st, r).st.attempts|
            == Min(|st.attempts| + (env.cfg.ProviderRetries() + 1 - r) * perProvider, env.cfg.MaxTotalAttempts())
    decreases env.cfg.ProviderRetries() + 1 - r, 0
  {
    hide *;
    var m := (env.cfg.KeyRetries() + 1) * (env.cfg.SameKeyRetries() + 1);
    var most, rounds := env.cfg.MaxTotalAttempts(), env.cfg.ProviderRetries() + 1;
    TakesProvider(env, st, r, env.cfg.ProviderRetries() + 1);
    var p := SelectProvider(env, st, r).value;
    KeyFull(env, st, r, p, env.proxy(r, p).Pooled?, 0);
    RoundOf(env, st, r, p);
    var next := ExcludeProvider(KeyLevel(env, st, r, p, env.proxy(r, p).Pooled?, 0).st, p);
    assert |next.attempts| == Min(|st.attempts| + m, most);
    MinStep(|st.attempts|, rounds, r, m, most);
    if CanRetry(env, next) {
      OldKeysNextRound(env, next.excludedKeys, r, env.cfg.KeyRetries() + 1);
      ProviderFull(env, next, r + 1);
    }
  }

  lemma RoundOf(env: Env, st: State, r: nat, p: string)
    requires WellBehaved(env) && r <= env.cfg.ProviderRetries()
    requires SelectProvider(env, st, r) == Some(p) && !env.proxy(r, p).ProxyError?
    requires KeyLevel(env, st, r, p, env.proxy(r, p).Pooled?, 0).Next?
    ensures var f := KeyLevel(env, st, r, p, env.proxy(r, p).Pooled?, 0);
            var next := ExcludeProvider(f.st, p);
            && ProviderLevel(env, st, r).st == (if CanRetry(env, next) then ProviderLevel(env, next, r + 1).st else next)
            && (CanRetry(env, next) <==> |f.st.attempts| < env.cfg.MaxTotalAttempts())
            && (CanRetry(env, next) <==> CanRetry(env, f.st))
            && next.attempts == f.st.attempts && next.excludedKeys == f.st.excludedKeys
            && next.excludedProviders == f.st.excludedProviders + {p}
  {
    hide KeyLevel, SelectProvider;
  }

  lemma MinStep(n: nat, rounds: nat, r: nat, m: nat, most: nat)
    requires n <= most && r < rounds
    ensures Min(n + m, most) <= most
    ensures Min(n + m, most) == most ==> Min(n + (rounds - r) * m, most) == most
    ensures Min(n + m, most) < most ==> Min(Min(n + m, most) + (rounds - (r + 1)) * m, most) == Min(n + (rounds - r) * m, most)
  {
    Distribute(rounds - r - 1, m);
    assert (rounds - r - 1) * m >= 0;
  }

  /** Both limits are reached: when every answer is 429 and there are always a provider and a new key
      to turn to, the backends are asked exactly as often as the configuration allows. */
  lemma UsesEveryAttempt(env: Env)
    requires WellBehaved(env) && AlwaysLimited(env) && FreshKeys(env)
    requires EnoughProviders(env, if env.cfg.providerRetries <= 0 then 2 else env.cfg.providerRetries + 1)
    ensures var cfg := env.cfg;
            var rounds := if cfg.providerRetries <= 0 then 2 else cfg.providerRetries + 1;
            var slots := if cfg.keyRetries <= 0 then 3 else cfg.keyRetries + 1;
            var tries := if cfg.sameKeyRetries <= 0 then 2 else cfg.sameKeyRetries + 1;
            |Run(env).st.attempts| == Min(rounds * (slots * tries), if cfg.maxTotalAttempts <= 0 then 5 else cfg.maxTotalAttempts)
  {
    hide ProviderLevel;
    ProviderFull(env, START, 0);
  }
}
