/** The three-level retry protocol as a function of its environment: same key, then
    another key of the provider, then another provider. The four retry loops of the
    source are all instances of it. */
module RetryProtocol {
  import opened Options
  import opened Peek

  datatype RetryConfig = RetryConfig(sameKeyRetries: int, keyRetries: int, providerRetries: int, maxTotalAttempts: int)
  {
    function SameKeyRetries(): nat { if sameKeyRetries <= 0 then 1 else sameKeyRetries }
    function KeyRetries(): nat { if keyRetries <= 0 then 2 else keyRetries }
    function ProviderRetries(): nat { if providerRetries <= 0 then 1 else providerRetries }
    function MaxTotalAttempts(): nat { if maxTotalAttempts <= 0 then 5 else maxTotalAttempts }
  }

  /** Why the relay answers on its own. */
  datatype LocalFailure = SelectionFailed | ProxyFailed | NothingTried
  {
    function Code(): StatusCode { if ProxyFailed? then 500 else 503 }
  }

  datatype ProxyInfo = ProxyError | Pooled | SingleKey

  /** Every answer the loops ask the outside world for, indexed by when they ask.
      `candidates` is None when there is no router or nothing to route over; then the
      default provider serves, if the handler has one (the OpenAI handler has none).
      `body` is the request body after the request pass, `original` the one before it, and
      `strip` the provider-switch pass. */
  datatype Env = Env(
    cfg: RetryConfig,
    candidates: nat -> Option<seq<string>>,
    defaultProvider: Option<string>,
    hasKeys: (nat, string) -> bool,
    healthy: (nat, string) -> bool,
    route: (nat, seq<string>) -> Option<nat>,
    proxy: (nat, string) -> ProxyInfo,
    getKey: (nat, nat, nat) -> Option<string>,
    backend: (nat, string, string, Option<string>) -> seq<Action>,
    hasThinking: bool,
    body: Option<string>,
    original: Option<string>,
    strip: string -> string,
    errorBody: (bool, LocalFailure) -> string
  )

  /** A router answers with one of the candidates it was given, or an error. */
  ghost predicate WellBehaved(env: Env) {
    forall r: nat, cs: seq<string> {:trigger env.route(r, cs)} ::
      env.route(r, cs).Some? ==> env.route(r, cs).value < |cs|
  }

  /** One attempt: where it was made, and what the backend did. */
  datatype Attempt = Attempt(round: nat, slot: nat, provider: string, keyID: string, pooled: bool,
                             sent: Option<string>, script: seq<Action>)
  {
    function Status(): int { StatusOf(script) }
    function Key(): string { JoinKey(provider, keyID) }
  }

  function JoinKey(provider: string, keyID: string): string {
    provider + ":" + keyID
  }

  datatype State = State(excludedProviders: set<string>, excludedKeys: set<string>, attempts: seq<Attempt>)

  const START := State({}, {}, [])

  predicate CanRetry(env: Env, st: State) {
    |st.attempts| < env.cfg.MaxTotalAttempts()
  }

  /** What the client gets: the last attempt's answer, or an error made here. */
  datatype Answer = LastAttempt | LocalError(why: LocalFailure)

  /** A level either leaves the decision to the level above or has ended the request. */
  datatype Flow = Next(st: State) | Finished(st: State, answer: Answer)

  function Filter(cs: seq<string>, keep: string -> bool): (r: seq<string>)
    ensures forall c :: c in r <==> c in cs && keep(c)
    ensures |r| <= |cs|
  {
    if cs == [] then []
    else (if keep(cs[0]) then [cs[0]] else []) + Filter(cs[1..], keep)
  }

  /** Thinking affinity: the first healthy candidate only, when there is one. */
  function Affinity(env: Env, r: nat, cs: seq<string>): (a: seq<string>)
    ensures forall c :: c in a ==> c in cs
  {
    if !env.hasThinking || |cs| <= 1 then cs
    else
      var healthy := Filter(cs, c => env.healthy(r, c));
      if |healthy| > 0 then
        assert healthy[0] in healthy;
        healthy[..1]
      else cs
  }

  function SelectProvider(env: Env, st: State, r: nat): (p: Option<string>)
    requires WellBehaved(env)
    ensures env.candidates(r).Some? && p.Some? ==> p.value in env.candidates(r).value && p.value !in st.excludedProviders
  {
    match env.candidates(r)
    case None => env.defaultProvider
    case Some(all) =>
      var available := Filter(all, c => env.hasKeys(r, c));
      var usable := Filter(available, c => c !in st.excludedProviders);
      var cs := Affinity(env, r, usable);
      if cs == [] then None
      else
        match env.route(r, cs)
        case None => None
        case Some(i) =>
          assert cs[i] in cs;
          Some(cs[i])
  }

  /** Up to three draws from the pool, skipping excluded keys; an empty pool ends it. */
  function DrawKey(env: Env, st: State, provider: string, r: nat, k: nat, draw: nat): (key: Option<string>)
    ensures key.Some? ==> JoinKey(provider, key.value) !in st.excludedKeys
    decreases 3 - draw
  {
    if draw >= 3 then None
    else
      match env.getKey(r, k, draw)
      case None => None
      case Some(kid) =>
        if JoinKey(provider, kid) !in st.excludedKeys then Some(kid)
        else DrawKey(env, st, provider, r, k, draw + 1)
  }

  function SelectKey(env: Env, st: State, provider: string, pooled: bool, r: nat, k: nat): Option<string> {
    if pooled then DrawKey(env, st, provider, r, k, 0) else Some("default")
  }

  /** The body of an attempt in round `r`: rounds after the first send the stripped original. */
  function Sent(env: Env, r: nat): Option<string> {
    if env.body.Some? && r > 0 && env.hasThinking && env.original.Some? then Some(env.strip(env.original.value))
    else env.body
  }

  function Record(env: Env, st: State, r: nat, k: nat, provider: string, keyID: string, pooled: bool): State {
    var sent := Sent(env, r);
    var script := env.backend(|st.attempts|, provider, keyID, sent);
    st.(attempts := st.attempts + [Attempt(r, k, provider, keyID, pooled, sent, script)])
  }

  // ----- The three levels -----------------------------------------------------------------

  function SameKeyLevel(env: Env, st: State, r: nat, k: nat, provider: string, keyID: string, pooled: bool, s: nat): (f: Flow)
    ensures f.Finished? ==> f.answer.LastAttempt? && f.st.attempts != []
    decreases env.cfg.SameKeyRetries() + 1 - s
  {
    if s > env.cfg.SameKeyRetries() || !CanRetry(env, st) then Next(st)
    else
      var st' := Record(env, st, r, k, provider, keyID, pooled);
      var status := st'.attempts[|st.attempts|].Status();
      if !IsRetryableStatusCode(status) then Finished(st', LastAttempt)
      else if status == 403 then Next(st')
      else SameKeyLevel(env, st', r, k, provider, keyID, pooled, s + 1)
  }

  function KeyLevel(env: Env, st: State, r: nat, provider: string, pooled: bool, k: nat): (f: Flow)
    ensures f.Finished? ==> f.answer.LastAttempt? && f.st.attempts != []
    decreases env.cfg.KeyRetries() + 1 - k
  {
    if k > env.cfg.KeyRetries() then Next(st)
    else
      match SelectKey(env, st, provider, pooled, r, k)
      case None => Next(st)
      case Some(keyID) =>
        match SameKeyLevel(env, st, r, k, provider, keyID, pooled, 0)
        case Finished(st', a) => Finished(st', a)
        case Next(st') =>
          var excluded := ExcludeKey(st', provider, keyID);
          if !CanRetry(env, excluded) then Next(excluded)
          else KeyLevel(env, excluded, r, provider, pooled, k + 1)
  }

  function ExcludeKey(st: State, provider: string, keyID: string): State {
    st.(excludedKeys := st.excludedKeys + {JoinKey(provider, keyID)})
  }

  function ExcludeProvider(st: State, provider: string): State {
    st.(excludedProviders := st.excludedProviders + {provider})
  }

  /** The last attempt's answer if there was one, or else a local error. */
  function GiveUp(st: State, why: LocalFailure): Flow {
    Finished(st, if st.attempts != [] then LastAttempt else LocalError(why))
  }

  function ProviderLevel(env: Env, st: State, r: nat): (f: Flow)
    requires WellBehaved(env)
    ensures f.Finished?
    ensures f.answer.LastAttempt? ==> f.st.attempts != []
    decreases env.cfg.ProviderRetries() + 1 - r
  {
    if r > env.cfg.ProviderRetries() then GiveUp(st, NothingTried)
    else
      match SelectProvider(env, st, r)
      case None => GiveUp(st, SelectionFailed)
      case Some(provider) =>
        if env.proxy(r, provider).ProxyError? then GiveUp(st, ProxyFailed)
        else
          match KeyLevel(env, st, r, provider, env.proxy(r, provider).Pooled?, 0)
          case Finished(st', a) => Finished(st', a)
          case Next(st') =>
            var excluded := ExcludeProvider(st', provider);
            if !CanRetry(env, excluded) then GiveUp(excluded, NothingTried)
            else ProviderLevel(env, excluded, r + 1)
  }

  function Run(env: Env): (f: Flow)
    requires WellBehaved(env)
    ensures f.Finished?
    ensures f.answer.LastAttempt? ==> f.st.attempts != []
  {
    ProviderLevel(env, START, 0)
  }

  // ----- Attempts are bounded ------------------------------------------------------------

  function Made(before: State, flow: Flow): int {
    |flow.st.attempts| - |before.attempts|
  }

  lemma {:induction false} SameKeyBound(env: Env, st: State, r: nat, k: nat, provider: string, keyID: string, pooled: bool, s: nat)
    requires s <= env.cfg.SameKeyRetries() + 1
    requires |st.attempts| <= env.cfg.MaxTotalAttempts()
    ensures var f := SameKeyLevel(env, st, r, k, provider, keyID, pooled, s);
            && 0 <= Made(st, f) <= env.cfg.SameKeyRetries() + 1 - s
            && |f.st.attempts| <= env.cfg.MaxTotalAttempts()
    decreases env.cfg.SameKeyRetries() + 1 - s
  {
    hide StatusOf;
    if s <= env.cfg.SameKeyRetries() && CanRetry(env, st) {
      SameKeyBound(env, Record(env, st, r, k, provider, keyID, pooled), r, k, provider, keyID, pooled, s + 1);
    }
  }

  lemma Distribute(n: int, m: int)
    ensures (n + 1) * m == n * m + m
  {
  }

  lemma {:induction false} KeyBound(env: Env, st: State, r: nat, provider: string, pooled: bool, k: nat)
    requires k <= env.cfg.KeyRetries() + 1
    requires |st.attempts| <= env.cfg.MaxTotalAttempts()
    ensures var f := KeyLevel(env, st, r, provider, pooled, k);
            && 0 <= Made(st, f) <= (env.cfg.KeyRetries() + 1 - k) * (env.cfg.SameKeyRetries() + 1)
            && |f.st.attempts| <= env.cfg.MaxTotalAttempts()
    decreases env.cfg.KeyRetries() + 1 - k
  {
    hide SameKeyLevel, SelectKey;
    var m := env.cfg.SameKeyRetries() + 1;
    if k <= env.cfg.KeyRetries() {
      Distribute(env.cfg.KeyRetries() - k, m);
      assert (env.cfg.KeyRetries() - k) * m >= 0;
      var key := SelectKey(env, st, provider, pooled, r, k);
      if key.Some? {
        SameKeyBound(env, st, r, k, provider, key.value, pooled, 0);
        var f := SameKeyLevel(env, st, r, k, provider, key.value, pooled, 0);
        KeyBound(env, ExcludeKey(f.st, provider, key.value), r, provider, pooled, k + 1);
      }
    }
  }

  lemma {:induction false} ProviderBound(env: Env, st: State, r: nat)
    requires WellBehaved(env)
    requires r <= env.cfg.ProviderRetries() + 1
    requires |st.attempts| <= env.cfg.MaxTotalAttempts()
    ensures var f := ProviderLevel(env, st, r);
            var perProvider := (env.cfg.KeyRetries() + 1) * (env.cfg.SameKeyRetries() + 1);
            && 0 <= Made(st, f) <= (env.cfg.ProviderRetries() + 1 - r) * perProvider
            && |f.st.attempts| <= env.cfg.MaxTotalAttempts()
    decreases env.cfg.ProviderRetries() + 1 - r
  {
    hide KeyLevel, SelectProvider;
    var m := (env.cfg.KeyRetries() + 1) * (env.cfg.SameKeyRetries() + 1);
    if r <= env.cfg.ProviderRetries() {
      Distribute(env.cfg.ProviderRetries() - r, m);
      assert (env.cfg.ProviderRetries() - r) * m >= 0;
      var p := SelectProvider(env, st, r);
      if p.Some? && !env.proxy(r, p.value).ProxyError? {
        KeyBound(env, st, r, p.value, env.proxy(r, p.value).Pooled?, 0);
        var f := KeyLevel(env, st, r, p.value, env.proxy(r, p.value).Pooled?, 0);
        ProviderBound(env, ExcludeProvider(f.st, p.value), r + 1);
      }
    }
  }

  /** No request is attempted more often than the limits of the configuration allow. */
  lemma AttemptsBounded(env: Env)
    requires WellBehaved(env)
    ensures var n := |Run(env).st.attempts|;
            var cfg := env.cfg;
            && n <= (if cfg.maxTotalAttempts <= 0 then 5 else cfg.maxTotalAttempts)
            && n <= (if cfg.providerRetries <= 0 then 2 else cfg.providerRetries + 1)
                    * ((if cfg.keyRetries <= 0 then 3 else cfg.keyRetries + 1)
                       * (if cfg.sameKeyRetries <= 0 then 2 else cfg.sameKeyRetries + 1))
  {
    hide ProviderLevel;
    ProviderBound(env, START, 0);
  }

  /** An unset configuration allows five attempts. */
  lemma DefaultBound(env: Env)
    requires WellBehaved(env) && env.cfg == RetryConfig(0, 0, 0, 0)
    ensures |Run(env).st.attempts| <= 5
  {
    hide Run;
    AttemptsBounded(env);
  }

  // ----- What each level adds ---------------------------------------------------------------

  ghost predicate AllRetryable(attempts: seq<Attempt>) {
    forall i :: 0 <= i < |attempts| ==> IsRetryableStatusCode(attempts[i].Status())
  }

  /** A level only appends attempts, and only a final one can be non-retryable. */
  ghost predicate Extends(st: State, f: Flow) {
    && st.attempts <= f.st.attempts
    && match f
       case Next(st') => AllRetryable(st'.attempts)
       case Finished(st', _) => st'.attempts != [] && AllRetryable(st'.attempts[..|st'.attempts| - 1])
  }

  /** One key's run of attempts: all on that key, with 429 between any two of them. */
  lemma {:induction false} SameKeyAdds(env: Env, st: State, r: nat, k: nat, provider: string, keyID: string, pooled: bool, s: nat)
    requires AllRetryable(st.attempts)
    ensures var f := SameKeyLevel(env, st, r, k, provider, keyID, pooled, s);
            && Extends(st, f)
            && f.st.excludedKeys == st.excludedKeys && f.st.excludedProviders == st.excludedProviders
            && (forall i :: |st.attempts| <= i < |f.st.attempts| ==>
                  var a := f.st.attempts[i];
                  a.round == r && a.slot == k && a.provider == provider && a.keyID == keyID && a.pooled == pooled)
            && (forall i :: |st.attempts| <= i < |f.st.attempts| - 1 ==> f.st.attempts[i].Status() == 429)
            && (f.Finished? ==> f.answer.LastAttempt? && !IsRetryableStatusCode(f.st.attempts[|f.st.attempts| - 1].Status()))
    decreases env.cfg.SameKeyRetries() + 1 - s
  {
    hide StatusOf;
    if s <= env.cfg.SameKeyRetries() && CanRetry(env, st) {
      var st' := Record(env, st, r, k, provider, keyID, pooled);
      var status := st'.attempts[|st.attempts|].Status();
      if IsRetryableStatusCode(status) && status != 403 {
        SameKeyAdds(env, st', r, k, provider, keyID, pooled, s + 1);
      } else {
        assert st'.attempts[..|st'.attempts| - 1] == st.attempts;
      }
    }
  }

  lemma {:induction false} KeyAdds(env: Env, st: State, r: nat, provider: string, pooled: bool, k: nat)
    requires AllRetryable(st.attempts)
    ensures var f := KeyLevel(env, st, r, provider, pooled, k);
            && Extends(st, f)
            && f.st.excludedProviders == st.excludedProviders
            && (forall i :: |st.attempts| <= i < |f.st.attempts| ==>
                  f.st.attempts[i].round == r && f.st.attempts[i].provider == provider)
            && (f.Finished? ==> f.answer.LastAttempt? && !IsRetryableStatusCode(f.st.attempts[|f.st.attempts| - 1].Status()))
    decreases env.cfg.KeyRetries() + 1 - k
  {
    hide SameKeyLevel, SelectKey, StatusOf;
    var key := SelectKey(env, st, provider, pooled, r, k);
    if k <= env.cfg.KeyRetries() && key.Some? {
      SameKeyAdds(env, st, r, k, provider, key.value, pooled, 0);
      var f := SameKeyLevel(env, st, r, k, provider, key.value, pooled, 0);
      if f.Next? && CanRetry(env, f.st) {
        KeyAdds(env, ExcludeKey(f.st, provider, key.value), r, provider, pooled, k + 1);
      }
    }
  }

  /** The run always finishes; a status other than 429 and 403 ends it, so only the last
      attempt can have one, and the client is answered from the last attempt unless no
      attempt was made. */
  lemma {:induction false} ProviderShape(env: Env, st: State, r: nat)
    requires WellBehaved(env) && AllRetryable(st.attempts)
    ensures var f := ProviderLevel(env, st, r);
            && (f.answer.LastAttempt? <==> f.st.attempts != [])
            && (f.st.attempts != [] ==> AllRetryable(f.st.attempts[..|f.st.attempts| - 1]))
    decreases env.cfg.ProviderRetries() + 1 - r
  {
    hide KeyLevel, SelectProvider, StatusOf;
    var p := SelectProvider(env, st, r);
    if r <= env.cfg.ProviderRetries() && p.Some? && !env.proxy(r, p.value).ProxyError? {
      var pooled := env.proxy(r, p.value).Pooled?;
      KeyAdds(env, st, r, p.value, pooled, 0);
      var f := KeyLevel(env, st, r, p.value, pooled, 0);
      if f.Next? && CanRetry(env, f.st) {
        ProviderShape(env, ExcludeProvider(f.st, p.value), r + 1);
      }
    }
  }

  // ----- What each attempt is --------------------------------------------------------------

  /** Each attempt carries the backend's own answer to the body sent. The first round sends the body
      as it is; later ones the stripped original, if the request has thinking and was kept. */
  ghost predicate Faithful(env: Env, attempts: seq<Attempt>) {
    forall i :: 0 <= i < |attempts| ==>
      && attempts[i].script == env.backend(i, attempts[i].provider, attempts[i].keyID, attempts[i].sent)
      && attempts[i].sent == (if attempts[i].round == 0 || !env.hasThinking || env.body == None || env.original == None
                              then env.body else Some(env.strip(env.original.value)))
  }

  lemma {:induction false} SameKeyFaithful(env: Env, st: State, r: nat, k: nat, provider: string, keyID: string, pooled: bool, s: nat)
    requires Faithful(env, st.attempts)
    ensures Faithful(env, SameKeyLevel(env, st, r, k, provider, keyID, pooled, s).st.attempts)
    decreases env.cfg.SameKeyRetries() + 1 - s
  {
    if s <= env.cfg.SameKeyRetries() && CanRetry(env, st) {
      var st' := Record(env, st, r, k, provider, keyID, pooled);
      assert Faithful(env, st'.attempts);
      SameKeyFaithful(env, st', r, k, provider, keyID, pooled, s + 1);
    }
  }

  lemma {:induction false} KeyFaithful(env: Env, st: State, r: nat, provider: string, pooled: bool, k: nat)
    requires Faithful(env, st.attempts)
    ensures Faithful(env, KeyLevel(env, st, r, provider, pooled, k).st.attempts)
    decreases env.cfg.KeyRetries() + 1 - k
  {
    hide SameKeyLevel, SelectKey, Faithful;
    var key := SelectKey(env, st, provider, pooled, r, k);
    if k <= env.cfg.KeyRetries() && key.Some? {
      SameKeyFaithful(env, st, r, k, provider, key.value, pooled, 0);
      var f := SameKeyLevel(env, st, r, k, provider, key.value, pooled, 0);
      if f.Next? {
        KeyFaithful(env, ExcludeKey(f.st, provider, key.value), r, provider, pooled, k + 1);
      }
    }
  }

  lemma {:induction false} ProviderFaithful(env: Env, st: State, r: nat)
    requires WellBehaved(env) && Faithful(env, st.attempts)
    ensures Faithful(env, ProviderLevel(env, st, r).st.attempts)
    decreases env.cfg.ProviderRetries() + 1 - r
  {
    hide KeyLevel, SelectProvider, Faithful;
    var selected := SelectProvider(env, st, r);
    if r <= env.cfg.ProviderRetries() && selected.Some? && !env.proxy(r, selected.value).ProxyError? {
      var pooled := env.proxy(r, selected.value).Pooled?;
      KeyFaithful(env, st, r, selected.value, pooled, 0);
      var f := KeyLevel(env, st, r, selected.value, pooled, 0);
      if f.Next? {
        ProviderFaithful(env, ExcludeProvider(f.st, selected.value), r + 1);
      }
    }
  }

  lemma RunFaithful(env: Env)
    requires WellBehaved(env)
    ensures Faithful(env, Run(env).st.attempts)
  {
    hide ProviderLevel;
    ProviderFaithful(env, START, 0);
  }

  // ----- Key selection -----------------------------------------------------------------------

  /** A slot takes the first of three draws that gives a key not tried before. It goes without when
      the pool runs dry before that, or all three keys were tried. */
  lemma {:induction false} FirstUntried(env: Env, st: State, provider: string, r: nat, k: nat, draw: nat) returns (d: nat)
    requires draw <= 3
    ensures draw <= d <= 3
    ensures forall e: nat :: draw <= e < d ==>
              env.getKey(r, k, e).Some? && provider + ":" + env.getKey(r, k, e).value in st.excludedKeys
    ensures d < 3 && env.getKey(r, k, d).Some? ==> provider + ":" + env.getKey(r, k, d).value !in st.excludedKeys
    ensures DrawKey(env, st, provider, r, k, draw) == if d < 3 then env.getKey(r, k, d) else None
    decreases 3 - draw
  {
    d := draw;
    if draw < 3 && env.getKey(r, k, draw).Some? && JoinKey(provider, env.getKey(r, k, draw).value) in st.excludedKeys {
      d := FirstUntried(env, st, provider, r, k, draw + 1);
    }
  }

  // ----- Provider selection ------------------------------------------------------------------

  /** A candidate the retry may still use. */
  ghost predicate Eligible(env: Env, st: State, r: nat, c: string) {
    env.hasKeys(r, c) && c !in st.excludedProviders
  }

  /** With a router, the provider selected is a candidate with keys that was not excluded; and
      unless the router refuses, one is found exactly when there is one. */
  lemma SelectsEligible(env: Env, st: State, r: nat)
    requires WellBehaved(env) && env.candidates(r).Some?
    ensures var p := SelectProvider(env, st, r);
            && (p.Some? ==> p.value in env.candidates(r).value && Eligible(env, st, r, p.value))
            && ((forall cs: seq<string> :: cs != [] ==> env.route(r, cs).Some?) ==>
                  (p.Some? <==> exists c :: c in env.candidates(r).value && Eligible(env, st, r, c)))
  {
    var all := env.candidates(r).value;
    var available := Filter(all, c => env.hasKeys(r, c));
    var usable := Filter(available, c => c !in st.excludedProviders);
    assert forall c :: c in usable <==> c in all && Eligible(env, st, r, c);
    hide Filter, Eligible;
    var cs := Affinity(env, r, usable);
    assert cs == [] <==> usable == [];
    if usable != [] {
      assert usable[0] in usable;
    }
  }

  lemma {:induction false} FilterFilter(cs: seq<string>, f: string -> bool, g: string -> bool, h: string -> bool)
    requires forall c :: h(c) <==> f(c) && g(c)
    ensures Filter(Filter(cs, f), g) == Filter(cs, h)
  {
    if cs != [] {
      FilterFilter(cs[1..], f, g, h);
      var rest := Filter(cs[1..], f);
      if f(cs[0]) {
        assert ([cs[0]] + rest)[1..] == rest;
      } else {
        assert [] + rest == rest;
      }
    }
  }

  lemma {:induction false} FilterFirst(cs: seq<string>, keep: string -> bool) returns (i: nat)
    requires Filter(cs, keep) != []
    ensures i < |cs| && cs[i] == Filter(cs, keep)[0] && keep(cs[i])
    ensures forall j :: 0 <= j < i ==> !keep(cs[j])
  {
    if keep(cs[0]) {
      i := 0;
    } else {
      var k := FilterFirst(cs[1..], keep);
      i := k + 1;
      forall j | 0 <= j < i ensures !keep(cs[j]) {
        assert j > 0 ==> cs[j] == cs[1..][j - 1];
      }
    }
  }

  lemma {:induction false} FilterNone(cs: seq<string>, keep: string -> bool)
    requires forall c :: c in cs ==> !keep(c)
    ensures Filter(cs, keep) == []
  {
    if cs != [] {
      FilterNone(cs[1..], keep);
    }
  }

  /** Where affinity does not apply, the router chooses, and it is shown every eligible candidate in
      order. */
  lemma RouterChooses(env: Env, st: State, r: nat)
    requires WellBehaved(env) && env.candidates(r).Some?
    requires env.hasThinking ==>
               forall c :: c in env.candidates(r).value && Eligible(env, st, r, c) ==> !env.healthy(r, c)
    ensures var cs := Filter(env.candidates(r).value, c => env.hasKeys(r, c) && c !in st.excludedProviders);
            SelectProvider(env, st, r) == if cs == [] || env.route(r, cs) == None then None
                                          else Some(cs[env.route(r, cs).value])
  {
    var all := env.candidates(r).value;
    var both := (c: string) => env.hasKeys(r, c) && c !in st.excludedProviders;
    FilterFilter(all, c => env.hasKeys(r, c), c => c !in st.excludedProviders, both);
    FilterAgrees(all, both, c => env.hasKeys(r, c) && c !in st.excludedProviders);
    if env.hasThinking {
      FilterNone(Filter(all, both), c => env.healthy(r, c));
    }
    assert Affinity(env, r, Filter(all, both)) == Filter(all, both);
    assert Usable(env, st, r, all) == Filter(all, both);
  }

  /** Provider selection looks at the excluded providers alone. */
  lemma SelectIgnoresOthers(env: Env, st: State, excludedKeys: set<string>, attempts: seq<Attempt>, r: nat)
    requires WellBehaved(env)
    ensures SelectProvider(env, State(st.excludedProviders, excludedKeys, attempts), r) == SelectProvider(env, st, r)
  {
    if env.candidates(r).Some? {
      var available := Filter(env.candidates(r).value, c => env.hasKeys(r, c));
      FilterAgrees(available, c => c !in st.excludedProviders,
                   c => c !in State(st.excludedProviders, excludedKeys, attempts).excludedProviders);
    }
  }

  lemma {:induction false} FilterAgrees(cs: seq<string>, f: string -> bool, g: string -> bool)
    requires forall c :: f(c) == g(c)
    ensures Filter(cs, f) == Filter(cs, g)
  {
    if cs != [] {
      FilterAgrees(cs[1..], f, g);
    }
  }

  /** Thinking affinity: a request with thinking goes to the first candidate, in their fixed order,
      that is eligible and healthy, whichever the router would prefer. So as long as that one
      stays usable, a conversation stays with the provider that signed its thinking. */
  lemma ThinkingStays(env: Env, st: State, r: nat)
    requires WellBehaved(env) && env.hasThinking && env.candidates(r).Some?
    requires exists c :: c in env.candidates(r).value && Eligible(env, st, r, c) && env.healthy(r, c)
    requires SelectProvider(env, st, r).Some?
    ensures var all := env.candidates(r).value;
            exists i :: 0 <= i < |all| && all[i] == SelectProvider(env, st, r).value
                        && Eligible(env, st, r, all[i]) && env.healthy(r, all[i])
                        && forall j :: 0 <= j < i ==> !(Eligible(env, st, r, all[j]) && env.healthy(r, all[j]))
  {
    var all := env.candidates(r).value;
    hide SelectProvider, Usable, Healthy, Affinity, Eligible;
    var i := FirstUsable(env, st, r, all);
    AffinityFirst(env, r, Usable(env, st, r, all));
    SoleCandidate(env, st, r, all[i]);
    assert SelectProvider(env, st, r) == Some(all[i]);
  }

  ghost function Usable(env: Env, st: State, r: nat, all: seq<string>): seq<string> {
    Filter(Filter(all, c => env.hasKeys(r, c)), c => c !in st.excludedProviders)
  }

  ghost function Healthy(env: Env, r: nat, cs: seq<string>): seq<string> {
    Filter(cs, c => env.healthy(r, c))
  }

  /** With one candidate left, the router can choose nothing else. */
  lemma SoleCandidate(env: Env, st: State, r: nat, c: string)
    requires WellBehaved(env) && env.candidates(r).Some?
    requires Affinity(env, r, Usable(env, st, r, env.candidates(r).value)) == [c]
    ensures SelectProvider(env, st, r) == None || SelectProvider(env, st, r) == Some(c)
  {
    hide Affinity, Filter;
  }

  /** The first candidate that is eligible and healthy. */
  lemma FirstUsable(env: Env, st: State, r: nat, all: seq<string>) returns (i: nat)
    requires exists c :: c in all && Eligible(env, st, r, c) && env.healthy(r, c)
    ensures var healthy := Healthy(env, r, Usable(env, st, r, all));
            i < |all| && healthy != [] && all[i] == healthy[0]
    ensures Eligible(env, st, r, all[i]) && env.healthy(r, all[i])
    ensures forall j :: 0 <= j < i ==> !(Eligible(env, st, r, all[j]) && env.healthy(r, all[j]))
  {
    var both := (c: string) => env.hasKeys(r, c) && c !in st.excludedProviders;
    var three := (c: string) => both(c) && env.healthy(r, c);
    FilterFilter(all, c => env.hasKeys(r, c), c => c !in st.excludedProviders, both);
    FilterFilter(all, both, c => env.healthy(r, c), three);
    assert forall c :: three(c) <==> Eligible(env, st, r, c) && env.healthy(r, c);
    var c :| c in all && Eligible(env, st, r, c) && env.healthy(r, c);
    assert c in Filter(all, three);
    hide Filter;
    i := FilterFirst(all, three);
  }

  lemma AffinityFirst(env: Env, r: nat, cs: seq<string>)
    requires env.hasThinking && Healthy(env, r, cs) != []
    ensures Affinity(env, r, cs) == [Healthy(env, r, cs)[0]]
  {
    var healthy := Healthy(env, r, cs);
    if |cs| <= 1 {
      assert healthy[0] in cs;
    }
  }

  lemma RunShape(env: Env)
    requires WellBehaved(env)
    ensures var f := Run(env);
            && (f.answer.LastAttempt? <==> f.st.attempts != [])
            && (forall i :: 0 <= i < |f.st.attempts| - 1 ==> f.st.attempts[i].Status() == 429 || f.st.attempts[i].Status() == 403)
  {
    hide ProviderLevel, StatusOf;
    ProviderShape(env, START, 0);
    var made := Run(env).st.attempts;
    if made != [] {
      forall i | 0 <= i < |made| - 1 ensures IsRetryableStatusCode(made[i].Status()) {
        assert made[..|made| - 1][i] == made[i];
      }
    }
  }

  // ----- Providers are not retried ------------------------------------------------------------

  /** With a router, a provider's attempts all belong to one round. */
  ghost predicate OneRoundEach(attempts: seq<Attempt>) {
    forall i, j :: 0 <= i < |attempts| && 0 <= j < |attempts| && attempts[i].provider == attempts[j].provider
      ==> attempts[i].round == attempts[j].round
  }

  ghost predicate Routed(env: Env) {
    forall r: nat :: env.candidates(r).Some?
  }

  lemma {:induction false} ProviderOnce(env: Env, st: State, r: nat)
    requires WellBehaved(env) && Routed(env)
    requires AllRetryable(st.attempts) && OneRoundEach(st.attempts)
    requires forall i :: 0 <= i < |st.attempts| ==> st.attempts[i].provider in st.excludedProviders
    ensures OneRoundEach(ProviderLevel(env, st, r).st.attempts)
    decreases env.cfg.ProviderRetries() + 1 - r
  {
    hide KeyLevel, SelectProvider, StatusOf;
    var p := SelectProvider(env, st, r);
    if r <= env.cfg.ProviderRetries() && p.Some? && !env.proxy(r, p.value).ProxyError? {
      var pooled := env.proxy(r, p.value).Pooled?;
      KeyAdds(env, st, r, p.value, pooled, 0);
      var f := KeyLevel(env, st, r, p.value, pooled, 0);
      forall i | 0 <= i < |f.st.attempts|
        ensures f.st.attempts[i].provider == p.value <==> i >= |st.attempts|
        ensures i < |st.attempts| ==> f.st.attempts[i] == st.attempts[i]
      {
      }
      assert OneRoundEach(f.st.attempts);
      if f.Next? && CanRetry(env, f.st) {
        ProviderOnce(env, ExcludeProvider(f.st, p.value), r + 1);
      }
    }
  }

  lemma NoProviderTwice(env: Env)
    requires WellBehaved(env) && Routed(env)
    ensures OneRoundEach(Run(env).st.attempts)
  {
    ProviderOnce(env, START, 0);
  }

  // ----- What another provider is sent ------------------------------------------------------------

  /** Rounds follow one another, and each stays with one provider. */
  ghost predicate Ordered(attempts: seq<Attempt>) {
    forall i, j :: 0 <= i <= j < |attempts| ==>
      && attempts[i].round <= attempts[j].round
      && (attempts[i].round == attempts[j].round ==> attempts[i].provider == attempts[j].provider)
  }

  lemma {:induction false} ProviderOrdered(env: Env, st: State, r: nat)
    requires WellBehaved(env) && AllRetryable(st.attempts) && Ordered(st.attempts)
    requires forall i :: 0 <= i < |st.attempts| ==> st.attempts[i].round < r
    ensures Ordered(ProviderLevel(env, st, r).st.attempts)
    decreases env.cfg.ProviderRetries() + 1 - r
  {
    hide KeyLevel, SelectProvider, StatusOf;
    var p := SelectProvider(env, st, r);
    if r <= env.cfg.ProviderRetries() && p.Some? && !env.proxy(r, p.value).ProxyError? {
      var pooled := env.proxy(r, p.value).Pooled?;
      KeyAdds(env, st, r, p.value, pooled, 0);
      var f := KeyLevel(env, st, r, p.value, pooled, 0);
      AppendedOrdered(st.attempts, f.st.attempts, r, p.value);
      if f.Next? && CanRetry(env, f.st) {
        ProviderOrdered(env, ExcludeProvider(f.st, p.value), r + 1);
      }
    }
  }

  lemma AppendedOrdered(before: seq<Attempt>, after: seq<Attempt>, r: nat, provider: string)
    requires Ordered(before) && before <= after
    requires forall i :: 0 <= i < |before| ==> before[i].round < r
    requires forall i :: |before| <= i < |after| ==> after[i].round == r && after[i].provider == provider
    ensures Ordered(after) && forall i :: 0 <= i < |after| ==> after[i].round <= r
  {
    assert forall i :: 0 <= i < |before| ==> after[i] == before[i];
  }

  /** No provider but the first is sent thinking it did not sign: whatever rounds and keys came
      before, an attempt at another provider sends the stripped original body. */
  lemma SwitchStrips(env: Env, i: nat)
    requires WellBehaved(env) && env.hasThinking && env.body.Some? && env.original.Some?
    requires i < |Run(env).st.attempts|
    requires Run(env).st.attempts[i].provider != Run(env).st.attempts[0].provider
    ensures Run(env).st.attempts[i].sent == Some(env.strip(env.original.value))
  {
    ProviderOrdered(env, START, 0);
    RunFaithful(env);
    hide ProviderLevel;
    var made := Run(env).st.attempts;
    assert made[0].round <= made[i].round && made[0].round != made[i].round;
  }

  // ----- Pooled keys have a quota ----------------------------------------------------------------

  /** The attempts made on a key drawn from a pool. */
  function PooledCount(attempts: seq<Attempt>, key: string): (n: nat) {
    if attempts == [] then 0
    else
      var a := attempts[|attempts| - 1];
      PooledCount(attempts[..|attempts| - 1], key) + if a.pooled && a.Key() == key then 1 else 0
  }

  lemma {:induction false} CountOfBlock(before: seq<Attempt>, after: seq<Attempt>, own: string, pooled: bool, key: string)
    requires before <= after
    requires forall i :: |before| <= i < |after| ==> after[i].Key() == own && after[i].pooled == pooled
    ensures PooledCount(after, key)
            == PooledCount(before, key) + if pooled && own == key then |after| - |before| else 0
    decreases |after|
  {
    if |after| > |before| {
      CountOfBlock(before, after[..|after| - 1], own, pooled, key);
    } else {
      assert before == after;
    }
  }

  lemma {:induction false} CountAbsent(attempts: seq<Attempt>, key: string)
    requires forall i :: 0 <= i < |attempts| ==> attempts[i].Key() != key
    ensures PooledCount(attempts, key) == 0
  {
    if attempts != [] {
      CountAbsent(attempts[..|attempts| - 1], key);
    }
  }

  /** At the boundaries of a key's run every key tried so far is excluded, and no pooled
      key has been tried more often than one run allows. */
  ghost predicate KeysSettled(env: Env, st: State) {
    && AllRetryable(st.attempts)
    && (forall i :: 0 <= i < |st.attempts| ==> st.attempts[i].Key() in st.excludedKeys)
    && QuotaKept(env, st.attempts)
  }

  ghost predicate QuotaKept(env: Env, attempts: seq<Attempt>) {
    forall key :: PooledCount(attempts, key) <= env.cfg.SameKeyRetries() + 1
  }

  lemma SameKeyQuota(env: Env, st: State, r: nat, k: nat, provider: string, keyID: string, pooled: bool)
    requires KeysSettled(env, st) && |st.attempts| <= env.cfg.MaxTotalAttempts()
    requires pooled ==> JoinKey(provider, keyID) !in st.excludedKeys
    ensures var f := SameKeyLevel(env, st, r, k, provider, keyID, pooled, 0);
            && QuotaKept(env, f.st.attempts)
            && (f.Next? ==> KeysSettled(env, ExcludeKey(f.st, provider, keyID)))
  {
    hide SameKeyLevel, StatusOf, PooledCount, JoinKey;
    SameKeyAdds(env, st, r, k, provider, keyID, pooled, 0);
    SameKeyBound(env, st, r, k, provider, keyID, pooled, 0);
    var f := SameKeyLevel(env, st, r, k, provider, keyID, pooled, 0);
    var own := JoinKey(provider, keyID);
    forall key ensures PooledCount(f.st.attempts, key) <= env.cfg.SameKeyRetries() + 1 {
      CountOfBlock(st.attempts, f.st.attempts, own, pooled, key);
      if pooled && key == own {
        CountAbsent(st.attempts, own);
      }
    }
    forall i | 0 <= i < |f.st.attempts| ensures f.st.attempts[i].Key() in st.excludedKeys + {own} {
      if i < |st.attempts| {
        assert f.st.attempts[i] == st.attempts[i];
      }
    }
  }

  lemma {:induction false} KeyQuota(env: Env, st: State, r: nat, provider: string, pooled: bool, k: nat)
    requires KeysSettled(env, st) && |st.attempts| <= env.cfg.MaxTotalAttempts()
    ensures var f := KeyLevel(env, st, r, provider, pooled, k);
            && QuotaKept(env, f.st.attempts)
            && (f.Next? ==> KeysSettled(env, f.st) && |f.st.attempts| <= env.cfg.MaxTotalAttempts())
    decreases env.cfg.KeyRetries() + 1 - k
  {
    hide SameKeyLevel, PooledCount, QuotaKept, AllRetryable, JoinKey;
    var key := SelectKey(env, st, provider, pooled, r, k);
    if k <= env.cfg.KeyRetries() && key.Some? {
      SameKeyQuota(env, st, r, k, provider, key.value, pooled);
      SameKeyBound(env, st, r, k, provider, key.value, pooled, 0);
      var f := SameKeyLevel(env, st, r, k, provider, key.value, pooled, 0);
      if f.Next? && CanRetry(env, f.st) {
        KeyQuota(env, ExcludeKey(f.st, provider, key.value), r, provider, pooled, k + 1);
      }
    }
  }

  lemma {:induction false} ProviderQuota(env: Env, st: State, r: nat)
    requires WellBehaved(env)
    requires KeysSettled(env, st) && |st.attempts| <= env.cfg.MaxTotalAttempts()
    ensures QuotaKept(env, ProviderLevel(env, st, r).st.attempts)
    decreases env.cfg.ProviderRetries() + 1 - r
  {
    hide KeyLevel, SelectProvider, PooledCount, QuotaKept, AllRetryable;
    var p := SelectProvider(env, st, r);
    if r <= env.cfg.ProviderRetries() && p.Some? && !env.proxy(r, p.value).ProxyError? {
      var pooled := env.proxy(r, p.value).Pooled?;
      KeyQuota(env, st, r, p.value, pooled, 0);
      var f := KeyLevel(env, st, r, p.value, pooled, 0);
      if f.Next? && CanRetry(env, f.st) {
        ProviderQuota(env, ExcludeProvider(f.st, p.value), r + 1);
      }
    }
  }

  /** No pooled key is attempted more than SameKeyRetries + 1 times in a whole request,
      even if its provider is chosen again. */
  lemma PooledKeyQuota(env: Env, key: string)
    requires WellBehaved(env)
    ensures PooledCount(Run(env).st.attempts, key) <= env.cfg.SameKeyRetries() + 1
  {
    hide ProviderLevel;
    ProviderQuota(env, START, 0);
  }

  // ----- What reaches the client --------------------------------------------------------------

  /** Status lines and body bytes written to the client. */
  datatype Delivery = Delivery(statuses: seq<int>, body: string)

  /** The attempt the client is answered from. */
  function LastOf(st: State): Attempt
    requires st.attempts != []
  {
    st.attempts[|st.attempts| - 1]
  }

  /** A loop that buffers whole answers always writes exactly one. */
  function BufferedDelivery(env: Env): Delivery
    requires WellBehaved(env)
  {
    match Run(env).answer
    case LocalError(why) => Delivery([why.Code()], env.errorBody(false, why))
    case LastAttempt =>
      var last := LastOf(Run(env).st);
      Delivery([last.Status()], BodyOf(last.script))
  }

  /** The streaming loop forwards as it goes; a backend that does nothing at all leaves
      it with nothing to forward. */
  function StreamingDelivery(env: Env): Delivery
    requires WellBehaved(env)
  {
    match Run(env).answer
    case LocalError(why) => Delivery([why.Code()], env.errorBody(true, why))
    case LastAttempt =>
      var last := LastOf(Run(env).st);
      if last.script == [] then Delivery([], "")
      else Delivery([last.Status()], BodyOf(last.script))
  }

  /** What the client receives: net/http sends status 200 for a handler that sent none. */
  function Received(d: Delivery): Delivery {
    if d.statuses == [] then d.(statuses := [200]) else d
  }

  /** Given the same answers from outside, the two loops make the same attempts and the client
      receives the same response. Only when no attempt was made may they differ, in the text of
      the relay's own error. */
  lemma StreamingRefinesBuffered(env: Env)
    requires WellBehaved(env)
    ensures Run(env).st.attempts != [] ==> Received(StreamingDelivery(env)) == Received(BufferedDelivery(env))
    ensures Run(env).st.attempts != [] ==>
              (StreamingDelivery(env) == BufferedDelivery(env) <==> LastOf(Run(env).st).script != [])
    ensures Run(env).st.attempts == [] ==>
              && Run(env).answer.LocalError?
              && StreamingDelivery(env).statuses == BufferedDelivery(env).statuses
              && (StreamingDelivery(env) == BufferedDelivery(env)
                  <==> env.errorBody(true, Run(env).answer.why) == env.errorBody(false, Run(env).answer.why))
  {
    RunShape(env);
    assert StatusOf([]) == 200 && BodyOf([]) == "";
    hide ProviderLevel, StatusOf, BodyOf;
  }
}
