/** Live authentication: the fingerprint of the auth settings and the cache keyed by it. */
module AuthCache {
  import opened Decimal
  import opened Options
  import Lines

  /** The auth settings of one configuration, as they are in force when a request arrives. */
  datatype AuthConfig = AuthConfig(
    apiKey: string, legacyKey: string, bearerSecret: string, allowBearer: bool, allowSubscription: bool)
  {
    predicate IsBearerEnabled() {
      allowBearer || allowSubscription
    }

    function EffectiveKey(): string {
      if apiKey != "" then apiKey else legacyKey
    }
  }

  datatype Authenticator = Bearer(secret: string) | ApiKey(key: string)

  datatype Chain = Open | Single(only: Authenticator) | InOrder(authenticators: seq<Authenticator>)

  datatype Cache = Cache(fingerprint: string, chain: Chain)

  // ----- The fingerprint ----------------------------------------------------------------------

  /** A text with its length in front. */
  function Prefixed(s: string): string {
    Text(|s|) + [':'] + s
  }

  function AuthFingerprint(bearerEnabled: bool, bearerSecret: string, apiKey: string): string {
    ['b', if bearerEnabled then '1' else '0', '|'] + Prefixed(bearerSecret) + ['|'] + Prefixed(apiKey)
  }

  /** The length in front tells where a text ends, whatever it contains. */
  lemma PrefixedDecodes(s: string, rest: string, s': string, rest': string)
    requires Prefixed(s) + rest == Prefixed(s') + rest'
    ensures s == s' && rest == rest'
  {
    hide Text;
    var all := Prefixed(s) + rest;
    assert all == Text(|s|) + [':'] + (s + rest);
    assert all == Text(|s'|) + [':'] + (s' + rest');
    TextRoundTrip(|s|);
    TextRoundTrip(|s'|);
    Lines.IndexOfAt(Text(|s|), ':', s + rest);
    Lines.IndexOfAt(Text(|s'|), ':', s' + rest');
    var n := |Text(|s|)|;
    assert Text(|s|) == all[..n] == Text(|s'|);
    assert s + rest == all[n + 1..] == s' + rest';
    assert s == (s + rest)[..|s|] && s' == (s' + rest')[..|s'|];
    assert rest == (s + rest)[|s|..] && rest' == (s' + rest')[|s'|..];
  }

  /** Different settings never share a fingerprint: no choice of delimiters inside the secret or
      the key makes two triples collide. */
  lemma FingerprintInjective(b: bool, secret: string, key: string, b': bool, secret': string, key': string)
    requires AuthFingerprint(b, secret, key) == AuthFingerprint(b', secret', key')
    ensures b == b' && secret == secret' && key == key'
  {
    hide Prefixed;
    var f := AuthFingerprint(b, secret, key);
    assert f == ['b', f[1], '|'] + (Prefixed(secret) + ['|'] + Prefixed(key));
    assert f == ['b', f[1], '|'] + (Prefixed(secret') + ['|'] + Prefixed(key'));
    assert Prefixed(secret) + (['|'] + Prefixed(key)) == f[3..] == Prefixed(secret') + (['|'] + Prefixed(key'));
    PrefixedDecodes(secret, ['|'] + Prefixed(key), secret', ['|'] + Prefixed(key'));
    assert Prefixed(key) + "" == (['|'] + Prefixed(key))[1..] == (['|'] + Prefixed(key'))[1..] == Prefixed(key') + "";
    PrefixedDecodes(key, "", key', "");
  }

  // ----- Building and coherence -----------------------------------------------------------------

  function Fingerprint(config: AuthConfig): string {
    AuthFingerprint(config.IsBearerEnabled(), config.bearerSecret, config.EffectiveKey())
  }

  function BuildChain(config: AuthConfig): Chain {
    var bearer := if config.IsBearerEnabled() then [Bearer(config.bearerSecret)] else [];
    var authenticators := bearer + if config.EffectiveKey() != "" then [ApiKey(config.EffectiveKey())] else [];
    if |authenticators| == 1 then Single(authenticators[0])
    else if |authenticators| == 0 then Open
    else InOrder(authenticators)
  }

  function BuildAuthCache(config: AuthConfig): Cache {
    Cache(Fingerprint(config), BuildChain(config))
  }

  /** A request's credentials, with "" for a missing header or an empty token. */
  datatype Credentials = Credentials(token: string, key: string)

  /** Validate of one authenticator; a bearer secret that is not configured accepts any token. */
  predicate Accepts(a: Authenticator, hash: string -> string, c: Credentials) {
    match a
    case Bearer(secret) => c.token != "" && (secret != "" ==> hash(c.token) == hash(secret))
    case ApiKey(key) => c.key != "" && hash(c.key) == hash(key)
  }

  /** The result of trying authenticators in order, the first success being kept. */
  function FirstSuccess(authenticators: seq<Authenticator>, hash: string -> string, c: Credentials, found: bool): bool {
    if authenticators == [] then found
    else FirstSuccess(authenticators[1..], hash, c, found || Accepts(authenticators[0], hash, c))
  }

  /** Whether the middleware lets the request through. */
  predicate Admits(chain: Chain, hash: string -> string, c: Credentials) {
    match chain
    case Open => true
    case Single(a) => Accepts(a, hash, c)
    case InOrder(authenticators) => FirstSuccess(authenticators, hash, c, false)
  }

  lemma AdmitsByPart(config: AuthConfig, hash: string -> string, c: Credentials)
    ensures Admits(BuildChain(config), hash, c) <==>
            || (!config.IsBearerEnabled() && config.EffectiveKey() == "")
            || (config.IsBearerEnabled() && Accepts(Bearer(config.bearerSecret), hash, c))
            || (config.EffectiveKey() != "" && Accepts(ApiKey(config.EffectiveKey()), hash, c))
  {
    hide Accepts;
    var b, k := Bearer(config.bearerSecret), ApiKey(config.EffectiveKey());
    if config.IsBearerEnabled() && config.EffectiveKey() != "" {
      assert [b] + [k] == [b, k];
      assert [b, k][1..] == [k] && [k][1..] == [];
      assert BuildChain(config) == InOrder([b, k]);
      assert FirstSuccess([b, k], hash, c, false) == FirstSuccess([k], hash, c, Accepts(b, hash, c));
    } else if config.IsBearerEnabled() {
      assert [b] + [] == [b];
      assert BuildChain(config) == Single(b);
    } else if config.EffectiveKey() != "" {
      assert [] + [k] == [k];
      assert BuildChain(config) == Single(k);
    } else {
      assert BuildChain(config) == Open;
    }
  }

  /** What the chain built from a configuration means: with nothing configured everything passes, and
      otherwise a bearer token or a key is needed, and either is enough. A token passes if bearer
      tokens are allowed, by either flag, and it matches the secret or there is none; a key passes
      if it matches the configured key, the legacy one counting only where the other is not set. */
  lemma AdmitsIff(config: AuthConfig, hash: string -> string, c: Credentials)
    ensures Admits(BuildChain(config), hash, c) <==>
            || (!config.allowBearer && !config.allowSubscription && config.apiKey == "" && config.legacyKey == "")
            || ((config.allowBearer || config.allowSubscription) && c.token != ""
                && (config.bearerSecret == "" || hash(c.token) == hash(config.bearerSecret)))
            || (config.apiKey != "" && c.key != "" && hash(c.key) == hash(config.apiKey))
            || (config.apiKey == "" && config.legacyKey != "" && c.key != "" && hash(c.key) == hash(config.legacyKey))
  {
    hide Admits, BuildChain;
    AdmitsByPart(config, hash, c);
  }

  /** A stored entry serves every configuration with its fingerprint. */
  ghost predicate Coherent(cache: Option<Cache>) {
    cache.Some? ==>
      forall config: AuthConfig :: Fingerprint(config) == cache.value.fingerprint ==> cache.value.chain == BuildChain(config)
  }

  lemma BuiltIsCoherent(config: AuthConfig)
    ensures Coherent(Some(BuildAuthCache(config)))
  {
    hide AuthFingerprint;
    forall other: AuthConfig | Fingerprint(other) == Fingerprint(config)
      ensures BuildChain(other) == BuildChain(config)
    {
      FingerprintInjective(
        other.IsBearerEnabled(), other.bearerSecret, other.EffectiveKey(),
        config.IsBearerEnabled(), config.bearerSecret, config.EffectiveKey());
    }
  }

  predicate Hits(cache: Option<Cache>, fingerprint: string) {
    cache.Some? && cache.value.fingerprint == fingerprint
  }

  // ----- The store --------------------------------------------------------------------------------

  class AuthCacheStore {
    var cache: Option<Cache>

    ghost predicate Valid()
      reads this
    {
      Coherent(cache)
    }

    constructor ()
      ensures Valid() && cache == None
    {
      cache := None;
    }

    /** The entry of the current configuration. Between the look-up without the lock and the lock,
        other requests may have stored `meanwhile`. */
    method GetOrBuild(config: AuthConfig, meanwhile: Option<Cache>) returns (r: Cache)
      requires Valid() && Coherent(meanwhile)
      modifies this
      ensures Valid()
      ensures r.chain == BuildChain(config) && r.fingerprint == Fingerprint(config)
      ensures cache == if Hits(old(cache), Fingerprint(config)) then old(cache) else Some(r)
    {
      hide AuthFingerprint, BuildChain;
      var fingerprint := Fingerprint(config);
      if Hits(cache, fingerprint) {
        return cache.value;
      }
      if meanwhile.Some? {
        cache := meanwhile;
      }
      if Hits(cache, fingerprint) {
        return cache.value;
      }
      BuiltIsCoherent(config);
      r := BuildAuthCache(config);
      cache := Some(r);
    }
  }

  // ----- Every interleaving -------------------------------------------------------------------------

  /** Where a request stands: before the look-up, waiting for the lock, holding it before the
      second look-up, holding it after a second miss, or served. */
  datatype Request =
    | Arrived(config: AuthConfig)
    | Waiting(config: AuthConfig)
    | Checking(config: AuthConfig)
    | Building(config: AuthConfig)
    | Served(config: AuthConfig, entry: Cache)

  /** The store, who holds its lock, the requests, and the fingerprints stored so far. */
  datatype State = State(cache: Option<Cache>, lock: Option<nat>, requests: seq<Request>, stores: seq<string>)

  /** A request arrives under the configuration of that moment, or an earlier one advances. */
  datatype Step = Arrive(config: AuthConfig) | Advance(i: nat)

  predicate InsideLock(r: Request) {
    r.Checking? || r.Building?
  }

  function Next(s: State, step: Step): State {
    match step
    case Arrive(config) => s.(requests := s.requests + [Arrived(config)])
    case Advance(i) => if i >= |s.requests| then s else Advanced(s, i)
  }

  function Advanced(s: State, i: nat): (r: State)
    requires i < |s.requests|
    ensures |r.requests| == |s.requests|
  {
    match s.requests[i]
    case Arrived(config) =>
      s.(requests := s.requests[i := if Hits(s.cache, Fingerprint(config)) then Served(config, s.cache.value) else Waiting(config)])
    case Waiting(config) =>
      if s.lock.Some? then s else s.(lock := Some(i), requests := s.requests[i := Checking(config)])
    case Checking(config) =>
      if Hits(s.cache, Fingerprint(config)) then
        s.(lock := None, requests := s.requests[i := Served(config, s.cache.value)])
      else s.(requests := s.requests[i := Building(config)])
    case Building(config) =>
      var built := BuildAuthCache(config);
      State(Some(built), None, s.requests[i := Served(config, built)], s.stores + [Fingerprint(config)])
    case Served(_, _) => s
  }

  function Run(steps: seq<Step>): State {
    if steps == [] then State(None, None, [], [])
    else Next(Run(steps[..|steps| - 1]), steps[|steps| - 1])
  }

  /** The request was answered with what its own configuration builds. */
  ghost predicate ServedRight(r: Request) {
    r.Served? ==> r.entry == BuildAuthCache(r.config)
  }

  ghost predicate Sound(s: State) {
    && Coherent(s.cache)
    && forall i :: 0 <= i < |s.requests| ==> ServedRight(s.requests[i])
  }

  ghost predicate Exclusive(s: State) {
    forall i :: 0 <= i < |s.requests| ==> (InsideLock(s.requests[i]) <==> s.lock == Some(i))
  }

  /** Two stores in a row never write the same fingerprint. */
  ghost predicate NoWaste(s: State) {
    && (s.cache.None? <==> s.stores == [])
    && (s.cache.Some? ==> s.cache.value.fingerprint == s.stores[|s.stores| - 1])
    && (forall k :: 0 < k < |s.stores| ==> s.stores[k] != s.stores[k - 1])
    && (forall i :: 0 <= i < |s.requests| && s.requests[i].Building? ==> !Hits(s.cache, Fingerprint(s.requests[i].config)))
  }

  lemma NextSound(s: State, step: Step)
    requires Sound(s)
    ensures Sound(Next(s, step))
  {
    hide Fingerprint, BuildChain, Coherent;
    match step {
      case Arrive(config) =>
      case Advance(i) =>
        if i < |s.requests| {
          var config := s.requests[i].config;
          BuiltIsCoherent(config);
          if Hits(s.cache, Fingerprint(config)) {
            CoherentServes(s.cache, config);
          }
        }
    }
  }

  lemma CoherentServes(cache: Option<Cache>, config: AuthConfig)
    requires Coherent(cache) && Hits(cache, Fingerprint(config))
    ensures cache.value == BuildAuthCache(config)
  {
  }

  lemma NextExclusive(s: State, step: Step)
    requires Exclusive(s) && (s.lock.Some? ==> s.lock.value < |s.requests|)
    ensures Exclusive(Next(s, step))
    ensures var s' := Next(s, step); s'.lock.Some? ==> s'.lock.value < |s'.requests|
  {
    hide Fingerprint, BuildAuthCache, Hits;
  }

  lemma NextNoWaste(s: State, step: Step)
    requires Exclusive(s) && NoWaste(s)
    ensures NoWaste(Next(s, step))
  {
    hide Fingerprint, BuildChain;
  }

  lemma {:induction false} RunInvariant(steps: seq<Step>)
    ensures var s := Run(steps);
            && Sound(s) && Exclusive(s) && NoWaste(s)
            && (s.lock.Some? ==> s.lock.value < |s.requests|)
  {
    if steps != [] {
      hide Sound, Exclusive, NoWaste;
      var before := steps[..|steps| - 1];
      RunInvariant(before);
      NextSound(Run(before), steps[|steps| - 1]);
      NextExclusive(Run(before), steps[|steps| - 1]);
      NextNoWaste(Run(before), steps[|steps| - 1]);
    }
  }

  /** Over every history of configuration changes and every interleaving of the requests, a served
      request got the chain its own configuration builds. */
  lemma AlwaysCurrent(steps: seq<Step>, i: nat)
    requires i < |Run(steps).requests| && Run(steps).requests[i].Served?
    ensures Run(steps).requests[i].entry.chain == BuildChain(Run(steps).requests[i].config)
  {
    hide Run, BuildChain;
    RunInvariant(steps);
    assert ServedRight(Run(steps).requests[i]);
  }

  /** At most one request is between lock and unlock. */
  lemma MutualExclusion(steps: seq<Step>, i: nat, j: nat)
    requires i < |Run(steps).requests| && j < |Run(steps).requests|
    requires InsideLock(Run(steps).requests[i]) && InsideLock(Run(steps).requests[j])
    ensures i == j
  {
    hide Run;
    RunInvariant(steps);
  }

  /** The second look-up pays off: however many requests miss together, a fingerprint is stored
      again only after a different one was stored in between. */
  lemma OneBuildPerChange(steps: seq<Step>, k: nat)
    requires 0 < k < |Run(steps).stores|
    ensures Run(steps).stores[k] != Run(steps).stores[k - 1]
  {
    hide Run;
    RunInvariant(steps);
  }

  // ----- Everybody is served ------------------------------------------------------------------------

  /** The configurations under which requests arrived, in order. */
  ghost function Arrivals(steps: seq<Step>): seq<AuthConfig> {
    if steps == [] then []
    else
      var before, last := Arrivals(steps[..|steps| - 1]), steps[|steps| - 1];
      if last.Arrive? then before + [last.config] else before
  }

  /** Each arrival is one request, and stays with the configuration it came under. */
  lemma {:induction false} RequestsAreArrivals(steps: seq<Step>)
    ensures |Run(steps).requests| == |Arrivals(steps)|
    ensures forall i :: 0 <= i < |Arrivals(steps)| ==> Run(steps).requests[i].config == Arrivals(steps)[i]
  {
    hide Fingerprint, BuildAuthCache, Hits;
    if steps != [] {
      RequestsAreArrivals(steps[..|steps| - 1]);
    }
  }

  /** How many steps of its own a request needs at most. */
  ghost function Left(r: Request): nat {
    match r
    case Arrived(_) => 4
    case Waiting(_) => 3
    case Checking(_) => 2
    case Building(_) => 1
    case Served(_, _) => 0
  }

  ghost function StepsLeft(requests: seq<Request>): (n: nat)
    ensures n <= 4 * |requests|
  {
    if requests == [] then 0 else StepsLeft(requests[..|requests| - 1]) + Left(requests[|requests| - 1])
  }

  lemma {:induction false} LeftUpdate(requests: seq<Request>, i: nat, r: Request)
    requires i < |requests|
    ensures StepsLeft(requests[i := r]) == StepsLeft(requests) - Left(requests[i]) + Left(r)
  {
    var n := |requests| - 1;
    if i == n {
      assert requests[i := r][..n] == requests[..n];
    } else {
      assert requests[i := r][..n] == requests[..n][i := r];
      LeftUpdate(requests[..n], i, r);
    }
  }

  ghost predicate AllServed(requests: seq<Request>) {
    forall i :: 0 <= i < |requests| ==> requests[i].Served?
  }

  /** There is no deadlock: while somebody waits for an answer, somebody gets closer to one. */
  lemma SomebodyAdvances(s: State) returns (i: nat)
    requires Exclusive(s) && (s.lock.Some? ==> s.lock.value < |s.requests|) && !AllServed(s.requests)
    ensures i < |s.requests| && StepsLeft(Advanced(s, i).requests) < StepsLeft(s.requests)
  {
    hide Fingerprint, BuildAuthCache, Hits, StepsLeft;
    if s.lock.Some? {
      i := s.lock.value;
      assert InsideLock(s.requests[i]);
    } else {
      i :| 0 <= i < |s.requests| && !s.requests[i].Served?;
    }
    LeftUpdate(s.requests, i, Advanced(s, i).requests[i]);
    assert Advanced(s, i).requests == s.requests[i := Advanced(s, i).requests[i]];
  }

  /** From every state that can be reached there is a way to serve everybody, in at most four steps
      for each request. */
  lemma {:induction false} EverybodyCanBeServed(steps: seq<Step>) returns (more: seq<Step>)
    ensures AllServed(Run(steps + more).requests) && Arrivals(steps + more) == Arrivals(steps)
    ensures |more| <= 4 * |Run(steps).requests|
    ensures |more| <= StepsLeft(Run(steps).requests)
    decreases StepsLeft(Run(steps).requests)
  {
    RunInvariant(steps);
    hide Advanced, StepsLeft, AllServed, Exclusive, Sound, NoWaste;
    if AllServed(Run(steps).requests) {
      more := [];
      assert steps + [] == steps;
    } else {
      var i := SomebodyAdvances(Run(steps));
      var on := steps + [Advance(i)];
      assert on[..|steps|] == steps;
      assert Run(on) == Advanced(Run(steps), i);
      var rest := EverybodyCanBeServed(on);
      more := [Advance(i)] + rest;
      assert steps + more == on + rest;
    }
  }

  /** A request that finds its entry is served at its first step, whoever holds the lock, and stores
      nothing. */
  lemma HitNeedsNoLock(s: State, i: nat)
    requires i < |s.requests| && s.requests[i].Arrived?
    requires s.cache.Some? && s.cache.value.fingerprint == Fingerprint(s.requests[i].config)
    ensures Next(s, Advance(i)) == s.(requests := s.requests[i := Served(s.requests[i].config, s.cache.value)])
  {
    hide Fingerprint;
  }
}
