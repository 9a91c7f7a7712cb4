/** The key pool: priority tiers around a strategy, and the search for a key whose rate
    limiter admits the request. */
module KeyPool {
  import opened KeySelectors
  import opened Randomness

  // ----- Priority tiers ---------------------------------------------------------------------

  /** The keys of one priority, in order. */
  function Tier(keys: seq<KeyMetadata>, level: int): (r: seq<KeyMetadata>)
    reads keys
    ensures forall i :: 0 <= i < |r| ==> r[i] in keys && r[i].priority == level
    ensures forall i :: 0 <= i < |keys| && keys[i].priority == level ==> keys[i] in r
  {
    if keys == [] then []
    else Tier(keys[..|keys| - 1], level) + if keys[|keys| - 1].priority == level then [keys[|keys| - 1]] else []
  }

  ghost predicate StrictlyDescending(levels: seq<int>) {
    forall i, j :: 0 <= i < j < |levels| ==> levels[i] > levels[j]
  }

  /** Inserts a level into a descending list. */
  function Insert(levels: seq<int>, x: int): (r: seq<int>)
    ensures |r| > 0 && forall y :: y in r <==> y == x || y in levels
  {
    if levels == [] || x >= levels[0] then [x] + levels
    else
      assert levels == [levels[0]] + levels[1..];
      [levels[0]] + Insert(levels[1..], x)
  }

  lemma {:induction false} InsertDescending(levels: seq<int>, x: int)
    requires StrictlyDescending(levels) && x !in levels
    ensures StrictlyDescending(Insert(levels, x))
  {
    if levels != [] && x < levels[0] {
      InsertDescending(levels[1..], x);
      var rest := Insert(levels[1..], x);
      forall j | 0 <= j < |rest| ensures rest[j] < levels[0] {
        assert rest[j] in rest;
      }
    } else if levels != [] {
      assert x != levels[0];
    }
  }

  ghost predicate NoRepeats(levels: seq<int>) {
    forall i, j :: 0 <= i < j < |levels| ==> levels[i] != levels[j]
  }

  /** The levels of the tier map, highest first. */
  method SortDescending(levels: seq<int>) returns (r: seq<int>)
    requires NoRepeats(levels)
    ensures StrictlyDescending(r) && forall y :: y in r <==> y in levels
  {
    assert StrictlyDescending([]);
    hide Insert, StrictlyDescending;
    r := [];
    var i := 0;
    while i < |levels|
      invariant 0 <= i <= |levels|
      invariant StrictlyDescending(r) && forall y :: y in r <==> y in levels[..i]
    {
      assert levels[..i + 1] == levels[..i] + [levels[i]];
      InsertDescending(r, levels[i]);
      r := Insert(r, levels[i]);
      i := i + 1;
    }
    assert levels[..i] == levels;
  }

  ghost predicate TierOptimal(keys: seq<KeyMetadata>, now: int, key: KeyMetadata)
    reads keys, key
  {
    forall k :: k in keys && k.healthy && now > k.cooldownUntil ==> k.priority <= key.priority
  }

  /** No available key of the same priority has a higher capacity score. */
  ghost predicate BestOfTier(keys: seq<KeyMetadata>, now: int, key: KeyMetadata)
    reads keys, key
  {
    forall k :: k in keys && k.priority == key.priority && k.healthy && now > k.cooldownUntil ==>
      k.GetCapacityScore(now) <= key.GetCapacityScore(now)
  }

  lemma BestInTier(keys: seq<KeyMetadata>, level: int, now: int, key: KeyMetadata)
    requires key.priority == level
    requires forall k :: k in Tier(keys, level) && k.healthy && now > k.cooldownUntil ==>
                           k.GetCapacityScore(now) <= key.GetCapacityScore(now)
    ensures BestOfTier(keys, now, key)
  {
    hide Tier;
    forall k | k in keys && k.priority == level && k.healthy && now > k.cooldownUntil
      ensures k.GetCapacityScore(now) <= key.GetCapacityScore(now)
    {
      var i :| 0 <= i < |keys| && keys[i] == k;
      assert k in Tier(keys, level);
    }
  }

  lemma FirstIsBest(keys: seq<KeyMetadata>, now: int, key: KeyMetadata)
    requires FirstBest(keys, now, key)
    ensures forall k :: k in keys && k.healthy && now > k.cooldownUntil ==>
                          k.GetCapacityScore(now) <= key.GetCapacityScore(now)
  {
  }

  /** No key of the first `i` levels is available. */
  ghost predicate Passed(keys: seq<KeyMetadata>, levels: seq<int>, i: nat, now: int)
    requires i <= |levels|
    reads keys
  {
    forall k :: k in keys && k.priority in levels[..i] ==> !k.IsAvailable(now)
  }

  ghost predicate Covers(keys: seq<KeyMetadata>, levels: seq<int>)
    reads keys
  {
    forall m :: 0 <= m < |keys| ==> keys[m].priority in levels
  }

  lemma NothingPassed(keys: seq<KeyMetadata>, levels: seq<int>, now: int)
    ensures Passed(keys, levels, 0, now)
  {
  }

  lemma SortedCovers(keys: seq<KeyMetadata>, found: seq<int>, levels: seq<int>)
    requires Covers(keys, found) && forall y :: y in levels <==> y in found
    ensures Covers(keys, levels)
  {
    forall m | 0 <= m < |keys| ensures keys[m].priority in levels {
      var p := keys[m].priority;
      assert p in found;
      assert p in levels;
    }
  }

  lemma LevelIsHighest(keys: seq<KeyMetadata>, levels: seq<int>, i: nat, now: int, key: KeyMetadata)
    requires StrictlyDescending(levels) && Covers(keys, levels) && i < |levels| && Passed(keys, levels, i, now)
    requires key.priority == levels[i]
    ensures TierOptimal(keys, now, key)
  {
    forall k | k in keys && k.healthy && now > k.cooldownUntil ensures k.priority <= levels[i] {
      var n :| 0 <= n < |keys| && keys[n] == k;
      var m :| 0 <= m < |levels| && levels[m] == k.priority;
      assert m >= i;
    }
  }

  lemma LevelPassed(keys: seq<KeyMetadata>, levels: seq<int>, i: nat, now: int)
    requires i < |levels| && Passed(keys, levels, i, now)
    requires !AnyAvailable(Tier(keys, levels[i]), now)
    ensures Passed(keys, levels, i + 1, now)
  {
    hide Tier;
    assert levels[..i + 1] == levels[..i] + [levels[i]];
    forall k | k in keys && k.priority in levels[..i + 1] ensures !k.IsAvailable(now) {
      if k.priority == levels[i] {
        var n :| 0 <= n < |keys| && keys[n] == k;
        assert k in Tier(keys, levels[i]);
      }
    }
  }

  lemma AllPassed(keys: seq<KeyMetadata>, levels: seq<int>, now: int)
    requires Covers(keys, levels) && Passed(keys, levels, |levels|, now)
    ensures !AnyAvailable(keys, now)
  {
    assert levels[..|levels|] == levels;
    forall k | k in keys ensures !k.IsAvailable(now) {
      var m :| 0 <= m < |keys| && keys[m] == k;
      assert keys[m].priority in levels[..|levels|];
    }
  }

  lemma TierInKeys(keys: seq<KeyMetadata>, level: int, key: KeyMetadata)
    requires key in Tier(keys, level)
    ensures key in keys && key.priority == level
  {
    hide Tier;
    var t := Tier(keys, level);
    var i :| 0 <= i < |t| && t[i] == key;
  }

  lemma SoundInTier(keys: seq<KeyMetadata>, key: KeyMetadata, now: int)
    requires key in keys && key.healthy && now > key.cooldownUntil
    ensures Sound(keys, now, Chosen(key))
  {
  }

  class PriorityTierSelector {
    const inner: KeySelector

    ghost predicate Valid()
      reads this, inner
    {
      inner.Valid()
    }

    constructor (inner: KeySelector)
      requires inner.Valid()
      ensures Valid() && this.inner == inner
    {
      this.inner := inner;
    }

    /** A key of the highest tier that has an available one. */
    method Select(keys: seq<KeyMetadata>, now: int, rand: nat -> nat) returns (r: Choice)
      requires Valid() && InBounds(rand)
      modifies inner`index
      ensures Valid() && Sound(keys, now, r)
      ensures r.Chosen? ==> TierOptimal(keys, now, r.key)
      ensures r.Chosen? && inner.strategy.LeastLoaded? ==> BestOfTier(keys, now, r.key)
    {
      if |keys| == 0 {
        return NoKeys;
      }
      var tiers, found := GroupByPriority(keys);
      var levels := SortDescending(found);
      SortedCovers(keys, found, levels);
      hide Tier, StrictlyDescending, Covers, Passed, AnyAvailable, TierOptimal, BestOfTier;
      hide FirstInTurn, FirstBest, ChosenByRoll, ChosenByDraw;
      var i := 0;
      NothingPassed(keys, levels, now);
      while i < |levels|
        invariant 0 <= i <= |levels| && Valid()
        invariant Covers(keys, levels) && Passed(keys, levels, i, now)
      {
        var level := levels[i];
        assert level in levels;
        assert tiers[level] == Tier(keys, level) != [];
        r := inner.Select(tiers[level], now, rand);
        if r.Chosen? {
          TierInKeys(keys, level, r.key);
          LevelIsHighest(keys, levels, i, now, r.key);
          SoundInTier(keys, r.key, now);
          if inner.strategy.LeastLoaded? {
            FirstIsBest(tiers[level], now, r.key);
            BestInTier(keys, level, now, r.key);
          }
          return;
        }
        LevelPassed(keys, levels, i, now);
        if r.NoKeys? {
          return;
        }
        i := i + 1;
      }
      AllPassed(keys, levels, now);
      return AllKeysExhausted;
    }
  }

  method GroupByPriority(keys: seq<KeyMetadata>) returns (tiers: map<int, seq<KeyMetadata>>, levels: seq<int>)
    ensures NoRepeats(levels) && forall level :: level in levels <==> level in tiers
    ensures Covers(keys, levels)
    ensures forall level :: level in tiers ==> tiers[level] == Tier(keys, level) != []
  {
    hide Tier;
    tiers, levels := map[], [];
    var i := 0;
    while i < |keys|
      invariant 0 <= i <= |keys|
      invariant NoRepeats(levels) && forall level :: level in levels <==> level in tiers
      invariant forall j :: 0 <= j < i ==> keys[j].priority in levels
      invariant forall level :: level in tiers ==> tiers[level] == Tier(keys[..i], level) != []
    {
      var p := keys[i].priority;
      if p !in tiers {
        TierEmpty(keys[..i], p);
        levels := levels + [p];
      }
      forall level ensures Tier(keys[..i + 1], level)
                           == if p == level then Tier(keys[..i], level) + [keys[i]] else Tier(keys[..i], level)
      {
        TierSnoc(keys, i, level);
      }
      tiers := tiers[p := (if p in tiers then tiers[p] else []) + [keys[i]]];
      i := i + 1;
    }
    assert keys[..i] == keys;
  }

  lemma TierSnoc(keys: seq<KeyMetadata>, i: nat, level: int)
    requires i < |keys|
    ensures Tier(keys[..i + 1], level)
            == if keys[i].priority == level then Tier(keys[..i], level) + [keys[i]] else Tier(keys[..i], level)
  {
    assert keys[..i + 1][..i] == keys[..i];
  }

  lemma {:induction false} TierEmpty(keys: seq<KeyMetadata>, level: int)
    requires forall i :: 0 <= i < |keys| ==> keys[i].priority != level
    ensures Tier(keys, level) == []
  {
    if keys != [] {
      TierEmpty(keys[..|keys| - 1], level);
    }
  }

  // ----- The pool ---------------------------------------------------------------------------------

  datatype KeyConfig = KeyConfig(apiKey: string, rpmLimit: int, tpmLimit: int, priority: int, weight: int)

  ghost predicate DistinctIds(keys: seq<KeyMetadata>) {
    forall i, j :: 0 <= i < j < |keys| ==> keys[i].id != keys[j].id
  }

  /** The keys other than the one with this identifier. */
  function Remove(keys: seq<KeyMetadata>, id: string): (r: seq<KeyMetadata>)
    ensures forall i :: 0 <= i < |r| ==> r[i] in keys && r[i].id != id
    ensures forall i :: 0 <= i < |keys| && keys[i].id != id ==> keys[i] in r
    ensures |r| <= |keys|
  {
    if keys == [] then []
    else (if keys[0].id != id then [keys[0]] else []) + Remove(keys[1..], id)
  }

  lemma {:induction false} RemoveOne(keys: seq<KeyMetadata>, key: KeyMetadata)
    requires DistinctIds(keys) && key in keys
    ensures |Remove(keys, key.id)| == |keys| - 1
    ensures DistinctIds(Remove(keys, key.id))
  {
    if keys[0] == key {
      RemoveNone(keys[1..], key.id);
    } else {
      assert key in keys[1..];
      assert keys[0].id != key.id by {
        var i :| 0 <= i < |keys| && keys[i] == key;
      }
      RemoveOne(keys[1..], key);
      var rest := Remove(keys[1..], key.id);
      forall j | 0 <= j < |rest| ensures rest[j].id != keys[0].id {
        var m :| 0 <= m < |keys[1..]| && keys[1..][m] == rest[j];
        assert keys[m + 1] == rest[j];
      }
    }
  }

  lemma {:induction false} RemoveNone(keys: seq<KeyMetadata>, id: string)
    requires forall i :: 0 <= i < |keys| ==> keys[i].id != id
    ensures Remove(keys, id) == keys
  {
    if keys != [] {
      RemoveNone(keys[1..], id);
    }
  }

  ghost predicate Configured(k: KeyMetadata, i: nat, c: KeyConfig)
    reads k
  {
    && k.id == KeyId(i, c.apiKey) && k.apiKey == c.apiKey
    && k.priority == (if c.priority > 0 then c.priority else 1)
    && k.weight == (if c.weight > 0 then c.weight else 1)
    && k.healthy
  }

  method NewKey(i: nat, c: KeyConfig) returns (key: KeyMetadata)
    ensures fresh(key) && Configured(key, i, c)
  {
    key := new KeyMetadata(i, c.apiKey, c.rpmLimit, c.tpmLimit);
    if c.priority > 0 {
      key.priority := c.priority;
    }
    if c.weight > 0 {
      key.weight := c.weight;
    }
  }

  lemma DifferentKeys(k: KeyMetadata, i: nat, c: KeyConfig, l: KeyMetadata, j: nat, d: KeyConfig)
    requires Configured(k, i, c) && Configured(l, j, d) && i != j
    ensures k.id != l.id
  {
    hide KeyId;
    if k.id == l.id {
      KeyIdInjective(i, c.apiKey, j, d.apiKey);
    }
  }

  method NewKeys(configs: seq<KeyConfig>) returns (keys: seq<KeyMetadata>)
    ensures |keys| == |configs| && DistinctIds(keys)
    ensures forall i :: 0 <= i < |keys| ==> fresh(keys[i]) && Configured(keys[i], i, configs[i])
  {
    hide Configured, KeyId;
    keys := [];
    var i := 0;
    while i < |configs|
      invariant 0 <= i == |keys| <= |configs| && DistinctIds(keys)
      invariant forall j :: 0 <= j < i ==> fresh(keys[j]) && Configured(keys[j], j, configs[j])
    {
      var key := NewKey(i, configs[i]);
      forall j | 0 <= j < |keys| ensures keys[j].id != key.id {
        DifferentKeys(keys[j], j, configs[j], key, i, configs[i]);
      }
      keys := keys + [key];
      i := i + 1;
    }
  }

  /** The index of the pool by identifier. */
  function KeysById(keys: seq<KeyMetadata>): (m: map<string, KeyMetadata>)
    ensures DistinctIds(keys) ==> forall i :: 0 <= i < |keys| ==> keys[i].id in m && m[keys[i].id] == keys[i]
    ensures forall id :: id in m ==> m[id] in keys && m[id].id == id
  {
    if keys == [] then map[]
    else
      var n := |keys| - 1;
      assert forall i :: 0 <= i < n ==> keys[..n][i] == keys[i];
      var before := KeysById(keys[..n]);
      before[keys[n].id := keys[n]]
  }

  /** The keys left to try and the keys asked in vain. */
  ghost predicate Searching(keys: seq<KeyMetadata>, left: seq<KeyMetadata>, asked: seq<KeyMetadata>, allow: string -> bool) {
    && DistinctIds(left) && DistinctIds(asked)
    && (forall i :: 0 <= i < |asked| ==> !allow(asked[i].id))
    && (forall i :: 0 <= i < |left| ==> left[i] in keys)
    && (forall i, j :: 0 <= i < |left| && 0 <= j < |asked| ==> left[i].id != asked[j].id)
    && (forall i :: 0 <= i < |keys| ==> keys[i] in left || !allow(keys[i].id))
  }

  lemma StartSearching(keys: seq<KeyMetadata>, allow: string -> bool)
    requires DistinctIds(keys)
    ensures Searching(keys, keys, [], allow)
  {
  }

  lemma SearchingMeans(keys: seq<KeyMetadata>, left: seq<KeyMetadata>, asked: seq<KeyMetadata>, allow: string -> bool)
    requires Searching(keys, left, asked, allow)
    ensures DistinctIds(asked) && (forall i :: 0 <= i < |asked| ==> !allow(asked[i].id))
    ensures forall k :: k in left ==> k in keys
    ensures forall k :: k in keys ==> k in left || !allow(k.id)
  {
    hide DistinctIds;
  }

  lemma Asks(keys: seq<KeyMetadata>, left: seq<KeyMetadata>, asked: seq<KeyMetadata>, key: KeyMetadata, allow: string -> bool)
    requires Searching(keys, left, asked, allow) && key in left
    ensures DistinctIds(asked + [key])
  {
    var m :| 0 <= m < |left| && left[m] == key;
  }

  /** A refused key leaves the list for good, and it alone. */
  lemma Refuses(keys: seq<KeyMetadata>, left: seq<KeyMetadata>, asked: seq<KeyMetadata>, key: KeyMetadata, allow: string -> bool)
    requires Searching(keys, left, asked, allow) && key in left && !allow(key.id)
    ensures Searching(keys, Remove(left, key.id), asked + [key], allow)
    ensures |Remove(left, key.id)| == |left| - 1
  {
    Asks(keys, left, asked, key, allow);
    RemoveOne(left, key);
    hide DistinctIds, Remove;
    var after := Remove(left, key.id);
    KeepsOthers(left, after, key);
    forall i | 0 <= i < |after| ensures after[i] in keys && forall j :: 0 <= j < |asked| ==> after[i].id != asked[j].id {
      assert after[i] in left;
    }
  }

  /** What no mark touches: priority, weight and the limits with what remains of them. */
  ghost function Settings(k: KeyMetadata): (int, int, int, int, int, int)
    reads k
  {
    (k.priority, k.weight, k.rpmLimit, k.rpmRemaining, k.tpmLimit, k.tpmRemaining)
  }

  class Pool {
    const selector: PriorityTierSelector
    var keys: seq<KeyMetadata>
    var keyMap: map<string, KeyMetadata>

    ghost predicate Valid()
      reads this, selector, selector.inner
    {
      && selector.Valid()
      && DistinctIds(keys)
      && (forall i :: 0 <= i < |keys| ==> keys[i].id in keyMap && keyMap[keys[i].id] == keys[i])
      && (forall id :: id in keyMap ==> keyMap[id] in keys && keyMap[id].id == id)
    }

    /** NewKeyPool: one key per configuration entry, identified by its position. */
    constructor (selector: PriorityTierSelector, configs: seq<KeyConfig>)
      requires selector.Valid()
      ensures Valid() && this.selector == selector
      ensures |keys| == |configs|
      ensures forall i :: 0 <= i < |keys| ==> fresh(keys[i]) && Configured(keys[i], i, configs[i])
    {
      this.selector := selector;
      var ks := NewKeys(configs);
      keys, keyMap := ks, KeysById(ks);
    }

    /** GetKey: complete and tier-optimal. A key is returned exactly when some key is in
        service and admitted; it has the highest priority among those. No limiter is
        asked twice, and every key asked in vain is one that refused. */
    method GetKey(now: int, allow: string -> bool, rand: nat -> (nat -> nat)) returns (r: Choice, ghost asked: seq<KeyMetadata>)
      requires Valid() && forall n: nat :: InBounds(rand(n))
      modifies selector.inner`index
      ensures Valid()
      ensures r.Chosen? <==> exists k :: k in keys && k.healthy && now > k.cooldownUntil && allow(k.id)
      ensures !r.Chosen? ==> r == AllKeysExhausted
      ensures r.Chosen? ==> r.key in keys && r.key.healthy && now > r.key.cooldownUntil && allow(r.key.id)
      ensures r.Chosen? ==> forall k :: k in keys && k.healthy && now > k.cooldownUntil && allow(k.id) ==>
                                          k.priority <= r.key.priority
      ensures |asked| <= |keys| && DistinctIds(asked)
      ensures forall i :: 0 <= i < |asked| && !(r.Chosen? && i == |asked| - 1) ==> !allow(asked[i].id)
    {
      hide DistinctIds, Remove, Searching;
      var availableKeys := keys;
      var maxAttempts := |availableKeys|;
      asked := [];
      StartSearching(keys, allow);
      var attempt := 0;
      while attempt < maxAttempts
        invariant 0 <= attempt <= maxAttempts == |keys| && Valid()
        invariant |availableKeys| == maxAttempts - attempt && |asked| == attempt
        invariant Searching(keys, availableKeys, asked, allow)
      {
        SearchingMeans(keys, availableKeys, asked, allow);
        var choice := selector.Select(availableKeys, now, rand(attempt));
        if !choice.Chosen? {
          return choice, asked;
        }
        var key := choice.key;
        Asks(keys, availableKeys, asked, key, allow);
        asked := asked + [key];
        if allow(key.id) {
          return choice, asked;
        }
        Refuses(keys, availableKeys, asked[..attempt], key, allow);
        assert asked[..attempt] + [key] == asked;
        availableKeys := Remove(availableKeys, key.id);
        attempt := attempt + 1;
      }
      SearchingMeans(keys, availableKeys, asked, allow);
      return AllKeysExhausted, asked;
    }

    method MarkKeyExhausted(keyID: string, retryAfter: int, now: int)
      requires Valid()
      modifies keys
      ensures Valid()
      ensures keyID in keyMap ==> keyMap[keyID].cooldownUntil == now + retryAfter
      ensures forall k :: k in keys ==> unchanged(k`healthy) && Settings(k) == old(Settings(k))
      ensures forall k :: k in keys && k.id != keyID ==> unchanged(k)
    {
      if keyID in keyMap {
        keyMap[keyID].SetCooldown(now + retryAfter);
      }
    }

    method MarkKeyUnhealthy(keyID: string)
      requires Valid()
      modifies keys
      ensures Valid()
      ensures keyID in keyMap ==> !keyMap[keyID].healthy
      ensures forall k :: k in keys ==> unchanged(k`cooldownUntil) && Settings(k) == old(Settings(k))
      ensures forall k :: k in keys && k.id != keyID ==> unchanged(k)
    {
      if keyID in keyMap {
        keyMap[keyID].MarkUnhealthy();
      }
    }

    method MarkKeyHealthy(keyID: string)
      requires Valid()
      modifies keys
      ensures Valid()
      ensures keyID in keyMap ==> keyMap[keyID].healthy
      ensures forall k :: k in keys ==> unchanged(k`cooldownUntil) && Settings(k) == old(Settings(k))
      ensures forall k :: k in keys && k.id != keyID ==> unchanged(k)
    {
      if keyID in keyMap {
        keyMap[keyID].MarkHealthy();
      }
    }
  }

  /** A key that was told to wait is back exactly when the wait is over: with no other key to take its
      place, GetKey returns it then, and not before. */
  method ExhaustThenGet(pool: Pool, keyID: string, retryAfter: int, now: int, later: int,
                        allow: string -> bool, rand: nat -> (nat -> nat))
    returns (r: Choice)
    requires forall n: nat :: InBounds(rand(n))
    requires pool.Valid() && keyID in pool.keyMap && pool.keyMap[keyID].healthy && allow(keyID)
    requires forall k :: k in pool.keys && k.id != keyID ==> !k.healthy || !allow(k.id)
    modifies pool.keys, pool.selector.inner`index
    ensures r == if later > now + retryAfter then Chosen(pool.keyMap[keyID]) else AllKeysExhausted
  {
    pool.MarkKeyExhausted(keyID, retryAfter, now);
    var key := pool.keyMap[keyID];
    ghost var asked;
    r, asked := pool.GetKey(later, allow, rand);
    assert later > now + retryAfter ==> key in pool.keys && key.healthy && later > key.cooldownUntil && allow(key.id);
  }

  lemma KeepsOthers(before: seq<KeyMetadata>, after: seq<KeyMetadata>, key: KeyMetadata)
    requires after == Remove(before, key.id)
    ensures forall k :: k in before ==> k in after || k.id == key.id
  {
    hide Remove;
    forall k | k in before ensures k in after || k.id == key.id {
      var i :| 0 <= i < |before| && before[i] == k;
    }
  }
}
