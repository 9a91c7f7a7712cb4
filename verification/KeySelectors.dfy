/** API keys and the strategies that choose one of them. Time is fixed within a call. */
module KeySelectors {
  import opened Decimal
  import opened Lines
  import opened Randomness

  class KeyMetadata {
    const id: string
    const apiKey: string
    var priority: int
    var weight: int
    var healthy: bool
    var cooldownUntil: int
    var rpmLimit: int
    var rpmRemaining: int
    // Input and output token limits enter every decision as a sum.
    var tpmLimit: int
    var tpmRemaining: int

    constructor (idx: nat, apiKey: string, rpm: int, tpm: int)
      ensures id == KeyId(idx, apiKey) && this.apiKey == apiKey
      ensures priority == 1 && weight == 1 && healthy && cooldownUntil == -1
      ensures rpmLimit == rpmRemaining == rpm && tpmLimit == tpmRemaining == tpm
    {
      id, this.apiKey := KeyId(idx, apiKey), apiKey;
      priority, weight, healthy, cooldownUntil := 1, 1, true, -1;
      rpmLimit, rpmRemaining, tpmLimit, tpmRemaining := rpm, rpm, tpm, tpm;
    }

    predicate IsAvailable(now: int)
      reads this
    {
      healthy && now > cooldownUntil
    }

    /** The mean of the remaining request and token shares; 0 for a key out of service. */
    function GetCapacityScore(now: int): real
      reads this
    {
      if !healthy || now < cooldownUntil then 0.0
      else
        var rpmScore := if rpmLimit > 0 then rpmRemaining as real / rpmLimit as real else 1.0;
        var tpmScore := if tpmLimit > 0 then tpmRemaining as real / tpmLimit as real else 1.0;
        (rpmScore + tpmScore) / 2.0
    }

    method SetCooldown(until: int)
      modifies this`cooldownUntil
      ensures cooldownUntil == until
    {
      cooldownUntil := until;
    }

    method MarkUnhealthy()
      modifies this`healthy
      ensures !healthy
    {
      healthy := false;
    }

    method MarkHealthy()
      modifies this`healthy
      ensures healthy
    {
      healthy := true;
    }
  }

  /** The shares that remain of two limits are at most 2 together; a limit that is not positive
      counts as a whole share. */
  predicate WithinLimits(rpmRemaining: int, rpmLimit: int, tpmRemaining: int, tpmLimit: int) {
    if rpmLimit > 0 && tpmLimit > 0 then rpmRemaining * tpmLimit + tpmRemaining * rpmLimit <= 2 * (rpmLimit * tpmLimit)
    else (rpmLimit > 0 ==> rpmRemaining <= rpmLimit) && (tpmLimit > 0 ==> tpmRemaining <= tpmLimit)
  }

  /** What the capacity score of an available key means. It is 0 exactly when both limits are used
      up, and at most 1 exactly when the remaining shares allow it: response headers may report
      more remaining than the limit. When they do not, it is 1 exactly when nothing was used. */
  lemma ScoreMeans(k: KeyMetadata, now: int)
    requires k.IsAvailable(now)
    requires (k.rpmLimit > 0 ==> k.rpmRemaining >= 0) && (k.tpmLimit > 0 ==> k.tpmRemaining >= 0)
    ensures k.GetCapacityScore(now) >= 0.0
    ensures k.GetCapacityScore(now) <= 1.0 <==> WithinLimits(k.rpmRemaining, k.rpmLimit, k.tpmRemaining, k.tpmLimit)
    ensures k.GetCapacityScore(now) == 0.0 <==> k.rpmRemaining == 0 < k.rpmLimit && k.tpmRemaining == 0 < k.tpmLimit
    ensures k.rpmLimit > 0 && k.rpmRemaining <= k.rpmLimit && k.tpmLimit > 0 && k.tpmRemaining <= k.tpmLimit ==>
              (k.GetCapacityScore(now) == 1.0 <==> k.rpmRemaining == k.rpmLimit && k.tpmRemaining == k.tpmLimit)
  {
    hide WithinLimits;
    if k.rpmLimit > 0 {
      ShareBounds(k.rpmRemaining, k.rpmLimit);
    }
    if k.tpmLimit > 0 {
      ShareBounds(k.tpmRemaining, k.tpmLimit);
    }
    if k.rpmLimit > 0 && k.tpmLimit > 0 {
      SharesTogether(k.rpmRemaining, k.rpmLimit, k.tpmRemaining, k.tpmLimit);
    } else {
      SharesApart(k.rpmRemaining, k.rpmLimit, k.tpmRemaining, k.tpmLimit);
    }
  }

  /** The exact score: 0 out of service, and otherwise the mean of two shares, a missing limit counting
      as a whole one. So a key without limits scores 1, as much as one that has used nothing. A key
      scores again from the end of its cooldown, one instant before it is available. */
  lemma ScoreIs(k: KeyMetadata, now: int)
    ensures !k.healthy || now < k.cooldownUntil ==> k.GetCapacityScore(now) == 0.0
    ensures var twice := 2.0 * k.GetCapacityScore(now);
            k.healthy && now >= k.cooldownUntil ==>
            && (k.rpmLimit > 0 && k.tpmLimit > 0 ==>
                  twice * k.rpmLimit as real * k.tpmLimit as real
                  == k.rpmRemaining as real * k.tpmLimit as real + k.tpmRemaining as real * k.rpmLimit as real)
            && (k.rpmLimit > 0 >= k.tpmLimit ==> twice * k.rpmLimit as real == k.rpmRemaining as real + k.rpmLimit as real)
            && (k.tpmLimit > 0 >= k.rpmLimit ==> twice * k.tpmLimit as real == k.tpmRemaining as real + k.tpmLimit as real)
            && (k.rpmLimit <= 0 && k.tpmLimit <= 0 ==> twice == 2.0)
  {
    if !k.healthy || now < k.cooldownUntil {
    } else if k.rpmLimit > 0 {
      var x := k.rpmRemaining as real / k.rpmLimit as real;
      assert x * k.rpmLimit as real == k.rpmRemaining as real;
      if k.tpmLimit > 0 {
        var y := k.tpmRemaining as real / k.tpmLimit as real;
        assert y * k.tpmLimit as real == k.tpmRemaining as real;
        CrossMultiplied(x, y, k.rpmLimit as real, k.tpmLimit as real);
      }
    } else if k.tpmLimit > 0 {
      var y := k.tpmRemaining as real / k.tpmLimit as real;
      assert y * k.tpmLimit as real == k.tpmRemaining as real;
    }
  }

  lemma CrossMultiplied(x: real, y: real, b: real, d: real)
    ensures (x + y) * b * d == (x * b) * d + (y * d) * b
  {
  }

  /** No key whose remaining shares are within its limits scores higher than one without limits. */
  lemma UnlimitedIsBest(k: KeyMetadata, l: KeyMetadata, now: int)
    requires k.IsAvailable(now) && l.IsAvailable(now)
    requires k.rpmLimit <= 0 && k.tpmLimit <= 0
    requires (l.rpmLimit > 0 ==> 0 <= l.rpmRemaining <= l.rpmLimit) && (l.tpmLimit > 0 ==> 0 <= l.tpmRemaining <= l.tpmLimit)
    ensures l.GetCapacityScore(now) <= k.GetCapacityScore(now) == 1.0
  {
    ScoreIs(k, now);
    if l.rpmLimit > 0 {
      ShareBounds(l.rpmRemaining, l.rpmLimit);
    }
    if l.tpmLimit > 0 {
      ShareBounds(l.tpmRemaining, l.tpmLimit);
    }
  }

  lemma Sign(x: real, w: real)
    requires w > 0.0
    ensures x > 0.0 ==> x * w > 0.0
    ensures x == 0.0 ==> x * w == 0.0
    ensures x < 0.0 ==> x * w < 0.0
  {
  }

  /** Multiplying by something positive keeps every comparison. */
  lemma Scaled(x: real, y: real, w: real)
    requires w > 0.0
    ensures x <= y <==> x * w <= y * w
    ensures x == y <==> x * w == y * w
  {
    Sign(x - y, w);
    assert (x - y) * w == x * w - y * w;
  }

  lemma ShareBounds(part: int, whole: int)
    requires 0 <= part && whole > 0
    ensures 0.0 <= part as real / whole as real
    ensures part as real / whole as real <= 1.0 <==> part <= whole
    ensures part as real / whole as real == 1.0 <==> part == whole
    ensures part as real / whole as real == 0.0 <==> part == 0
  {
    var share, w := part as real / whole as real, whole as real;
    assert share * w == part as real;
    Scaled(0.0, share, w);
    Scaled(share, 1.0, w);
  }

  lemma SharesTogether(a: int, b: int, c: int, d: int)
    requires b > 0 && d > 0
    ensures a as real / b as real + c as real / d as real <= 2.0 <==> WithinLimits(a, b, c, d)
  {
    var x, y := a as real / b as real, c as real / d as real;
    assert x * b as real == a as real && y * d as real == c as real;
    ScaledSum(x, y, b as real, d as real);
    assert (b * d) as real == b as real * d as real;
    assert (a * d) as real == a as real * d as real;
    assert (c * b) as real == c as real * b as real;
  }

  lemma ScaledSum(x: real, y: real, b: real, d: real)
    requires b > 0.0 && d > 0.0
    ensures x + y <= 2.0 <==> (x * b) * d + (y * d) * b <= 2.0 * (b * d)
  {
    Sign(b, d);
    Scaled(x + y, 2.0, b * d);
    assert (x * b) * d + (y * d) * b == (x + y) * (b * d);
  }

  lemma SharesApart(a: int, b: int, c: int, d: int)
    requires b <= 0 || d <= 0
    ensures WithinLimits(a, b, c, d) <==> (b > 0 ==> a <= b) && (d > 0 ==> c <= d)
  {
  }

  /** Of two keys with the same limits, the one with more requests left (and no fewer tokens)
      scores higher, and likewise for tokens. */
  lemma ScoreGrows(k: KeyMetadata, l: KeyMetadata, now: int)
    requires k.IsAvailable(now) && l.IsAvailable(now)
    requires k.rpmLimit == l.rpmLimit > 0 && k.tpmLimit == l.tpmLimit > 0
    requires k.rpmRemaining <= l.rpmRemaining && k.tpmRemaining <= l.tpmRemaining
    ensures k.GetCapacityScore(now) <= l.GetCapacityScore(now)
    ensures k.GetCapacityScore(now) == l.GetCapacityScore(now)
            <==> k.rpmRemaining == l.rpmRemaining && k.tpmRemaining == l.tpmRemaining
  {
    ShareGrows(k.rpmRemaining, l.rpmRemaining, k.rpmLimit);
    ShareGrows(k.tpmRemaining, l.tpmRemaining, k.tpmLimit);
  }

  lemma ShareGrows(a: int, b: int, whole: int)
    requires a <= b && whole > 0
    ensures a as real / whole as real <= b as real / whole as real
    ensures a as real / whole as real == b as real / whole as real <==> a == b
  {
    var x, y := a as real / whole as real, b as real / whole as real;
    assert x * whole as real == a as real && y * whole as real == b as real;
    Scaled(x, y, whole as real);
  }

  /** "[idx-****tail]", the tail being the last four characters of a longer key. */
  function KeyId(idx: nat, apiKey: string): string {
    "[" + Text(idx) + "-****" + (if |apiKey| > 4 then apiKey[|apiKey| - 4..] else "****") + "]"
  }

  /** Identifiers of different positions differ, whatever the keys. */
  lemma KeyIdInjective(i: nat, a: string, j: nat, b: string)
    requires KeyId(i, a) == KeyId(j, b)
    ensures i == j
  {
    hide Text;
    DashAt(i, a);
    DashAt(j, b);
    assert KeyId(i, a)[1..][..|Text(i)|] == Text(i);
    assert KeyId(j, b)[1..][..|Text(j)|] == Text(j);
    TextInjective(i, j);
  }

  lemma DashAt(i: nat, a: string)
    ensures IndexOf(KeyId(i, a)[1..], '-') == |Text(i)|
  {
    hide Text, IndexOf;
    TextRoundTrip(i);
    var t := Text(i);
    forall k | 0 <= k < |t| ensures t[k] != '-' {
      assert IsDigit(t[k]);
    }
    var tail := "****" + (if |a| > 4 then a[|a| - 4..] else "****") + "]";
    assert KeyId(i, a)[1..] == t + ['-'] + tail;
    IndexOfAt(t, '-', tail);
  }

  datatype Choice = Chosen(key: KeyMetadata) | NoKeys | AllKeysExhausted

  ghost predicate AnyAvailable(keys: seq<KeyMetadata>, now: int)
    reads keys
  {
    exists k :: k in keys && k.healthy && now > k.cooldownUntil
  }

  /** What every strategy promises of its choice. */
  ghost predicate Sound(keys: seq<KeyMetadata>, now: int, r: Choice)
    reads keys
  {
    && (keys == [] ==> r == NoKeys)
    && (keys != [] && !AnyAvailable(keys, now) ==> r == AllKeysExhausted)
    && (AnyAvailable(keys, now) ==> r.Chosen? && r.key in keys && r.key.healthy && now > r.key.cooldownUntil)
  }

  function Available(keys: seq<KeyMetadata>, now: int): (r: seq<KeyMetadata>)
    reads keys
    ensures forall i :: 0 <= i < |r| ==> r[i] in keys && r[i].healthy && now > r[i].cooldownUntil
    ensures forall i :: 0 <= i < |keys| && keys[i].healthy && now > keys[i].cooldownUntil ==> keys[i] in r
  {
    if keys == [] then []
    else
      var before := Available(keys[..|keys| - 1], now);
      if keys[|keys| - 1].IsAvailable(now) then before + [keys[|keys| - 1]] else before
  }

  lemma AvailableSnoc(keys: seq<KeyMetadata>, now: int, n: nat)
    requires n < |keys|
    ensures Available(keys[..n + 1], now)
            == if keys[n].healthy && now > keys[n].cooldownUntil then Available(keys[..n], now) + [keys[n]]
               else Available(keys[..n], now)
  {
    assert keys[..n + 1][..n] == keys[..n];
  }

  /** The available keys come once each, in their order: the one at position `m` of the list follows
      exactly those that stand before it among all keys. */
  lemma {:induction false} AvailableAt(keys: seq<KeyMetadata>, now: int, n: nat, m: nat) returns (i: nat)
    requires n <= |keys| && m < |Available(keys[..n], now)|
    ensures i < n && keys[i] == Available(keys[..n], now)[m] && keys[i].healthy && now > keys[i].cooldownUntil
    ensures Available(keys[..i], now) == Available(keys[..n], now)[..m]
    ensures Available(keys[..i + 1], now) == Available(keys[..n], now)[..m + 1]
  {
    assert n > 0;
    AvailableSnoc(keys, now, n - 1);
    hide *;
    var before := Available(keys[..n - 1], now);
    TakeSnoc(before, keys[n - 1], m);
    if m < |before| {
      i := AvailableAt(keys, now, n - 1, m);
    } else {
      i := n - 1;
    }
  }

  lemma TakeSnoc<T>(s: seq<T>, x: T, m: nat)
    requires m <= |s|
    ensures (s + [x])[..m] == s[..m]
    ensures m < |s| ==> (s + [x])[..m + 1] == s[..m + 1]
    ensures m == |s| ==> s[..m] == s && (s + [x])[..m + 1] == s + [x]
  {
  }

  // ----- Least loaded -----------------------------------------------------------------------

  /** The first of the available keys of highest capacity score. */
  ghost predicate FirstBest(keys: seq<KeyMetadata>, now: int, key: KeyMetadata)
    reads keys, key
  {
    && (forall k :: k in keys && k.healthy && now > k.cooldownUntil ==> k.GetCapacityScore(now) <= key.GetCapacityScore(now))
    && exists i :: 0 <= i < |keys| && keys[i] == key && NoneAsGood(keys[..i], now, key)
  }

  ghost predicate NoneAsGood(keys: seq<KeyMetadata>, now: int, key: KeyMetadata)
    reads keys, key
  {
    forall k :: k in keys && k.healthy && now > k.cooldownUntil ==> k.GetCapacityScore(now) < key.GetCapacityScore(now)
  }

  method SelectLeastLoaded(keys: seq<KeyMetadata>, now: int) returns (r: Choice)
    ensures Sound(keys, now, r)
    ensures r.Chosen? ==> FirstBest(keys, now, r.key)
  {
    hide Available;
    if |keys| == 0 {
      return NoKeys;
    }
    var availableKeys := Available(keys, now);
    if |availableKeys| == 0 {
      return AllKeysExhausted;
    }
    var best := availableKeys[0];
    ghost var at := 0;
    var i := 1;
    while i < |availableKeys|
      invariant 1 <= i <= |availableKeys| && 0 <= at < i && best == availableKeys[at]
      invariant forall j :: 0 <= j < i ==> availableKeys[j].GetCapacityScore(now) <= best.GetCapacityScore(now)
      invariant forall j :: 0 <= j < at ==> availableKeys[j].GetCapacityScore(now) < best.GetCapacityScore(now)
    {
      if availableKeys[i].GetCapacityScore(now) > best.GetCapacityScore(now) {
        best, at := availableKeys[i], i;
      }
      i := i + 1;
    }
    BestComesFirst(keys, now, at);
    return Chosen(best);
  }

  lemma BestComesFirst(keys: seq<KeyMetadata>, now: int, at: nat)
    requires var available := Available(keys, now);
             at < |available|
             && (forall j :: 0 <= j < |available| ==> available[j].GetCapacityScore(now) <= available[at].GetCapacityScore(now))
             && (forall j :: 0 <= j < at ==> available[j].GetCapacityScore(now) < available[at].GetCapacityScore(now))
    ensures FirstBest(keys, now, Available(keys, now)[at])
  {
    hide Available;
    assert keys[..|keys|] == keys;
    var i := AvailableAt(keys, now, |keys|, at);
    var available, best := Available(keys, now), Available(keys, now)[at];
    forall k | k in keys && k.healthy && now > k.cooldownUntil ensures k.GetCapacityScore(now) <= best.GetCapacityScore(now) {
      assert k in available;
    }
    forall k | k in keys[..i] && k.healthy && now > k.cooldownUntil ensures k.GetCapacityScore(now) < best.GetCapacityScore(now) {
      assert k in available[..at];
    }
    assert NoneAsGood(keys[..i], now, best);
  }

  // ----- Weighted ------------------------------------------------------------------------------

  function EffectiveKeyWeight(weight: int): (w: int)
    ensures w >= 1
  {
    if weight <= 0 then 1 else weight
  }

  function TotalWeight(keys: seq<KeyMetadata>): (w: int)
    reads keys
    ensures w >= |keys|
  {
    if keys == [] then 0
    else TotalWeight(keys[..|keys| - 1]) + EffectiveKeyWeight(keys[|keys| - 1].weight)
  }

  /** The key whose share of [0, total) holds the roll: key i is chosen by exactly the
      rolls from the weights before it up to, not including, its own. */
  ghost predicate HoldsRoll(keys: seq<KeyMetadata>, i: int, roll: int)
    reads keys
  {
    && 0 <= i < |keys|
    && TotalWeight(keys[..i]) <= roll < TotalWeight(keys[..i]) + EffectiveKeyWeight(keys[i].weight)
  }

  /** The share of position `i`: from the weights of the available keys before it up to, not
      including, those with itself. It is empty for a key that is not available. */
  ghost predicate InShare(keys: seq<KeyMetadata>, now: int, i: nat, roll: int)
    requires i < |keys|
    reads keys
  {
    TotalWeight(Available(keys[..i], now)) <= roll < TotalWeight(Available(keys[..i + 1], now))
  }

  /** The key whose share holds the roll, of all rolls below the total weight. */
  ghost predicate ChosenByRoll(keys: seq<KeyMetadata>, now: int, roll: int, key: KeyMetadata)
    reads keys
  {
    && 0 <= roll < TotalWeight(Available(keys, now))
    && exists i :: 0 <= i < |keys| && keys[i] == key && InShare(keys, now, i, roll)
  }

  method SelectWeighted(keys: seq<KeyMetadata>, now: int, rand: nat -> nat) returns (r: Choice)
    requires InBounds(rand)
    ensures Sound(keys, now, r)
    ensures r.Chosen? ==> ChosenByRoll(keys, now, rand(TotalWeight(Available(keys, now))), r.key)
  {
    hide Available, TotalWeight;
    if |keys| == 0 {
      return NoKeys;
    }
    var availableKeys := Available(keys, now);
    if |availableKeys| == 0 {
      return AllKeysExhausted;
    }
    var totalWeight := SumWeights(availableKeys);
    var roll := rand(totalWeight);
    var i := FindRoll(availableKeys, roll);
    HeldInShare(keys, now, i, roll);
    return Chosen(availableKeys[i]);
  }

  lemma TotalSnoc(keys: seq<KeyMetadata>, i: nat)
    requires i < |keys|
    ensures TotalWeight(keys[..i + 1]) == TotalWeight(keys[..i]) + EffectiveKeyWeight(keys[i].weight)
  {
    assert keys[..i + 1][..i] == keys[..i];
  }

  lemma HeldInShare(keys: seq<KeyMetadata>, now: int, m: nat, roll: int)
    requires m < |Available(keys, now)| && HoldsRoll(Available(keys, now), m, roll)
    ensures exists i :: 0 <= i < |keys| && keys[i] == Available(keys, now)[m] && InShare(keys, now, i, roll)
  {
    hide Available, TotalWeight;
    assert keys[..|keys|] == keys;
    var i := AvailableAt(keys, now, |keys|, m);
    TotalSnoc(Available(keys, now), m);
    assert InShare(keys, now, i, roll);
  }

  method SumWeights(keys: seq<KeyMetadata>) returns (totalWeight: int)
    ensures totalWeight == TotalWeight(keys)
  {
    totalWeight := 0;
    var n := 0;
    while n < |keys|
      invariant 0 <= n <= |keys|
      invariant totalWeight == TotalWeight(keys[..n])
    {
      assert keys[..n + 1][..n] == keys[..n];
      totalWeight := totalWeight + EffectiveKeyWeight(keys[n].weight);
      n := n + 1;
    }
    assert keys[..n] == keys;
  }

  method FindRoll(keys: seq<KeyMetadata>, roll: int) returns (i: int)
    requires 0 <= roll < TotalWeight(keys)
    ensures HoldsRoll(keys, i, roll)
  {
    var left := roll;
    i := 0;
    assert keys[..|keys|] == keys;
    while i < |keys|
      invariant 0 <= i <= |keys|
      invariant left == roll - TotalWeight(keys[..i]) >= 0
    {
      assert keys[..i + 1][..i] == keys[..i];
      var w := EffectiveKeyWeight(keys[i].weight);
      if left < w {
        return;
      }
      left := left - w;
      i := i + 1;
    }
    assert false;
  }

  /** Shares do not overlap: no roll belongs to two keys. */
  lemma RollHasOneKey(keys: seq<KeyMetadata>, now: int, i: nat, j: nat, roll: int)
    requires i < |keys| && j < |keys| && InShare(keys, now, i, roll) && InShare(keys, now, j, roll)
    ensures i == j
  {
    if i < j {
      SharesGrow(keys, now, i + 1, j);
    } else if j < i {
      SharesGrow(keys, now, j + 1, i);
    }
  }

  /** Over all rolls, each available key is chosen exactly as often as its weight says, or once if it
      has none; another key never. */
  lemma RollsPerKey(keys: seq<KeyMetadata>, now: int, i: nat)
    requires i < |keys|
    ensures var rolls := set roll: int | 0 <= roll < TotalWeight(Available(keys, now)) && InShare(keys, now, i, roll);
            |rolls| == if !keys[i].healthy || now <= keys[i].cooldownUntil then 0
                       else if keys[i].weight > 0 then keys[i].weight
                       else 1
  {
    ShareSize(keys, now, i);
    ShareInside(keys, now, i);
    hide *;
    var lo, hi := TotalWeight(Available(keys[..i], now)), TotalWeight(Available(keys[..i + 1], now));
    var rolls := set roll: int | 0 <= roll < TotalWeight(Available(keys, now)) && InShare(keys, now, i, roll);
    forall roll: int ensures roll in rolls <==> roll in Interval(lo, hi - lo) {
      InShareIff(keys, now, i, roll);
    }
    assert rolls == Interval(lo, hi - lo);
  }

  lemma InShareIff(keys: seq<KeyMetadata>, now: int, i: nat, roll: int)
    requires i < |keys|
    ensures InShare(keys, now, i, roll) <==>
            TotalWeight(Available(keys[..i], now)) <= roll < TotalWeight(Available(keys[..i + 1], now))
  {
  }

  lemma ShareInside(keys: seq<KeyMetadata>, now: int, i: nat)
    requires i < |keys|
    ensures 0 <= TotalWeight(Available(keys[..i], now)) <= TotalWeight(Available(keys[..i + 1], now))
    ensures TotalWeight(Available(keys[..i + 1], now)) <= TotalWeight(Available(keys, now))
  {
    hide TotalWeight, Available;
    SharesGrow(keys, now, i, i + 1);
    SharesGrow(keys, now, i + 1, |keys|);
    assert keys[..|keys|] == keys;
  }

  lemma ShareSize(keys: seq<KeyMetadata>, now: int, i: nat)
    requires i < |keys|
    ensures TotalWeight(Available(keys[..i + 1], now)) - TotalWeight(Available(keys[..i], now))
            == if !keys[i].healthy || now <= keys[i].cooldownUntil then 0
               else if keys[i].weight > 0 then keys[i].weight
               else 1
  {
    AvailableSnoc(keys, now, i);
    hide Available;
    var before := Available(keys[..i], now);
    assert (before + [keys[i]])[..|before|] == before;
  }

  ghost function Interval(lo: int, n: nat): (r: set<int>)
    ensures |r| == n && forall x :: x in r <==> lo <= x < lo + n
  {
    if n == 0 then {} else Interval(lo, n - 1) + {lo + (n - 1)}
  }

  /** The total weight of the available keys grows with the keys looked at. */
  lemma {:induction false} SharesGrow(keys: seq<KeyMetadata>, now: int, i: nat, j: nat)
    requires i <= j <= |keys|
    ensures 0 <= TotalWeight(Available(keys[..i], now)) <= TotalWeight(Available(keys[..j], now))
    decreases j
  {
    hide Available, TotalWeight;
    if i < j {
      ShareSize(keys, now, j - 1);
      SharesGrow(keys, now, i, j - 1);
    }
  }

  // ----- Random -----------------------------------------------------------------------------------

  /** The key the draw names, of the list of available keys. */
  ghost predicate ChosenByDraw(keys: seq<KeyMetadata>, now: int, rand: nat -> nat, key: KeyMetadata)
    reads keys
  {
    var available := Available(keys, now);
    rand(|available|) < |available| && available[rand(|available|)] == key
  }

  method SelectRandom(keys: seq<KeyMetadata>, now: int, rand: nat -> nat) returns (r: Choice)
    requires InBounds(rand)
    ensures Sound(keys, now, r)
    ensures r.Chosen? ==> ChosenByDraw(keys, now, rand, r.key)
  {
    hide Available;
    if |keys| == 0 {
      return NoKeys;
    }
    var availableKeys := Available(keys, now);
    if |availableKeys| == 0 {
      return AllKeysExhausted;
    }
    var idx := rand(|availableKeys|);
    assert availableKeys[idx] in availableKeys;
    return Chosen(availableKeys[idx]);
  }

  // ----- Round robin ---------------------------------------------------------------------------------

  const TWO_64 := 0x1_0000_0000_0000_0000

  function CyclicIndex(start: int, i: int, n: int): (m: int)
    requires n > 0
    ensures 0 <= m < n
  {
    (start + i) % n
  }

  /** The first key in service from position `start` on, going round. */
  ghost predicate FirstInTurn(keys: seq<KeyMetadata>, now: int, start: int, key: KeyMetadata)
    reads keys
  {
    exists i :: 0 <= i < |keys| && key == keys[CyclicIndex(start, i, |keys|)]
                && forall j :: 0 <= j < i ==> var k := keys[CyclicIndex(start, j, |keys|)]; !(k.healthy && now > k.cooldownUntil)
  }

  datatype Strategy = LeastLoaded | RoundRobin | Random | Weighted

  class KeySelector {
    const strategy: Strategy
    // Atomic counter of round-robin calls; it wraps at 64 bits.
    var index: int

    ghost predicate Valid()
      reads this
    {
      0 <= index < TWO_64
    }

    constructor (strategy: Strategy)
      ensures Valid() && this.strategy == strategy && index == 0
    {
      this.strategy, index := strategy, 0;
    }

    /** The first available key at or after the counter, cyclically. */
    method SelectRoundRobin(keys: seq<KeyMetadata>, now: int) returns (r: Choice)
      requires Valid()
      modifies this`index
      ensures Valid() && Sound(keys, now, r)
      ensures index == if keys == [] then old(index) else (old(index) + 1) % TWO_64
      ensures r.Chosen? ==> FirstInTurn(keys, now, old(index), r.key)
    {
      hide CyclicIndex;
      if |keys| == 0 {
        return NoKeys;
      }
      var nextIndex := index;
      index := (index + 1) % TWO_64;
      var startIdx := nextIndex % |keys|;
      var i := 0;
      while i < |keys|
        invariant 0 <= i <= |keys| && index == (nextIndex + 1) % TWO_64
        invariant forall j :: 0 <= j < i ==> !keys[CyclicIndex(nextIndex, j, |keys|)].IsAvailable(now)
      {
        var idx := (startIdx + i) % |keys|;
        ModShift(nextIndex, i, |keys|);
        if keys[idx].IsAvailable(now) {
          assert keys[idx] in keys;
          return Chosen(keys[idx]);
        }
        i := i + 1;
      }
      forall k | k in keys ensures !k.IsAvailable(now) {
        var m :| 0 <= m < |keys| && keys[m] == k;
        var j := Offset(nextIndex, m, |keys|);
        assert !keys[CyclicIndex(nextIndex, j, |keys|)].IsAvailable(now);
      }
      return AllKeysExhausted;
    }

    /** The strategy chosen by configuration. */
    method Select(keys: seq<KeyMetadata>, now: int, rand: nat -> nat) returns (r: Choice)
      requires Valid() && InBounds(rand)
      modifies this`index
      ensures Valid() && Sound(keys, now, r)
      ensures index == if strategy.RoundRobin? && keys != [] then (old(index) + 1) % TWO_64 else old(index)
      ensures r.Chosen? ==>
                match strategy
                case LeastLoaded => FirstBest(keys, now, r.key)
                case RoundRobin => FirstInTurn(keys, now, old(index), r.key)
                case Weighted => ChosenByRoll(keys, now, rand(TotalWeight(Available(keys, now))), r.key)
                case Random => ChosenByDraw(keys, now, rand, r.key)
    {
      match strategy {
        case LeastLoaded => r := SelectLeastLoaded(keys, now);
        case RoundRobin => r := SelectRoundRobin(keys, now);
        case Random => r := SelectRandom(keys, now, rand);
        case Weighted => r := SelectWeighted(keys, now, rand);
      }
    }
  }

  lemma ModShift(a: int, i: int, n: int)
    requires n > 0 && a >= 0 && i >= 0
    ensures (a % n + i) % n == CyclicIndex(a, i, n)
  {
    var q := a / n;
    ModUnique((a % n + i) % n, (a % n + i) / n + q, a + i, n);
  }

  /** The remainder is the only number below n that differs by a multiple of n. */
  lemma ModUnique(r: int, q: int, a: int, n: int)
    requires n > 0 && 0 <= r < n && a == q * n + r
    ensures a % n == r
  {
    var d := a / n - q;
    assert d * n == r - a % n by {
      assert a == (a / n) * n + a % n;
      assert d * n == (a / n) * n - q * n;
    }
    MultipleBelow(d, n);
  }

  lemma MultipleBelow(d: int, n: int)
    requires n > 0 && -n < d * n < n
    ensures d == 0
  {
    if d >= 1 {
      MulAtLeast(d, n);
    } else if d <= -1 {
      MulAtLeast(-d, n);
    }
  }

  lemma MulAtLeast(d: int, n: int)
    requires d >= 1 && n > 0
    ensures d * n >= n
  {
  }

  /** How far position `m` lies behind the start. */
  lemma Offset(a: int, m: int, n: int) returns (j: int)
    requires 0 <= m < n && a >= 0
    ensures 0 <= j < n && CyclicIndex(a, j, n) == m
  {
    var s := a % n;
    if m >= s {
      j := m - s;
      ModUnique(m, a / n, a + j, n);
    } else {
      j := m - s + n;
      assert (a / n + 1) * n == (a / n) * n + n;
      ModUnique(m, a / n + 1, a + j, n);
    }
  }
}
