/** Provider-level routing data shared by every router strategy. */
module Providers {

  /** A provider with its routing metadata. `healthy` is the answer of the health
      check at the moment of the call; a provider without a check is healthy. */
  datatype ProviderInfo = ProviderInfo(name: string, healthy: bool, weight: int, priority: int)

  datatype Selection = Selected(provider: ProviderInfo) | NoProviders | AllProvidersUnhealthy

  /** The healthy providers, in order. */
  function FilterHealthy(infos: seq<ProviderInfo>): (r: seq<ProviderInfo>)
    ensures forall p :: p in r <==> p in infos && p.healthy
  {
    if infos == [] then []
    else (if infos[0].healthy then [infos[0]] else []) + FilterHealthy(infos[1..])
  }

  /** Filtering looks at each provider alone and keeps the order. */
  lemma {:induction false} FilterKeepsOrder(a: seq<ProviderInfo>, b: seq<ProviderInfo>)
    ensures FilterHealthy(a + b) == FilterHealthy(a) + FilterHealthy(b)
  {
    hide FilterHealthy;
    if a == [] {
      NoneHealthy();
      assert a + b == b;
    } else {
      FilterKeepsOrder(a[1..], b);
      assert a == [a[0]] + a[1..] && a + b == [a[0]] + (a[1..] + b);
      FilterOne(a[0], a[1..]);
      FilterOne(a[0], a[1..] + b);
      Associates([a[0]], FilterHealthy(a[1..]), FilterHealthy(b));
    }
  }

  lemma Associates(x: seq<ProviderInfo>, y: seq<ProviderInfo>, z: seq<ProviderInfo>)
    ensures x + (y + z) == (x + y) + z
  {
  }

  lemma FilterOne(p: ProviderInfo, rest: seq<ProviderInfo>)
    ensures p.healthy ==> FilterHealthy([p] + rest) == [p] + FilterHealthy(rest)
    ensures !p.healthy ==> FilterHealthy([p] + rest) == FilterHealthy(rest)
  {
    assert ([p] + rest)[1..] == rest;
  }

  lemma NoneHealthy()
    ensures FilterHealthy([]) == []
  {
  }

  /** The names by which a router remembers a list. */
  function Names(infos: seq<ProviderInfo>): (r: seq<string>)
    ensures |r| == |infos| && forall i :: 0 <= i < |r| ==> r[i] == infos[i].name
  {
    seq(|infos|, i requires 0 <= i < |infos| => infos[i].name)
  }
}
