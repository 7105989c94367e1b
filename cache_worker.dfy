/** The per-edge-node request resolver (models/cache_worker.py): a request
    is answered from the local cache, else from the caches named by matching
    cooperative orders, else from the nearest neighbour caches, else fetched
    from the provider (and, under classical caching, stored locally).
    Network and provider samples are parameters: `ethernet` lists the LAN
    latency draws in the order they are taken, `sample` the provider's (time, bytes) draw and
    `cloudLatency` the WAN draw. */
module CacheWorkers {
  import opened Wrappers
  import opened Resources
  import opened Geometry
  import opened Caches
  import opened EdgeNodes
  import opened CachingOrders
  import opened Requests
  import Sorting

  /** The expiration time, in ms since the start of the simulation, given
      to every resource fetched from its provider: an absolute time, not a
      lifetime, since the cache sweep compares it with the current time. */
  const DEFAULT_EXPIRATION_TIME: nat := 1000000

  /** One draw of a provider's profile: response time and response size,
      in the order the profile sampler returns them. */
  datatype TimeAndBytes = TimeAndBytes(time: nat, bytes: nat)

  // ---------------------------------------------------------------------
  // Neighbour selection

  /** The distinct elements of `s`, each at the place of its first
      occurrence, as the keys of a dictionary filled from `s`. */
  function Distinct<T(==)>(s: seq<T>): (r: seq<T>)
    ensures multiset(r) <= multiset(s)
    ensures forall i :: 0 <= i < |s| ==> s[i] in r
    ensures forall i, j :: 0 <= i < j < |r| ==> r[i] != r[j]
  {
    if s == [] then []
    else
      var init := s[..|s| - 1];
      var d := Distinct(init);
      assert s == init + [s[|s| - 1]];
      if s[|s| - 1] in d then d else d + [s[|s| - 1]]
  }

  /** In a sequence without repetitions every value occurs at most once. */
  lemma {:induction false} NoRepeatsCount<T>(s: seq<T>, x: T)
    requires forall i, j :: 0 <= i < j < |s| ==> s[i] != s[j]
    ensures multiset(s)[x] <= 1
  {
    if s != [] {
      assert s == [s[0]] + s[1..];
      NoRepeatsCount(s[1..], x);
      if s[0] == x {
        assert x !in s[1..];
      }
    }
  }

  /** A value found at two positions occurs at least twice. */
  lemma RepeatCount<T>(s: seq<T>, i: nat, j: nat)
    requires i < j < |s|
    ensures s[i] == s[j] ==> multiset(s)[s[i]] >= 2
  {
    assert s == s[..j] + [s[j]] + s[j + 1..];
    assert s[..j][i] == s[i];
  }

  /** A sequence without repetitions stays so under any permutation. */
  lemma NoRepeatsPermutation<T>(a: seq<T>, b: seq<T>)
    requires multiset(a) == multiset(b)
    requires forall i, j :: 0 <= i < j < |a| ==> a[i] != a[j]
    ensures forall i, j :: 0 <= i < j < |b| ==> b[i] != b[j]
  {
    forall i, j | 0 <= i < j < |b|
      ensures b[i] != b[j]
    {
      NoRepeatsCount(a, b[i]);
      RepeatCount(b, i, j);
    }
  }

  /** In a sequence sorted by `key`, an element outside a prefix has a key
      no smaller than any element of the prefix. */
  lemma PrefixNearest<T>(ordered: seq<T>, limit: nat, key: T -> int, b: T)
    requires Sorting.SortedBy(ordered, key) && limit <= |ordered|
    requires b in ordered && b !in ordered[..limit]
    ensures forall i :: 0 <= i < limit ==> key(ordered[i]) <= key(b)
  {
  }

  function DistanceFrom(edgeNode: EdgeNode): EdgeNode -> int
  {
    (n: EdgeNode) => SquaredDistance(edgeNode.position, n.position)
  }

  /** The neighbours a worker consults: nothing when the configured count is
      not positive, otherwise the `neighborEdgeNodes - 1` nearest distinct
      nodes of `cacheNodes` (all of them if there are fewer), nearest first,
      ties in input order. */
  function GetOrderedCacheNodesByDistance(edgeNode: EdgeNode, cacheNodes: seq<EdgeNode>,
                                          neighborEdgeNodes: int): (r: seq<EdgeNode>)
    ensures neighborEdgeNodes <= 0 ==> r == []
    ensures neighborEdgeNodes > 0 ==>
      |r| == if neighborEdgeNodes - 1 < |Distinct(cacheNodes)| then neighborEdgeNodes - 1
             else |Distinct(cacheNodes)|
  {
    if neighborEdgeNodes <= 0 then []
    else
      var ordered := Sorting.SortBy(Distinct(cacheNodes), DistanceFrom(edgeNode));
      ordered[..if neighborEdgeNodes - 1 < |ordered| then neighborEdgeNodes - 1 else |ordered|]
  }

  /** The chosen neighbours are input nodes, none twice, nearest first, and
      no node left out is nearer than one chosen. */
  lemma OrderedCacheNodesSpec(edgeNode: EdgeNode, cacheNodes: seq<EdgeNode>, neighborEdgeNodes: int)
    ensures var r := GetOrderedCacheNodesByDistance(edgeNode, cacheNodes, neighborEdgeNodes);
      && (forall n :: n in r ==> n in cacheNodes)
      && (forall i, j :: 0 <= i < j < |r| ==> r[i] != r[j])
      && Sorting.SortedBy(r, DistanceFrom(edgeNode))
      && (forall a, b :: a in r && b in cacheNodes && b !in r ==>
            SquaredDistance(edgeNode.position, a.position) <= SquaredDistance(edgeNode.position, b.position))
  {
    if neighborEdgeNodes > 0 {
      var key := DistanceFrom(edgeNode);
      var ordered := Sorting.SortBy(Distinct(cacheNodes), key);
      var limit := if neighborEdgeNodes - 1 < |ordered| then neighborEdgeNodes - 1 else |ordered|;
      var r := ordered[..limit];
      assert GetOrderedCacheNodesByDistance(edgeNode, cacheNodes, neighborEdgeNodes) == r;
      NearestPrefix(cacheNodes, key, limit);
      forall a, b | a in r && b in cacheNodes && b !in r
        ensures SquaredDistance(edgeNode.position, a.position) <= SquaredDistance(edgeNode.position, b.position)
      {
        assert key(a) <= key(b);
      }
    }
  }

  /** The facts behind the neighbour choice, for any key: a prefix of the
      key-sorted distinct elements. */
  lemma NearestPrefix<T>(s: seq<T>, key: T -> int, limit: nat)
    requires limit <= |Distinct(s)|
    ensures var r := Sorting.SortBy(Distinct(s), key)[..limit];
      && (forall n :: n in r ==> n in s)
      && (forall i, j :: 0 <= i < j < |r| ==> r[i] != r[j])
      && Sorting.SortedBy(r, key)
      && (forall a, b :: a in r && b in s && b !in r ==> key(a) <= key(b))
  {
    PrefixMembers(s, key, limit);
    PrefixOrdered(s, key, limit);
    PrefixKeysBelow(s, key, limit);
  }

  /** The chosen elements are distinct and in key order. */
  lemma PrefixOrdered<T>(s: seq<T>, key: T -> int, limit: nat)
    requires limit <= |Distinct(s)|
    ensures var r := Sorting.SortBy(Distinct(s), key)[..limit];
      && (forall i, j :: 0 <= i < j < |r| ==> r[i] != r[j])
      && Sorting.SortedBy(r, key)
  {
    var ordered := Sorting.SortBy(Distinct(s), key);
    NoRepeatsPermutation(Distinct(s), ordered);
    var r := ordered[..limit];
    forall i, j | 0 <= i < j < |r|
      ensures r[i] != r[j] && key(r[i]) <= key(r[j])
    {
      assert r[i] == ordered[i] && r[j] == ordered[j];
    }
  }

  /** Every chosen element comes from the input. */
  lemma PrefixMembers<T>(s: seq<T>, key: T -> int, limit: nat)
    requires limit <= |Distinct(s)|
    ensures forall n :: n in Sorting.SortBy(Distinct(s), key)[..limit] ==> n in s
  {
    var d := Distinct(s);
    var ordered := Sorting.SortBy(d, key);
    forall n | n in ordered[..limit]
      ensures n in s
    {
      assert n in multiset(ordered);
      assert n in multiset(d);
      assert n in multiset(s);
    }
  }

  /** No input element left out has a smaller key than a chosen one. */
  lemma PrefixKeysBelow<T>(s: seq<T>, key: T -> int, limit: nat)
    requires limit <= |Distinct(s)|
    ensures var r := Sorting.SortBy(Distinct(s), key)[..limit];
      forall a, b :: a in r && b in s && b !in r ==> key(a) <= key(b)
  {
    var d := Distinct(s);
    var ordered := Sorting.SortBy(d, key);
    var r := ordered[..limit];
    forall a, b | a in r && b in s && b !in r
      ensures key(a) <= key(b)
    {
      var j :| 0 <= j < |s| && s[j] == b;
      assert b in d;
      assert b in multiset(ordered);
      PrefixNearest(ordered, limit, key, b);
      var i :| 0 <= i < |r| && r[i] == a;
      assert r[i] == ordered[i];
    }
  }

  // ---------------------------------------------------------------------
  // Cooperative orders

  /** `_match`: an order answers a request for the provider it names. */
  predicate Match(order: CachingOrder, requestId: string)
  {
    order.providerId == requestId
  }

  /** The orders of `orders` that are not STANDARD, in their order. */
  function NonStandard(orders: seq<CachingOrder>): (r: seq<CachingOrder>)
    ensures |r| <= |orders|
  {
    if orders == [] then []
    else (if orders[0].orderType != STANDARD then [orders[0]] else []) + NonStandard(orders[1..])
  }

  /** Exactly the non-STANDARD orders survive the filter. */
  lemma {:induction false} NonStandardSelects(orders: seq<CachingOrder>, o: CachingOrder)
    ensures o in NonStandard(orders) <==> o in orders && o.orderType != STANDARD
  {
    if orders != [] {
      NonStandardSelects(orders[1..], o);
      assert orders == [orders[0]] + orders[1..];
    }
  }

  lemma {:induction false} NonStandardConcat(a: seq<CachingOrder>, b: seq<CachingOrder>)
    ensures NonStandard(a + b) == NonStandard(a) + NonStandard(b)
  {
    if a == [] {
      assert a + b == b;
    } else {
      var head := if a[0].orderType != STANDARD then [a[0]] else [];
      assert (a + b)[0] == a[0] && (a + b)[1..] == a[1..] + b;
      NonStandardConcat(a[1..], b);
      assert NonStandard(a + b) == head + (NonStandard(a[1..]) + NonStandard(b));
    }
  }

  /** Filtering one more order appends it exactly when it is not STANDARD. */
  lemma NonStandardSnoc(a: seq<CachingOrder>, o: CachingOrder)
    ensures NonStandard(a + [o]) == NonStandard(a) + (if o.orderType != STANDARD then [o] else [])
  {
    NonStandardConcat(a, [o]);
    assert NonStandard([o]) == (if o.orderType != STANDARD then [o] else []) + NonStandard([]);
  }

  /** The orders kept by the expiry sweep as it is written: those whose
      expiration time is at or before `currentTime`. */
  function KeptBySweep(orders: seq<CachingOrder>, currentTime: nat): (r: seq<CachingOrder>)
    ensures |r| <= |orders|
  {
    if orders == [] then []
    else (if orders[0].expirationTime <= currentTime then [orders[0]] else []) + KeptBySweep(orders[1..], currentTime)
  }

  /** Exactly the orders expired by `currentTime` survive the sweep. */
  lemma {:induction false} SweepSelects(orders: seq<CachingOrder>, currentTime: nat, o: CachingOrder)
    ensures o in KeptBySweep(orders, currentTime) <==> o in orders && o.expirationTime <= currentTime
  {
    if orders != [] {
      SweepSelects(orders[1..], currentTime, o);
      assert orders == [orders[0]] + orders[1..];
    }
  }

  lemma {:induction false} KeptBySweepConcat(a: seq<CachingOrder>, b: seq<CachingOrder>, currentTime: nat)
    ensures KeptBySweep(a + b, currentTime) == KeptBySweep(a, currentTime) + KeptBySweep(b, currentTime)
  {
    if a == [] {
      assert a + b == b;
    } else {
      var head := if a[0].expirationTime <= currentTime then [a[0]] else [];
      assert (a + b)[0] == a[0] && (a + b)[1..] == a[1..] + b;
      KeptBySweepConcat(a[1..], b, currentTime);
      assert KeptBySweep(a + b, currentTime) == head + (KeptBySweep(a[1..], currentTime) + KeptBySweep(b, currentTime));
    }
  }

  /** A sweep keeps every order that has expired by its time. */
  lemma {:induction false} SweepKeepsExpired(orders: seq<CachingOrder>, currentTime: nat)
    requires forall i :: 0 <= i < |orders| ==> orders[i].expirationTime <= currentTime
    ensures KeptBySweep(orders, currentTime) == orders
  {
    if orders != [] {
      SweepKeepsExpired(orders[1..], currentTime);
      assert orders == [orders[0]] + orders[1..];
    }
  }

  /** A later sweep keeps everything an earlier one kept: as written, the
      sweep only ever retains orders that have already expired. */
  lemma SweepMonotone(orders: seq<CachingOrder>, t1: nat, t2: nat)
    requires t1 <= t2
    ensures KeptBySweep(KeptBySweep(orders, t1), t2) == KeptBySweep(orders, t1)
  {
    var kept := KeptBySweep(orders, t1);
    forall i | 0 <= i < |kept|
      ensures kept[i].expirationTime <= t2
    {
      SweepSelects(orders, t1, kept[i]);
    }
    SweepKeepsExpired(kept, t2);
  }

  // ---------------------------------------------------------------------
  // The probe sequence of a request

  /** Every cooperative order matching `id` names a cooperator node (the
      resolver dereferences it). */
  predicate CooperatorsKnown(orders: seq<CachingOrder>, id: string)
  {
    forall i :: 0 <= i < |orders| && Match(orders[i], id) ==> orders[i].cooperatorEdgeNode.Some?
  }

  /** The caches of the cooperator nodes of the orders matching `id`, in
      order. */
  function CooperatorCaches(orders: seq<CachingOrder>, id: string): seq<Cache>
    requires CooperatorsKnown(orders, id)
  {
    if orders == [] then []
    else
      assert CooperatorsKnown(orders[1..], id) by {
        assert forall i :: 1 <= i < |orders| ==> orders[1..][i - 1] == orders[i];
      }
      (if Match(orders[0], id) then [orders[0].cooperatorEdgeNode.value.cache] else [])
      + CooperatorCaches(orders[1..], id)
  }

  lemma CooperatorsKnownSplit(a: seq<CachingOrder>, b: seq<CachingOrder>, id: string)
    requires CooperatorsKnown(a + b, id)
    ensures CooperatorsKnown(a, id) && CooperatorsKnown(b, id)
  {
    assert forall i :: 0 <= i < |a| ==> (a + b)[i] == a[i];
    assert forall i :: 0 <= i < |b| ==> (a + b)[|a| + i] == b[i];
  }

  lemma {:induction false} CooperatorCachesConcat(a: seq<CachingOrder>, b: seq<CachingOrder>, id: string)
    requires CooperatorsKnown(a + b, id)
    ensures CooperatorsKnown(a, id) && CooperatorsKnown(b, id)
    ensures CooperatorCaches(a + b, id) == CooperatorCaches(a, id) + CooperatorCaches(b, id)
  {
    CooperatorsKnownSplit(a, b, id);
    if a == [] {
      assert a + b == b;
    } else {
      var head := if Match(a[0], id) then [a[0].cooperatorEdgeNode.value.cache] else [];
      assert (a + b)[0] == a[0] && (a + b)[1..] == a[1..] + b;
      CooperatorsKnownSplit([a[0]], a[1..] + b, id);
      CooperatorCachesConcat(a[1..], b, id);
      assert CooperatorCaches(a + b, id) == head + (CooperatorCaches(a[1..], id) + CooperatorCaches(b, id));
    }
  }

  function NeighborCaches(nodes: seq<EdgeNode>): (r: seq<Cache>)
    ensures |r| == |nodes|
    ensures forall i :: 0 <= i < |nodes| ==> r[i] == nodes[i].cache
  {
    seq(|nodes|, i requires 0 <= i < |nodes| => nodes[i].cache)
  }

  /** The position of the first cache view holding provider `id`, or the
      number of views when none does. */
  function FirstHolder(vs: seq<CacheView>, id: string): (k: nat)
    ensures k <= |vs|
  {
    if vs == [] then 0
    else if FindProvider(vs[0].resources, id).Some? then 0
    else 1 + FirstHolder(vs[1..], id)
  }

  /** The views before the first holder all miss `id`; the first holder,
      when there is one, holds it. */
  lemma {:induction false} FirstHolderSpec(vs: seq<CacheView>, id: string, j: nat)
    requires j < |vs|
    ensures j < FirstHolder(vs, id) ==> FindProvider(vs[j].resources, id).None?
    ensures j == FirstHolder(vs, id) ==> FindProvider(vs[j].resources, id).Some?
  {
    if j > 0 && FindProvider(vs[0].resources, id).None? {
      FirstHolderSpec(vs[1..], id, j - 1);
    }
  }

  /** The total of the LAN latency draws `ethernet[from..to]`. */
  function Draws(ethernet: seq<int>, from: nat, to: nat): int
    requires from <= to <= |ethernet|
  {
    if from == to then 0 else Draws(ethernet, from, to - 1) + ethernet[to - 1]
  }

  /** Consecutive runs of draws add up. */
  lemma {:induction false} DrawsSplit(ethernet: seq<int>, from: nat, mid: nat, to: nat)
    requires from <= mid <= to <= |ethernet|
    ensures Draws(ethernet, from, mid) + Draws(ethernet, mid, to) == Draws(ethernet, from, to)
  {
    if mid < to {
      DrawsSplit(ethernet, from, mid, to - 1);
    }
  }

  /** The observable state of one cache. */
  datatype CacheView = CacheView(resources: seq<Resource>, requestReceived: nat, cacheHits: nat, cacheMisses: nat)

  ghost function ViewOf(c: Cache): CacheView
    reads c
  {
    CacheView(c.resources, c.requestReceived, c.cacheHits, c.cacheMisses)
  }

  /** A cache after `lookups` lookups of `id` at time `t` that all missed
      except, when `hit`, the last one. */
  function AfterLookups(v: CacheView, id: string, t: nat, lookups: nat, hit: bool): CacheView
  {
    match FindProvider(v.resources, id)
    case Some(i) =>
      if hit then
        CacheView(v.resources[i := Retrieved(v.resources[i], t)], v.requestReceived + lookups,
                  v.cacheHits + 1, v.cacheMisses)
      else CacheView(v.resources, v.requestReceived + lookups, v.cacheHits, v.cacheMisses)
    case None => CacheView(v.resources, v.requestReceived + lookups, v.cacheHits, v.cacheMisses)
  }

  /** A cache after inserting `r` under its insertion rule. */
  function AfterStore(v: CacheView, strategy: ReplacementStrategy, maxSize: nat, r: Resource): CacheView
  {
    var outcome := AddOutcome(strategy, maxSize, v.resources, v.cacheMisses, r);
    CacheView(outcome.0, v.requestReceived, v.cacheHits, outcome.1)
  }

  /** How many of the first `n` probes are at cache `c`. */
  function Occurrences(probes: seq<Cache>, c: Cache, n: nat): nat
    requires n <= |probes|
  {
    if n == 0 then 0 else Occurrences(probes, c, n - 1) + (if probes[n - 1] == c then 1 else 0)
  }

  /** What looking `id` up at time `t` in `probes[..tried]`, one after the
      other, does to cache `c`, which was `v` before: one lookup per
      occurrence of `c` among the probes tried; a hit when `hitAt` names a
      probe at `c`; and when `stored` holds a resource and `c` is the first
      probe (the local cache), that resource inserted afterwards. */
  function Effect(c: Cache, v: CacheView, probes: seq<Cache>, id: string, t: nat, tried: nat,
                  hitAt: Option<nat>, stored: Option<Resource>): CacheView
    requires tried <= |probes|
  {
    var looked := AfterLookups(v, id, t, Occurrences(probes, c, tried),
                               hitAt.Some? && hitAt.value < |probes| && probes[hitAt.value] == c);
    if stored.Some? && |probes| > 0 && probes[0] == c
    then AfterStore(looked, c.replacementStrategy, c.maxSizeBytes, stored.value)
    else looked
  }

  /** One more probe, at `probes[j]`, after `j` probes that all missed. */
  lemma EffectExtend(c: Cache, v: CacheView, probes: seq<Cache>, id: string, t: nat, j: nat)
    requires j < |probes|
    ensures var before := CacheView(v.resources, v.requestReceived + Occurrences(probes, c, j),
                                    v.cacheHits, v.cacheMisses);
      && Effect(c, v, probes, id, t, j, None, None) == before
      && (c != probes[j] ==>
            && Effect(c, v, probes, id, t, j + 1, None, None) == before
            && Effect(c, v, probes, id, t, j + 1, Some(j), None) == before)
      && (c == probes[j] ==>
            && Effect(c, v, probes, id, t, j + 1, None, None)
               == before.(requestReceived := before.requestReceived + 1)
            && Effect(c, v, probes, id, t, j + 1, Some(j), None)
               == AfterLookups(v, id, t, Occurrences(probes, c, j) + 1, true))
  {
  }

  /** The views of `caches`, position by position. */
  ghost function Views(caches: seq<Cache>): (vs: seq<CacheView>)
    reads caches
    ensures |vs| == |caches|
    ensures forall i :: 0 <= i < |caches| ==> vs[i] == ViewOf(caches[i])
  {
    seq(|caches|, i reads caches requires 0 <= i < |caches| => ViewOf(caches[i]))
  }

  /** One lookup of `id` at time `t` on a cache in state `v`
      (`Cache.GetResource`): the new state and the answer. */
  function Lookup(v: CacheView, id: string, t: nat): (CacheView, Option<Resource>)
  {
    match FindProvider(v.resources, id)
    case Some(i) =>
      (CacheView(v.resources[i := Retrieved(v.resources[i], t)], v.requestReceived + 1,
                 v.cacheHits + 1, v.cacheMisses),
       Some(Retrieved(v.resources[i], t)))
    case None =>
      (CacheView(v.resources, v.requestReceived + 1, v.cacheHits, v.cacheMisses), None)
  }

  /** Every cache among `probes`, position by position, shows the `Effect`
      of the probing on the view it had in `before`. */
  ghost predicate Probed(probes: seq<Cache>, before: seq<CacheView>, id: string, t: nat, tried: nat,
                         hitAt: Option<nat>, stored: Option<Resource>)
    reads probes
  {
    && |before| == |probes| && tried <= |probes|
    && forall p {:trigger ViewOf(probes[p])} :: 0 <= p < |probes| ==>
         probes[p].Valid() && ViewOf(probes[p]) == Effect(probes[p], before[p], probes, id, t, tried, hitAt, stored)
  }

  /** Where a request for `id` stands after the first `tried` probes: the
      first holder answered `data` and the probing stopped there, or, with
      `data` still `None`, every probe so far missed. */
  ghost predicate Stage(probes: seq<Cache>, before: seq<CacheView>, id: string, t: nat, tried: nat,
                        data: Option<Resource>)
    reads probes
  {
    var k := FirstHolder(before, id);
    if data.Some? then
      && k < |before| && tried == k + 1
      && data == Lookup(before[k], id, t).1 && Probed(probes, before, id, t, k + 1, Some(k), None)
    else
      tried <= k && Probed(probes, before, id, t, tried, None, None)
  }

  /** The end of a request for `id` whose provider answer would be
      `fetched`: the first holder among the probes served it, or, when
      none holds it, the provider did and, under `classical` caching, the
      local cache (the first probe) stored it. */
  ghost predicate Served(probes: seq<Cache>, before: seq<CacheView>, id: string, t: nat, fetched: Resource,
                         classical: bool, resource: Option<Resource>)
    reads probes
  {
    var k := FirstHolder(before, id);
    && |before| == |probes|
    && resource == (if k < |probes| then Lookup(before[k], id, t).1 else Some(fetched))
    && Probed(probes, before, id, t, if k < |probes| then k + 1 else |probes|,
              if k < |probes| then Some(k) else None,
              if k == |probes| && classical then Some(fetched) else None)
  }

  /** A probe that answered ends the request. */
  lemma StageServed(probes: seq<Cache>, before: seq<CacheView>, id: string, t: nat, tried: nat,
                    data: Option<Resource>, fetched: Resource, classical: bool)
    requires Stage(probes, before, id, t, tried, data) && data.Some?
    ensures FirstHolder(before, id) + 1 == tried <= |probes|
    ensures Served(probes, before, id, t, fetched, classical, data)
  {
  }

  /** One probe, at position `j` after `j` misses, seen from position
      `p`: the probed cache moves to its state after the lookup, every
      other cache keeps its state, and both agree with the `Effect` of one
      more probe. */
  lemma ProbeStepAt(probes: seq<Cache>, before: seq<CacheView>, id: string, t: nat, j: nat, p: nat,
                    vj: CacheView, vp: CacheView)
    requires j < |probes| && p < |probes| && |before| == |probes|
    requires vj == Effect(probes[j], before[j], probes, id, t, j, None, None)
    requires vp == Effect(probes[p], before[p], probes, id, t, j, None, None)
    requires probes[p] == probes[j] ==> vp == vj
    ensures var hitAt := if Lookup(vj, id, t).1.Some? then Some(j) else None;
      && (probes[p] == probes[j] ==> Lookup(vj, id, t).0 == Effect(probes[p], before[p], probes, id, t, j + 1, hitAt, None))
      && (probes[p] != probes[j] ==> vp == Effect(probes[p], before[p], probes, id, t, j + 1, hitAt, None))
  {
  }

  /** Before any probe, every cache shows the view it had. */
  lemma ProbedStart(probes: seq<Cache>, id: string, t: nat)
    requires forall c :: c in probes ==> c.Valid()
    ensures Stage(probes, Views(probes), id, t, 0, None)
  {
  }

  /** Storing `r` in the first probe after every probe missed, seen from
      position `p`: the first probe's cache gains `r` under its insertion
      rule, every other cache keeps its state. */
  lemma StoreAt(probes: seq<Cache>, before: seq<CacheView>, id: string, t: nat, p: nat, r: Resource, v: CacheView)
    requires p < |probes| && |before| == |probes|
    requires v == Effect(probes[p], before[p], probes, id, t, |probes|, None, None)
    ensures probes[p] == probes[0] ==>
      Effect(probes[p], before[p], probes, id, t, |probes|, None, Some(r))
      == AfterStore(v, probes[p].replacementStrategy, probes[p].maxSizeBytes, r)
    ensures probes[p] != probes[0] ==> Effect(probes[p], before[p], probes, id, t, |probes|, None, Some(r)) == v
  {
  }

  /** Where the cooperator of order `i` sits among the cooperator caches:
      right after those of the matching orders before it. */
  lemma CooperatorAt(orders: seq<CachingOrder>, id: string, i: nat)
    requires CooperatorsKnown(orders, id) && i < |orders|
    ensures CooperatorsKnown(orders[..i], id) && CooperatorsKnown(orders[..i + 1], id)
    ensures |CooperatorCaches(orders[..i + 1], id)|
            == |CooperatorCaches(orders[..i], id)| + (if Match(orders[i], id) then 1 else 0)
    ensures |CooperatorCaches(orders[..i + 1], id)| <= |CooperatorCaches(orders, id)|
    ensures Match(orders[i], id) ==>
      CooperatorCaches(orders, id)[|CooperatorCaches(orders[..i], id)|] == orders[i].cooperatorEdgeNode.value.cache
  {
    assert orders == orders[..i + 1] + orders[i + 1..];
    CooperatorCachesConcat(orders[..i + 1], orders[i + 1..], id);
    assert orders[..i + 1] == orders[..i] + [orders[i]];
    CooperatorCachesConcat(orders[..i], [orders[i]], id);
    assert [orders[i]][1..] == [];
  }

  /** How many of the first `i` orders match `id`. */
  function MatchedBefore(orders: seq<CachingOrder>, id: string, i: nat): nat
    requires i <= |orders|
  {
    if i == 0 then 0 else MatchedBefore(orders, id, i - 1) + (if Match(orders[i - 1], id) then 1 else 0)
  }

  /** The cooperator caches of the first `i` orders are as many as the
      matching orders among them. */
  lemma {:induction false} CooperatorsBefore(orders: seq<CachingOrder>, id: string, i: nat)
    requires CooperatorsKnown(orders, id) && i <= |orders|
    ensures CooperatorsKnown(orders[..i], id)
    ensures |CooperatorCaches(orders[..i], id)| == MatchedBefore(orders, id, i)
  {
    if i == 0 {
      assert orders[..0] == [];
    } else {
      CooperatorsBefore(orders, id, i - 1);
      CooperatorAt(orders, id, i - 1);
    }
  }

  /** The cooperator of a matching order `i` is cooperator cache number
      `MatchedBefore(orders, id, i)`; all orders together match as many
      times as there are cooperator caches. */
  lemma CooperatorIndex(orders: seq<CachingOrder>, id: string, i: nat)
    requires CooperatorsKnown(orders, id) && i < |orders|
    ensures MatchedBefore(orders, id, i + 1) <= |CooperatorCaches(orders, id)|
    ensures Match(orders[i], id) ==>
      CooperatorCaches(orders, id)[MatchedBefore(orders, id, i)] == orders[i].cooperatorEdgeNode.value.cache
  {
    CooperatorsBefore(orders, id, i);
    CooperatorsBefore(orders, id, i + 1);
    CooperatorAt(orders, id, i);
  }

  lemma CooperatorsAll(orders: seq<CachingOrder>, id: string)
    requires CooperatorsKnown(orders, id)
    ensures MatchedBefore(orders, id, |orders|) == |CooperatorCaches(orders, id)|
  {
    CooperatorsBefore(orders, id, |orders|);
    assert orders[..|orders|] == orders;
  }

  // ---------------------------------------------------------------------
  // Provider fetch

  /** `perform_request` as written unpacks the profile draw (time, bytes)
      as (size, application latency): the stored resource gets the
      response time as its size, and the latency grows by the byte count. */
  function FetchAsWritten(id: string, sample: TimeAndBytes, timeEpoch: nat): (r: (Resource, int))
  {
    (NewResource(id, sample.time, timeEpoch, DEFAULT_EXPIRATION_TIME), sample.bytes)
  }

  /** A 4096-byte response that took 250 ms is stored as a 250-byte
      resource and charged 4096 ms. */
  lemma FetchAsWrittenSwaps()
    ensures var sample := TimeAndBytes(250, 4096);
      && FetchAsWritten("p", sample, 0).0.size == 250 != sample.bytes
      && FetchAsWritten("p", sample, 0).1 == 4096 != sample.time
  {
  }

  /** A resource fetched after the absolute expiration time is stored
      already expired: the next sweep of the cache holding it, at or after
      the fetch, drops it. */
  lemma LateFetchExpires(id: string, bytes: nat, timeEpoch: nat, sweepTime: nat)
    requires DEFAULT_EXPIRATION_TIME < timeEpoch <= sweepTime
    ensures Unexpired([NewResource(id, bytes, timeEpoch, DEFAULT_EXPIRATION_TIME)], sweepTime) == []
  {
  }

  // ---------------------------------------------------------------------
  // The worker

  class CacheWorker {
    var cooperativeOrders: seq<CachingOrder>
    const edgeNode: EdgeNode
    const cacheNodes: seq<EdgeNode>
    var totalRequests: nat
    var cachedRequests: nat
    const classicalCaching: bool

    ghost predicate Valid()
      reads this
    {
      cachedRequests <= totalRequests
    }

    constructor (edgeNode: EdgeNode, cacheNodes: seq<EdgeNode>, neighborEdgeNodes: int, classicalCaching: bool)
      ensures Valid()
      ensures this.edgeNode == edgeNode && this.classicalCaching == classicalCaching
      ensures this.cacheNodes == GetOrderedCacheNodesByDistance(edgeNode, cacheNodes, neighborEdgeNodes)
      ensures cooperativeOrders == [] && totalRequests == 0 && cachedRequests == 0
    {
      cooperativeOrders := [];
      this.edgeNode := edgeNode;
      this.cacheNodes := GetOrderedCacheNodesByDistance(edgeNode, cacheNodes, neighborEdgeNodes);
      totalRequests := 0;
      cachedRequests := 0;
      this.classicalCaching := classicalCaching;
    }

    /** The caches a request for `id` may consult, in the order they are
        tried: the local cache, the matching cooperators, the neighbours. */
    function Probes(id: string): seq<Cache>
      reads this`cooperativeOrders
      requires CooperatorsKnown(cooperativeOrders, id)
    {
      [edgeNode.cache] + CooperatorCaches(cooperativeOrders, id) + NeighborCaches(cacheNodes)
    }

    /** `probes` are laid out as `Probes(id)`: the local cache, the
        cooperator caches, the neighbour caches. */
    ghost predicate ProbeLayout(probes: seq<Cache>, id: string)
      reads this`cooperativeOrders
      requires CooperatorsKnown(cooperativeOrders, id)
    {
      var C := CooperatorCaches(cooperativeOrders, id);
      && |probes| == 1 + |C| + |cacheNodes| && probes[0] == edgeNode.cache
      && (forall m :: 0 <= m < |C| ==> probes[1 + m] == C[m])
      && (forall i :: 0 <= i < |cacheNodes| ==> probes[1 + |C| + i] == cacheNodes[i].cache)
    }

    lemma ProbesLaidOut(id: string)
      requires CooperatorsKnown(cooperativeOrders, id)
      ensures ProbeLayout(Probes(id), id)
    {
    }

    /** Keeps the cooperative orders of `orders`, in order; STANDARD orders
        are only announced. */
    method AddCachingOrders(orders: seq<CachingOrder>)
      modifies this
      ensures cooperativeOrders == old(cooperativeOrders) + NonStandard(orders)
      ensures totalRequests == old(totalRequests) && cachedRequests == old(cachedRequests)
    {
      for k := 0 to |orders|
        invariant cooperativeOrders == old(cooperativeOrders) + NonStandard(orders[..k])
        invariant totalRequests == old(totalRequests) && cachedRequests == old(cachedRequests)
      {
        assert orders[..k + 1] == orders[..k] + [orders[k]];
        NonStandardSnoc(orders[..k], orders[k]);
        if orders[k].orderType != STANDARD {
          cooperativeOrders := cooperativeOrders + [orders[k]];
        }
      }
      assert orders[..|orders|] == orders;
    }

    method RemoveExpiredCooperativeOrders(currentTime: nat)
      modifies this
      ensures cooperativeOrders == KeptBySweep(old(cooperativeOrders), currentTime)
      ensures totalRequests == old(totalRequests) && cachedRequests == old(cachedRequests)
    {
      cooperativeOrders := KeptBySweep(cooperativeOrders, currentTime);
    }

    /** `_is_resource`: a found resource counts as a cached request. */
    method IsResource(resource: Option<Resource>) returns (found: bool)
      modifies this
      ensures found == resource.Some?
      ensures cachedRequests == old(cachedRequests) + (if found then 1 else 0)
      ensures totalRequests == old(totalRequests) && cooperativeOrders == old(cooperativeOrders)
    {
      if resource.Some? {
        cachedRequests := cachedRequests + 1;
        return true;
      }
      return false;
    }

    /** The provider fetch: a fresh resource of the drawn size, stamped
        now, and the drawn response time plus the WAN latency. */
    method PerformRequest(request: Request, currentTime: nat, sample: TimeAndBytes, cloudLatency: int)
      modifies request
      ensures request.resource == Some(NewResource(request.id, sample.bytes, currentTime, DEFAULT_EXPIRATION_TIME))
      ensures request.latency == old(request.latency) + sample.time + cloudLatency
    {
      var applicationLatency, size := sample.time, sample.bytes;
      request.resource := Some(NewResource(request.id, size, currentTime, DEFAULT_EXPIRATION_TIME));
      request.latency := request.latency + (applicationLatency + cloudLatency);
    }

    /** `get_from_cache_node`, as probe `j` of a request for `id` whose
        probe sequence is `probes` and whose caches were `before` when the
        request arrived: after `j` probes that all missed, it answers as
        `probes[j]` did then, a hit exactly when `j` is the first holder of
        `id`, and the probing effect grows by one probe. */
    method GetFromCacheNode(node: EdgeNode, id: string, timeEpoch: nat,
                            ghost probes: seq<Cache>, ghost before: seq<CacheView>, ghost j: nat)
      returns (data: Option<Resource>)
      requires j < |probes| && probes[j] == node.cache
      requires Stage(probes, before, id, timeEpoch, j, None)
      modifies node.cache
      ensures data == Lookup(before[j], id, timeEpoch).1
      ensures data.Some? <==> j == FirstHolder(before, id)
      ensures Stage(probes, before, id, timeEpoch, j + 1, data)
    {
      FirstHolderSpec(before, id, j);
      ghost var v := ViewOf(node.cache);
      assert v == Effect(probes[j], before[j], probes, id, timeEpoch, j, None, None);
      EffectExtend(probes[j], before[j], probes, id, timeEpoch, j);
      data := node.cache.GetResource(id, timeEpoch);
      assert ViewOf(node.cache) == Lookup(v, id, timeEpoch).0 && data == Lookup(v, id, timeEpoch).1;
      forall p | 0 <= p < |probes|
        ensures probes[p].Valid()
        ensures ViewOf(probes[p])
             == Effect(probes[p], before[p], probes, id, timeEpoch, j + 1, if data.Some? then Some(j) else None, None)
      {
        assert old(ViewOf(probes[p])) == Effect(probes[p], before[p], probes, id, timeEpoch, j, None, None);
        ProbeStepAt(probes, before, id, timeEpoch, j, p, v, old(ViewOf(probes[p])));
      }
    }

    /** `_check_neighbor_nodes`: tries the neighbour caches in order, one
        LAN draw each (draws `drawn`, `drawn + 1`, ...), and stops at the
        first that holds `request.id`. The neighbours are the probes from
        `offset` on; with `offset == 0` and `probes` the neighbour caches
        this is the method on its own. */
    method CheckNeighborNodes(request: Request, timeEpoch: nat, ethernet: seq<int>, drawn: nat,
                              ghost probes: seq<Cache>, ghost before: seq<CacheView>, ghost offset: nat)
      returns (data: Option<Resource>, draws: nat)
      requires |probes| == offset + |cacheNodes|
      requires forall i :: 0 <= i < |cacheNodes| ==> probes[offset + i] == cacheNodes[i].cache
      requires drawn + |cacheNodes| <= |ethernet|
      requires Stage(probes, before, request.id, timeEpoch, offset, None)
      modifies request, probes
      ensures request.resource == old(request.resource)
      ensures drawn <= draws <= drawn + |cacheNodes|
      ensures request.latency == old(request.latency) + Draws(ethernet, drawn, draws)
      ensures data.None? ==> draws == drawn + |cacheNodes|
      ensures Stage(probes, before, request.id, timeEpoch, offset + (draws - drawn), data)
    {
      draws := drawn;
      data := None;
      var latency := request.latency;
      var i := 0;
      while i < |cacheNodes| && data.None?
        invariant i <= |cacheNodes| && draws == drawn + i
        invariant latency == old(request.latency) + Draws(ethernet, drawn, draws)
        invariant request.latency == old(request.latency) && request.resource == old(request.resource)
        invariant Stage(probes, before, request.id, timeEpoch, offset + i, data)
      {
        data := GetFromCacheNode(cacheNodes[i], request.id, timeEpoch, probes, before, offset + i);
        latency := latency + ethernet[draws];
        draws := draws + 1;
        i := i + 1;
      }
      request.latency := latency;
    }

    /** The cooperative-order tier of `request_data`: the cooperator of
        every order matching the request, in order, until one holds the
        resource; each consultation costs one LAN draw. Seen as the probes
        after the local one, it answers as the first holder among them. */
    method CheckCooperativeOrders(request: Request, timeEpoch: nat, ethernet: seq<int>,
                                  ghost probes: seq<Cache>, ghost before: seq<CacheView>)
      returns (data: Option<Resource>, draws: nat)
      requires CooperatorsKnown(cooperativeOrders, request.id)
      requires var C := CooperatorCaches(cooperativeOrders, request.id);
        && |C| < |probes| && |C| <= |ethernet|
        && forall m :: 0 <= m < |C| ==> probes[1 + m] == C[m]
      requires Stage(probes, before, request.id, timeEpoch, 1, None)
      modifies request, probes
      ensures request.resource == old(request.resource)
      ensures draws <= |CooperatorCaches(cooperativeOrders, request.id)|
      ensures request.latency == old(request.latency) + Draws(ethernet, 0, draws)
      ensures data.None? ==> draws == |CooperatorCaches(cooperativeOrders, request.id)|
      ensures Stage(probes, before, request.id, timeEpoch, 1 + draws, data)
    {
      ghost var C := CooperatorCaches(cooperativeOrders, request.id);
      draws := 0;
      data := None;
      var latency := request.latency;
      var i := 0;
      while i < |cooperativeOrders| && data.None?
        invariant i <= |cooperativeOrders| && draws == MatchedBefore(cooperativeOrders, request.id, i) <= |C|
        invariant latency == old(request.latency) + Draws(ethernet, 0, draws)
        invariant request.latency == old(request.latency) && request.resource == old(request.resource)
        invariant Stage(probes, before, request.id, timeEpoch, 1 + draws, data)
      {
        CooperatorIndex(cooperativeOrders, request.id, i);
        var order := cooperativeOrders[i];
        if Match(order, request.id) {
          data := GetFromCacheNode(order.cooperatorEdgeNode.value, request.id, timeEpoch, probes, before, 1 + draws);
          latency := latency + ethernet[draws];
          draws := draws + 1;
        }
        i := i + 1;
      }
      if data.None? {
        CooperatorsAll(cooperativeOrders, request.id);
      }
      request.latency := latency;
    }

    /** `_store_data`: the fetched resource goes into the local cache, the
        first probe, after every probe missed. */
    method StoreData(resource: Resource, ghost probes: seq<Cache>, ghost before: seq<CacheView>,
                     ghost id: string, ghost t: nat)
      requires probes != [] && probes[0] == edgeNode.cache
      requires Probed(probes, before, id, t, |probes|, None, None)
      modifies edgeNode.cache
      ensures Probed(probes, before, id, t, |probes|, None, Some(resource))
    {
      assert ViewOf(probes[0]) == Effect(probes[0], before[0], probes, id, t, |probes|, None, None);
      edgeNode.cache.AddResource(resource, None);
      forall p | 0 <= p < |probes|
        ensures probes[p].Valid()
        ensures ViewOf(probes[p]) == Effect(probes[p], before[p], probes, id, t, |probes|, None, Some(resource))
      {
        assert old(ViewOf(probes[p])) == Effect(probes[p], before[p], probes, id, t, |probes|, None, None);
        StoreAt(probes, before, id, t, p, resource, old(ViewOf(probes[p])));
      }
    }

    /** `request_data`: the local cache, then the cooperators of the
        matching orders, then the neighbours, each answering as it stood
        when the request arrived; the first that holds the resource serves
        it and counts a cached request. When none does, the provider
        serves it and, under classical caching, it is stored locally.
        Every probe but the local one costs one LAN draw. */
    method RequestData(request: Request, timeEpoch: nat, ethernet: seq<int>, sample: TimeAndBytes, cloudLatency: int)
      requires Valid()
      requires CooperatorsKnown(cooperativeOrders, request.id)
      requires |Probes(request.id)| <= |ethernet| + 1
      requires forall c :: c in Probes(request.id) ==> c.Valid()
      modifies this, request, Probes(request.id)
      ensures Valid() && cooperativeOrders == old(cooperativeOrders)
      ensures totalRequests == old(totalRequests) + 1
      ensures var probes := old(Probes(request.id));
        var before := old(Views(Probes(request.id)));
        var k := FirstHolder(before, request.id);
        var fetched := NewResource(request.id, sample.bytes, timeEpoch, DEFAULT_EXPIRATION_TIME);
        && cachedRequests == old(cachedRequests) + (if k < |probes| then 1 else 0)
        && request.latency == old(request.latency)
           + (if k < |probes| then Draws(ethernet, 0, k) else Draws(ethernet, 0, |probes| - 1) + sample.time + cloudLatency)
        && Served(probes, before, request.id, timeEpoch, fetched, classicalCaching, request.resource)
    {
      ghost var probes := Probes(request.id);
      ghost var before := Views(probes);
      ProbedStart(probes, request.id, timeEpoch);
      ProbesLaidOut(request.id);
      totalRequests := totalRequests + 1;
      ServeRequest(request, timeEpoch, ethernet, sample, cloudLatency, probes, before);
    }

    /** Steps 1 to 4 of `request_data`, once the request is counted: the
        local cache, then the tiers beyond it. */
    method ServeRequest(request: Request, timeEpoch: nat, ethernet: seq<int>, sample: TimeAndBytes,
                        cloudLatency: int, ghost probes: seq<Cache>, ghost before: seq<CacheView>)
      requires cachedRequests < totalRequests
      requires CooperatorsKnown(cooperativeOrders, request.id) && ProbeLayout(probes, request.id)
      requires |probes| <= |ethernet| + 1
      requires Stage(probes, before, request.id, timeEpoch, 0, None)
      modifies this, request, probes
      ensures Valid() && cooperativeOrders == old(cooperativeOrders) && totalRequests == old(totalRequests)
      ensures var k := FirstHolder(before, request.id);
        && cachedRequests == old(cachedRequests) + (if k < |probes| then 1 else 0)
        && request.latency == old(request.latency)
           + (if k < |probes| then Draws(ethernet, 0, k) else Draws(ethernet, 0, |probes| - 1) + sample.time + cloudLatency)
      ensures Served(probes, before, request.id, timeEpoch,
                     NewResource(request.id, sample.bytes, timeEpoch, DEFAULT_EXPIRATION_TIME),
                     classicalCaching, request.resource)
    {
      ghost var fetched := NewResource(request.id, sample.bytes, timeEpoch, DEFAULT_EXPIRATION_TIME);
      assert probes[0] == edgeNode.cache;
      var data := GetFromCacheNode(edgeNode, request.id, timeEpoch, probes, before, 0);
      request.resource := data;
      var found := IsResource(data);
      if found {
        StageServed(probes, before, request.id, timeEpoch, 1, data, fetched, classicalCaching);
      } else {
        ServeBeyondLocal(request, timeEpoch, ethernet, sample, cloudLatency, probes, before);
      }
    }

    /** Steps 2 to 4 of `request_data`, after the local cache missed: the
        cooperators, then the neighbours and the provider. */
    method ServeBeyondLocal(request: Request, timeEpoch: nat, ethernet: seq<int>, sample: TimeAndBytes,
                            cloudLatency: int, ghost probes: seq<Cache>, ghost before: seq<CacheView>)
      requires cachedRequests < totalRequests
      requires CooperatorsKnown(cooperativeOrders, request.id)
      requires ProbeLayout(probes, request.id)
      requires |probes| <= |ethernet| + 1
      requires Stage(probes, before, request.id, timeEpoch, 1, None)
      modifies this, request, probes
      ensures Valid() && cooperativeOrders == old(cooperativeOrders) && totalRequests == old(totalRequests)
      ensures var k := FirstHolder(before, request.id);
        && cachedRequests == old(cachedRequests) + (if k < |probes| then 1 else 0)
        && request.latency == old(request.latency)
           + (if k < |probes| then Draws(ethernet, 0, k) else Draws(ethernet, 0, |probes| - 1) + sample.time + cloudLatency)
      ensures Served(probes, before, request.id, timeEpoch,
                     NewResource(request.id, sample.bytes, timeEpoch, DEFAULT_EXPIRATION_TIME),
                     classicalCaching, request.resource)
    {
      ghost var fetched := NewResource(request.id, sample.bytes, timeEpoch, DEFAULT_EXPIRATION_TIME);
      var data, draws := CheckCooperativeOrders(request, timeEpoch, ethernet, probes, before);
      request.resource := data;
      var found := IsResource(data);
      if found {
        StageServed(probes, before, request.id, timeEpoch, 1 + draws, data, fetched, classicalCaching);
      } else {
        ServeBeyondCooperators(request, timeEpoch, ethernet, sample, cloudLatency, draws, probes, before);
        ghost var k := FirstHolder(before, request.id);
        DrawsSplit(ethernet, 0, draws, if k < |probes| then k else |probes| - 1);
      }
    }

    /** Steps 3 and 4 of `request_data`, after the local cache and `drawn`
        cooperators missed: the neighbours, then the provider, whose
        answer is stored locally under classical caching. */
    method ServeBeyondCooperators(request: Request, timeEpoch: nat, ethernet: seq<int>, sample: TimeAndBytes,
                                  cloudLatency: int, drawn: nat, ghost probes: seq<Cache>, ghost before: seq<CacheView>)
      requires cachedRequests < totalRequests
      requires |probes| == 1 + drawn + |cacheNodes| && probes[0] == edgeNode.cache
      requires forall i :: 0 <= i < |cacheNodes| ==> probes[1 + drawn + i] == cacheNodes[i].cache
      requires |probes| <= |ethernet| + 1
      requires Stage(probes, before, request.id, timeEpoch, 1 + drawn, None)
      modifies this, request, probes
      ensures Valid() && cooperativeOrders == old(cooperativeOrders) && totalRequests == old(totalRequests)
      ensures var k := FirstHolder(before, request.id);
        && drawn <= (if k < |probes| then k else |probes| - 1)
        && cachedRequests == old(cachedRequests) + (if k < |probes| then 1 else 0)
        && request.latency == old(request.latency)
           + (if k < |probes| then Draws(ethernet, drawn, k) else Draws(ethernet, drawn, |probes| - 1) + sample.time + cloudLatency)
      ensures Served(probes, before, request.id, timeEpoch,
                     NewResource(request.id, sample.bytes, timeEpoch, DEFAULT_EXPIRATION_TIME),
                     classicalCaching, request.resource)
    {
      ghost var fetched := NewResource(request.id, sample.bytes, timeEpoch, DEFAULT_EXPIRATION_TIME);
      var data, draws := CheckNeighborNodes(request, timeEpoch, ethernet, drawn, probes, before, 1 + drawn);
      request.resource := data;
      var found := IsResource(data);
      if found {
        StageServed(probes, before, request.id, timeEpoch, 1 + draws, data, fetched, classicalCaching);
      } else {
        PerformRequest(request, timeEpoch, sample, cloudLatency);
        if classicalCaching {
          StoreData(request.resource.value, probes, before, request.id, timeEpoch);
        }
      }
    }

    /** `epoch_passed`: the cooperative orders are swept and the local
        cache drops its expired resources. */
    method EpochPassed(currentTime: nat)
      requires edgeNode.cache.Valid()
      modifies this, edgeNode.cache
      ensures cooperativeOrders == KeptBySweep(old(cooperativeOrders), currentTime)
      ensures totalRequests == old(totalRequests) && cachedRequests == old(cachedRequests)
      ensures edgeNode.cache.Valid()
      ensures edgeNode.cache.resources == Unexpired(old(edgeNode.cache.resources), currentTime)
      ensures edgeNode.cache.requestReceived == old(edgeNode.cache.requestReceived)
      ensures edgeNode.cache.cacheHits == old(edgeNode.cache.cacheHits)
      ensures edgeNode.cache.cacheMisses == old(edgeNode.cache.cacheMisses)
    {
      RemoveExpiredCooperativeOrders(currentTime);
      edgeNode.cache.EpochPassed(currentTime);
    }

    /** `get_cache_hit_rate`: the share of requests served from a cache,
        and 1 before any request. */
    function GetCacheHitRate(): (rate: real)
      reads this
      requires Valid()
      ensures 0.0 <= rate <= 1.0
      ensures totalRequests == 0 ==> rate == 1.0
      ensures totalRequests > 0 ==> rate * totalRequests as real == cachedRequests as real
    {
      if totalRequests == 0 then 1.0 else cachedRequests as real / totalRequests as real
    }
  }
}
