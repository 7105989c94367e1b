/** The byte-bounded resource store of one edge node (models/cache.py):
    insertion with evict-and-retry, LRU and LFU eviction, lookup with
    frequency/recency/hit accounting, and the expiry sweep. */
module Caches {
  import opened Wrappers
  import opened Resources
  import Sorting

  datatype ReplacementStrategy = LRU | LFU

  // ---------------------------------------------------------------------
  // Byte accounting

  /** Total bytes held by `s`. */
  function SumSizes(s: seq<Resource>): nat
  {
    if s == [] then 0 else s[0].size + SumSizes(s[1..])
  }

  lemma {:induction false} SumSizesConcat(a: seq<Resource>, b: seq<Resource>)
    ensures SumSizes(a + b) == SumSizes(a) + SumSizes(b)
  {
    if a == [] {
      assert a + b == b;
    } else {
      assert (a + b)[1..] == a[1..] + b;
      SumSizesConcat(a[1..], b);
    }
  }

  /** The byte count does not depend on the order of the resources. */
  lemma {:induction false} SumSizesPermutation(a: seq<Resource>, b: seq<Resource>)
    requires multiset(a) == multiset(b)
    ensures SumSizes(a) == SumSizes(b)
    decreases |a|
  {
    if a == [] {
      assert |b| == |multiset(b)| == 0;
    } else {
      assert a[0] in multiset(b);
      var i :| 0 <= i < |b| && b[i] == a[0];
      Sorting.MultisetRemoveAt(b, i);
      assert a == [a[0]] + a[1..];
      assert multiset(a[1..]) == multiset(a) - multiset{a[0]};
      SumSizesPermutation(a[1..], b[..i] + b[i + 1..]);
      SumSizesRemoveAt(b, i);
    }
  }

  /** Removing the element at `i` removes exactly its bytes. */
  lemma SumSizesRemoveAt(s: seq<Resource>, i: nat)
    requires i < |s|
    ensures SumSizes(s[..i] + s[i + 1..]) == SumSizes(s) - s[i].size
  {
    var front, back := s[..i], s[i + 1..];
    assert s == front + ([s[i]] + back);
    assert ([s[i]] + back)[1..] == back;
    SumSizesConcat(front, [s[i]] + back);
    SumSizesConcat(front, back);
  }

  /** Replacing an element by one of the same size keeps the byte count. */
  lemma SumSizesReplace(s: seq<Resource>, i: nat, r: Resource)
    requires i < |s| && r.size == s[i].size
    ensures SumSizes(s[i := r]) == SumSizes(s)
  {
    assert s == s[..i] + [s[i]] + s[i + 1..];
    assert s[i := r] == s[..i] + [r] + s[i + 1..];
    SumSizesConcat(s[..i] + [s[i]], s[i + 1..]);
    SumSizesConcat(s[..i], [s[i]]);
    SumSizesConcat(s[..i] + [r], s[i + 1..]);
    SumSizesConcat(s[..i], [r]);
  }

  // ---------------------------------------------------------------------
  // LRU eviction

  /** Sort key of LRU: the last retrieval time, with "never retrieved"
      below every time (the source sorts on a None that Python would refuse
      to compare with an int; the model makes it the least value). */
  function LruKey(r: Resource): int
  {
    match r.lastTimeRetrieved
    case None => -1
    case Some(t) => t
  }

  /** The list and miss counter after one LRU eviction: stable sort on the
      LRU key, then drop the head; nothing happens on an empty list. */
  function EvictLru(s: seq<Resource>, misses: nat): (seq<Resource>, nat)
  {
    if s == [] then (s, misses)
    else
      var sorted := Sorting.SortBy(s, LruKey);
      (sorted[1..], if sorted[0].frequency == 0 then misses + 1 else misses)
  }

  /** LRU removes the first resource (in list order) among those least
      recently retrieved, takes exactly its bytes away, counts a miss iff
      it was never retrieved, and leaves the others sorted by the key. */
  lemma LruEviction(s: seq<Resource>, misses: nat)
    requires s != []
    ensures Sorting.SortBy(s, LruKey)[0] == s[Sorting.FirstMinIndex(s, LruKey)]
    ensures multiset(EvictLru(s, misses).0) + multiset{s[Sorting.FirstMinIndex(s, LruKey)]} == multiset(s)
    ensures SumSizes(EvictLru(s, misses).0) == SumSizes(s) - s[Sorting.FirstMinIndex(s, LruKey)].size
    ensures EvictLru(s, misses).1
         == if s[Sorting.FirstMinIndex(s, LruKey)].frequency == 0 then misses + 1 else misses
    ensures Sorting.SortedBy(EvictLru(s, misses).0, LruKey)
  {
    var sorted := Sorting.SortBy(s, LruKey);
    Sorting.SortByHead(s, LruKey);
    assert sorted == [sorted[0]] + sorted[1..];
    assert multiset(sorted) == multiset{sorted[0]} + multiset(sorted[1..]);
    SumSizesPermutation(sorted, s);
    SumSizesConcat([sorted[0]], sorted[1..]);
  }

  /** The bytes an LRU eviction frees are those of the head of the sorted list. */
  lemma LruEvictedBytes(s: seq<Resource>, misses: nat)
    requires s != []
    ensures SumSizes(Sorting.SortBy(s, LruKey)[1..]) == SumSizes(s) - Sorting.SortBy(s, LruKey)[0].size
  {
    LruEviction(s, misses);
  }

  // ---------------------------------------------------------------------
  // LFU eviction

  /** The LFU victim: among the resources of minimum frequency, the one
      stored strictly earliest, the first in list order on ties. */
  function LfuVictim(s: seq<Resource>): (v: nat)
    requires s != []
    ensures v < |s|
    ensures forall j :: 0 <= j < |s| ==> s[v].frequency <= s[j].frequency
    ensures forall j :: 0 <= j < |s| && s[j].frequency == s[v].frequency ==>
              s[v].storageTime <= s[j].storageTime
    ensures forall j :: 0 <= j < v && s[j].frequency == s[v].frequency ==>
              s[v].storageTime < s[j].storageTime
  {
    if |s| == 1 then 0
    else
      var m := 1 + LfuVictim(s[1..]);
      if s[m].frequency < s[0].frequency
         || (s[m].frequency == s[0].frequency && s[m].storageTime < s[0].storageTime)
      then m else 0
  }

  /** The list and miss counter after one LFU eviction. */
  function EvictLfu(s: seq<Resource>, misses: nat): (seq<Resource>, nat)
  {
    if s == [] then (s, misses)
    else
      var v := LfuVictim(s);
      (s[..v] + s[v + 1..], if s[v].frequency == 0 then misses + 1 else misses)
  }

  lemma LfuEviction(s: seq<Resource>, misses: nat)
    requires s != []
    ensures var v := LfuVictim(s);
      && EvictLfu(s, misses).0 == s[..v] + s[v + 1..]
      && SumSizes(EvictLfu(s, misses).0) == SumSizes(s) - s[v].size
      && EvictLfu(s, misses).1 == (if s[v].frequency == 0 then misses + 1 else misses)
  {
    var v := LfuVictim(s);
    SumSizesRemoveAt(s, v);
  }

  function Evict(strategy: ReplacementStrategy, s: seq<Resource>, misses: nat): (r: (seq<Resource>, nat))
    ensures s != [] ==> |r.0| == |s| - 1
    ensures s == [] ==> r == (s, misses)
  {
    match strategy
    case LRU => EvictLru(s, misses)
    case LFU => EvictLfu(s, misses)
  }

  /** Evicting never adds bytes: what remains is a sub-multiset of before. */
  lemma EvictShrinks(strategy: ReplacementStrategy, s: seq<Resource>, misses: nat)
    requires s != []
    ensures multiset(Evict(strategy, s, misses).0) <= multiset(s)
    ensures Evict(strategy, s, misses).1 >= misses
  {
    var e := Evict(strategy, s, misses);
    match strategy
    case LRU =>
      LruEviction(s, misses);
      assert e == EvictLru(s, misses);
    case LFU =>
      var v := LfuVictim(s);
      assert e.0 == s[..v] + s[v + 1..];
      Sorting.MultisetRemoveAt(s, v);
  }

  // ---------------------------------------------------------------------
  // Insertion

  /** The list and miss counter after `add_resource`: append when the item
      fits, drop it when it is larger than the whole cache, otherwise evict
      one resource and try again. */
  function AddOutcome(strategy: ReplacementStrategy, maxSize: nat, s: seq<Resource>,
                      misses: nat, r: Resource): (seq<Resource>, nat)
    decreases |s|
  {
    if SumSizes(s) + r.size <= maxSize then (s + [r], misses)
    else if r.size > maxSize then (s, misses)
    else
      assert s != [];
      var e := Evict(strategy, s, misses);
      AddOutcome(strategy, maxSize, e.0, e.1, r)
  }

  /** Insertion, the two immediate cases: an item that fits is appended and
      nothing is evicted; an item larger than the whole cache changes nothing. */
  lemma AddOutcomeImmediate(strategy: ReplacementStrategy, maxSize: nat,
                            s: seq<Resource>, misses: nat, r: Resource)
    ensures SumSizes(s) + r.size <= maxSize ==>
              AddOutcome(strategy, maxSize, s, misses, r) == (s + [r], misses)
    ensures SumSizes(s) + r.size > maxSize && r.size > maxSize ==>
              AddOutcome(strategy, maxSize, s, misses, r) == (s, misses)
  {
  }

  /** Insertion of an item no larger than the cache always stores it, last,
      after the evicted resources have left, with the byte total within the
      capacity; evictions only ever add to the miss counter. */
  lemma {:induction false} AddOutcomeStores(strategy: ReplacementStrategy, maxSize: nat,
                                            s: seq<Resource>, misses: nat, r: Resource)
    requires r.size <= maxSize
    ensures var out := AddOutcome(strategy, maxSize, s, misses, r);
      && out.0 != [] && out.0[|out.0| - 1] == r
      && multiset(out.0[..|out.0| - 1]) <= multiset(s)
      && SumSizes(out.0) <= maxSize
      && out.1 >= misses
    decreases |s|
  {
    if SumSizes(s) + r.size <= maxSize {
      SumSizesConcat(s, [r]);
      assert (s + [r])[..|s|] == s;
    } else {
      var s', m' := EvictionStep(strategy, maxSize, s, misses, r);
      AddOutcomeStores(strategy, maxSize, s', m', r);
    }
  }

  /** An insertion that does not fit yet is the insertion into the list
      left by one eviction, which is shorter and holds nothing new. */
  lemma EvictionStep(strategy: ReplacementStrategy, maxSize: nat, s: seq<Resource>, misses: nat, r: Resource)
    returns (s': seq<Resource>, m': nat)
    requires r.size <= maxSize < SumSizes(s) + r.size
    ensures |s'| < |s| && multiset(s') <= multiset(s) && m' >= misses
    ensures AddOutcome(strategy, maxSize, s, misses, r) == AddOutcome(strategy, maxSize, s', m', r)
  {
    EvictShrinks(strategy, s, misses);
    var e := Evict(strategy, s, misses);
    assert AddOutcome(strategy, maxSize, s, misses, r) == AddOutcome(strategy, maxSize, e.0, e.1, r);
    s', m' := e.0, e.1;
  }

  /** The resource as it is stored: its storage time is the insertion time
      when one is given. */
  function Stamped(r: Resource, currentTime: Option<nat>): (r': Resource)
    ensures currentTime.Some? ==> r'.storageTime == currentTime.value
    ensures currentTime.None? ==> r' == r
    ensures r'.providerId == r.providerId && r'.size == r.size && r'.frequency == r.frequency
    ensures r'.expirationTime == r.expirationTime && r'.lastTimeRetrieved == r.lastTimeRetrieved
  {
    if currentTime.Some? then r.(storageTime := currentTime.value) else r
  }

  // ---------------------------------------------------------------------
  // Lookup and expiry

  /** Index of the first resource of the provider, if any. */
  function FindProvider(s: seq<Resource>, providerId: string): (r: Option<nat>)
    ensures r.Some? ==> r.value < |s| && s[r.value].providerId == providerId
    ensures r.Some? ==> forall j :: 0 <= j < r.value ==> s[j].providerId != providerId
    ensures r.None? ==> forall j :: 0 <= j < |s| ==> s[j].providerId != providerId
  {
    if s == [] then None
    else if s[0].providerId == providerId then Some(0)
    else match FindProvider(s[1..], providerId)
      case None => None
      case Some(i) => Some(i + 1)
  }

  /** A resource after a successful lookup at `currentTime`. */
  function Retrieved(r: Resource, currentTime: nat): (r': Resource)
    ensures r'.frequency == r.frequency + 1 && r'.lastTimeRetrieved == Some(currentTime)
    ensures r'.providerId == r.providerId && r'.size == r.size
    ensures r'.storageTime == r.storageTime && r'.expirationTime == r.expirationTime
  {
    r.(frequency := r.frequency + 1, lastTimeRetrieved := Some(currentTime))
  }

  /** The resources still valid at `currentTime`, in their order. */
  function Unexpired(s: seq<Resource>, currentTime: nat): (r: seq<Resource>)
  {
    if s == [] then []
    else (if currentTime <= s[0].expirationTime then [s[0]] else []) + Unexpired(s[1..], currentTime)
  }

  /** The sweep keeps exactly the resources with `currentTime <=
      expirationTime`, and the byte count of what it keeps never grows. */
  lemma {:induction false} UnexpiredSpec(s: seq<Resource>, currentTime: nat)
    ensures forall x :: x in Unexpired(s, currentTime) <==> x in s && currentTime <= x.expirationTime
    ensures multiset(Unexpired(s, currentTime)) <= multiset(s)
    ensures SumSizes(Unexpired(s, currentTime)) <= SumSizes(s)
  {
    if s != [] {
      UnexpiredSpec(s[1..], currentTime);
      var head := if currentTime <= s[0].expirationTime then [s[0]] else [];
      SumSizesConcat(head, Unexpired(s[1..], currentTime));
      assert s == [s[0]] + s[1..];
    }
  }

  /** Two sweeps amount to the later one alone. */
  lemma {:induction false} UnexpiredCompose(s: seq<Resource>, t1: nat, t2: nat)
    requires t1 <= t2
    ensures Unexpired(Unexpired(s, t1), t2) == Unexpired(s, t2)
  {
    if s != [] {
      UnexpiredCompose(s[1..], t1, t2);
      var head := if t1 <= s[0].expirationTime then [s[0]] else [];
      var tail := Unexpired(s[1..], t1);
      if head == [] {
        assert Unexpired(s, t1) == tail;
      } else {
        assert (head + tail)[1..] == tail;
      }
    }
  }

  // ---------------------------------------------------------------------
  // The cache object

  class Cache {
    var resources: seq<Resource>
    const maxSizeBytes: nat
    var currentSizeBytes: int
    const replacementStrategy: ReplacementStrategy
    var requestReceived: nat
    var cacheHits: nat
    /** Resources evicted without ever having been retrieved. */
    var cacheMisses: nat

    /** The byte counter is the total of the stored sizes and within the
        capacity; hits never exceed lookups. */
    ghost predicate Valid()
      reads this
    {
      && currentSizeBytes == SumSizes(resources)
      && currentSizeBytes <= maxSizeBytes
      && cacheHits <= requestReceived
    }

    constructor (maxSizeBytes: nat, replacementStrategy: ReplacementStrategy)
      ensures Valid()
      ensures resources == [] && this.maxSizeBytes == maxSizeBytes
      ensures this.replacementStrategy == replacementStrategy
      ensures requestReceived == 0 && cacheHits == 0 && cacheMisses == 0
    {
      resources := [];
      this.maxSizeBytes := maxSizeBytes;
      currentSizeBytes := 0;
      this.replacementStrategy := replacementStrategy;
      requestReceived := 0;
      cacheHits := 0;
      cacheMisses := 0;
    }

    method AddResource(resource: Resource, currentTime: Option<nat>)
      requires Valid()
      modifies this
      ensures Valid()
      ensures (resources, cacheMisses)
           == AddOutcome(replacementStrategy, maxSizeBytes, old(resources), old(cacheMisses),
                         Stamped(resource, currentTime))
      ensures requestReceived == old(requestReceived) && cacheHits == old(cacheHits)
      decreases |resources|
    {
      var r := Stamped(resource, currentTime);
      if currentSizeBytes + r.size <= maxSizeBytes {
        SumSizesConcat(resources, [r]);
        resources := resources + [r];
        currentSizeBytes := currentSizeBytes + r.size;
      } else {
        if r.size > maxSizeBytes {
          return;
        }
        assert resources != [];
        ghost var s0, m0 := resources, cacheMisses;
        match replacementStrategy {
          case LRU => ApplyLruStrategy();
          case LFU => ApplyLfuStrategy();
        }
        assert (resources, cacheMisses) == Evict(replacementStrategy, s0, m0);
        assert AddOutcome(replacementStrategy, maxSizeBytes, s0, m0, r)
            == AddOutcome(replacementStrategy, maxSizeBytes, resources, cacheMisses, r);
        AddResource(r, None);
      }
    }

    method ApplyLruStrategy()
      requires Valid()
      modifies this
      ensures Valid()
      ensures (resources, cacheMisses) == EvictLru(old(resources), old(cacheMisses))
      ensures requestReceived == old(requestReceived) && cacheHits == old(cacheHits)
    {
      if |resources| <= 0 {
        return;
      }
      LruEvictedBytes(resources, cacheMisses);
      resources := Sorting.SortBy(resources, LruKey);
      var victim := resources[0];
      resources := resources[1..];
      currentSizeBytes := currentSizeBytes - victim.size;
      if victim.frequency == 0 {
        cacheMisses := cacheMisses + 1;
      }
    }

    method ApplyLfuStrategy()
      requires Valid()
      modifies this
      ensures Valid()
      ensures (resources, cacheMisses) == EvictLfu(old(resources), old(cacheMisses))
      ensures requestReceived == old(requestReceived) && cacheHits == old(cacheHits)
    {
      if |resources| <= 0 {
        return;
      }
      var v := FindLfuVictim(resources);
      LfuEviction(resources, cacheMisses);
      var victim := resources[v];
      resources := resources[..v] + resources[v + 1..];
      if victim.frequency == 0 {
        cacheMisses := cacheMisses + 1;
      }
      currentSizeBytes := currentSizeBytes - victim.size;
    }

    method RemoveExpiredResources(currentTime: nat)
      requires Valid()
      modifies this
      ensures Valid()
      ensures resources == Unexpired(old(resources), currentTime)
      ensures requestReceived == old(requestReceived) && cacheHits == old(cacheHits)
      ensures cacheMisses == old(cacheMisses)
    {
      UnexpiredSpec(resources, currentTime);
      resources := Unexpired(resources, currentTime);
      currentSizeBytes := SumSizes(resources);
    }

    method GetResource(providerId: string, currentTime: nat) returns (found: Option<Resource>)
      requires Valid()
      modifies this
      ensures Valid()
      ensures requestReceived == old(requestReceived) + 1
      ensures cacheMisses == old(cacheMisses)
      ensures match old(FindProvider(resources, providerId))
        case Some(i) =>
          && found == Some(Retrieved(old(resources[i]), currentTime))
          && resources == old(resources)[i := found.value]
          && cacheHits == old(cacheHits) + 1
        case None =>
          found == None && resources == old(resources) && cacheHits == old(cacheHits)
    {
      requestReceived := requestReceived + 1;
      var i := 0;
      while i < |resources|
        invariant 0 <= i <= |resources|
        invariant forall j :: 0 <= j < i ==> resources[j].providerId != providerId
        invariant resources == old(resources) && cacheHits == old(cacheHits)
        invariant requestReceived == old(requestReceived) + 1
      {
        if resources[i].providerId == providerId {
          var r := Retrieved(resources[i], currentTime);
          SumSizesReplace(resources, i, r);
          resources := resources[i := r];
          cacheHits := cacheHits + 1;
          return Some(r);
        }
        i := i + 1;
      }
      return None;
    }

    /** Hit rate: 1 for a cache that has had no lookups, otherwise
        hits / lookups, which lies in [0, 1]. */
    function GetCacheHitRate(): (rate: real)
      reads this
      ensures requestReceived == 0 ==> rate == 1.0
      ensures requestReceived > 0 ==> rate * requestReceived as real == cacheHits as real
      ensures Valid() ==> 0.0 <= rate <= 1.0
    {
      if requestReceived == 0 then 1.0
      else cacheHits as real / requestReceived as real
    }

    method EpochPassed(currentTime: nat)
      requires Valid()
      modifies this
      ensures Valid()
      ensures resources == Unexpired(old(resources), currentTime)
      ensures requestReceived == old(requestReceived) && cacheHits == old(cacheHits)
      ensures cacheMisses == old(cacheMisses)
    {
      RemoveExpiredResources(currentTime);
    }
  }

  /** The two scans of `_apply_lfu_strategy`: the minimum frequency, then the
      earliest-stored resource of that frequency (a later one replaces the
      current pick only when stored strictly earlier). */
  method FindLfuVictim(s: seq<Resource>) returns (v: nat)
    requires s != []
    ensures v == LfuVictim(s)
  {
    var minFrequency := s[0].frequency;
    var i := 1;
    while i < |s|
      invariant 1 <= i <= |s|
      invariant forall j :: 0 <= j < i ==> minFrequency <= s[j].frequency
      invariant exists j :: 0 <= j < i && s[j].frequency == minFrequency
    {
      if s[i].frequency < minFrequency {
        minFrequency := s[i].frequency;
      }
      i := i + 1;
    }
    var best: Option<nat> := None;
    i := 0;
    while i < |s|
      invariant 0 <= i <= |s|
      invariant best.None? <==> forall j :: 0 <= j < i ==> s[j].frequency != minFrequency
      invariant best.Some? ==> best.value < i && s[best.value].frequency == minFrequency
      invariant best.Some? ==> forall j :: 0 <= j < i && s[j].frequency == minFrequency ==>
                  s[best.value].storageTime <= s[j].storageTime
      invariant best.Some? ==> forall j :: 0 <= j < best.value && s[j].frequency == minFrequency ==>
                  s[best.value].storageTime < s[j].storageTime
    {
      if s[i].frequency == minFrequency {
        if best.None? || s[i].storageTime < s[best.value].storageTime {
          best := Some(i);
        }
      }
      i := i + 1;
    }
    v := best.value;
    var w := LfuVictim(s);
    assert s[w].frequency == minFrequency;
  }
}
