/** `Cache._apply_lfu_strategy` exactly as written (models/cache.py:66-92).
    It collects the provider ids of the minimum-frequency resources and then
    treats every resource whose provider id is in that list as a candidate.
    Nothing stops a cache from holding two resources of one provider, so a
    resource that has been retrieved often can be evicted in place of an
    unused one. The cache model evicts with `Caches.LfuVictim` instead; the
    two agree whenever provider ids are distinct. */
module LfuAsWritten {
  import opened Wrappers
  import opened Resources
  import Caches

  /** The smallest retrieval frequency in `s`. */
  function MinFrequency(s: seq<Resource>): (m: nat)
    requires s != []
    ensures forall j :: 0 <= j < |s| ==> m <= s[j].frequency
    ensures exists j :: 0 <= j < |s| && s[j].frequency == m
  {
    if |s| == 1 then s[0].frequency
    else
      var rest := MinFrequency(s[1..]);
      assert forall j :: 1 <= j < |s| ==> s[j] == s[1..][j - 1];
      if s[0].frequency <= rest then s[0].frequency else rest
  }

  /** The provider ids of the minimum-frequency resources. */
  function LeastFrequentIds(s: seq<Resource>): set<string>
    requires s != []
  {
    set j | 0 <= j < |s| && s[j].frequency == MinFrequency(s) :: s[j].providerId
  }

  /** The second loop: keep the first candidate, replace it by a later one
      only when that one was stored strictly earlier. */
  function ScanAsWritten(s: seq<Resource>, ids: set<string>, i: nat, best: Option<nat>): Option<nat>
    requires i <= |s|
    requires best.Some? ==> best.value < |s|
    decreases |s| - i
  {
    if i == |s| then best
    else if s[i].providerId in ids && (best.None? || s[i].storageTime < s[best.value].storageTime)
    then ScanAsWritten(s, ids, i + 1, Some(i))
    else ScanAsWritten(s, ids, i + 1, best)
  }

  /** The index `_apply_lfu_strategy` removes, None on an empty cache. */
  function LfuVictimAsWritten(s: seq<Resource>): (v: Option<nat>)
  {
    if s == [] then None else ScanAsWritten(s, LeastFrequentIds(s), 0, None)
  }

  /** A cache holding a much-used and an unused resource of the same
      provider: the code as written evicts the much-used one, although the
      unused one is the least frequently used. */
  lemma AsWrittenEvictsFrequentlyUsed()
    ensures var s := [Resource("p", 1, 0, 10, 5, Some(3)), Resource("p", 1, 1, 10, 0, None)];
      && LfuVictimAsWritten(s) == Some(0)
      && s[0].frequency > s[1].frequency
      && Caches.LfuVictim(s) == 1
  {
  }

  /** With distinct provider ids the code as written picks the same victim
      as the intended rule. */
  lemma AsWrittenAgreesWhenIdsDistinct(s: seq<Resource>)
    requires s != []
    requires forall i, j :: 0 <= i < j < |s| ==> s[i].providerId != s[j].providerId
    ensures LfuVictimAsWritten(s) == Some(Caches.LfuVictim(s))
  {
    var m := MinFrequency(s);
    var ids := LeastFrequentIds(s);
    forall k | 0 <= k < |s|
      ensures s[k].providerId in ids <==> s[k].frequency == m
    {
      if s[k].providerId in ids {
        var j :| 0 <= j < |s| && s[j].frequency == m && s[j].providerId == s[k].providerId;
        assert j == k;
      }
    }
    ScanFindsVictim(s, ids, m, 0, None);
    var v := ScanAsWritten(s, ids, 0, None).value;
    var w := Caches.LfuVictim(s);
    assert s[w].frequency == m;
  }

  /** What the scan keeps from index `i` on, given what it has kept so far. */
  lemma {:induction false} ScanFindsVictim(s: seq<Resource>, ids: set<string>, m: nat, i: nat, best: Option<nat>)
    requires i <= |s|
    requires forall k :: 0 <= k < |s| ==> (s[k].providerId in ids <==> s[k].frequency == m)
    requires exists k :: 0 <= k < |s| && s[k].frequency == m
    requires best.None? <==> forall j :: 0 <= j < i ==> s[j].frequency != m
    requires best.Some? ==> best.value < i && s[best.value].frequency == m
    requires best.Some? ==> forall j :: 0 <= j < i && s[j].frequency == m ==>
               s[best.value].storageTime <= s[j].storageTime
    requires best.Some? ==> forall j :: 0 <= j < best.value && s[j].frequency == m ==>
               s[best.value].storageTime < s[j].storageTime
    ensures var r := ScanAsWritten(s, ids, i, best);
      && r.Some? && r.value < |s| && s[r.value].frequency == m
      && (forall j :: 0 <= j < |s| && s[j].frequency == m ==> s[r.value].storageTime <= s[j].storageTime)
      && (forall j :: 0 <= j < r.value && s[j].frequency == m ==> s[r.value].storageTime < s[j].storageTime)
    decreases |s| - i
  {
    if i < |s| {
      if s[i].providerId in ids && (best.None? || s[i].storageTime < s[best.value].storageTime) {
        ScanFindsVictim(s, ids, m, i + 1, Some(i));
      } else {
        ScanFindsVictim(s, ids, m, i + 1, best);
      }
    }
  }
}
