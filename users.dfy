/** A mobile client (models/user.py): the requests it still has to issue,
    in order, and the choice of the cache worker nearest to where it stands.
    Positions are integer points and distances are compared squared. */
module Users {
  import opened Wrappers
  import opened Geometry
  import opened Requests
  import opened CacheWorkers

  /** How far worker `w` is from `position`, squared. */
  function DistanceTo(position: Point, w: CacheWorker): nat
  {
    SquaredDistance(position, w.edgeNode.position)
  }

  /** `i` is the first of the workers nearest to `position`: no worker is
      nearer, and every worker before it is strictly farther. */
  ghost predicate FirstNearest(workers: seq<CacheWorker>, position: Point, i: nat)
  {
    && i < |workers|
    && (forall j :: 0 <= j < |workers| ==> DistanceTo(position, workers[i]) <= DistanceTo(position, workers[j]))
    && (forall j :: 0 <= j < i ==> DistanceTo(position, workers[i]) < DistanceTo(position, workers[j]))
  }

  /** At most one index is the first nearest worker. */
  lemma FirstNearestUnique(workers: seq<CacheWorker>, position: Point, i: nat, j: nat)
    requires FirstNearest(workers, position, i) && FirstNearest(workers, position, j)
    ensures i == j
  {
    var di, dj := DistanceTo(position, workers[i]), DistanceTo(position, workers[j]);
    assert di <= dj && dj <= di;
    assert j < i ==> di < dj;
    assert i < j ==> dj < di;
  }

  class User {
    const id: int
    var currentPosition: Point
    var requests: seq<Request>

    constructor (id: int, startPosition: Point)
      ensures this.id == id && currentPosition == startPosition && requests == []
    {
      this.id := id;
      currentPosition := startPosition;
      requests := [];
    }

    /** `check_request`: the next pending request is due at `timeInMs`. */
    function CheckRequest(timeInMs: int): (due: bool)
      reads this
      ensures due ==> requests != [] && requests[0].executionTime == timeInMs
      ensures requests != [] && requests[0].executionTime == timeInMs ==> due
    {
      if |requests| > 0 then requests[0].executionTime == timeInMs else false
    }

    /** `get_request`: the next pending request leaves the list; `pop(0)`
        raises on an empty list. */
    method GetRequest() returns (request: Request)
      requires requests != []
      modifies this
      ensures request == old(requests)[0] && requests == old(requests)[1..]
      ensures currentPosition == old(currentPosition)
    {
      request := requests[0];
      requests := requests[1..];
    }

    /** `closest_cache_worker_by_id`: the index of the first worker
        nearest to the current position, by a scan that only moves on a
        strictly smaller distance; none for no workers. */
    method ClosestCacheWorkerById(cacheWorkers: seq<CacheWorker>) returns (index: Option<nat>)
      ensures index.None? <==> cacheWorkers == []
      ensures index.Some? ==> FirstNearest(cacheWorkers, currentPosition, index.value)
    {
      var minDistance: Option<nat> := None;
      index := None;
      var userPosition := currentPosition;
      for i := 0 to |cacheWorkers|
        invariant index.None? <==> i == 0
        invariant minDistance.None? <==> index.None?
        invariant index.Some? ==> index.value < i && minDistance.value == DistanceTo(userPosition, cacheWorkers[index.value])
        invariant index.Some? ==> forall j :: 0 <= j < i ==> minDistance.value <= DistanceTo(userPosition, cacheWorkers[j])
        invariant index.Some? ==> forall j :: 0 <= j < index.value ==> minDistance.value < DistanceTo(userPosition, cacheWorkers[j])
      {
        var distance := DistanceTo(userPosition, cacheWorkers[i]);
        if minDistance.None? || distance < minDistance.value {
          minDistance := Some(distance);
          index := Some(i);
        }
      }
    }

    /** `closest_cache_worker_by_index_in_time`: the time argument is not
        used, so the answer is the one `ClosestCacheWorkerById` gives (both
        are first nearest, which `FirstNearestUnique` makes one index). */
    method ClosestCacheWorkerByIndexInTime(cacheWorkers: seq<CacheWorker>, timeEpochInMs: int)
      returns (index: Option<nat>)
      ensures index.None? <==> cacheWorkers == []
      ensures index.Some? ==> FirstNearest(cacheWorkers, currentPosition, index.value)
    {
      var minDistance: Option<nat> := None;
      index := None;
      var userPosition := currentPosition;
      for i := 0 to |cacheWorkers|
        invariant index.None? <==> i == 0
        invariant minDistance.None? <==> index.None?
        invariant index.Some? ==> index.value < i && minDistance.value == DistanceTo(userPosition, cacheWorkers[index.value])
        invariant index.Some? ==> forall j :: 0 <= j < i ==> minDistance.value <= DistanceTo(userPosition, cacheWorkers[j])
        invariant index.Some? ==> forall j :: 0 <= j < index.value ==> minDistance.value < DistanceTo(userPosition, cacheWorkers[j])
      {
        var distance := DistanceTo(userPosition, cacheWorkers[i]);
        if minDistance.None? || distance < minDistance.value {
          minDistance := Some(distance);
          index := Some(i);
        }
      }
    }

    /** `closest_cache_worker`: the worker at the index
        `closest_cache_worker_by_id` picks; indexing with its `None` raises,
        so there must be a worker. */
    method ClosestCacheWorker(cacheWorkers: seq<CacheWorker>) returns (worker: CacheWorker)
      requires cacheWorkers != []
      ensures exists i: nat :: FirstNearest(cacheWorkers, currentPosition, i) && worker == cacheWorkers[i]
    {
      var cacheWorkerId := ClosestCacheWorkerById(cacheWorkers);
      worker := cacheWorkers[cacheWorkerId.value];
    }
  }
}
