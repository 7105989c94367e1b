/** The event queue of the simulation (models/simulation_queue.py,
    models/queue_element.py): pending requests, each with the user that
    issued it, the worker that serves it and the time it is due. */
module SimulationQueues {
  import opened Requests
  import opened Users
  import opened CacheWorkers
  import Sorting

  datatype QueueElement = QueueElement(request: Request, user: User, timeEpoch: int, cacheWorker: CacheWorker)

  function TimeKey(e: QueueElement): int
  {
    e.timeEpoch
  }

  /** The position of the first occurrence of `e` in `s`. */
  function FirstIndexOf(s: seq<QueueElement>, e: QueueElement): (i: nat)
    requires e in s
    ensures i < |s| && s[i] == e
    ensures forall j :: 0 <= j < i ==> s[j] != e
  {
    if s[0] == e then 0 else 1 + FirstIndexOf(s[1..], e)
  }

  /** `list.remove`: the sequence without the first occurrence of `e`. */
  function RemoveFirst(s: seq<QueueElement>, e: QueueElement): (r: seq<QueueElement>)
    requires e in s
  {
    var i := FirstIndexOf(s, e);
    s[..i] + s[i + 1..]
  }

  /** Removing the first occurrence takes exactly one `e` out of the
      contents, keeps the elements before it in place and shifts the ones
      after it down by one. */
  lemma RemoveFirstSpec(s: seq<QueueElement>, e: QueueElement)
    requires e in s
    ensures |RemoveFirst(s, e)| == |s| - 1
    ensures multiset(RemoveFirst(s, e)) == multiset(s) - multiset{e}
    ensures var i := FirstIndexOf(s, e);
      && (forall j :: 0 <= j < i ==> RemoveFirst(s, e)[j] == s[j])
      && (forall j :: i <= j < |s| - 1 ==> RemoveFirst(s, e)[j] == s[j + 1])
  {
    var i := FirstIndexOf(s, e);
    var r := s[..i] + s[i + 1..];
    assert RemoveFirst(s, e) == r;
    Sorting.MultisetRemoveAt(s, i);
    forall j | 0 <= j < i
      ensures r[j] == s[j]
    {
      assert r[j] == s[..i][j];
    }
    forall j | i <= j < |s| - 1
      ensures r[j] == s[j + 1]
    {
      assert r[j] == s[i + 1..][j - i];
    }
  }

  class SimulationQueue {
    var queue: seq<QueueElement>

    constructor ()
      ensures queue == []
    {
      queue := [];
    }

    method AddElement(element: QueueElement)
      modifies this
      ensures queue == old(queue) + [element]
    {
      queue := queue + [element];
    }

    /** `remove_element`: `list.remove` raises unless the element is there. */
    method RemoveElement(element: QueueElement)
      requires element in queue
      modifies this
      ensures queue == RemoveFirst(old(queue), element)
    {
      var i := FirstIndexOf(queue, element);
      queue := queue[..i] + queue[i + 1..];
    }

    /** `sort_queue`: a stable sort on the due time. */
    method SortQueue()
      modifies this
      ensures queue == Sorting.SortBy(old(queue), TimeKey)
      ensures Sorting.SortedBy(queue, TimeKey) && multiset(queue) == multiset(old(queue))
    {
      queue := Sorting.SortBy(queue, TimeKey);
    }

    method Reset()
      modifies this
      ensures queue == []
    {
      queue := [];
    }
  }

  /** Sorting keeps the elements due at the same time in the order they
      were added, and sorting a sorted queue again changes nothing. */
  lemma SortQueueStableIdempotent(q: seq<QueueElement>, t: int)
    ensures Sorting.WithKey(Sorting.SortBy(q, TimeKey), TimeKey, t) == Sorting.WithKey(q, TimeKey, t)
    ensures Sorting.SortBy(Sorting.SortBy(q, TimeKey), TimeKey) == Sorting.SortBy(q, TimeKey)
  {
    Sorting.SortByStable(q, TimeKey, t);
    Sorting.SortByIdempotent(q, TimeKey);
  }
}
