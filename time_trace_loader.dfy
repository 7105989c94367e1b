/** The recorded request trace that feeds every user its request
    intervals, application latencies and response sizes
    (models/time_trace_loader.py). The file read is replaced by the
    sequence of records it yields. */
module TimeTraceLoaders {
  import opened Wrappers
  import opened Arithmetic

  /** One line of the trace file: `timegenerated`, `time-taken` and
      `sc-bytes`. */
  datatype TraceLine = TraceLine(timestamp: real, timeTaken: real, size: real)

  /** One entry of the response trace. */
  datatype TraceEntry = TraceEntry(interval: int, timeTaken: int, size: int)

  /** Python's `int()` on a number: truncation toward zero. */
  function Truncate(r: real): (n: int)
    ensures r >= 0.0 ==> n as real <= r < n as real + 1.0
    ensures r < 0.0 ==> n as real - 1.0 < r <= n as real
  {
    if r >= 0.0 then r.Floor else -((-r).Floor)
  }

  /** The entry recorded for line `cur`, which follows line `prev`: the
      truncated time difference, with a difference that truncates to 0
      recorded as 1. */
  function EntryAfter(prev: TraceLine, cur: TraceLine): TraceEntry
  {
    var difference := Truncate(cur.timestamp - prev.timestamp);
    TraceEntry(if difference == 0 then 1 else difference, Truncate(cur.timeTaken), Truncate(cur.size))
  }

  /** An interval is never 0; on a non-decreasing pair of timestamps it
      is at least 1 and within 1 of the true difference, and it is the
      whole number of milliseconds between them once they are 1 or more
      apart. */
  lemma IntervalBounds(prev: TraceLine, cur: TraceLine)
    ensures EntryAfter(prev, cur).interval != 0
    ensures prev.timestamp <= cur.timestamp ==>
      var i := EntryAfter(prev, cur).interval;
      && 1 <= i
      && (i as real) - 1.0 <= cur.timestamp - prev.timestamp < (i as real) + 1.0
    ensures cur.timestamp - prev.timestamp >= 1.0 ==>
      var i := EntryAfter(prev, cur).interval;
      i as real <= cur.timestamp - prev.timestamp < (i as real) + 1.0
  {
  }

  /** `response_trace` is what the loop in `__init__` records for `lines`:
      the first line only sets the last timestamp, and every later line
      adds the entry after its predecessor. */
  ghost predicate IsResponseTrace(lines: seq<TraceLine>, trace: seq<TraceEntry>)
  {
    && |trace| == (if lines == [] then 0 else |lines| - 1)
    && forall i :: 0 <= i < |trace| ==> trace[i] == EntryAfter(lines[i], lines[i + 1])
  }

  /** The interval rule of `__init__`, over the records the trace file
      yields. */
  method BuildResponseTrace(lines: seq<TraceLine>) returns (trace: seq<TraceEntry>)
    ensures IsResponseTrace(lines, trace)
  {
    trace := [];
    var lastTimestamp: Option<real> := None;
    for n := 0 to |lines|
      invariant lastTimestamp.None? <==> n == 0
      invariant lastTimestamp.Some? ==> lastTimestamp.value == lines[n - 1].timestamp
      invariant |trace| == (if n == 0 then 0 else n - 1)
      invariant forall i :: 0 <= i < |trace| ==> trace[i] == EntryAfter(lines[i], lines[i + 1])
    {
      var line := lines[n];
      if lastTimestamp.None? {
        lastTimestamp := Some(line.timestamp);
      } else {
        var timeDifference := Truncate(line.timestamp - lastTimestamp.value);
        if timeDifference == 0 {
          timeDifference := 1;
        }
        trace := trace + [TraceEntry(timeDifference, Truncate(line.timeTaken), Truncate(line.size))];
        lastTimestamp := Some(line.timestamp);
      }
    }
  }

  /** How many of the first `length` items a round-robin deal over
      `parts` parts gives to part `k`. */
  function DealtTo(length: nat, parts: nat, k: nat): nat
    requires parts > 0
  {
    length / parts + (if k < length % parts then 1 else 0)
  }

  /** The position of the `j`-th item dealt to part `k` of `n`. */
  function Slot(j: nat, n: nat, k: nat): nat
  {
    j * n + k
  }

  /** `parts` holds the first `i` items of `input` dealt round-robin
      over `n` parts: part `k` holds, in order, exactly the items at
      positions `k`, `k + n`, `k + 2n`, ... below `i`. */
  ghost predicate DealtUpTo<T>(input: seq<T>, i: nat, n: nat, parts: seq<seq<T>>)
    requires n > 0 && i <= |input|
  {
    && |parts| == n
    && (forall k :: 0 <= k < n ==> |parts[k]| == DealtTo(i, n, k))
    && (forall k, j :: 0 <= k < n && 0 <= j < |parts[k]| ==> Slot(j, n, k) < i && parts[k][j] == input[Slot(j, n, k)])
  }

  /** `parts` is all of `input` dealt round-robin over `n` parts. */
  ghost predicate RoundRobin<T>(input: seq<T>, n: nat, parts: seq<seq<T>>)
    requires n > 0
  {
    DealtUpTo(input, |input|, n, parts)
  }

  /** Dealing item `i` to part `i mod n` deals the first `i + 1` items. */
  lemma DealNext<T>(input: seq<T>, i: nat, n: nat, parts: seq<seq<T>>)
    requires n > 0 && i < |input| && DealtUpTo(input, i, n, parts)
    ensures DealtUpTo(input, i + 1, n, parts[i % n := parts[i % n] + [input[i]]])
  {
    var parts' := parts[i % n := parts[i % n] + [input[i]]];
    DealCounts(i, n, parts, parts', input[i]);
    DealPlacement(input, i, n, parts, parts');
  }

  /** After item `i`, part `i mod n` has one more item and the others
      as many as before. */
  lemma DealCounts<T>(i: nat, n: nat, parts: seq<seq<T>>, parts': seq<seq<T>>, x: T)
    requires n > 0 && |parts| == n
    requires forall k :: 0 <= k < n ==> |parts[k]| == DealtTo(i, n, k)
    requires parts' == parts[i % n := parts[i % n] + [x]]
    ensures forall k :: 0 <= k < n ==> |parts'[k]| == DealtTo(i + 1, n, k)
  {
    forall k | 0 <= k < n
      ensures |parts'[k]| == DealtTo(i + 1, n, k)
    {
      DealStep(i, n, k);
    }
  }

  /** After item `i`, every part still holds its items at the positions
      the round-robin deal assigns, item `i` included. */
  lemma DealPlacement<T>(input: seq<T>, i: nat, n: nat, parts: seq<seq<T>>, parts': seq<seq<T>>)
    requires n > 0 && i < |input| && DealtUpTo(input, i, n, parts)
    requires parts' == parts[i % n := parts[i % n] + [input[i]]]
    ensures forall k, j :: 0 <= k < n && 0 <= j < |parts'[k]| ==> Slot(j, n, k) < i + 1 && parts'[k][j] == input[Slot(j, n, k)]
  {
    forall k, j | 0 <= k < n && 0 <= j < |parts'[k]|
      ensures Slot(j, n, k) < i + 1 && parts'[k][j] == input[Slot(j, n, k)]
    {
      PlacedAt(input, i, n, parts, parts', k, j);
    }
  }

  /** One slot of `DealPlacement`. */
  lemma PlacedAt<T>(input: seq<T>, i: nat, n: nat, parts: seq<seq<T>>, parts': seq<seq<T>>, k: nat, j: nat)
    requires n > 0 && i < |input| && DealtUpTo(input, i, n, parts)
    requires parts' == parts[i % n := parts[i % n] + [input[i]]]
    requires k < n && j < |parts'[k]|
    ensures Slot(j, n, k) < i + 1 && parts'[k][j] == input[Slot(j, n, k)]
  {
  }

  /** The item dealt to part `i mod n` after its first `i div n` items
      is item `i`. */
  lemma DealtLast(i: nat, n: nat, j: nat)
    requires n > 0 && j == DealtTo(i, n, i % n)
    ensures Slot(j, n, i % n) == i
  {
  }

  /** The total length of a list of parts. */
  function TotalLength<T>(parts: seq<seq<T>>): nat
  {
    if parts == [] then 0 else |parts[0]| + TotalLength(parts[1..])
  }

  /** Appending one item to one part adds one to the total length. */
  lemma {:induction false} TotalLengthAppend<T>(parts: seq<seq<T>>, k: nat, x: T)
    requires k < |parts|
    ensures TotalLength(parts[k := parts[k] + [x]]) == TotalLength(parts) + 1
  {
    if k > 0 {
      TotalLengthAppend(parts[1..], k - 1, x);
      assert parts[k := parts[k] + [x]][1..] == parts[1..][k - 1 := parts[k] + [x]];
    }
  }

  /** The empty parts have total length 0. */
  lemma {:induction false} TotalLengthEmpty<T>(parts: seq<seq<T>>)
    requires forall k :: 0 <= k < |parts| ==> parts[k] == []
    ensures TotalLength(parts) == 0
  {
    if parts != [] {
      TotalLengthEmpty(parts[1..]);
    }
  }

  /** Dealing item `i` adds one to the count of part `i mod n` and leaves
      the other counts alone; that part held `i div n` items before. */
  lemma DealStep(i: nat, n: nat, k: nat)
    requires n > 0 && k < n
    ensures DealtTo(i + 1, n, k) == DealtTo(i, n, k) + (if k == i % n then 1 else 0)
    ensures k == i % n ==> DealtTo(i, n, k) == i / n
  {
    var q, r := i / n, i % n;
    if r + 1 < n {
      DivModOf(i + 1, n, q, r + 1);
    } else {
      DivModOf(i + 1, n, q + 1, 0);
    }
  }

  /** Item `i` of the input sits in part `i mod n` at position `i div n`. */
  lemma ItemPlacement<T>(input: seq<T>, n: nat, parts: seq<seq<T>>, i: nat)
    requires n > 0 && RoundRobin(input, n, parts) && i < |input|
    ensures i / n < |parts[i % n]| && parts[i % n][i / n] == input[i]
  {
    var L := |input|;
    QuotientOrder(i / n, i % n, L / n, L % n, n);
  }

  /** A whole-number part size of 0 means fewer items than parts. */
  lemma FewerItemsThanParts(length: nat, n: nat)
    requires n > 0
    ensures length / n == 0 <==> length < n
  {
  }

  /** Empty parts hold the first 0 items. */
  lemma NothingDealt<T>(input: seq<T>, n: nat, parts: seq<seq<T>>)
    requires n > 0 && |parts| == n && forall k :: 0 <= k < n ==> parts[k] == []
    ensures DealtUpTo(input, 0, n, parts)
  {
  }

  /** `divide_list_into_parts`: the items dealt round-robin over
      `numParts` parts. It raises for no parts, and for more parts than
      items (a whole-number part size of 0). */
  method DivideListIntoParts<T>(input: seq<T>, numParts: int) returns (r: Result<seq<seq<T>>, string>)
    ensures r.Err? <==> numParts <= 0 || |input| < numParts
    ensures r.Ok? ==> RoundRobin(input, numParts, r.value) && TotalLength(r.value) == |input|
    ensures r.Ok? ==> forall k :: 0 <= k < numParts ==> |input| / numParts <= |r.value[k]| <= |input| / numParts + 1
  {
    if numParts <= 0 {
      return Err("Number of parts must be greater than 0.");
    }
    var partSize := |input| / numParts;
    FewerItemsThanParts(|input|, numParts);
    if partSize == 0 {
      return Err("Number of parts is too large for the input list.");
    }
    var dividedParts: seq<seq<T>> := seq(numParts, _ => []);
    TotalLengthEmpty(dividedParts);
    NothingDealt(input, numParts, dividedParts);
    for i := 0 to |input|
      invariant DealtUpTo(input, i, numParts, dividedParts)
      invariant TotalLength(dividedParts) == i
    {
      var partIndex := i % numParts;
      DealNext(input, i, numParts, dividedParts);
      TotalLengthAppend(dividedParts, partIndex, input[i]);
      dividedParts := dividedParts[partIndex := dividedParts[partIndex] + [input[i]]];
    }
    return Ok(dividedParts);
  }

  /** The trace divided among the users, with one cursor per user. */
  class TimeTraceLoader {
    var index: seq<nat>
    var responseTracePerId: seq<seq<TraceEntry>>

    /** Every user has a non-empty part and a cursor inside it. */
    ghost predicate Valid()
      reads this
    {
      && |index| == |responseTracePerId|
      && forall id :: 0 <= id < |index| ==> index[id] < |responseTracePerId[id]|
    }

    /** `__init__` over the records of the trace file; dividing among
        more users than there are entries raises. */
    constructor (lines: seq<TraceLine>, numberOfUsers: nat)
      requires 0 < numberOfUsers && numberOfUsers < |lines|
      ensures Valid()
      ensures index == seq(numberOfUsers, _ => 0)
      ensures exists trace :: IsResponseTrace(lines, trace) && RoundRobin(trace, numberOfUsers, responseTracePerId)
    {
      var responseTrace := BuildResponseTrace(lines);
      var divided := DivideListIntoParts(responseTrace, numberOfUsers);
      index := seq(numberOfUsers, _ => 0);
      responseTracePerId := divided.value;
      new;
      forall id | 0 <= id < |index|
        ensures index[id] < |responseTracePerId[id]|
      {
        assert |responseTracePerId[id]| >= |responseTrace| / numberOfUsers >= 1;
      }
    }

    /** The entry under user `id`'s cursor. */
    function Current(id: nat): (e: TraceEntry)
      reads this
      requires Valid() && id < |index|
      ensures e in responseTracePerId[id]
    {
      responseTracePerId[id][index[id]]
    }

    /** `get_time`: the interval under the cursor; the cursor then moves
        on, wrapping at the end of the part. */
    method GetTime(id: nat) returns (timeInterval: int)
      requires Valid() && id < |index|
      modifies this
      ensures Valid() && responseTracePerId == old(responseTracePerId)
      ensures timeInterval == old(Current(id)).interval
      ensures index == old(index)[id := (old(index[id]) + 1) % |responseTracePerId[id]|]
    {
      timeInterval := responseTracePerId[id][index[id]].interval;
      index := index[id := (index[id] + 1) % |responseTracePerId[id]|];
    }

    /** `get_application_latency`: read under the cursor, which stays put. */
    function GetApplicationLatency(id: nat): (timeTaken: int)
      reads this
      requires Valid() && id < |index|
      ensures timeTaken == Current(id).timeTaken
    {
      responseTracePerId[id][index[id]].timeTaken
    }

    /** `get_size`: read under the cursor, which stays put. */
    function GetSize(id: nat): (size: int)
      reads this
      requires Valid() && id < |index|
      ensures size == Current(id).size
    {
      responseTracePerId[id][index[id]].size
    }

    /** `get_trace_length`: never 0, so the cursor's modulus is defined. */
    function GetTraceLength(id: nat): (length: nat)
      reads this
      requires Valid() && id < |index|
      ensures length > index[id]
    {
      |responseTracePerId[id]|
    }
  }
}
