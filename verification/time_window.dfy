/**
 Time-stamped event queues as used by the two replay systems: pruning the
 stale head of a sliding window, and draining the events that are due on a
 replay clock. Both operations only ever remove a prefix of the queue, as
 the source's `RemoveAt(0)` loops do.
 */
module TimeWindow {

  /** An event recorded at `t` is stale at `now` when it is more than
      `window` seconds old. */
  predicate Stale(t: real, now: real, window: real)
  {
    now - t > window
  }

  /** Removes the leading run of stale events (the `while` loop that calls
      `RemoveAt(0)` while the head is too old). */
  function PruneStale<E>(buf: seq<E>, time: E -> real, now: real, window: real): (r: seq<E>)
    ensures |r| <= |buf|
    ensures r == buf[|buf| - |r|..]
    ensures forall i :: 0 <= i < |buf| - |r| ==> Stale(time(buf[i]), now, window)
    ensures r == [] || !Stale(time(r[0]), now, window)
    decreases |buf|
  {
    if |buf| > 0 && Stale(time(buf[0]), now, window) then
      PruneStale(buf[1..], time, now, window)
    else
      buf
  }

  /** The cut made by PruneStale is the only one that removes nothing but
      stale events and leaves a fresh head: the contract determines the result. */
  lemma PruneStaleUnique<E>(buf: seq<E>, time: E -> real, now: real, window: real, k: nat)
    requires k <= |buf|
    requires forall i :: 0 <= i < k ==> Stale(time(buf[i]), now, window)
    requires k == |buf| || !Stale(time(buf[k]), now, window)
    ensures PruneStale(buf, time, now, window) == buf[k..]
  {
  }

  /** Pruning twice at the same instant removes nothing more. */
  lemma PruneStaleIdempotent<E>(buf: seq<E>, time: E -> real, now: real, window: real)
    ensures PruneStale(PruneStale(buf, time, now, window), time, now, window)
         == PruneStale(buf, time, now, window)
  {
    var r := PruneStale(buf, time, now, window);
    PruneStaleUnique(r, time, now, window, 0);
  }

  /** `next` is `prev` with a leading run of stale events removed, the
      first survivor (if any) fresh, and `added` appended: what a recorder
      frame does to its buffer. */
  predicate PrunedThenAppended<E(==)>(prev: seq<E>, next: seq<E>, added: seq<E>, time: E -> real, now: real, window: real)
  {
    exists k :: 0 <= k <= |prev|
      && next == prev[k..] + added
      && (k == |prev| || !Stale(time(prev[k]), now, window))
      && (forall i :: 0 <= i < k ==> Stale(time(prev[i]), now, window))
  }

  /** Pruning and then appending is such a frame. */
  lemma PruneThenAppend<E>(prev: seq<E>, added: seq<E>, time: E -> real, now: real, window: real, next: seq<E>)
    requires next == PruneStale(prev, time, now, window) + added
    ensures PrunedThenAppended(prev, next, added, time, now, window)
  {
    var kept := PruneStale(prev, time, now, window);
    var k := |prev| - |kept|;
    assert k < |prev| ==> kept[0] == prev[k];
  }

  /** One recorder frame on a buffer: prune the stale head, then append. */
  function PruneAndAppend<E(==)>(prev: seq<E>, added: seq<E>, time: E -> real, now: real, window: real): (next: seq<E>)
    ensures PrunedThenAppended(prev, next, added, time, now, window)
  {
    PruneThenAppend(prev, added, time, now, window, PruneStale(prev, time, now, window) + added);
    PruneStale(prev, time, now, window) + added
  }

  /** The events due on the replay clock, and the ones still waiting. */
  datatype Split<E> = Split(due: seq<E>, rest: seq<E>)

  /** Removes and returns every leading event whose time is at most `clock`
      (the playback loop that dequeues while `buffer[0].time <= clock`). */
  function DrainDue<E>(buf: seq<E>, time: E -> real, clock: real): (r: Split<E>)
    ensures r.due + r.rest == buf
    ensures forall i :: 0 <= i < |r.due| ==> time(r.due[i]) <= clock
    ensures r.rest == [] || time(r.rest[0]) > clock
    decreases |buf|
  {
    if |buf| > 0 && time(buf[0]) <= clock then
      var tail := DrainDue(buf[1..], time, clock);
      Split([buf[0]] + tail.due, tail.rest)
    else
      Split([], buf)
  }

  /** When every queued event is due, draining empties the queue. */
  lemma {:induction false} DrainDueAll<E>(buf: seq<E>, time: E -> real, clock: real)
    requires forall i :: 0 <= i < |buf| ==> time(buf[i]) <= clock
    ensures DrainDue(buf, time, clock) == Split(buf, [])
    decreases |buf|
  {
    if |buf| > 0 {
      DrainDueAll(buf[1..], time, clock);
      assert [buf[0]] + buf[1..] == buf;
    }
  }
}
