/**
 What best-effort reordering delivers over whole runs, told by the chunks that have come and gone
 (src/iscp/down_order.rs:35-81).
 */
module BestEffortRuns {
  import opened Base
  import opened Types
  import opened DownOrder
  import opened ReorderRuns
  import opened BestEffortOrder

  /** The number after the last one delivered; before any delivery, the first number to have come. */
  function Expected(chunks: Chunks, delivered: Chunks): U32
    requires |chunks| > 0
  {
    if |delivered| == 0 then chunks[0].sequenceNumber else Wrap(delivered[|delivered| - 1].sequenceNumber + 1)
  }

  /** Chunk `k` of `out` is the stored one with the `k`th number from `start` on. */
  ghost predicate IsNth(store: Store, start: U32, out: Chunks, k: nat)
    requires k < |out|
  {
    Wrap(start + k) in store && out[k] == store[Wrap(start + k)]
  }

  /** `left` is `store` without the `count` numbers from `start` on. */
  ghost predicate IsWithout(store: Store, start: U32, count: nat, left: Store) {
    && (forall n :: n in left <==> n in store && Offset(start, n) >= count)
    && (forall n :: n in left ==> left[n] == store[n])
  }

  /** `out` is the run of stored chunks that starts with number `start` and ends before the first number not in the store. */
  ghost predicate TakesRun(store: Store, start: U32, out: Chunks, left: Store) {
    && |out| <= |store|
    && (forall k :: 0 <= k < |out| ==> IsNth(store, start, out, k))
    && IsWithout(store, start, |out|, left)
    && Wrap(start + |out|) !in left
  }

  /** Where deliveries start: at the least stored number once the store is full. */
  ghost function StartFor(limit: nat, store: Store, expected: U32): U32
    requires |store| > 0
  {
    if |store| >= limit then LeastKey(store) else expected
  }

  /** What `c` does after `chunks`: with it the store holds `filled`. */
  ghost predicate Delivers(limit: nat, chunks: Chunks, log: LaneLog, c: DownstreamChunk, next: LaneLog) {
    var filled, expected := StoreOf(log)[c.sequenceNumber := c], Expected(chunks + [c], log.delivered);
    && log.delivered <= next.delivered
    && TakesRun(filled, StartFor(limit, filled, expected), next.delivered[|log.delivered|..], StoreOf(next))
  }

  lemma OneMoreTaken(store: Store, n: U32, count: nat, left: Store)
    requires n in store && IsWithout(store - {n}, Wrap(n + 1), count, left)
    ensures IsWithout(store, n, count + 1, left)
  {
    hide Wrap, Offset;
    forall m: U32
      ensures m in left <==> m in store && Offset(n, m) >= count + 1
    {
      OffsetAfter(n, m);
    }
  }

  lemma NthOfMore(store: Store, n: U32, out: Chunks, k: nat)
    requires n in store && 0 < k <= |out| && IsNth(store - {n}, Wrap(n + 1), out, k - 1)
    ensures IsNth(store, n, [store[n]] + out, k)
  {
    hide Wrap;
    WrapOfWrap(n + 1, k - 1);
    assert n + 1 + (k - 1) == n + k;
  }

  /** The number before the run has been released. */
  lemma RunGrows(store: Store, n: U32, out: Chunks, left: Store)
    requires n in store && TakesRun(store - {n}, Wrap(n + 1), out, left)
    ensures TakesRun(store, n, [store[n]] + out, left)
  {
    hide Wrap, Offset, IsNth, IsWithout;
    var all, rest := [store[n]] + out, store - {n};
    assert rest.Keys == store.Keys - {n} && |rest| == |store| - 1;
    OneMoreTaken(store, n, |out|, left);
    forall k | 0 <= k < |all|
      ensures IsNth(store, n, all, k)
    {
      if k > 0 {
        NthOfMore(store, n, out, k);
      } else {
        FirstOfRun(store, n, all);
      }
    }
    WrapOfWrap(n + 1, |out|);
    assert n + 1 + |out| == n + |all|;
  }

  lemma FirstOfRun(store: Store, n: U32, out: Chunks)
    requires n in store && |out| > 0 && out[0] == store[n]
    ensures IsNth(store, n, out, 0)
  {
    WrapIdentity(n);
  }

  lemma NothingTaken(store: Store, start: U32)
    requires start !in store
    ensures TakesRun(store, start, [], store)
  {
    WrapIdentity(start);
  }

  /** With room in the store, a drain takes the run that starts with `next`. */
  lemma {:induction false} QuietTakes(limit: nat, lane: Lane)
    requires |lane.store| < limit || |lane.store| == 0
    ensures var d := Drain(false, limit, lane);
            TakesRun(lane.store, lane.next, d.out, d.lane.store) && d.lane.next == Wrap(lane.next + |d.out|)
    decreases |lane.store|
  {
    hide Wrap, Drain, PopStep, TakesRun;
    QuietStep(limit, lane);
    if lane.next in lane.store {
      var p := Release(lane, lane.next);
      QuietTakes(limit, p.lane);
      var rest := Drain(false, limit, p.lane);
      RunGrows(lane.store, lane.next, rest.out, rest.lane.store);
      WrapOfWrap(lane.next + 1, |rest.out|);
    } else {
      NothingTaken(lane.store, lane.next);
      WrapIdentity(lane.next);
    }
  }

  /** With a full one, the run that starts with the least number. */
  lemma FullTakes(limit: nat, lane: Lane)
    requires limit <= |lane.store| && 0 < |lane.store| <= (if limit == 0 then 1 else limit)
    ensures var d, n := Drain(false, limit, lane), LeastKey(lane.store);
            TakesRun(lane.store, n, d.out, d.lane.store) && d.lane.next == Wrap(n + |d.out|) && |d.out| > 0
  {
    hide Wrap, Drain, PopStep, TakesRun, IsLeast;
    FullStep(limit, lane);
    var n := LeastKey(lane.store);
    assert n in lane.store by { LeastIsIn(lane.store, n); }
    var p := Release(lane, n);
    QuietTakes(limit, p.lane);
    var rest := Drain(false, limit, p.lane);
    RunGrows(lane.store, n, rest.out, rest.lane.store);
    WrapOfWrap(n as int + 1, |rest.out|);
  }

  lemma LeastIsIn(store: Store, n: U32)
    requires IsLeast(n, store)
    ensures n in store
  {
  }

  /** `next` is told by what has been delivered, and the store has room. */
  ghost predicate Known(limit: nat, chunks: Chunks, log: LaneLog) {
    if |chunks| == 0 then log == LaneLog(None, [], [])
    else
      && log.lane.Some? && |log.delivered| > 0
      && log.lane.value.next == Expected(chunks, log.delivered)
      && Filed(log.lane.value.store) && (|log.lane.value.store| < limit || |log.lane.value.store| == 0)
  }

  /** The store as an arrival fills it, and what the drain makes of it. */
  lemma FilledTakes(limit: nat, lane: Lane)
    requires Filed(lane.store) && 0 < |lane.store| <= (if limit == 0 then 1 else limit)
    ensures var d, start := Drain(false, limit, lane), StartFor(limit, lane.store, lane.next);
            && TakesRun(lane.store, start, d.out, d.lane.store) && d.lane.next == Wrap(start + |d.out|)
            && (|lane.store| >= limit ==> |d.out| > 0)
            && Filed(d.lane.store) && (|d.lane.store| < limit || |d.lane.store| == 0)
  {
    hide Drain, PopStep, TakesRun, Wrap, Filed, LeastKey, OneRun;
    if |lane.store| >= limit {
      FullTakes(limit, lane);
    } else {
      QuietTakes(limit, lane);
    }
    DrainConserves(false, limit, lane);
    FilledDrain(limit, lane);
    LeavesRoom(limit, lane, Drain(false, limit, lane));
  }

  lemma LeavesRoom(limit: nat, lane: Lane, d: Drained)
    requires |lane.store| > 0 && OneRun(limit, lane, d)
    ensures |d.lane.store| < limit || |d.lane.store| == 0
  {
  }

  /** The number after the last one of a run. */
  lemma AfterTheRun(store: Store, start: U32, out: Chunks, left: Store)
    requires Filed(store) && TakesRun(store, start, out, left) && |out| > 0
    ensures Wrap(out[|out| - 1].sequenceNumber + 1) == Wrap(start + |out|)
  {
    hide Wrap;
    assert IsNth(store, start, out, |out| - 1);
    WrapOfWrap(start + |out| - 1, 1);
  }

  lemma RunStartsStored(store: Store, start: U32, out: Chunks, left: Store)
    requires TakesRun(store, start, out, left)
    ensures out == [] <==> start !in store
  {
    WrapIdentity(start);
    assert |out| > 0 ==> IsNth(store, start, out, 0);
  }

  lemma ArrivalDelivers(limit: nat, chunks: Chunks, log: LaneLog, c: DownstreamChunk)
    requires Known(limit, chunks, log)
    ensures var next := Arrive(false, limit, log, c);
            && next.accepted == log.accepted + [c] && Delivers(limit, chunks, log, c, next)
            && Known(limit, chunks + [c], next)
  {
    hide Drain, PopStep, TakesRun, Wrap, Filed, StartFor, Known, Accept;
    var filled, expected := StoreOf(log)[c.sequenceNumber := c], Expected(chunks + [c], log.delivered);
    var lane := Lane(expected, filled);
    StoreIsFiled(limit, chunks, log);
    InsertSize(StoreOf(log), c);
    FilledTakes(limit, lane);
    AcceptFills(limit, chunks, log, c);
    var d := Drain(false, limit, lane);
    assert (log.delivered + d.out)[|log.delivered|..] == d.out;
    StaysKnown(limit, chunks, log, c, d);
  }

  /** The arriving chunk is stored, and `next` is what it is known to be. */
  lemma AcceptFills(limit: nat, chunks: Chunks, log: LaneLog, c: DownstreamChunk)
    requires Known(limit, chunks, log)
    ensures Accept(false, limit, log.lane, c) ==
              Some(Lane(Expected(chunks + [c], log.delivered), StoreOf(log)[c.sequenceNumber := c]))
  {
    hide Wrap, Filed;
  }

  /** The last chunk delivered tells `next` again. */
  lemma StaysKnown(limit: nat, chunks: Chunks, log: LaneLog, c: DownstreamChunk, d: Drained)
    requires Known(limit, chunks, log)
    requires var filled, expected := StoreOf(log)[c.sequenceNumber := c], Expected(chunks + [c], log.delivered);
             && |filled| > 0 && Filed(filled)
             && TakesRun(filled, StartFor(limit, filled, expected), d.out, d.lane.store)
             && d.lane.next == Wrap(StartFor(limit, filled, expected) + |d.out|)
             && (|filled| >= limit ==> |d.out| > 0)
             && Filed(d.lane.store) && (|d.lane.store| < limit || |d.lane.store| == 0)
    ensures Known(limit, chunks + [c], LaneLog(Some(d.lane), log.accepted + [c], log.delivered + d.out))
  {
    hide TakesRun, Wrap, Filed, LeastKey;
    var filled, expected := StoreOf(log)[c.sequenceNumber := c], Expected(chunks + [c], log.delivered);
    var start := StartFor(limit, filled, expected);
    RunStartsStored(filled, start, d.out, d.lane.store);
    if |d.out| > 0 {
      AfterTheRun(filled, start, d.out, d.lane.store);
    } else {
      WrapIdentity(start);
      assert log.delivered + d.out == log.delivered;
    }
  }

  lemma StoreIsFiled(limit: nat, chunks: Chunks, log: LaneLog)
    requires Known(limit, chunks, log)
    ensures Filed(StoreOf(log)) && (|StoreOf(log)| < limit || |StoreOf(log)| == 0)
  {
  }

  lemma NothingIsKnown(limit: nat, chunks: Chunks)
    requires |chunks| == 0
    ensures Known(limit, chunks, LaneRun(false, limit, chunks))
  {
  }

  lemma {:induction false} RunIsKnown(limit: nat, chunks: Chunks)
    ensures Known(limit, chunks, LaneRun(false, limit, chunks))
  {
    hide LaneRun, Arrive, Known, Delivers;
    if |chunks| == 0 {
      NothingIsKnown(limit, chunks);
    } else {
      var before, c := chunks[..|chunks| - 1], chunks[|chunks| - 1];
      RunIsKnown(limit, before);
      ArrivalDelivers(limit, before, LaneRun(false, limit, before), c);
      LaneRunSnoc(false, limit, before, c);
      assert before + [c] == chunks;
    }
  }

  /**
   Best effort, over every run. Let `filled` be the store with the arriving chunk. If it has reached the limit, the run of stored
   numbers from the least one on is delivered, which is not empty. Otherwise it is the run from the number after the last
   one delivered, and nothing if that number is not there. What is delivered leaves the store, and nothing else does.
   */
  lemma BestEffortDelivers(limit: nat, chunks: Chunks, c: DownstreamChunk)
    ensures var log, next := LaneRun(false, limit, chunks), LaneRun(false, limit, chunks + [c]);
            var filled, expected := StoreOf(log)[c.sequenceNumber := c], Expected(chunks + [c], log.delivered);
            && next.accepted == chunks + [c] && log.delivered <= next.delivered
            && (if |filled| >= limit then
                  exists least :: IsLeast(least, filled)
                    && TakesRun(filled, least, next.delivered[|log.delivered|..], StoreOf(next))
                else TakesRun(filled, expected, next.delivered[|log.delivered|..], StoreOf(next)))
            && (next.delivered == log.delivered <==> |filled| < limit && expected !in filled)
  {
    hide LaneRun, Arrive, TakesRun, IsLeast;
    var log, next := LaneRun(false, limit, chunks), LaneRun(false, limit, chunks + [c]);
    var filled, expected := StoreOf(log)[c.sequenceNumber := c], Expected(chunks + [c], log.delivered);
    RunIsKnown(limit, chunks);
    BestEffortAcceptsAll(limit, chunks);
    ArrivalDelivers(limit, chunks, log, c);
    LaneRunSnoc(false, limit, chunks, c);
    assert |filled| > 0 by { StoreIsFiled(limit, chunks, log); InsertSize(StoreOf(log), c); }
    var start, more := StartFor(limit, filled, expected), next.delivered[|log.delivered|..];
    RunStartsStored(filled, start, more, StoreOf(next));
    assert IsLeast(LeastKey(filled), filled);
    LeastIsIn(filled, LeastKey(filled));
    assert next.delivered == log.delivered + more;
  }
}
