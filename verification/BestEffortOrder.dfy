/**
 What best-effort reordering delivers (src/iscp/down_order.rs:50-81). When the store fills up
 it releases the numerically least chunk, so no order across drains is claimed.
 */
module BestEffortOrder {
  import opened Base
  import opened Types
  import opened DownOrder
  import opened ReorderRuns

  /** The chunks in a store; filed chunks are all different, so their set tells all. */
  ghost function Held(store: Store): multiset<DownstreamChunk> {
    multiset(store.Values)
  }

  lemma HeldAfterRelease(store: Store, n: U32)
    requires Filed(store) && n in store
    ensures Held(store) == multiset{store[n]} + Held(store - {n})
    ensures Filed(store - {n})
  {
    assert (store - {n}).Values == store.Values - {store[n]} by {
      forall c | c in store.Values - {store[n]}
        ensures c in (store - {n}).Values
      {
        var k :| k in store && store[k] == c;
        assert k in store - {n};
      }
    }
    assert store[n] in store.Values;
  }

  /** What storing `c` throws away: the chunk filed under the same number, if any. */
  function Replaced(store: Store, c: DownstreamChunk): Chunks {
    if c.sequenceNumber in store then [store[c.sequenceNumber]] else []
  }

  lemma InsertSize(store: Store, c: DownstreamChunk)
    requires Filed(store)
    ensures var after := store[c.sequenceNumber := c];
            Filed(after) && 0 < |after| && |store| <= |after| <= |store| + 1
  {
    assert store[c.sequenceNumber := c].Keys == store.Keys + {c.sequenceNumber};
  }

  lemma HeldAfterInsert(store: Store, c: DownstreamChunk)
    requires Filed(store)
    ensures var after := store[c.sequenceNumber := c];
            && Filed(after)
            && Held(after) + multiset(Replaced(store, c)) == Held(store) + multiset{c}
            && 0 < |after| && |store| <= |after| <= |store| + 1
  {
    hide Held, Filed;
    var n, after := c.sequenceNumber, store[c.sequenceNumber := c];
    InsertSize(store, c);
    HeldAfterRelease(after, n);
    if n in store {
      HeldAfterRelease(store, n);
      assert after - {n} == store - {n};
    } else {
      assert after - {n} == store;
    }
  }

  /** Nothing appears or disappears while an iterator is drained. */
  lemma {:induction false} DrainConserves(strict: bool, limit: nat, lane: Lane)
    requires Filed(lane.store)
    ensures var d := Drain(strict, limit, lane);
            Held(lane.store) == multiset(d.out) + Held(d.lane.store) && Filed(d.lane.store)
    decreases |lane.store|
  {
    hide Held, Filed;
    var p, d := PopStep(strict, limit, lane), Drain(strict, limit, lane);
    if p.out.Some? {
      var n := if !strict && |lane.store| >= limit then LeastKey(lane.store) else lane.next;
      HeldAfterRelease(lane.store, n);
      DrainConserves(strict, limit, p.lane);
      var rest := Drain(strict, limit, p.lane);
      hide Drain, PopStep;
      assert d.out == [p.out.value] + rest.out;
      assert multiset(d.out) == multiset{p.out.value} + multiset(rest.out);
    }
  }

  /** One run of consecutive numbers, modulo 2^32. */
  ghost predicate Consecutive(start: U32, out: Chunks) {
    forall k :: 0 <= k < |out| ==> out[k].sequenceNumber == Wrap(start + k)
  }

  /** When room is left, the iterator waits for `next`. */
  lemma QuietStep(limit: nat, lane: Lane)
    requires |lane.store| < limit || |lane.store| == 0
    ensures var d := Drain(false, limit, lane);
            if lane.next !in lane.store then d == Drained([], lane)
            else
              var p := Release(lane, lane.next);
              var rest := Drain(false, limit, p.lane);
              d == Drained([p.out.value] + rest.out, rest.lane)
  {
    if |lane.store| == 0 {
      assert lane.store == map[];
    }
  }

  /** With room in the store, a drain releases the run of numbers from `next` on. */
  lemma {:induction false} QuietDrain(limit: nat, lane: Lane)
    requires Filed(lane.store) && (|lane.store| < limit || |lane.store| == 0)
    ensures var d := Drain(false, limit, lane);
            && Consecutive(lane.next, d.out)
            && d.lane.next == Wrap(lane.next + |d.out|)
            && |d.lane.store| + |d.out| == |lane.store|
            && d.lane.next !in d.lane.store
    decreases |lane.store|
  {
    hide Wrap, Drain, PopStep, Held;
    QuietStep(limit, lane);
    WrapIdentity(lane.next);
    if lane.next in lane.store {
      var p := Release(lane, lane.next);
      HeldAfterRelease(lane.store, lane.next);
      QuietDrain(limit, p.lane);
      var rest := Drain(false, limit, p.lane);
      RunAfter(lane.next, p.out.value, rest.out);
      WrapOfWrap(lane.next + 1, |rest.out|);
    }
  }

  lemma RunAfter(n: U32, head: DownstreamChunk, tail: Chunks)
    requires head.sequenceNumber == n && Consecutive(Wrap(n + 1), tail)
    ensures Consecutive(n, [head] + tail)
  {
    hide Wrap;
    var out := [head] + tail;
    WrapIdentity(n);
    forall k | 0 <= k < |out|
      ensures out[k].sequenceNumber == Wrap(n + k)
    {
      if k > 0 {
        assert tail[k - 1].sequenceNumber == Wrap(Wrap(n + 1) + (k - 1));
        WrapOfWrap(n + 1, k - 1);
      }
    }
  }

  /** The iterator has nothing more to give. */
  ghost predicate Rested(limit: nat, lane: Lane) {
    PopStep(false, limit, lane).out.None?
  }

  lemma FullStep(limit: nat, lane: Lane)
    requires |lane.store| > 0 && limit <= |lane.store|
    ensures var p := Release(lane, LeastKey(lane.store));
            var rest := Drain(false, limit, p.lane);
            Drain(false, limit, lane) == Drained([p.out.value] + rest.out, rest.lane)
  {
    hide IsLeast;
  }

  /** What a drain does once the store has been filled to the limit. */
  lemma FullDrain(limit: nat, lane: Lane)
    requires Filed(lane.store) && |lane.store| > 0 && limit <= |lane.store| <= (if limit == 0 then 1 else limit)
    ensures var d, start := Drain(false, limit, lane), LeastKey(lane.store);
            && Consecutive(start, d.out) && d.lane.next == Wrap(start + |d.out|) && |d.out| > 0
            && |d.lane.store| + |d.out| == |lane.store|
            && d.lane.next !in d.lane.store
  {
    hide Held, Wrap, Drain, PopStep, IsLeast, Consecutive;
    FullStep(limit, lane);
    var n := LeastKey(lane.store);
    var p := Release(lane, n);
    var rest := Drain(false, limit, p.lane);
    HeldAfterRelease(lane.store, n);
    QuietDrain(limit, p.lane);
    RunAfter(n, p.out.value, rest.out);
    WrapOfWrap(n as int + 1, |rest.out|);
  }

  lemma RestedMeans(limit: nat, lane: Lane)
    ensures Rested(limit, lane) <==> if |lane.store| >= limit then |lane.store| == 0 else lane.next !in lane.store
  {
  }

  /** Where the drain of a lane begins: at its least number if the store is full, at `next` otherwise. */
  ghost function StartOf(limit: nat, lane: Lane): U32
    requires |lane.store| > 0
  {
    if |lane.store| >= limit then LeastKey(lane.store) else lane.next
  }

  /** A drain delivers one run of consecutive numbers and leaves the lane rested. */
  ghost predicate OneRun(limit: nat, lane: Lane, d: Drained)
    requires |lane.store| > 0
  {
    && Consecutive(StartOf(limit, lane), d.out)
    && d.lane.next == Wrap(StartOf(limit, lane) + |d.out|)
    && (|lane.store| >= limit ==> |d.out| > 0)
    && |d.out| + |d.lane.store| == |lane.store|
    && Rested(limit, d.lane) && (|d.lane.store| < limit || |d.lane.store| == 0)
  }

  lemma FilledDrain(limit: nat, lane: Lane)
    requires Filed(lane.store) && 0 < |lane.store| <= (if limit == 0 then 1 else limit)
    ensures OneRun(limit, lane, Drain(false, limit, lane))
  {
    var d := Drain(false, limit, lane);
    RestedMeans(limit, d.lane);
    if |lane.store| >= limit {
      FullDrain(limit, lane);
    } else {
      QuietDrain(limit, lane);
    }
    hide Drain, PopStep, Rested, Consecutive, Wrap, Filed;
  }

  /**
   One best-effort drain. After a chunk is stored in a rested lane, the drain delivers one run of
   consecutive numbers. If the store has reached its limit the run starts at the least stored
   number and is not empty; otherwise it starts at the old `next`. The lane is rested again, with
   fewer than max(1, limit) chunks stored.
   */
  lemma BestEffortDrain(limit: nat, lane: Lane, c: DownstreamChunk)
    requires Rested(limit, lane) && Filed(lane.store)
    ensures var filled := Lane(lane.next, lane.store[c.sequenceNumber := c]);
            |filled.store| > 0 && OneRun(limit, filled, Drain(false, limit, filled))
  {
    var filled := Lane(lane.next, lane.store[c.sequenceNumber := c]);
    HeldAfterInsert(lane.store, c);
    RestedMeans(limit, lane);
    FilledDrain(limit, filled);
  }

  ghost function StoreOf(log: LaneLog): Store {
    if log.lane.Some? then log.lane.value.store else map[]
  }

  /** The chunks that were replaced in the store by a later one with the same number. */
  ghost function Overwritten(strict: bool, limit: nat, chunks: Chunks): Chunks {
    if |chunks| == 0 then []
    else
      var before, c := chunks[..|chunks| - 1], chunks[|chunks| - 1];
      var log := LaneRun(strict, limit, before);
      Overwritten(strict, limit, before) +
        if Accept(strict, limit, log.lane, c).Some? then Replaced(StoreOf(log), c) else []
  }

  lemma Balance<T>(accepted: multiset<T>, delivered: multiset<T>, held: multiset<T>, lost: multiset<T>,
                   c: multiset<T>, filled: multiset<T>, more: multiset<T>, out: multiset<T>, left: multiset<T>)
    requires accepted == delivered + held + lost
    requires filled + more == held + c
    requires filled == out + left
    ensures accepted + c == (delivered + out) + left + (lost + more)
  {
    forall x: T
      ensures (accepted + c)[x] == ((delivered + out) + left + (lost + more))[x]
    {
      assert (filled + more)[x] == (held + c)[x];
    }
  }

  lemma ArriveConserves(strict: bool, limit: nat, log: LaneLog, c: DownstreamChunk, lost: Chunks)
    requires Filed(StoreOf(log))
    requires multiset(log.accepted) == multiset(log.delivered) + Held(StoreOf(log)) + multiset(lost)
    ensures var next := Arrive(strict, limit, log, c);
            var more := if Accept(strict, limit, log.lane, c).Some? then Replaced(StoreOf(log), c) else [];
            && Filed(StoreOf(next))
            && multiset(next.accepted) == multiset(next.delivered) + Held(StoreOf(next)) + multiset(lost + more)
  {
    hide Held, Filed, Drain, Replaced;
    var accept := Accept(strict, limit, log.lane, c);
    if accept.Some? {
      HeldAfterInsert(StoreOf(log), c);
      assert accept.value.store == StoreOf(log)[c.sequenceNumber := c];
      DrainConserves(strict, limit, accept.value);
      var d, more := Drain(strict, limit, accept.value), Replaced(StoreOf(log), c);
      Balance(multiset(log.accepted), multiset(log.delivered), Held(StoreOf(log)), multiset(lost),
              multiset{c}, Held(accept.value.store), multiset(more), multiset(d.out), Held(d.lane.store));
      assert multiset(log.accepted + [c]) == multiset(log.accepted) + multiset{c};
      assert multiset(log.delivered + d.out) == multiset(log.delivered) + multiset(d.out);
      assert multiset(lost + more) == multiset(lost) + multiset(more);
    } else {
      assert lost + [] == lost;
    }
  }

  /**
   Conservation, in both modes: the accepted chunks are exactly those delivered, those still
   stored and those overwritten by a chunk with the same number.
   */
  lemma {:induction false} ReorderingConserves(strict: bool, limit: nat, chunks: Chunks)
    ensures var log := LaneRun(strict, limit, chunks);
            && Filed(StoreOf(log))
            && multiset(log.accepted) ==
                 multiset(log.delivered) + Held(StoreOf(log)) + multiset(Overwritten(strict, limit, chunks))
  {
    if |chunks| > 0 {
      var before, c := chunks[..|chunks| - 1], chunks[|chunks| - 1];
      ReorderingConserves(strict, limit, before);
      hide Held, Filed, Drain, Accept, Replaced;
      ArriveConserves(strict, limit, LaneRun(strict, limit, before), c, Overwritten(strict, limit, before));
    } else {
      assert StoreOf(LaneRun(strict, limit, chunks)) == map[];
    }
  }

  /** Best effort refuses nothing, and leaves the lane rested after every arrival. */
  lemma {:induction false} BestEffortAcceptsAll(limit: nat, chunks: Chunks)
    ensures var log := LaneRun(false, limit, chunks);
            log.accepted == chunks && (log.lane.Some? ==> Rested(limit, log.lane.value) && Filed(log.lane.value.store))
  {
    if |chunks| > 0 {
      var before, c := chunks[..|chunks| - 1], chunks[|chunks| - 1];
      BestEffortAcceptsAll(limit, before);
      BestEffortArrival(limit, LaneRun(false, limit, before), c);
      assert chunks == before + [c];
    }
  }

  lemma BestEffortArrival(limit: nat, log: LaneLog, c: DownstreamChunk)
    requires log.lane.Some? ==> Rested(limit, log.lane.value) && Filed(log.lane.value.store)
    ensures var next := Arrive(false, limit, log, c);
            && next.accepted == log.accepted + [c] && next.lane.Some?
            && Rested(limit, next.lane.value) && Filed(next.lane.value.store)
  {
    var lane := if log.lane.Some? then log.lane.value else Lane(c.sequenceNumber, map[]);
    BestEffortDrain(limit, lane, c);
    HeldAfterInsert(lane.store, c);
    DrainConserves(false, limit, lane.(store := lane.store[c.sequenceNumber := c]));
  }

  /**
   With a limit of one chunk best effort lets none wait: the chunk numbered n + 2 is delivered before n + 1 has come, where
   strict mode keeps it.
   */
  lemma BestEffortLetsNoneWait(n: U32, upstream: UpstreamInfo)
    ensures var a, b := DownstreamChunk(n, [], upstream), DownstreamChunk(Wrap(n + 2), [], upstream);
            && LaneRun(false, 1, [a, b]).delivered == [a, b]
            && LaneRun(true, 1, [a, b]).delivered == [a]
            && LaneRun(true, 1, [a, b]).lane == Some(Lane(Wrap(n + 1), map[Wrap(n + 2) := b]))
  {
    hide LaneRun, Wrap;
    var a, b := DownstreamChunk(n, [], upstream), DownstreamChunk(Wrap(n + 2), [], upstream);
    TwoAheadIsNotNext(n);
    BothAtOnce(a, b);
    OneWaits(a, b);
  }

  lemma BothAtOnce(a: DownstreamChunk, b: DownstreamChunk)
    requires b.sequenceNumber != Wrap(a.sequenceNumber + 1)
    ensures LaneRun(false, 1, [a, b]).delivered == [a, b]
  {
    hide LaneRun, Drain, PopStep, Wrap;
    FirstTwo(false, a, b);
    ReleasesOnly(Lane(Wrap(a.sequenceNumber + 1), map[b.sequenceNumber := b]), b);
    assert [a] + [b] == [a, b];
  }

  lemma OneWaits(a: DownstreamChunk, b: DownstreamChunk)
    requires b.sequenceNumber != Wrap(a.sequenceNumber + 1)
    ensures var log := LaneRun(true, 1, [a, b]);
            log.delivered == [a] && log.lane == Some(Lane(Wrap(a.sequenceNumber + 1), map[b.sequenceNumber := b]))
  {
    hide LaneRun, Drain, PopStep, Wrap;
    FirstTwo(true, a, b);
    KeepsWaiting(Lane(Wrap(a.sequenceNumber + 1), map[b.sequenceNumber := b]));
    assert [a] + [] == [a];
  }

  lemma TwoAheadIsNotNext(n: U32)
    ensures Wrap(n + 1) != Wrap(n + 2)
  {
  }

  lemma FirstTwo(strict: bool, a: DownstreamChunk, b: DownstreamChunk)
    requires b.sequenceNumber != Wrap(a.sequenceNumber + 1)
    ensures var d := Drain(strict, 1, Lane(Wrap(a.sequenceNumber + 1), map[b.sequenceNumber := b]));
            LaneRun(strict, 1, [a, b]) == LaneLog(Some(d.lane), [a, b], [a] + d.out)
  {
    hide LaneRun, Drain, Wrap;
    FirstAtOnce(strict, 1, a);
    LaneRunSnoc(strict, 1, [a], b);
    assert [a] + [b] == [a, b];
  }

  lemma KeepsWaiting(lane: Lane)
    requires lane.next !in lane.store
    ensures Drain(true, 1, lane) == Drained([], lane)
  {
  }

  /** Full at one chunk, the store releases it. */
  lemma ReleasesOnly(lane: Lane, c: DownstreamChunk)
    requires lane.store == map[c.sequenceNumber := c]
    ensures Drain(false, 1, lane).out == [c]
  {
    var rest := Release(lane, c.sequenceNumber).lane;
    assert map[c.sequenceNumber := c] - {c.sequenceNumber} == map[];
    assert LeastKey(lane.store) == c.sequenceNumber;
    assert PopStep(false, 1, lane) == Release(lane, c.sequenceNumber);
    assert PopStep(false, 1, rest).out == None;
    DrainUnfolds(false, 1, lane);
    DrainUnfolds(false, 1, rest);
  }

  /** The first chunk of an upstream is delivered at once, in both modes. */
  lemma FirstAtOnce(strict: bool, limit: nat, a: DownstreamChunk)
    requires limit > 0
    ensures LaneRun(strict, limit, [a]) == LaneLog(Some(Lane(Wrap(a.sequenceNumber + 1), map[])), [a], [a])
  {
    var n := a.sequenceNumber;
    var filled, empty := Lane(n, map[n := a]), Lane(Wrap(n as int + 1), map[]);
    assert map[n := a] - {n} == map[];
    assert limit == 1 && !strict ==> LeastKey(filled.store) == n;
    assert PopStep(strict, limit, filled) == Popped(Some(a), empty);
    assert PopStep(strict, limit, empty) == Popped(None, empty);
    DrainUnfolds(strict, limit, filled);
    DrainUnfolds(strict, limit, empty);
    hide Drain, PopStep;
    assert Drain(strict, limit, filled) == Drained([a], empty);
    assert [a][..0] == [] && LaneRun(strict, limit, []) == LaneLog(None, [], []);
    assert [] + [a] == [a];
  }
}
