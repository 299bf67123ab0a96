/**
 The downstream reorderer (src/iscp/down_order.rs): per upstream, a counter of the next
 sequence number and a store of the chunks that came early.
 */
module DownOrder {
  import opened Base
  import opened Types

  datatype Reordering = NoReordering | BestEffort | Strict

  type Store = map<U32, DownstreamChunk>

  /** The reorderer's knowledge of one upstream. */
  datatype Lane = Lane(next: U32, store: Store)

  /** Chunks are filed under their own numbers. */
  ghost predicate Filed(store: Store) {
    forall n :: n in store ==> store[n].sequenceNumber == n
  }

  // ---------------------------------------------------------------- one upstream

  datatype Popped = Popped(out: Option<DownstreamChunk>, lane: Lane)

  /** What the iterator's next step releases, if anything, and what it leaves. */
  ghost function PopStep(strict: bool, limit: nat, lane: Lane): Popped {
    if !strict && |lane.store| >= limit then
      if |lane.store| == 0 then Popped(None, lane)
      else Release(lane, LeastKey(lane.store))
    else if lane.next in lane.store then Release(lane, lane.next)
    else Popped(None, lane)
  }

  function Release(lane: Lane, n: U32): (p: Popped)
    requires n in lane.store
    ensures p.out.Some? && |p.lane.store| == |lane.store| - 1
  {
    assert (lane.store - {n}).Keys == lane.store.Keys - {n};
    Popped(Some(lane.store[n]), Lane(Wrap(n + 1), lane.store - {n}))
  }

  datatype Drained = Drained(out: seq<DownstreamChunk>, lane: Lane)

  /** The iterator run to its end. */
  ghost function Drain(strict: bool, limit: nat, lane: Lane): Drained
    decreases |lane.store|
  {
    var p := PopStep(strict, limit, lane);
    if p.out.None? then Drained([], lane)
    else
      var d := Drain(strict, limit, p.lane);
      Drained([p.out.value] + d.out, d.lane)
  }

  lemma DrainUnfolds(strict: bool, limit: nat, lane: Lane)
    ensures var p, d := PopStep(strict, limit, lane), Drain(strict, limit, lane);
            if p.out.None? then d == Drained([], lane) && p.lane == lane
            else
              && d.out != [] && d.out[0] == p.out.value
              && Drain(strict, limit, p.lane) == Drained(d.out[1..], d.lane)
              && |p.lane.store| < |lane.store|
  {
  }

  lemma {:induction false} DrainLength(strict: bool, limit: nat, lane: Lane)
    ensures |Drain(strict, limit, lane).out| <= |lane.store|
    decreases |lane.store|
  {
    DrainUnfolds(strict, limit, lane);
    hide Drain;
    var p := PopStep(strict, limit, lane);
    if p.out.Some? {
      hide PopStep;
      DrainLength(strict, limit, p.lane);
    }
  }

  /** A chunk is put in the store unless strict mode has no room for it. */
  ghost function Accept(strict: bool, limit: nat, lane: Option<Lane>, chunk: DownstreamChunk): Option<Lane> {
    var l := if lane.Some? then lane.value else Lane(chunk.sequenceNumber, map[]);
    if strict && |l.store| >= limit && l.next != chunk.sequenceNumber then None
    else Some(l.(store := l.store[chunk.sequenceNumber := chunk]))
  }

  // ---------------------------------------------------------------- the reorderer

  datatype ReordererIter = NotReordered(chunk: Option<DownstreamChunk>) | Reordered(stream: Uuid)

  class DownReorderer {
    const enabled: bool
    const strict: bool
    const limit: nat
    var next: map<Uuid, U32>
    var store: map<Uuid, Store>

    ghost predicate Valid()
      reads this
    {
      next.Keys == store.Keys
    }

    ghost function LaneOf(u: Uuid): Option<Lane>
      requires Valid()
      reads this
    {
      if u in next then Some(Lane(next[u], store[u])) else None
    }

    constructor (qos: QoS, reordering: Reordering, reorderingChunks: nat)
      ensures Valid() && forall u :: LaneOf(u) == None
      ensures enabled == (qos == Reliable && reordering != NoReordering)
      ensures strict == (reordering == Strict) && limit == reorderingChunks
    {
      enabled := qos == Reliable && reordering != NoReordering;
      strict := reordering == Strict;
      limit := reorderingChunks;
      next := map[];
      store := map[];
    }

    /** Only the lane of `u` may have changed. */
    twostate predicate OthersKept(u: Uuid)
      requires old(Valid()) && Valid()
      reads this
    {
      forall v :: v != u ==> LaneOf(v) == old(LaneOf(v))
    }

    method Iter(chunk: DownstreamChunk) returns (r: Result<ReordererIter, Error>)
      requires Valid()
      modifies this
      ensures Valid() && OthersKept(chunk.upstream.streamId)
      ensures var u := chunk.upstream.streamId;
              if !enabled then
                r == Ok(NotReordered(Some(chunk))) && LaneOf(u) == old(LaneOf(u))
              else
                match Accept(strict, limit, old(LaneOf(u)), chunk)
                case None => r == Err(Error.Reordering(u)) && LaneOf(u) == old(LaneOf(u))
                case Some(lane) => r == Ok(Reordered(u)) && LaneOf(u) == Some(lane)
    {
      if !enabled {
        return Ok(NotReordered(Some(chunk)));
      }
      var u := chunk.upstream.streamId;
      if u !in next {
        next := next[u := chunk.sequenceNumber];
        store := store[u := map[]];
      }
      if strict && |store[u]| >= limit && next[u] != chunk.sequenceNumber {
        return Err(Error.Reordering(u));
      }
      var held: Store := store[u][chunk.sequenceNumber := chunk];
      store := store[u := held];
      return Ok(Reordered(u));
    }

    method Pop(u: Uuid) returns (r: Option<DownstreamChunk>)
      requires Valid() && LaneOf(u).Some?
      modifies this
      ensures Valid() && OthersKept(u)
      ensures var p := PopStep(strict, limit, old(LaneOf(u)).value);
              r == p.out && LaneOf(u) == Some(p.lane)
    {
      if !strict && |store[u]| >= limit {
        if |store[u]| == 0 {
          return None;
        }
        ghost var least := LeastKey(store[u]);
        var n: U32 :| n in store[u] && forall k | k in store[u] :: n <= k;
        assert n == least;
        r := Some(store[u][n]);
        store := store[u := store[u] - {n}];
        next := next[u := Wrap(n + 1)];
        return;
      }
      if next[u] in store[u] {
        r := Some(store[u][next[u]]);
        store := store[u := store[u] - {next[u]}];
        next := next[u := Wrap(next[u] as int + 1)];
      } else {
        r := None;
      }
    }

    /**
     The read loop's `for`: what the iterator yields goes to the application until it has closed its end of the
     channel. `room` is how many chunks it still takes; the chunk that cannot be sent is lost, and
     the rest stays in the store.
     */
    method DrainIter(it: ReordererIter, room: nat) returns (out: seq<DownstreamChunk>, open: bool)
      requires Valid() && (it.Reordered? ==> LaneOf(it.stream).Some?)
      modifies this
      ensures Valid()
      ensures it.NotReordered? ==>
                && var all := if it.chunk.Some? then [it.chunk.value] else [];
                && open == (|all| <= room) && out == (if open then all else [])
                && forall v :: LaneOf(v) == old(LaneOf(v))
      ensures it.Reordered? ==>
                OthersKept(it.stream) && Drains(old(LaneOf(it.stream)).value, room, out, open, LaneOf(it.stream))
    {
      match it
      case NotReordered(chunk) =>
        open := chunk.None? || room > 0;
        out := if chunk.Some? && open then [chunk.value] else [];
      case Reordered(u) =>
        out, open := DrainStream(u, room);
    }

    /** The final drain's `for`: the iterator is run to its end whatever becomes of the chunks. */
    method DrainAll(it: ReordererIter) returns (out: seq<DownstreamChunk>)
      requires Valid() && (it.Reordered? ==> LaneOf(it.stream).Some?)
      modifies this
      ensures Valid()
      ensures it.NotReordered? ==>
                && out == (if it.chunk.Some? then [it.chunk.value] else [])
                && forall v :: LaneOf(v) == old(LaneOf(v))
      ensures it.Reordered? ==>
                && OthersKept(it.stream)
                && var d := Drain(strict, limit, old(LaneOf(it.stream)).value);
                   out == d.out && LaneOf(it.stream) == Some(d.lane)
    {
      hide Drain;
      var room := 1;
      if it.Reordered? {
        DrainLength(strict, limit, LaneOf(it.stream).value);
        room := |store[it.stream]|;
      }
      var all, open := DrainIter(it, room);
      out := all;
    }

    /** Draining `before` gave `out` to the application, and all of it if `open`. */
    ghost predicate Drains(before: Lane, room: nat, out: seq<DownstreamChunk>, open: bool, after: Option<Lane>) {
      var d := Drain(strict, limit, before);
      && open == (|d.out| <= room)
      && after.Some?
      && (open ==> out == d.out && after.value == d.lane)
      && (!open ==> out == d.out[..room] && Drain(strict, limit, after.value) == Drained(d.out[room + 1..], d.lane))
    }

    method DrainStream(u: Uuid, room: nat) returns (out: seq<DownstreamChunk>, open: bool)
      requires Valid() && LaneOf(u).Some?
      modifies this
      ensures Valid() && OthersKept(u)
      ensures Drains(old(LaneOf(u)).value, room, out, open, LaneOf(u))
    {
      hide PopStep, Drain;
      ghost var lane := LaneOf(u).value;
      ghost var goal := Drain(strict, limit, lane);
      ghost var left := goal;
      out, open := [], true;
      var more := true;
      while more
        invariant Valid() && OthersKept(u) && LaneOf(u) == Some(lane)
        invariant left == Drain(strict, limit, lane)
        invariant |out| <= room && |out| <= |goal.out| && out == goal.out[..|out|] && left.lane == goal.lane
        invariant open ==> left.out == goal.out[|out|..]
        invariant !open ==> !more && |out| == room < |goal.out| && left.out == goal.out[room + 1..]
        invariant !more && open ==> left == Drained([], lane)
        decreases more, |goal.out| - |out|
      {
        var r := Pop(u);
        DrainUnfolds(strict, limit, lane);
        lane := PopStep(strict, limit, lane).lane;
        if r.Some? {
          assert goal.out[|out|] == r.value;
          left := Drained(goal.out[|out| + 1..], left.lane);
          if |out| < room {
            out := out + [r.value];
          } else {
            more, open := false, false;
          }
        } else {
          more := false;
        }
      }
    }
  }
}
