/**
 The downstream's read loop: received chunks are converted, put in order, handed to the
 application and acknowledged (src/iscp/downstream.rs:222-236, 306-414).
 */
module Downstream {
  import opened Base
  import opened Types
  import opened DownOrder
  import Orders = ReorderRuns
  import DownState
  import BestEffortOrder
  import StrictOrder

  datatype Config = Config(qos: QoS, reordering: Reordering, limit: nat, omitEmptyChunk: bool) {
    predicate Ordered() {
      qos == Reliable && reordering != NoReordering
    }

    /** Empty chunks are skipped only where no reorderer would miss their numbers. */
    predicate OmitsEmpty() {
      omitEmptyChunk && !Ordered()
    }
  }

  // ---------------------------------------------------------------- the application's channel

  type Chunks = seq<DownstreamChunk>

  /** The chunks whose fate is to arrive. */
  function Kept(chunks: Chunks, fate: seq<bool>): Chunks
    requires |fate| == |chunks|
  {
    if |chunks| == 0 then []
    else
      var last := |chunks| - 1;
      Kept(chunks[..last], fate[..last]) + if fate[last] then [chunks[last]] else []
  }

  /** `a` is `b` with some elements left out. */
  ghost predicate Subsequence(a: Chunks, b: Chunks) {
    exists fate: seq<bool> :: |fate| == |b| && a == Kept(b, fate)
  }

  /**
   The read loop sends, and takes a failure as a sign that the application has closed its end; `room` is how many chunks it
   takes before that. The final drain only tries, and `fits` says for which chunks there is room in the channel.
   */
  datatype Handing = Send(room: nat) | TrySend(fits: seq<bool>)

  function Fate(how: Handing, n: nat): (fate: seq<bool>)
    ensures |fate| == n
  {
    seq(n, i requires 0 <= i < n => if how.Send? then i < how.room else i < |how.fits| && how.fits[i])
  }

  lemma KeptSnoc(chunks: Chunks, fate: seq<bool>, c: DownstreamChunk, arrives: bool)
    requires |fate| == |chunks|
    ensures Kept(chunks + [c], fate + [arrives]) == Kept(chunks, fate) + if arrives then [c] else []
  {
    assert (chunks + [c])[..|chunks|] == chunks && (fate + [arrives])[..|chunks|] == fate;
  }

  lemma FateOfSend(room: nat, n: nat)
    ensures Fate(Send(room), n + 1) == Fate(Send(room), n) + [n < room]
    ensures false in Fate(Send(room), n) <==> n > room
  {
    assert n > room ==> !Fate(Send(room), n)[room];
  }

  /** What a channel gets that closes after `room` chunks. */
  function UpTo(more: Chunks, room: nat): Chunks {
    if |more| <= room then more else more[..room]
  }

  lemma UpToSnoc(more: Chunks, room: nat, c: DownstreamChunk)
    ensures UpTo(more + [c], room) == UpTo(more, room) + if |more| < room then [c] else []
  {
  }

  /** A channel that closes after `room` chunks has got those, and all of them if that is enough. */
  lemma {:induction false} SendKeeps(more: Chunks, room: nat)
    ensures var fate := Fate(Send(room), |more|);
            Kept(more, fate) == UpTo(more, room) && (false in fate <==> |more| > room)
  {
    hide Kept, Fate, UpTo;
    FateOfSend(room, |more|);
    if |more| == 0 {
      NothingKept(more, Fate(Send(room), |more|));
      UpToNothing(more, room);
    } else {
      var before, c := more[..|more| - 1], more[|more| - 1];
      assert more == before + [c];
      SendKeeps(before, room);
      FateOfSend(room, |before|);
      KeptSnoc(before, Fate(Send(room), |before|), c, |before| < room);
      UpToSnoc(before, room, c);
    }
  }

  lemma NothingKept(chunks: Chunks, fate: seq<bool>)
    requires |chunks| == |fate| == 0
    ensures Kept(chunks, fate) == []
  {
  }

  lemma UpToNothing(more: Chunks, room: nat)
    requires |more| == 0
    ensures UpTo(more, room) == []
  {
  }

  lemma {:induction false} NothingFits(more: Chunks)
    ensures Kept(more, Fate(TrySend([]), |more|)) == []
  {
    if |more| > 0 {
      NothingFits(more[..|more| - 1]);
      assert Fate(TrySend([]), |more|)[..|more| - 1] == Fate(TrySend([]), |more| - 1);
    }
  }

  // ---------------------------------------------------------------- the specification

  /**
   `order` is what the reorderer delivers, `fate` which of it arrives and `seen` what the application got. `full` records
   that a chunk found the channel full, `closed` that the application has closed its end; chunks converted after that
   are `late`. `refused` holds the chunk the reorderer refused, after which the loop is over.
   */
  datatype Session = Session(
    state: DownState.Log,
    order: Orders.Log,
    fate: seq<bool>,
    seen: Chunks,
    late: Chunks,
    refused: Chunks,
    full: bool,
    closed: bool,
    draining: bool)

  /** Chunks come from the connection and, once the loop has left it, from what is still queued. */
  datatype Event =
    | Chunk(chunk: DownState.WireChunk, room: nat)
    | Leave
    | Queued(chunk: DownState.WireChunk, fits: seq<bool>)
    | Rejoin
    | SendAck(streamIdAlias: U32)

  ghost function Open(dataIdAliases: map<U32, DataId>): Session {
    Session(DownState.Run(dataIdAliases, []), Orders.Log(map[], [], []), [], [], [], [], false, false, false)
  }

  /** The reorderer's part; None if it refuses the chunk. */
  ghost function Ordering(cfg: Config, order: Orders.Log, chunk: DownstreamChunk): Option<Orders.Log> {
    if !cfg.Ordered() then
      Some(order.(accepted := order.accepted + [chunk], delivered := order.delivered + [chunk]))
    else
      var strict, lane := cfg.reordering == Strict, Orders.LaneIn(order.lanes, chunk.upstream.streamId);
      if Accept(strict, cfg.limit, lane, chunk).None? then None
      else Some(Orders.Step(strict, cfg.limit, order, chunk))
  }

  /** The channel's part: `more` has been delivered and is handed over. */
  function Handed(s: Session, more: Chunks, how: Handing): Session {
    var fate := Fate(how, |more|);
    s.(fate := s.fate + fate,
       seen := s.seen + Kept(more, fate),
       full := s.full || (how.TrySend? && false in fate),
       closed := s.closed || (how.Send? && false in fate))
  }

  lemma HandedMeans(s: Session, more: Chunks, how: Handing)
    ensures var t, fate := Handed(s, more, how), Fate(how, |more|);
            && t.seen == s.seen + Kept(more, fate) && t.closed == (s.closed || (how.Send? && false in fate))
            && t.state == s.state && t.refused == s.refused && t.late == s.late
  {
  }

  ghost function Deliver(cfg: Config, s: Session, chunk: DownstreamChunk, how: Handing): Session {
    if s.closed then s.(late := s.late + [chunk])
    else
      match Ordering(cfg, s.order, chunk)
      case None => s.(refused := [chunk])
      case Some(order) =>
        assert s.order.delivered <= order.delivered;
        Handed(s, order.delivered[|s.order.delivered|..], how).(order := order)
  }

  ghost function Receive(cfg: Config, s: Session, chunk: DownState.WireChunk, how: Handing): Session {
    var c := DownState.Convert(s.state.model, chunk, cfg.OmitsEmpty());
    var t := s.(state := DownState.Step(s.state, DownState.ConvertChunk(chunk, cfg.OmitsEmpty())));
    if c.r.Ok? && c.r.value.Some? then Deliver(cfg, t, c.r.value.value, how) else t
  }

  ghost function Step(cfg: Config, s: Session, e: Event): Session {
    if s.refused != [] then s
    else
      match e
      case Chunk(chunk, room) => if s.draining then s else Receive(cfg, s, chunk, Send(room))
      case Leave => s.(draining := true)
      case Queued(chunk, fits) => if s.draining then Receive(cfg, s, chunk, TrySend(fits)) else s
      case Rejoin => s.(draining := false)
      case SendAck(alias) => s.(state := DownState.Step(s.state, DownState.TakeAnAck(alias)))
  }

  ghost function Run(cfg: Config, dataIdAliases: map<U32, DataId>, events: seq<Event>): Session {
    if |events| == 0 then Open(dataIdAliases)
    else Step(cfg, Run(cfg, dataIdAliases, events[..|events| - 1]), events[|events| - 1])
  }

  /** Spells out what the reorderer and the channel make of a chunk. */
  lemma DeliverMeans(cfg: Config, s: Session, chunk: DownstreamChunk, how: Handing)
    requires !s.closed
    ensures var strict, u, t := cfg.reordering == Strict, chunk.upstream.streamId, Deliver(cfg, s, chunk, how);
            var accepted := Accept(strict, cfg.limit, Orders.LaneIn(s.order.lanes, u), chunk);
            if cfg.Ordered() && accepted.None? then
              t == s.(refused := [chunk])
            else if cfg.Ordered() then
              var d := Drain(strict, cfg.limit, accepted.value);
              && t == Handed(s, d.out, how).(order := t.order)
              && (forall v :: Orders.LaneIn(t.order.lanes, v) ==
                    if v == u then Some(d.lane) else Orders.LaneIn(s.order.lanes, v))
            else
              && t == Handed(s, [chunk], how).(order := t.order)
              && t.order.lanes == s.order.lanes
  {
    hide Drain, Accept, Handed;
    assert forall more: Chunks :: (s.order.delivered + more)[|s.order.delivered|..] == more;
  }

  lemma LateMeans(cfg: Config, s: Session, chunk: DownstreamChunk, how: Handing)
    requires s.closed
    ensures Deliver(cfg, s, chunk, how) == s.(late := s.late + [chunk])
  {
  }

  // ---------------------------------------------------------------- the client's loop

  class DownstreamLoop {
    const cfg: Config
    const state: DownState.State
    const reorderer: DownReorderer
    var delivered: Chunks
    var closed: bool
    ghost var session: Session

    /** The objects are as the session says; what the reorderer holds no longer matters once the channel is closed. */
    ghost predicate Valid()
      reads this, state, reorderer
    {
      && reorderer.Valid()
      && reorderer.enabled == cfg.Ordered() && reorderer.strict == (cfg.reordering == Strict)
      && reorderer.limit == cfg.limit
      && session.state.model == state.Abs()
      && session.seen == delivered && session.closed == closed
      && (!session.closed ==> forall u :: reorderer.LaneOf(u) == Orders.LaneIn(session.order.lanes, u))
    }

    constructor (cfg: Config, dataIdAliases: map<U32, DataId>)
      ensures Valid() && fresh(state) && fresh(reorderer)
      ensures this.cfg == cfg && session == Open(dataIdAliases)
    {
      this.cfg := cfg;
      state := new DownState.State(dataIdAliases);
      reorderer := new DownReorderer(cfg.qos, cfg.reordering, cfg.limit);
      delivered := [];
      closed := false;
      session := Open(dataIdAliases);
    }

    /** A chunk from the connection or from the queue; `over` says that the loop ends with a reordering error. */
    method ReceiveChunk(chunk: DownState.WireChunk, how: Handing) returns (over: bool)
      requires Valid() && session.refused == []
      modifies this, state, reorderer
      ensures Valid() && session == Receive(cfg, old(session), chunk, how)
      ensures !old(session.closed) ==> (over <==> session.refused != [])
    {
      var converted := DownState.ConvertDownstreamChunk(chunk, state, cfg.OmitsEmpty());
      ghost var event := DownState.ConvertChunk(chunk, cfg.OmitsEmpty());
      session := session.(state := DownState.Step(session.state, event));
      over := false;
      if converted.Ok? && converted.value.Some? {
        over := Enqueue(converted.value.value, how);
      }
    }

    method Enqueue(chunk: DownstreamChunk, how: Handing) returns (over: bool)
      requires Valid() && session.refused == []
      modifies this, reorderer
      ensures Valid() && session == Deliver(cfg, old(session), chunk, how)
      ensures !old(session.closed) ==> (over <==> session.refused != [])
    {
      hide Accept, Drain, PopStep, DownState.Step, Kept, Fate, Handed, Deliver, Ordering;
      ghost var before := session;
      if !session.closed {
        DeliverMeans(cfg, session, chunk, how);
      } else {
        LateMeans(cfg, session, chunk, how);
      }
      var it := reorderer.Iter(chunk);
      session := Deliver(cfg, session, chunk, how);
      if it.Err? {
        return true;
      }
      ghost var more := Yield(it.value);
      assert !closed ==> session == Handed(before, more, how).(order := session.order);
      HandOver(it.value, how);
      HandedMeans(before, more, how);
      return false;
    }

    /** What the iterator will yield. */
    ghost function Yield(it: ReordererIter): Chunks
      requires reorderer.Valid() && (it.Reordered? ==> reorderer.LaneOf(it.stream).Some?)
      reads reorderer
    {
      match it
      case NotReordered(chunk) => if chunk.Some? then [chunk.value] else []
      case Reordered(u) => Drain(reorderer.strict, reorderer.limit, reorderer.LaneOf(u).value).out
    }

    /** Hands over what the iterator yields; a read loop stops doing so when the application's end is closed. */
    method HandOver(it: ReordererIter, how: Handing)
      requires reorderer.Valid() && (it.Reordered? ==> reorderer.LaneOf(it.stream).Some?)
      modifies this`delivered, this`closed, reorderer
      ensures reorderer.Valid()
      ensures var fate := Fate(how, |old(Yield(it))|);
              && delivered == old(delivered) + (if old(closed) then [] else Kept(old(Yield(it)), fate))
              && (!old(closed) ==> closed == (how.Send? && false in fate))
              && (old(closed) ==> closed)
      ensures !closed ==>
                forall v :: reorderer.LaneOf(v) ==
                  if it.Reordered? && v == it.stream then
                    Some(Drain(reorderer.strict, reorderer.limit, old(reorderer.LaneOf(v)).value).lane)
                  else old(reorderer.LaneOf(v))
    {
      hide Drain, PopStep, Kept, Fate;
      ghost var more := Yield(it);
      match how {
        case Send(room) =>
          SendKeeps(more, room);
          var out, open := reorderer.DrainIter(it, if closed then 0 else room);
          delivered := delivered + out;
          closed := closed || !open;
        case TrySend(fits) =>
          NothingFits(more);
          var out := reorderer.DrainAll(it);
          var kept := TryAll(out, if closed then [] else fits);
          delivered := delivered + kept;
      }
    }

    method SendAck(streamIdAlias: U32) returns (ack: Option<DownState.Ack>)
      requires Valid()
      modifies this, state
      ensures Valid()
      ensures session == old(session).(state := DownState.Step(old(session).state, DownState.TakeAnAck(streamIdAlias)))
    {
      ack := state.TakeAckMessage(streamIdAlias);
      session := session.(state := DownState.Step(session.state, DownState.TakeAnAck(streamIdAlias)));
    }
  }

  /** `try_send` of each chunk in turn. */
  method TryAll(chunks: Chunks, fits: seq<bool>) returns (kept: Chunks)
    ensures kept == Kept(chunks, Fate(TrySend(fits), |chunks|))
  {
    kept := [];
    ghost var fate := Fate(TrySend(fits), |chunks|);
    for i := 0 to |chunks|
      invariant kept == Kept(chunks[..i], fate[..i])
    {
      assert chunks[..i + 1][..i] == chunks[..i] && fate[..i + 1][..i] == fate[..i];
      if i < |fits| && fits[i] {
        kept := kept + [chunks[i]];
      }
    }
    assert chunks[..|chunks|] == chunks && fate[..|chunks|] == fate;
  }

  // ---------------------------------------------------------------- what every step keeps

  function ResultsOf(chunks: Chunks): seq<DownState.ChunkResult> {
    seq(|chunks|, i requires 0 <= i < |chunks| =>
      DownState.ChunkResult(chunks[i].upstream.streamId, chunks[i].sequenceNumber))
  }

  lemma ResultsSnoc(chunks: Chunks, c: DownstreamChunk)
    ensures ResultsOf(chunks + [c]) ==
              ResultsOf(chunks) + [DownState.ChunkResult(c.upstream.streamId, c.sequenceNumber)]
  {
  }

  lemma {:induction false} KeptConcat(a: Chunks, fa: seq<bool>, b: Chunks, fb: seq<bool>)
    requires |a| == |fa| && |b| == |fb|
    ensures Kept(a + b, fa + fb) == Kept(a, fa) + Kept(b, fb)
  {
    if |b| == 0 {
      assert a + b == a && fa + fb == fa;
    } else {
      var m := |b| - 1;
      KeptConcat(a, fa, b[..m], fb[..m]);
      assert (a + b)[..|a + b| - 1] == a + b[..m] && (fa + fb)[..|a + b| - 1] == fa + fb[..m];
    }
  }

  lemma {:induction false} KeptShort(chunks: Chunks, fate: seq<bool>)
    requires |chunks| == |fate|
    ensures |Kept(chunks, fate)| <= |chunks|
    ensures false in fate ==> |Kept(chunks, fate)| < |chunks|
    ensures false !in fate ==> Kept(chunks, fate) == chunks
  {
    if |chunks| > 0 {
      var m := |chunks| - 1;
      KeptShort(chunks[..m], fate[..m]);
      assert chunks == chunks[..m] + [chunks[m]] && fate == fate[..m] + [fate[m]];
    }
  }

  /** Nothing is missing exactly if everything arrives. */
  lemma KeptAllIff(chunks: Chunks, fate: seq<bool>)
    requires |chunks| == |fate|
    ensures Kept(chunks, fate) == chunks <==> false !in fate
  {
    KeptShort(chunks, fate);
  }

  /** The order is the reorderer's on the accepted chunks; without one, chunks are delivered as they come. */
  ghost predicate OrderSound(cfg: Config, order: Orders.Log) {
    if cfg.Ordered() then order == Orders.Run(cfg.reordering == Strict, cfg.limit, order.accepted)
    else order == Orders.Log(map[], order.accepted, order.accepted)
  }

  /** The application has what is fated to arrive, and only a full or closed channel keeps a chunk from it. */
  ghost predicate FateSound(delivered: Chunks, fate: seq<bool>, seen: Chunks, lossy: bool) {
    |fate| == |delivered| && seen == Kept(delivered, fate) && (false in fate <==> lossy)
  }

  ghost predicate Sound(cfg: Config, s: Session) {
    && s.state.converted == ResultsOf(s.order.accepted + s.refused + s.late)
    && |s.refused| <= 1 && (s.refused != [] ==> cfg.Ordered() && cfg.reordering == Strict && s.late == [])
    && (s.late != [] ==> s.closed)
    && OrderSound(cfg, s.order) && FateSound(s.order.delivered, s.fate, s.seen, s.full || s.closed)
    && DownState.Balanced(s.state)
  }

  lemma RunSnoc(strict: bool, limit: nat, chunks: Chunks, c: DownstreamChunk)
    ensures Orders.Run(strict, limit, chunks + [c]) == Orders.Step(strict, limit, Orders.Run(strict, limit, chunks), c)
  {
    assert (chunks + [c])[..|chunks|] == chunks;
  }

  lemma OrderingIsSound(cfg: Config, order: Orders.Log, chunk: DownstreamChunk)
    requires OrderSound(cfg, order)
    ensures match Ordering(cfg, order, chunk)
            case None => cfg.Ordered() && cfg.reordering == Strict
            case Some(next) =>
              OrderSound(cfg, next) && next.accepted == order.accepted + [chunk] && order.delivered <= next.delivered
  {
    RunSnoc(cfg.reordering == Strict, cfg.limit, order.accepted, chunk);
    hide Orders.Run, Drain;
  }

  lemma HandedIsSound(s: Session, delivered: Chunks, how: Handing)
    requires FateSound(s.order.delivered, s.fate, s.seen, s.full || s.closed) && s.order.delivered <= delivered
    ensures var t := Handed(s, delivered[|s.order.delivered|..], how);
            FateSound(delivered, t.fate, t.seen, t.full || t.closed)
  {
    var more := delivered[|s.order.delivered|..];
    var fate := Fate(how, |more|);
    KeptConcat(s.order.delivered, s.fate, more, fate);
    assert s.order.delivered + more == delivered;
    assert false in s.fate + fate <==> false in s.fate || false in fate;
    hide Kept, Fate;
  }

  lemma DeliverIsSound(cfg: Config, s: Session, chunk: DownstreamChunk, how: Handing)
    requires |s.refused| == 0 && (s.late != [] ==> s.closed)
    requires s.state.converted ==
      ResultsOf(s.order.accepted + s.late) + [DownState.ChunkResult(chunk.upstream.streamId, chunk.sequenceNumber)]
    requires OrderSound(cfg, s.order) && FateSound(s.order.delivered, s.fate, s.seen, s.full || s.closed)
    requires DownState.Balanced(s.state)
    ensures Sound(cfg, Deliver(cfg, s, chunk, how))
  {
    hide OrderSound, FateSound, DownState.Balanced, ResultsOf, Kept, Fate, Ordering, Handed;
    var accepted, t := s.order.accepted, Deliver(cfg, s, chunk, how);
    var next := Ordering(cfg, s.order, chunk);
    OrderingIsSound(cfg, s.order, chunk);
    ResultsSnoc(accepted + s.late, chunk);
    if s.closed {
      assert accepted + [] + (s.late + [chunk]) == accepted + s.late + [chunk];
    } else if next.None? {
      assert accepted + [chunk] + [] == accepted + [] + [chunk];
    } else {
      HandedIsSound(s, next.value.delivered, how);
      HandedMeans(s, next.value.delivered[|s.order.delivered|..], how);
      assert accepted + [chunk] + [] + [] == accepted + [] + [chunk];
    }
  }

  lemma StepIsSound(cfg: Config, s: Session, e: Event)
    requires Sound(cfg, s)
    ensures Sound(cfg, Step(cfg, s, e))
  {
    hide OrderSound, FateSound, Deliver, ResultsOf;
    if s.refused == [] {
      assert s.order.accepted + s.refused + s.late == s.order.accepted + s.late;
      match e
      case SendAck(alias) => DownState.TakeBalances(s.state, alias);
      case Chunk(chunk, room) => ReceiveIsSound(cfg, s, chunk, Send(room));
      case Queued(chunk, fits) => ReceiveIsSound(cfg, s, chunk, TrySend(fits));
      case _ => OnlyDrainingChanges(cfg, s, e.Leave?);
    }
  }

  lemma OnlyDrainingChanges(cfg: Config, s: Session, draining: bool)
    requires Sound(cfg, s)
    ensures Sound(cfg, s.(draining := draining))
  {
    hide OrderSound, ResultsOf, FateSound, DownState.Balanced;
  }

  lemma ReceiveIsSound(cfg: Config, s: Session, chunk: DownState.WireChunk, how: Handing)
    requires Sound(cfg, s) && s.refused == []
    ensures Sound(cfg, Receive(cfg, s, chunk, how))
  {
    var omit := cfg.OmitsEmpty();
    DownState.ConvertBalances(s.state, chunk, omit);
    var c := DownState.Convert(s.state.model, chunk, omit);
    var t := s.(state := DownState.Step(s.state, DownState.ConvertChunk(chunk, omit)));
    assert s.order.accepted + [] == s.order.accepted;
    hide OrderSound, FateSound, Deliver, ResultsOf, DownState.Balanced, DownState.Convert;
    if c.r.Ok? && c.r.value.Some? {
      DeliverIsSound(cfg, t, c.r.value.value, how);
    }
  }

  lemma {:induction false} RunIsSound(cfg: Config, dataIdAliases: map<U32, DataId>, events: seq<Event>)
    ensures Sound(cfg, Run(cfg, dataIdAliases, events))
  {
    if |events| > 0 {
      RunIsSound(cfg, dataIdAliases, events[..|events| - 1]);
      StepIsSound(cfg, Run(cfg, dataIdAliases, events[..|events| - 1]), events[|events| - 1]);
    }
  }

  // ---------------------------------------------------------------- main results

  /**
   Every chunk the loop took up is acknowledged or about to be: the results of the acks taken, then the
   pending ones, are those of the chunks accepted, in order of arrival, of the one whose refusal by a strict
   reorderer ended the loop, and of those converted after the application had closed its end.
   */
  lemma ResultsMatchChunks(cfg: Config, dataIdAliases: map<U32, DataId>, events: seq<Event>)
    ensures var s := Run(cfg, dataIdAliases, events);
            && DownState.AllResults(s.state.acks) + s.state.model.results ==
                 ResultsOf(s.order.accepted + s.refused + s.late)
            && |s.refused| <= 1 && (s.refused != [] ==> cfg.Ordered() && cfg.reordering == Strict)
            && (s.late != [] ==> s.closed)
            && (!cfg.Ordered() ==> s.order.delivered == s.order.accepted)
  {
    RunIsSound(cfg, dataIdAliases, events);
  }

  /**
   The application sees what the reorderer delivers, with chunks left out. It sees all of it if and only if no chunk of a
   final drain found the channel full and it has not closed its end.
   */
  lemma ApplicationSeesAllIff(cfg: Config, dataIdAliases: map<U32, DataId>, events: seq<Event>)
    ensures var s := Run(cfg, dataIdAliases, events);
            && Subsequence(s.seen, s.order.delivered)
            && (s.seen == s.order.delivered <==> !s.full && !s.closed)
  {
    RunIsSound(cfg, dataIdAliases, events);
    var s := Run(cfg, dataIdAliases, events);
    KeptAllIff(s.order.delivered, s.fate);
  }

  /** The same choice among the chunks of one upstream. */
  function FateOf(u: Uuid, chunks: Chunks, fate: seq<bool>): (own: seq<bool>)
    requires |chunks| == |fate|
    ensures |own| == |Orders.Of(u, chunks)|
  {
    if |chunks| == 0 then []
    else
      var m := |chunks| - 1;
      FateOf(u, chunks[..m], fate[..m]) + if chunks[m].upstream.streamId == u then [fate[m]] else []
  }

  lemma {:induction false} KeptOfUpstream(u: Uuid, chunks: Chunks, fate: seq<bool>)
    requires |chunks| == |fate|
    ensures Orders.Of(u, Kept(chunks, fate)) == Kept(Orders.Of(u, chunks), FateOf(u, chunks, fate))
  {
    hide Kept, FateOf, Orders.Of;
    if |chunks| == 0 {
      NothingKeptOf(u, chunks, fate);
    } else {
      var m := |chunks| - 1;
      var c, own, f := chunks[m], Orders.Of(u, chunks[..m]), FateOf(u, chunks[..m], fate[..m]);
      KeptOfUpstream(u, chunks[..m], fate[..m]);
      LastOf(u, chunks, fate);
      OfKept(u, Kept(chunks[..m], fate[..m]), c, fate[m]);
      KeptConcat(own, f, [c], [fate[m]]);
      KeptOne(c, fate[m]);
      assert Kept(own, f) + [] == Kept(own, f);
    }
  }

  lemma NothingKeptOf(u: Uuid, chunks: Chunks, fate: seq<bool>)
    requires |chunks| == |fate| == 0
    ensures Orders.Of(u, Kept(chunks, fate)) == [] == Kept(Orders.Of(u, chunks), FateOf(u, chunks, fate))
  {
  }

  /** One chunk more. */
  lemma LastOf(u: Uuid, chunks: Chunks, fate: seq<bool>)
    requires |chunks| == |fate| > 0
    ensures var m := |chunks| - 1;
            var c, own, f := chunks[m], Orders.Of(u, chunks[..m]), FateOf(u, chunks[..m], fate[..m]);
            && Kept(chunks, fate) == Kept(chunks[..m], fate[..m]) + (if fate[m] then [c] else [])
            && Orders.Of(u, chunks) == (if c.upstream.streamId == u then own + [c] else own)
            && FateOf(u, chunks, fate) == (if c.upstream.streamId == u then f + [fate[m]] else f)
  {
  }

  lemma OfKept(u: Uuid, kept: Chunks, c: DownstreamChunk, fate: bool)
    ensures Orders.Of(u, kept + if fate then [c] else []) ==
              Orders.Of(u, kept) + if fate && c.upstream.streamId == u then [c] else []
  {
    assert kept + [] == kept;
    assert (kept + [c])[..|kept|] == kept;
  }

  lemma KeptOne(c: DownstreamChunk, fate: bool)
    ensures Kept([c], [fate]) == if fate then [c] else []
  {
    assert [c][..0] == [] && [fate][..0] == [];
  }

  /**
   With strict reordering each upstream's accepted chunks are delivered in order of their numbers up to the first
   missing one, and the application sees that sequence with chunks left out, or all of it.
   */
  lemma StrictStreamsArriveInOrder(cfg: Config, dataIdAliases: map<U32, DataId>, events: seq<Event>, u: Uuid)
    requires cfg.Ordered() && cfg.reordering == Strict
    requires |Orders.Of(u, Run(cfg, dataIdAliases, events).order.accepted)| < U32_LIMIT
    ensures var s := Run(cfg, dataIdAliases, events);
            && StrictOrder.DeliversInOrder(Orders.Of(u, s.order.accepted), Orders.Of(u, s.order.delivered))
            && Subsequence(Orders.Of(u, s.seen), Orders.Of(u, s.order.delivered))
            && (!s.full && !s.closed ==> Orders.Of(u, s.seen) == Orders.Of(u, s.order.delivered))
  {
    RunIsSound(cfg, dataIdAliases, events);
    var s := Run(cfg, dataIdAliases, events);
    StrictOrder.StrictDeliversInOrder(cfg.limit, s.order.accepted, u);
    KeptOfUpstream(u, s.order.delivered, s.fate);
    KeptAllIff(s.order.delivered, s.fate);
  }

  /** Each accepted chunk of an upstream was delivered, waits in the store, or was overwritten by a duplicate. */
  lemma AcceptedChunksAreConserved(cfg: Config, dataIdAliases: map<U32, DataId>, events: seq<Event>, u: Uuid)
    requires cfg.Ordered()
    ensures var order := Run(cfg, dataIdAliases, events).order;
            var own := Orders.Of(u, order.accepted);
            multiset(own) ==
              multiset(Orders.Of(u, order.delivered)) +
              BestEffortOrder.Held(BestEffortOrder.StoreOf(Orders.View(order, u))) +
              multiset(BestEffortOrder.Overwritten(cfg.reordering == Strict, cfg.limit, own))
  {
    RunIsSound(cfg, dataIdAliases, events);
    var order, strict := Run(cfg, dataIdAliases, events).order, cfg.reordering == Strict;
    Orders.UpstreamsAreIndependent(strict, cfg.limit, order.accepted, u);
    BestEffortOrder.ReorderingConserves(strict, cfg.limit, Orders.Of(u, order.accepted));
  }

  lemma {:induction false} InOf(u: Uuid, chunks: Chunks, c: DownstreamChunk)
    ensures c in Orders.Of(u, chunks) <==> c in chunks && c.upstream.streamId == u
  {
    if |chunks| > 0 {
      var last := |chunks| - 1;
      InOf(u, chunks[..last], c);
      assert chunks == chunks[..last] + [chunks[last]];
    }
  }

  lemma {:induction false} KeptMembers(chunks: Chunks, fate: seq<bool>, c: DownstreamChunk)
    requires |chunks| == |fate| && c in Kept(chunks, fate)
    ensures exists i :: 0 <= i < |chunks| && chunks[i] == c && fate[i]
  {
    var m := |chunks| - 1;
    if !(fate[m] && chunks[m] == c) {
      KeptMembers(chunks[..m], fate[..m], c);
      var i :| 0 <= i < m && chunks[..m][i] == c && fate[..m][i];
      assert chunks[i] == c && fate[i];
    }
  }

  /** Nothing reaches the application unacknowledged: the result of every chunk it sees is in an ack or pending. */
  lemma DeliveredIsAcknowledged(cfg: Config, dataIdAliases: map<U32, DataId>, events: seq<Event>,
      c: DownstreamChunk)
    requires c in Run(cfg, dataIdAliases, events).seen
    ensures var s := Run(cfg, dataIdAliases, events);
            DownState.ChunkResult(c.upstream.streamId, c.sequenceNumber)
              in DownState.AllResults(s.state.acks) + s.state.model.results
  {
    hide Run, Sound, Kept, ResultsOf, Orders.Of, DownState.AllResults;
    var s := Run(cfg, dataIdAliases, events);
    ResultsMatchChunks(cfg, dataIdAliases, events);
    RunIsSound(cfg, dataIdAliases, events);
    SeenIsKept(cfg, s);
    KeptMembers(s.order.delivered, s.fate, c);
    DeliveredIsAccepted(cfg, dataIdAliases, events, c);
    ResultIn(s.order.accepted + s.refused + s.late, c);
  }

  lemma ResultIn(chunks: Chunks, c: DownstreamChunk)
    requires c in chunks
    ensures DownState.ChunkResult(c.upstream.streamId, c.sequenceNumber) in ResultsOf(chunks)
  {
    var i :| 0 <= i < |chunks| && chunks[i] == c;
    assert ResultsOf(chunks)[i] == DownState.ChunkResult(c.upstream.streamId, c.sequenceNumber);
  }

  lemma DeliveredIsAccepted(cfg: Config, dataIdAliases: map<U32, DataId>, events: seq<Event>, c: DownstreamChunk)
    requires c in Run(cfg, dataIdAliases, events).order.delivered
    ensures c in Run(cfg, dataIdAliases, events).order.accepted
  {
    hide Run, Orders.Of, BestEffortOrder.Held, BestEffortOrder.Overwritten;
    var order, u := Run(cfg, dataIdAliases, events).order, c.upstream.streamId;
    if cfg.Ordered() {
      AcceptedChunksAreConserved(cfg, dataIdAliases, events, u);
      InOf(u, order.accepted, c);
      InOf(u, order.delivered, c);
      assert c in multiset(Orders.Of(u, order.delivered));
      assert c in multiset(Orders.Of(u, order.accepted));
    } else {
      ResultsMatchChunks(cfg, dataIdAliases, events);
    }
  }

  // ---------------------------------------------------------------- a full channel loses chunks for good

  lemma OfAt(u: Uuid, chunks: Chunks, i: nat)
    requires i < |chunks| && chunks[i].upstream.streamId == u
    ensures |Orders.Of(u, chunks[..i])| < |Orders.Of(u, chunks)|
    ensures Orders.Of(u, chunks)[|Orders.Of(u, chunks[..i])|] == chunks[i]
  {
    var upTo := chunks[..i + 1];
    assert upTo[..i] == chunks[..i];
    Orders.OfConcat(u, upTo, chunks[i + 1..]);
    assert upTo + chunks[i + 1..] == chunks;
  }

  lemma OfGrows(u: Uuid, chunks: Chunks, i: nat, j: nat)
    requires i < j <= |chunks| && chunks[i].upstream.streamId == u
    ensures |Orders.Of(u, chunks[..i])| < |Orders.Of(u, chunks[..j])|
  {
    OfAt(u, chunks[..j], i);
    assert chunks[..j][..i] == chunks[..i];
  }

  /**
   What a strict stream's application has missed it never gets: no chunk it sees, at any time, has the
   number of one that did not arrive.
   */
  lemma MissedIsGone(cfg: Config, dataIdAliases: map<U32, DataId>, events: seq<Event>, i: nat, c: DownstreamChunk)
    requires cfg.Ordered() && cfg.reordering == Strict
    requires var s := Run(cfg, dataIdAliases, events);
             && i < |s.order.delivered| && i < |s.fate| && !s.fate[i]
             && |Orders.Of(s.order.delivered[i].upstream.streamId, s.order.accepted)| < U32_LIMIT
             && c in s.seen && c.upstream.streamId == s.order.delivered[i].upstream.streamId
    ensures c.sequenceNumber != Run(cfg, dataIdAliases, events).order.delivered[i].sequenceNumber
  {
    hide Run, Kept, Sound, Subsequence, Orders.Of, StrictOrder.DeliversInOrder;
    RunIsSound(cfg, dataIdAliases, events);
    var s := Run(cfg, dataIdAliases, events);
    var u, delivered := c.upstream.streamId, s.order.delivered;
    SeenIsKept(cfg, s);
    StrictStreamsArriveInOrder(cfg, dataIdAliases, events, u);
    FewerAreDelivered(cfg, dataIdAliases, events, u);
    KeptMembers(delivered, s.fate, c);
    var j :| 0 <= j < |delivered| && delivered[j] == c && s.fate[j];
    DeliveredNumbersDiffer(u, Orders.Of(u, s.order.accepted), delivered, if i < j then i else j, if i < j then j else i);
  }

  lemma SeenIsKept(cfg: Config, s: Session)
    requires Sound(cfg, s)
    ensures |s.fate| == |s.order.delivered| && s.seen == Kept(s.order.delivered, s.fate)
  {
  }

  lemma FewerAreDelivered(cfg: Config, dataIdAliases: map<U32, DataId>, events: seq<Event>, u: Uuid)
    requires cfg.Ordered()
    ensures var order := Run(cfg, dataIdAliases, events).order;
            |Orders.Of(u, order.delivered)| <= |Orders.Of(u, order.accepted)|
  {
    AcceptedChunksAreConserved(cfg, dataIdAliases, events, u);
    var order := Run(cfg, dataIdAliases, events).order;
    hide Run, BestEffortOrder.Held, BestEffortOrder.Overwritten, Orders.Of;
    assert |multiset(Orders.Of(u, order.delivered))| <= |multiset(Orders.Of(u, order.accepted))|;
  }

  lemma DeliveredNumbersDiffer(u: Uuid, accepted: Chunks, delivered: Chunks, i: nat, j: nat)
    requires StrictOrder.DeliversInOrder(accepted, Orders.Of(u, delivered)) && |accepted| < U32_LIMIT
    requires |Orders.Of(u, delivered)| < U32_LIMIT
    requires i < j < |delivered| && delivered[i].upstream.streamId == delivered[j].upstream.streamId == u
    ensures delivered[i].sequenceNumber != delivered[j].sequenceNumber
  {
    hide Orders.Of, Wrap;
    OfAt(u, delivered, i);
    OfAt(u, delivered, j);
    OfGrows(u, delivered, i, j);
    var own, k, l := Orders.Of(u, delivered), |Orders.Of(u, delivered[..i])|, |Orders.Of(u, delivered[..j])|;
    WrapAgrees(accepted[0].sequenceNumber, k, l);
  }

  // ---------------------------------------------------------------- a run with a gap

  /** The strict stream has delivered all it accepted of the plain upstream, whose next chunk is number `n`. */
  ghost predicate AtRest(s: Session, n: U32) {
    && s.refused == [] && s.late == [] && !s.closed
    && DownState.TakesPlain(s.state.model)
    && var lane := Orders.LaneIn(s.order.lanes, DownState.PLAIN.streamId);
       lane == None || lane == Some(Lane(n, map[]))
  }

  function Plain(n: U32): DownstreamChunk {
    DownstreamChunk(n, [], DownState.PLAIN)
  }

  lemma NextIsDelivered(limit: nat, order: Orders.Log, n: U32)
    requires var lane := Orders.LaneIn(order.lanes, DownState.PLAIN.streamId); lane == None || lane == Some(Lane(n, map[]))
    ensures var next := Orders.Step(true, limit, order, Plain(n));
            && Accept(true, limit, Orders.LaneIn(order.lanes, DownState.PLAIN.streamId), Plain(n)).Some?
            && next.accepted == order.accepted + [Plain(n)] && next.delivered == order.delivered + [Plain(n)]
            && Orders.LaneIn(next.lanes, DownState.PLAIN.streamId) == Some(Lane(Wrap(n + 1), map[]))
  {
    var filled, empty := Lane(n, map[n := Plain(n)]), Lane(Wrap(n as int + 1), map[]);
    assert map[n := Plain(n)] - {n} == map[];
    assert PopStep(true, limit, filled) == Popped(Some(Plain(n)), empty);
    DrainUnfolds(true, limit, filled);
    DrainUnfolds(true, limit, empty);
    hide Drain, PopStep;
    assert Drain(true, limit, filled) == Drained([Plain(n)], empty);
  }

  /** Chunk `n` has been delivered, and `arrives` says whether the application got it. */
  ghost predicate Grown(s: Session, t: Session, n: U32, arrives: bool) {
    && AtRest(t, Wrap(n + 1)) && t.draining == s.draining
    && t.order.delivered == s.order.delivered + [Plain(n)]
    && t.seen == (if arrives then s.seen + [Plain(n)] else s.seen)
    && t.full == (s.full || !arrives)
    && t.state.acks == s.state.acks
    && t.state.model.results == s.state.model.results + [DownState.ChunkResult(DownState.PLAIN.streamId, n)]
  }

  lemma PlainReceived(cfg: Config, s: Session, n: U32, how: Handing)
    requires cfg.Ordered() && s.refused == [] && DownState.TakesPlain(s.state.model)
    ensures var t := s.(state := DownState.Step(s.state, DownState.ConvertChunk(DownState.PlainChunk(n), false)));
            && Receive(cfg, s, DownState.PlainChunk(n), how) == Deliver(cfg, t, Plain(n), how)
            && DownState.TakesPlain(t.state.model) && t.state.acks == s.state.acks
            && t.state.model.results == s.state.model.results + [DownState.ChunkResult(DownState.PLAIN.streamId, n)]
  {
    DownState.PlainConverts(s.state.model, n);
    hide DownState.Convert, Deliver, DownState.PlainChunk;
  }

  lemma PlainDelivered(cfg: Config, s: Session, n: U32, how: Handing)
    requires cfg.Ordered() && cfg.reordering == Strict && AtRest(s, n)
    requires how == Send(1) || how == TrySend([false])
    ensures var t := Deliver(cfg, s, Plain(n), how);
            && AtRest(t, Wrap(n + 1)) && t.draining == s.draining && t.state == s.state
            && t.order.delivered == s.order.delivered + [Plain(n)]
            && t.seen == (if how.Send? then s.seen + [Plain(n)] else s.seen)
            && t.full == (s.full || !how.Send?)
  {
    hide DownState.TakesPlain, Accept, Drain, Orders.Step, Kept, Wrap;
    NextIsDelivered(cfg.limit, s.order, n);
    KeptOne(Plain(n), how.Send?);
    var fate := Fate(how, 1);
    assert fate == [how.Send?] && (false in fate <==> !how.Send?);
    hide Fate;
    assert (s.order.delivered + [Plain(n)])[|s.order.delivered|..] == [Plain(n)];
  }

  lemma NextPlain(cfg: Config, s: Session, n: U32, how: Handing)
    requires cfg.Ordered() && cfg.reordering == Strict && AtRest(s, n)
    requires how == Send(1) || how == TrySend([false])
    ensures Grown(s, Receive(cfg, s, DownState.PlainChunk(n), how), n, how.Send?)
  {
    hide Receive, Deliver, DownState.Step, DownState.TakesPlain, DownState.PlainChunk, Plain, Wrap;
    PlainReceived(cfg, s, n, how);
    var t := s.(state := DownState.Step(s.state, DownState.ConvertChunk(DownState.PlainChunk(n), false)));
    PlainDelivered(cfg, t, n, how);
  }

  lemma RunNext(cfg: Config, dataIdAliases: map<U32, DataId>, events: seq<Event>, e: Event)
    ensures Run(cfg, dataIdAliases, events + [e]) == Step(cfg, Run(cfg, dataIdAliases, events), e)
  {
    assert (events + [e])[..|events|] == events;
  }

  /** A chunk that is queued while the application's channel is full, between two that are not. */
  function GapRun(n: U32): seq<Event> {
    [Chunk(DownState.PlainChunk(n), 1), Leave]
      + [Queued(DownState.PlainChunk(Wrap(n + 1)), [false]), SendAck(0)]
      + [Rejoin, Chunk(DownState.PlainChunk(Wrap(n + 2)), 1)]
  }

  /**
   A strict stream with a gap. The application is still listening and has got the first and the third chunk; the second
   was delivered, found the channel full, and has been acknowledged.
   */
  lemma FullChannelLeavesAGap(cfg: Config, dataIdAliases: map<U32, DataId>, n: U32)
    requires cfg.Ordered() && cfg.reordering == Strict
    ensures var s := Run(cfg, dataIdAliases, GapRun(n));
            && !s.closed && s.full
            && s.order.delivered == [Plain(n), Plain(Wrap(n + 1)), Plain(Wrap(n + 2))]
            && s.seen == [Plain(n), Plain(Wrap(n + 2))]
            && DownState.ChunkResult(DownState.PLAIN.streamId, Wrap(n + 1)) in DownState.AllResults(s.state.acks)
  {
    GapRunSteps(cfg, dataIdAliases, n);
    UpToTheGap(cfg, Open(dataIdAliases), n);
    var s2 := Step(cfg, Step(cfg, Open(dataIdAliases), Chunk(DownState.PlainChunk(n), 1)), Leave);
    AfterTheGap(cfg, Step(cfg, s2, Queued(DownState.PlainChunk(Wrap(n + 1)), [false])), n);
    hide Step, Run, GapRun, Wrap, Plain, DownState.PlainChunk;
  }

  /** The second chunk has just been missed. */
  ghost predicate AtTheGap(s: Session, n: U32) {
    && AtRest(s, Wrap(n + 2)) && s.draining && s.full
    && s.order.delivered == [Plain(n), Plain(Wrap(n + 1))] && s.seen == [Plain(n)]
    && DownState.ChunkResult(DownState.PLAIN.streamId, Wrap(n + 1)) in s.state.model.results
  }

  lemma UpToTheGap(cfg: Config, s: Session, n: U32)
    requires cfg.Ordered() && cfg.reordering == Strict && AtRest(s, n) && !s.draining
    requires s.order.delivered == [] && s.seen == []
    ensures var t := Step(cfg, Step(cfg, s, Chunk(DownState.PlainChunk(n), 1)), Leave);
            AtTheGap(Step(cfg, t, Queued(DownState.PlainChunk(Wrap(n + 1)), [false])), n)
  {
    WrapOfWrap(n + 1, 1);
    hide Receive, Wrap, DownState.PlainChunk, Plain, AtRest;
    OnlyDraining(s, n, false);
    NextPlain(cfg, s, n, Send(1));
    var t := Step(cfg, s, Chunk(DownState.PlainChunk(n), 1));
    OnlyDraining(t, Wrap(n + 1), true);
    NextPlain(cfg, t.(draining := true), Wrap(n + 1), TrySend([false]));
  }

  lemma OnlyDraining(s: Session, n: U32, draining: bool)
    requires AtRest(s, n)
    ensures s.refused == [] && !s.closed && AtRest(s.(draining := draining), n)
  {
  }

  lemma AfterTheGap(cfg: Config, s: Session, n: U32)
    requires cfg.Ordered() && cfg.reordering == Strict && AtTheGap(s, n)
    ensures var t := Step(cfg, Step(cfg, s, SendAck(0)), Rejoin);
            var u := Step(cfg, t, Chunk(DownState.PlainChunk(Wrap(n + 2)), 1));
            && !u.closed && u.full
            && u.order.delivered == [Plain(n), Plain(Wrap(n + 1)), Plain(Wrap(n + 2))]
            && u.seen == [Plain(n), Plain(Wrap(n + 2))]
            && DownState.ChunkResult(DownState.PLAIN.streamId, Wrap(n + 1)) in DownState.AllResults(u.state.acks)
  {
    hide Receive, Wrap, DownState.PlainChunk, Plain, DownState.Step, DownState.AllResults, AtRest;
    AckKeepsRest(cfg, s, Wrap(n + 2));
    var t := Step(cfg, Step(cfg, s, SendAck(0)), Rejoin);
    NextPlain(cfg, t, Wrap(n + 2), Send(1));
    var u := Step(cfg, t, Chunk(DownState.PlainChunk(Wrap(n + 2)), 1));
    OnlyDraining(u, Wrap(Wrap(n + 2) + 1), false);
  }

  lemma AckKeepsRest(cfg: Config, s: Session, n: U32)
    requires AtRest(s, n) && s.state.model.results != []
    ensures var t := Step(cfg, Step(cfg, s, SendAck(0)), Rejoin);
            && AtRest(t, n) && t == s.(state := t.state, draining := false) && s.refused == []
            && DownState.AllResults(t.state.acks) == DownState.AllResults(s.state.acks) + s.state.model.results
  {
    hide DownState.TakesPlain, DownState.AllResults, DownState.Step;
    AckTakesResults(cfg, s);
  }

  lemma GapRunSteps(cfg: Config, dataIdAliases: map<U32, DataId>, n: U32)
    ensures var s2 := Step(cfg, Step(cfg, Open(dataIdAliases), Chunk(DownState.PlainChunk(n), 1)), Leave);
            var s4 := Step(cfg, Step(cfg, s2, Queued(DownState.PlainChunk(Wrap(n + 1)), [false])), SendAck(0));
            Run(cfg, dataIdAliases, GapRun(n)) ==
              Step(cfg, Step(cfg, s4, Rejoin), Chunk(DownState.PlainChunk(Wrap(n + 2)), 1))
  {
    hide Run, Step, Open, Wrap, DownState.PlainChunk;
    var start := [Chunk(DownState.PlainChunk(n), 1), Leave];
    var middle := [Queued(DownState.PlainChunk(Wrap(n + 1)), [false]), SendAck(0)];
    RunOpens(cfg, dataIdAliases);
    RunTwo(cfg, dataIdAliases, [], start[0], start[1]);
    RunTwo(cfg, dataIdAliases, start, middle[0], middle[1]);
    RunTwo(cfg, dataIdAliases, start + middle, Rejoin, Chunk(DownState.PlainChunk(Wrap(n + 2)), 1));
    assert [] + start == start;
  }

  lemma RunOpens(cfg: Config, dataIdAliases: map<U32, DataId>)
    ensures Run(cfg, dataIdAliases, []) == Open(dataIdAliases)
  {
  }

  lemma RunTwo(cfg: Config, dataIdAliases: map<U32, DataId>, events: seq<Event>, e: Event, f: Event)
    ensures Run(cfg, dataIdAliases, events + [e, f]) == Step(cfg, Step(cfg, Run(cfg, dataIdAliases, events), e), f)
  {
    hide Run, Step;
    RunNext(cfg, dataIdAliases, events, e);
    RunNext(cfg, dataIdAliases, events + [e], f);
    assert events + [e] + [f] == events + [e, f];
  }

  lemma AckTakesResults(cfg: Config, s: Session)
    requires s.refused == [] && s.state.model.results != []
    ensures var t := Step(cfg, s, SendAck(0));
            && t == s.(state := t.state)
            && (DownState.TakesPlain(s.state.model) ==> DownState.TakesPlain(t.state.model))
            && DownState.AllResults(t.state.acks) == DownState.AllResults(s.state.acks) + s.state.model.results
  {
    var t := Step(cfg, s, SendAck(0));
    assert t.state.acks[..|s.state.acks|] == s.state.acks;
  }
}
