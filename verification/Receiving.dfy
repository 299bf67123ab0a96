/**
 What becomes of the chunks a downstream receives, over whole runs: each one taken up is a conversion of one
 received, in its place (src/iscp/downstream.rs:306-414, 525-576).
 */
module Receiving {
  import opened Base
  import opened Types
  import opened DownOrder
  import opened Downstream
  import DownState
  import Conversion
  import Orders = ReorderRuns

  /** The chunks taken up so far: accepted, refused, or too late for the application. */
  function TakenUp(s: Session): Chunks {
    s.order.accepted + s.refused + s.late
  }

  predicate Reorders(cfg: Config) {
    cfg.qos == Reliable && cfg.reordering != NoReordering
  }

  /** The chunk an event brings, if the loop is where it takes it. */
  function Brought(s: Session, e: Event): Option<DownState.WireChunk> {
    match e
    case Chunk(w, _) => if s.refused == [] && !s.draining then Some(w) else None
    case Queued(w, _) => if s.refused == [] && s.draining then Some(w) else None
    case _ => None
  }

  /**
   What a chunk received does: it is taken up if and only if it can be converted. Empty chunks are skipped, if at all, where
   none is reordered.
   */
  ghost predicate TakesUp(cfg: Config, s: Session, w: DownState.WireChunk, t: Session) {
    if Conversion.CanConvert(s.state.model, w, cfg.omitEmptyChunk && !Reorders(cfg)) then
      && |TakenUp(t)| == |TakenUp(s)| + 1
      && TakenUp(s) == TakenUp(t)[..|TakenUp(s)|]
      && Conversion.Carries(t.state.model, w, TakenUp(t)[|TakenUp(s)|])
    else TakenUp(t) == TakenUp(s)
  }

  lemma DeliverTakesUp(cfg: Config, s: Session, c: DownstreamChunk, how: Handing)
    requires s.refused == [] && (s.late != [] ==> s.closed)
    requires OrderSound(cfg, s.order)
    ensures var t := Deliver(cfg, s, c, how);
            TakenUp(t) == TakenUp(s) + [c] && t.state == s.state
  {
    hide OrderSound, Handed, Ordering;
    var accepted := s.order.accepted;
    OrderingIsSound(cfg, s.order, c);
    if s.closed {
      assert accepted + [] + (s.late + [c]) == accepted + [] + s.late + [c];
    } else {
      assert accepted + [c] + [] == accepted + [] + [c] && accepted + [] + [] + [c] == accepted + [c];
      var next := Ordering(cfg, s.order, c);
      if next.Some? {
        HandedMeans(s, next.value.delivered[|s.order.delivered|..], how);
        assert accepted + [c] + [] + [] == accepted + [] + [] + [c];
      }
    }
  }

  lemma ReceiveTakesUp(cfg: Config, s: Session, w: DownState.WireChunk, how: Handing)
    requires Sound(cfg, s) && s.refused == []
    ensures TakesUp(cfg, s, w, Receive(cfg, s, w, how))
  {
    hide OrderSound, FateSound, Deliver, ResultsOf, DownState.Balanced, DownState.Convert, Conversion.CanConvert,
         Conversion.Carries;
    var r := DownState.Convert(s.state.model, w, cfg.OmitsEmpty());
    var t := s.(state := DownState.Step(s.state, DownState.ConvertChunk(w, cfg.OmitsEmpty())));
    Conversion.ConvertsIff(s.state.model, w, cfg.OmitsEmpty());
    if r.r.Ok? && r.r.value.Some? {
      DeliverTakesUp(cfg, t, r.r.value.value, how);
    }
  }

  /**
   Every chunk received while the loop is there to take it is taken up, with its number, points and upstream, if and only if it
   can be converted; nothing else is ever taken up.
   */
  lemma ChunksAreTakenUpIff(cfg: Config, dataIdAliases: map<U32, DataId>, events: seq<Event>, e: Event)
    ensures var s, t := Run(cfg, dataIdAliases, events), Run(cfg, dataIdAliases, events + [e]);
            match Brought(s, e)
            case Some(w) => TakesUp(cfg, s, w, t)
            case None => TakenUp(t) == TakenUp(s)
  {
    hide Run, Receive, Sound, TakesUp;
    RunIsSound(cfg, dataIdAliases, events);
    RunNext(cfg, dataIdAliases, events, e);
    var s := Run(cfg, dataIdAliases, events);
    match e
    case Chunk(w, room) =>
      if Brought(s, e).Some? {
        ReceiveTakesUp(cfg, s, w, Send(room));
      }
    case Queued(w, fits) =>
      if Brought(s, e).Some? {
        ReceiveTakesUp(cfg, s, w, TrySend(fits));
      }
    case _ =>
  }

  // ---------------------------------------------------------------- the state is one of its own runs

  /** What one event does to the state. */
  function StateEvent(cfg: Config, s: Session, e: Event): seq<DownState.Event> {
    match Brought(s, e)
    case Some(w) => [DownState.ConvertChunk(w, cfg.OmitsEmpty())]
    case None => if e.SendAck? && s.refused == [] then [DownState.TakeAnAck(e.streamIdAlias)] else []
  }

  /** What a run of the loop does to its state. */
  ghost function StateEvents(cfg: Config, dataIdAliases: map<U32, DataId>, events: seq<Event>): seq<DownState.Event> {
    if |events| == 0 then []
    else
      var before, e := events[..|events| - 1], events[|events| - 1];
      StateEvents(cfg, dataIdAliases, before) + StateEvent(cfg, Run(cfg, dataIdAliases, before), e)
  }

  lemma StateSnoc(dataIdAliases: map<U32, DataId>, events: seq<DownState.Event>, e: DownState.Event)
    ensures DownState.Run(dataIdAliases, events + [e]) == DownState.Step(DownState.Run(dataIdAliases, events), e)
  {
    assert (events + [e])[..|events|] == events;
  }

  lemma ReceiveSteps(cfg: Config, s: Session, w: DownState.WireChunk, how: Handing)
    ensures Receive(cfg, s, w, how).state == DownState.Step(s.state, DownState.ConvertChunk(w, cfg.OmitsEmpty()))
  {
    hide Ordering, Handed, DownState.Step;
    assert forall t: Session, c: DownstreamChunk, h: Handing :: Deliver(cfg, t, c, h).state == t.state by {
      forall t: Session, c: DownstreamChunk, h: Handing
        ensures Deliver(cfg, t, c, h).state == t.state
      {
        DeliverKeepsState(cfg, t, c, h);
      }
    }
  }

  lemma DeliverKeepsState(cfg: Config, s: Session, c: DownstreamChunk, how: Handing)
    ensures Deliver(cfg, s, c, how).state == s.state
  {
    var next := Ordering(cfg, s.order, c);
    if !s.closed && next.Some? {
      HandedMeans(s, next.value.delivered[|s.order.delivered|..], how);
    }
  }

  lemma StepsState(cfg: Config, s: Session, e: Event)
    ensures var done := StateEvent(cfg, s, e);
            Step(cfg, s, e).state == if done == [] then s.state else DownState.Step(s.state, done[0])
  {
    hide Receive, DownState.Step;
    match e
    case Chunk(w, room) => ReceiveSteps(cfg, s, w, Send(room));
    case Queued(w, fits) => ReceiveSteps(cfg, s, w, TrySend(fits));
    case _ =>
  }

  /** So everything proved of the state's runs holds of it: conservation of acks, the alias table, its stability. */
  lemma {:induction false} StateIsARun(cfg: Config, dataIdAliases: map<U32, DataId>, events: seq<Event>)
    ensures Run(cfg, dataIdAliases, events).state == DownState.Run(dataIdAliases, StateEvents(cfg, dataIdAliases, events))
  {
    if |events| > 0 {
      hide Step, DownState.Step, DownState.Run, StateEvent;
      var before, e := events[..|events| - 1], events[|events| - 1];
      var s, done := Run(cfg, dataIdAliases, before), StateEvents(cfg, dataIdAliases, before);
      StateIsARun(cfg, dataIdAliases, before);
      StepsState(cfg, s, e);
      AtMostOne(cfg, s, e);
      if StateEvent(cfg, s, e) == [] {
        assert done + [] == done;
      } else {
        StateSnoc(dataIdAliases, done, StateEvent(cfg, s, e)[0]);
      }
    }
  }

  lemma AtMostOne(cfg: Config, s: Session, e: Event)
    ensures var done := StateEvent(cfg, s, e); done == [] || done == [done[0]]
  {
  }

  // ---------------------------------------------------------------- where the chunks seen come from

  /** Event `i` brought a chunk that `c` carries, read with the aliases as `m` has them. */
  ghost predicate CameAt(cfg: Config, dataIdAliases: map<U32, DataId>, events: seq<Event>, i: nat, m: DownState.Model,
      c: DownstreamChunk)
  {
    && i < |events|
    && var w := Brought(Run(cfg, dataIdAliases, events[..i]), events[i]);
       w.Some? && Conversion.Carries(m, w.value, c)
  }

  ghost predicate Came(cfg: Config, dataIdAliases: map<U32, DataId>, events: seq<Event>, m: DownState.Model, c: DownstreamChunk) {
    exists i: nat :: CameAt(cfg, dataIdAliases, events, i, m, c)
  }

  /** Aliases known stay as they are. */
  ghost predicate Grows(m: DownState.Model, n: DownState.Model) {
    n.dataIdAliases == m.dataIdAliases && forall a :: a in m.infos ==> a in n.infos && n.infos[a] == m.infos[a]
  }

  lemma CarriesStill(m: DownState.Model, n: DownState.Model, w: DownState.WireChunk, c: DownstreamChunk)
    requires Grows(m, n) && Conversion.Carries(m, w, c)
    ensures Conversion.Carries(n, w, c)
  {
    hide Conversion.CarriesGroup;
  }

  lemma CameStill(cfg: Config, dataIdAliases: map<U32, DataId>, before: seq<Event>, e: Event, m: DownState.Model,
      n: DownState.Model, c: DownstreamChunk)
    requires Came(cfg, dataIdAliases, before, m, c) && Grows(m, n)
    ensures Came(cfg, dataIdAliases, before + [e], n, c)
  {
    hide Run, Conversion.Carries, Grows, Brought;
    var i: nat :| CameAt(cfg, dataIdAliases, before, i, m, c);
    var events := before + [e];
    assert events[..i] == before[..i] && events[i] == before[i];
    CarriesStill(m, n, Brought(Run(cfg, dataIdAliases, before[..i]), before[i]).value, c);
    assert CameAt(cfg, dataIdAliases, events, i, n, c);
  }

  lemma StateGrows(cfg: Config, dataIdAliases: map<U32, DataId>, before: seq<Event>, e: Event)
    ensures Grows(Run(cfg, dataIdAliases, before).state.model, Run(cfg, dataIdAliases, before + [e]).state.model)
  {
    var s := Run(cfg, dataIdAliases, before);
    StateIsARun(cfg, dataIdAliases, before);
    DownState.AliasTable(dataIdAliases, StateEvents(cfg, dataIdAliases, before));
    RunNext(cfg, dataIdAliases, before, e);
    hide Run, DownState.Run, Receive, StateEvents, DownState.TableSound, DownState.EachAnnouncedOnce, DownState.Step;
    match e
    case Chunk(w, room) =>
      ReceiveSteps(cfg, s, w, Send(room));
      StateStepGrows(s.state, DownState.ConvertChunk(w, cfg.OmitsEmpty()));
    case Queued(w, fits) =>
      ReceiveSteps(cfg, s, w, TrySend(fits));
      StateStepGrows(s.state, DownState.ConvertChunk(w, cfg.OmitsEmpty()));
    case SendAck(alias) => StateStepGrows(s.state, DownState.TakeAnAck(alias));
    case _ =>
  }

  lemma StateStepGrows(log: DownState.Log, e: DownState.Event)
    requires DownState.TableSound(log.model) && DownState.EachAnnouncedOnce(log)
    ensures Grows(log.model, DownState.Step(log, e).model)
  {
    DownState.StepKeepsAliases(log, e);
    hide DownState.TableSound, DownState.EachAnnouncedOnce;
    if e.ConvertChunk? {
      Conversion.UpstreamIsFound(log.model, e.chunk);
      hide DownState.FindUpstream;
    }
  }

  lemma {:induction false} TakenUpCame(cfg: Config, dataIdAliases: map<U32, DataId>, events: seq<Event>)
    ensures var s := Run(cfg, dataIdAliases, events);
            forall c :: c in TakenUp(s) ==> Came(cfg, dataIdAliases, events, s.state.model, c)
  {
    if |events| > 0 {
      var before, e := events[..|events| - 1], events[|events| - 1];
      var s, t := Run(cfg, dataIdAliases, before), Run(cfg, dataIdAliases, events);
      assert before + [e] == events;
      TakenUpCame(cfg, dataIdAliases, before);
      ChunksAreTakenUpIff(cfg, dataIdAliases, before, e);
      StateGrows(cfg, dataIdAliases, before, e);
      hide Run, Came, Grows, TakenUp, Brought, Conversion.Carries, Conversion.CanConvert;
      forall c | c in TakenUp(t)
        ensures Came(cfg, dataIdAliases, events, t.state.model, c)
      {
        if c in TakenUp(s) {
          CameStill(cfg, dataIdAliases, before, e, s.state.model, t.state.model, c);
        } else {
          JustCame(cfg, dataIdAliases, before, e, c);
        }
      }
    }
  }

  lemma JustCame(cfg: Config, dataIdAliases: map<U32, DataId>, before: seq<Event>, e: Event, c: DownstreamChunk)
    requires var s, t := Run(cfg, dataIdAliases, before), Run(cfg, dataIdAliases, before + [e]);
             c in TakenUp(t) && c !in TakenUp(s)
    ensures Came(cfg, dataIdAliases, before + [e], Run(cfg, dataIdAliases, before + [e]).state.model, c)
  {
    hide Run, TakenUp, Conversion.Carries, Conversion.CanConvert;
    ChunksAreTakenUpIff(cfg, dataIdAliases, before, e);
    var s, t := Run(cfg, dataIdAliases, before), Run(cfg, dataIdAliases, before + [e]);
    var all := TakenUp(t);
    assert all == TakenUp(s) + [all[|TakenUp(s)|]];
    assert (before + [e])[..|before|] == before && (before + [e])[|before|] == e;
    assert CameAt(cfg, dataIdAliases, before + [e], |before|, t.state.model, c);
  }

  /** Every chunk the application sees is what a chunk received from the connection carries. */
  lemma SeenWasReceived(cfg: Config, dataIdAliases: map<U32, DataId>, events: seq<Event>, c: DownstreamChunk)
    requires c in Run(cfg, dataIdAliases, events).seen
    ensures Came(cfg, dataIdAliases, events, Run(cfg, dataIdAliases, events).state.model, c)
  {
    hide Run, Sound, Kept, Came;
    var s := Run(cfg, dataIdAliases, events);
    TakenUpCame(cfg, dataIdAliases, events);
    RunIsSound(cfg, dataIdAliases, events);
    SeenIsKept(cfg, s);
    KeptMembers(s.order.delivered, s.fate, c);
    DeliveredIsAccepted(cfg, dataIdAliases, events, c);
    assert c in s.order.accepted + s.refused + s.late;
  }

  // ---------------------------------------------------------------- what the reorderer makes of them

  /**
   Among the chunks accepted those of each upstream are delivered as if they were the only ones; without reordering all are,
   as they come.
   */
  lemma StreamsAreReordered(cfg: Config, dataIdAliases: map<U32, DataId>, events: seq<Event>, u: Uuid)
    ensures var order := Run(cfg, dataIdAliases, events).order;
            if Reorders(cfg) then
              Orders.Of(u, order.delivered) ==
                Orders.LaneRun(cfg.reordering == Strict, cfg.limit, Orders.Of(u, order.accepted)).delivered
            else order.delivered == order.accepted
  {
    RunIsSound(cfg, dataIdAliases, events);
    var order := Run(cfg, dataIdAliases, events).order;
    Orders.UpstreamsAreIndependent(cfg.reordering == Strict, cfg.limit, order.accepted, u);
    hide Run, Orders.LaneRun;
  }

  /** The reorderer's part of a delivery. */
  lemma OrderingMeans(cfg: Config, order: Orders.Log, c: DownstreamChunk)
    requires OrderSound(cfg, order)
    ensures var own := Orders.Of(c.upstream.streamId, order.accepted);
            Ordering(cfg, order, c).None? <==>
              Reorders(cfg) && cfg.reordering == Strict && Orders.LaneRun(true, cfg.limit, own + [c]).accepted == own
  {
    hide Orders.Run, Orders.LaneRun, Orders.Of, Drain, Accept, Orders.Step;
    var strict, u := cfg.reordering == Strict, c.upstream.streamId;
    var own := Orders.Of(u, order.accepted);
    if cfg.Ordered() {
      Orders.UpstreamsAreIndependent(strict, cfg.limit, order.accepted, u);
      Orders.LaneRunSnoc(strict, cfg.limit, own, c);
      LaneRefuses(strict, cfg.limit, Orders.View(order, u), c);
      NeverBestEffort(cfg.limit, Orders.View(order, u).lane, c);
    }
  }

  lemma LaneRefuses(strict: bool, limit: nat, log: Orders.LaneLog, c: DownstreamChunk)
    ensures Orders.Arrive(strict, limit, log, c).accepted == log.accepted <==> Accept(strict, limit, log.lane, c).None?
  {
    hide Accept, Drain;
    assert |log.accepted + [c]| != |log.accepted|;
  }

  lemma NeverBestEffort(limit: nat, lane: Option<Lane>, c: DownstreamChunk)
    ensures Accept(false, limit, lane, c).Some?
  {
  }

  /**
   While the application listens a chunk taken up is refused, which ends the loop, if and only if in strict mode the reorderer
   refuses it on top of the chunks of its upstream accepted so far.
   */
  lemma RefusedIff(cfg: Config, dataIdAliases: map<U32, DataId>, events: seq<Event>, e: Event)
    requires var s := Run(cfg, dataIdAliases, events);
             !s.closed && Brought(s, e).Some? && |TakenUp(s)| < |TakenUp(Run(cfg, dataIdAliases, events + [e]))|
    ensures var s, t := Run(cfg, dataIdAliases, events), Run(cfg, dataIdAliases, events + [e]);
            var c := TakenUp(t)[|TakenUp(s)|];
            var own := Orders.Of(c.upstream.streamId, s.order.accepted);
            t.refused != [] <==>
              Reorders(cfg) && cfg.reordering == Strict && Orders.LaneRun(true, cfg.limit, own + [c]).accepted == own
  {
    RunIsSound(cfg, dataIdAliases, events);
    RunNext(cfg, dataIdAliases, events, e);
    var s := Run(cfg, dataIdAliases, events);
    hide Run, OrderSound, FateSound, ResultsOf, DownState.Balanced, DownState.Convert, DownState.Step, Deliver, Orders.Of,
         Orders.LaneRun;
    var w, how := Brought(s, e).value, if e.Chunk? then Send(e.room) else TrySend(e.fits);
    var r := DownState.Convert(s.state.model, w, cfg.OmitsEmpty());
    var t := s.(state := DownState.Step(s.state, DownState.ConvertChunk(w, cfg.OmitsEmpty())));
    if r.r.Ok? && r.r.value.Some? {
      DeliverTakesUp(cfg, t, r.r.value.value, how);
      DeliverRefuses(cfg, t, r.r.value.value, how);
      OrderingMeans(cfg, s.order, r.r.value.value);
    }
  }

  lemma DeliverRefuses(cfg: Config, s: Session, c: DownstreamChunk, how: Handing)
    requires s.refused == [] && !s.closed && OrderSound(cfg, s.order)
    ensures Deliver(cfg, s, c, how).refused != [] <==> Ordering(cfg, s.order, c).None?
  {
    OrderingIsSound(cfg, s.order, c);
    hide OrderSound, Ordering, Handed;
    var next := Ordering(cfg, s.order, c);
    if next.Some? {
      HandedMeans(s, next.value.delivered[|s.order.delivered|..], how);
    }
  }
}
