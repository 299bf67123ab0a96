/**
 How a resume round goes, told by what the environment answers and by what has been observed before
 (src/iscp/upstream.rs:676-739, src/iscp/downstream.rs:238-304).
 */
module ResumeRounds {
  import opened Base
  import opened Resume

  // ---------------------------------------------------------------- a round by its turns

  /**
   Before turn `i` no resume is needed: none was when the round began and the stream has been connected throughout, or
   one was granted and the stream has been connected since.
   */
  ghost predicate Ready(need: bool, turns: seq<Turn>, i: nat)
    requires i <= |turns|
  {
    || (!need && forall k :: 0 <= k < i ==> turns[k].connected)
    || exists j :: 0 <= j < i && GrantedAt(turns, i, j)
  }

  ghost predicate GrantedAt(turns: seq<Turn>, i: nat, j: nat)
    requires j < i <= |turns|
  {
    turns[j].reply.Granted? && forall k :: j <= k < i ==> turns[k].connected
  }

  /** A round that gets to turn `i` ends there. */
  ghost predicate Stops(expiryZero: bool, need: bool, turns: seq<Turn>, i: nat)
    requires i < |turns|
  {
    if !turns[i].connected then turns[i].updated.None?
    else if Ready(need, turns, i) then turns[i].added
    else expiryZero || turns[i].reply.Refused? || turns[i].reply.Silent?
  }

  ghost predicate GetsTo(expiryZero: bool, need: bool, turns: seq<Turn>, i: nat)
    requires i <= |turns|
  {
    forall k :: 0 <= k < i ==> !Stops(expiryZero, need, turns, k)
  }

  /** At turn `i` the stream is registered on its connection. */
  ghost predicate AttachesAt(expiryZero: bool, need: bool, turns: seq<Turn>, i: nat) {
    && i < |turns| && GetsTo(expiryZero, need, turns, i)
    && turns[i].connected && turns[i].added && Ready(need, turns, i)
  }

  // ---------------------------------------------------------------- a round by what is observed

  /** The connection the stream is on. */
  function ConnOf(log: Log): ConnId {
    if |log| == 0 then 0
    else
      var o := log[|log| - 1];
      if o.Opened? || o.Moved? || o.Resumed? then o.conn else ConnOf(log[..|log| - 1])
  }

  /** What can be observed in a turn after `log`. */
  function Said(expiryZero: bool, log: Log, t: Turn): Log {
    if !t.connected then
      if t.updated.Some? then [Moved(t.updated.value)] else []
    else if Entitled(log).Some? then
      if t.added then [Registered(Entitled(log).value.0, Entitled(log).value.1)] else []
    else if expiryZero then []
    else
      [Requested(ConnOf(log), FirstNonEmpty(RoundTokens(log)))] +
        if t.reply.Granted? then [Resumed(ConnOf(log), t.reply.alias, t.reply.token)] else []
  }

  function LogAfter(expiryZero: bool, log: Log, turns: seq<Turn>): Log {
    if |turns| == 0 then log
    else
      var before := LogAfter(expiryZero, log, turns[..|turns| - 1]);
      before + Said(expiryZero, before, turns[|turns| - 1])
  }

  // ---------------------------------------------------------------- the machine knows what its log says

  ghost predicate Reads(m: Machine) {
    m.phase != Ended ==> (m.needResume <==> Entitled(m.log).None?) && m.conn == ConnOf(m.log)
  }

  lemma ReadsSnoc(log: Log, o: Obs)
    ensures ConnOf(log + [o]) == if o.Opened? || o.Moved? || o.Resumed? then o.conn else ConnOf(log)
    ensures Entitled(log + [o]) ==
              if Grants(o) then Some((o.conn, o.alias)) else if Voids(o) then None else Entitled(log)
  {
    assert (log + [o])[..|log|] == log;
  }

  /** How a turn leaves a round in which `ready` says whether a resume is needed. */
  function PhaseAfter(expiryZero: bool, ready: bool, t: Turn): Phase {
    if !t.connected then if t.updated.Some? then Trying else Ended
    else if ready then if t.added then Attached else Trying
    else if expiryZero || t.reply.Refused? || t.reply.Silent? then Ended
    else Trying
  }

  /** One turn does what it is said to do. */
  lemma TurnIsSaid(side: Side, expiryZero: bool, m: Machine, t: Turn)
    requires Sound(m) && Reads(m) && m.phase == Trying
    ensures var next, ready := TakeTurn(side, expiryZero, m, t), Entitled(m.log).Some?;
            && next.log == m.log + Said(expiryZero, m.log, t) && Reads(next)
            && next.phase == PhaseAfter(expiryZero, ready, t)
            && (next.phase != Ended ==> Entitled(next.log).Some? == (t.connected && (ready || t.reply.Granted?)))
  {
    hide RoundTokens, FirstNonEmpty, LatestToken, Entitled, AllLawful, ConnOf, TokenAt;
    if !t.connected {
      if t.updated.Some? {
        ReadsSnoc(m.log, Moved(t.updated.value));
      } else {
        assert m.log + [] == m.log;
      }
    } else if !m.needResume {
      ReadsSnoc(m.log, Registered(m.conn, m.alias));
      assert m.log + [] == m.log;
    } else if expiryZero {
      assert m.log + [] == m.log;
    } else {
      TakeTokenIsSound(m);
      RequestIsSaid(TakeToken(m), t.reply);
    }
  }

  lemma RequestIsSaid(m: Machine, reply: Reply)
    requires m.needResume && Reads(m) && m.phase == Trying
    ensures var next := Answer(m.(log := m.log + [Requested(m.conn, m.token)]), reply);
            && Reads(next)
            && next.log == m.log + ([Requested(m.conn, m.token)] +
                 if reply.Granted? then [Resumed(m.conn, reply.alias, reply.token)] else [])
            && (next.phase != Ended ==> Entitled(next.log).Some? == reply.Granted?)
  {
    hide Entitled, ConnOf;
    var requested := m.log + [Requested(m.conn, m.token)];
    ReadsSnoc(m.log, Requested(m.conn, m.token));
    if reply.Granted? {
      ReadsSnoc(requested, Resumed(m.conn, reply.alias, reply.token));
      assert requested + [Resumed(m.conn, reply.alias, reply.token)] ==
        m.log + ([Requested(m.conn, m.token)] + [Resumed(m.conn, reply.alias, reply.token)]);
    } else {
      assert requested == m.log + ([Requested(m.conn, m.token)] + []);
    }
  }

  lemma ReadyNext(need: bool, turns: seq<Turn>, i: nat)
    requires i < |turns|
    ensures Ready(need, turns, i + 1) <==>
              turns[i].connected && (Ready(need, turns, i) || turns[i].reply.Granted?)
  {
    if Ready(need, turns, i + 1) {
      var n := i + 1;
      if j :| 0 <= j < n && GrantedAt(turns, n, j) {
        assert j < i ==> GrantedAt(turns, i, j);
      }
    }
    if turns[i].connected && Ready(need, turns, i) {
      if j :| 0 <= j < i && GrantedAt(turns, i, j) {
        assert GrantedAt(turns, i + 1, j);
      }
    }
    if turns[i].connected && turns[i].reply.Granted? {
      assert GrantedAt(turns, i + 1, i);
    }
  }

  lemma StopsIff(expiryZero: bool, need: bool, turns: seq<Turn>, i: nat)
    requires i < |turns|
    ensures Stops(expiryZero, need, turns, i) <==> PhaseAfter(expiryZero, Ready(need, turns, i), turns[i]) != Trying
    ensures PhaseAfter(expiryZero, Ready(need, turns, i), turns[i]) == Attached <==>
              turns[i].connected && Ready(need, turns, i) && turns[i].added
    ensures PhaseAfter(expiryZero, Ready(need, turns, i), turns[i]) != Out
  {
  }

  /** As far as the round gets, it goes as it is said. */
  lemma {:induction false} TurnsAreSaid(side: Side, expiryZero: bool, m: Machine, turns: seq<Turn>, i: nat)
    requires Sound(m) && Reads(m) && m.phase == Trying && i <= |turns| && GetsTo(expiryZero, m.needResume, turns, i)
    ensures var x := TakeTurns(side, expiryZero, m, turns[..i]);
            && Sound(x) && Reads(x) && x.phase == Trying
            && x.log == LogAfter(expiryZero, m.log, turns[..i])
            && (Entitled(x.log).Some? <==> Ready(m.needResume, turns, i))
  {
    hide Sound, Reads, Entitled, TakeTurn, Said, Ready, Stops, PhaseAfter;
    if i == 0 {
      StartsReady(m, turns);
    } else {
      TurnsAreSaid(side, expiryZero, m, turns, i - 1);
      NextIsSaid(side, expiryZero, m, turns, i - 1);
      StopsIff(expiryZero, m.needResume, turns, i - 1);
    }
  }

  lemma StartsReady(m: Machine, turns: seq<Turn>)
    requires Reads(m) && m.phase == Trying
    ensures Entitled(m.log).Some? <==> Ready(m.needResume, turns, 0)
  {
  }

  lemma NextIsSaid(side: Side, expiryZero: bool, m: Machine, turns: seq<Turn>, i: nat)
    requires i < |turns|
    requires var x := TakeTurns(side, expiryZero, m, turns[..i]);
             && Sound(x) && Reads(x) && x.phase == Trying && x.log == LogAfter(expiryZero, m.log, turns[..i])
             && (Entitled(x.log).Some? <==> Ready(m.needResume, turns, i))
    ensures var x := TakeTurns(side, expiryZero, m, turns[..i + 1]);
            && Sound(x) && Reads(x) && x.log == LogAfter(expiryZero, m.log, turns[..i + 1])
            && x.phase == PhaseAfter(expiryZero, Ready(m.needResume, turns, i), turns[i])
            && (x.phase != Ended ==> (Entitled(x.log).Some? <==> Ready(m.needResume, turns, i + 1)))
  {
    hide Sound, Reads, Entitled, TakeTurn, TakeTurns, Said, Ready, Stops, PhaseAfter;
    var x := TakeTurns(side, expiryZero, m, turns[..i]);
    OneMoreTurn(side, expiryZero, m, turns, i);
    TurnIsSound(side, expiryZero, x, turns[i]);
    TurnIsSaid(side, expiryZero, x, turns[i]);
    ReadyNext(m.needResume, turns, i);
    assert turns[..i + 1][..i] == turns[..i];
  }

  // ---------------------------------------------------------------- whole rounds

  /** What has been observed when the round begins. */
  function Begun(log: Log): Log {
    log + [RoundStarted(LatestToken(log))]
  }

  lemma BeginIsSaid(m: Machine)
    requires Sound(m) && Reads(m) && m.phase == Out
    ensures Sound(Begin(m)) && Reads(Begin(m)) && Begin(m).log == Begun(m.log)
  {
    BeginIsSound(m);
    ReadsSnoc(m.log, RoundStarted(m.stored));
    hide Entitled, ConnOf, LatestToken, AllLawful, TokenAt;
  }

  lemma {:induction false} FirstStop(expiryZero: bool, need: bool, turns: seq<Turn>, n: nat) returns (i: nat)
    requires n <= |turns|
    ensures i <= n && GetsTo(expiryZero, need, turns, i) && (i < n ==> Stops(expiryZero, need, turns, i))
  {
    hide Stops;
    i := 0;
    if n > 0 {
      i := FirstStop(expiryZero, need, turns, n - 1);
      if i == n - 1 && !Stops(expiryZero, need, turns, n - 1) {
        i := n;
      }
    }
  }

  /** A round that gets past all its turns has timed out. */
  lemma RoundTimesOut(side: Side, expiryZero: bool, m: Machine, turns: seq<Turn>)
    requires Sound(m) && Reads(m) && m.phase == Out && GetsTo(expiryZero, m.needResume, turns, |turns|)
    ensures var next := Round(side, expiryZero, m, turns);
            next.phase == Ended && next.log == LogAfter(expiryZero, Begun(m.log), turns)
  {
    hide Sound, Reads, GetsTo, LogAfter, TakeTurns, Begun;
    BeginIsSaid(m);
    TurnsAreSaid(side, expiryZero, Begin(m), turns, |turns|);
    assert turns[..|turns|] == turns;
  }

  /** One that stops at turn `i` is left there, attached or not. */
  lemma RoundStops(side: Side, expiryZero: bool, m: Machine, turns: seq<Turn>, i: nat)
    requires Sound(m) && Reads(m) && m.phase == Out
    requires i < |turns| && GetsTo(expiryZero, m.needResume, turns, i) && Stops(expiryZero, m.needResume, turns, i)
    ensures var next := Round(side, expiryZero, m, turns);
            && next.phase == (if AttachesAt(expiryZero, m.needResume, turns, i) then Attached else Ended)
            && next.log == LogAfter(expiryZero, Begun(m.log), turns[..i + 1])
            && (next.phase == Attached ==> Entitled(LogAfter(expiryZero, Begun(m.log), turns[..i])).Some?)
  {
    hide Sound, Reads, GetsTo, Stops, LogAfter, TakeTurns, Begun, Ready, PhaseAfter, Entitled;
    BeginIsSaid(m);
    TurnsAreSaid(side, expiryZero, Begin(m), turns, i);
    NextIsSaid(side, expiryZero, Begin(m), turns, i);
    StopsIff(expiryZero, m.needResume, turns, i);
    EndedStays(side, expiryZero, Begin(m), turns, i + 1);
  }

  lemma AttachingStops(expiryZero: bool, need: bool, turns: seq<Turn>, i: nat)
    requires AttachesAt(expiryZero, need, turns, i)
    ensures Stops(expiryZero, need, turns, i)
  {
  }

  lemma OneStop(expiryZero: bool, need: bool, turns: seq<Turn>, i: nat, j: nat)
    requires i < |turns| && GetsTo(expiryZero, need, turns, i) && Stops(expiryZero, need, turns, i)
    requires j < |turns| && GetsTo(expiryZero, need, turns, j) && Stops(expiryZero, need, turns, j)
    ensures i == j
  {
    hide Stops;
  }

  lemma RegistersLast(expiryZero: bool, need: bool, log: Log, turns: seq<Turn>, i: nat)
    requires i < |turns| && turns[i].connected && turns[i].added && Entitled(LogAfter(expiryZero, log, turns[..i])).Some?
    ensures var before := LogAfter(expiryZero, log, turns[..i]);
            LogAfter(expiryZero, log, turns[..i + 1]) ==
              before + [Registered(Entitled(before).value.0, Entitled(before).value.1)]
  {
    assert turns[..i + 1][..i] == turns[..i];
  }

  lemma {:induction false} RunReads(side: Side, expiryZero: bool, start: Machine, events: seq<Event>)
    requires start == Open(start.conn, start.alias, start.stored)
    ensures Reads(Run(side, expiryZero, start, events))
  {
    if |events| == 0 {
      assert start.log[..0] == [];
    } else {
      var before, e := events[..|events| - 1], events[|events| - 1];
      RunReads(side, expiryZero, start, before);
      RunIsSound(side, expiryZero, start, before);
      EventReads(side, expiryZero, Run(side, expiryZero, start, before), e);
    }
  }

  lemma EventReads(side: Side, expiryZero: bool, m: Machine, e: Event)
    requires Sound(m) && Reads(m)
    ensures Reads(Step(side, expiryZero, m, e))
  {
    hide Sound, Entitled, ConnOf, Round;
    match e
    case Attempt(turns) =>
      if m.phase == Out {
        RoundReads(side, expiryZero, m, turns);
      }
    case Depart(resent, over) =>
      ReadsSnoc(m.log, LeftFlushLoop);
  }

  lemma RoundReads(side: Side, expiryZero: bool, m: Machine, turns: seq<Turn>)
    requires Sound(m) && Reads(m) && m.phase == Out
    ensures Reads(Round(side, expiryZero, m, turns))
  {
    hide Sound, Reads, GetsTo, Stops, LogAfter, TakeTurns, Begun, Ready, PhaseAfter, Entitled;
    BeginIsSaid(m);
    var i := FirstStop(expiryZero, m.needResume, turns, |turns|);
    TurnsAreSaid(side, expiryZero, Begin(m), turns, i);
    if i < |turns| {
      NextIsSaid(side, expiryZero, Begin(m), turns, i);
      StopsIff(expiryZero, m.needResume, turns, i);
      EndedStays(side, expiryZero, Begin(m), turns, i + 1);
    } else {
      assert turns[..|turns|] == turns;
      RoundTimesOut(side, expiryZero, m, turns);
      EndedReads(Round(side, expiryZero, m, turns));
    }
  }

  lemma EndedReads(m: Machine)
    requires m.phase == Ended
    ensures Reads(m)
  {
  }

  // ---------------------------------------------------------------- main results

  /**
   When a stream gets onto a connection. A round in any run attaches the stream if and only if it gets to a turn in which the
   connection is up, takes the registration, and no resume is needed. Before the round one is needed exactly if since
   the last open or resume the stream has moved or been through its flush loop. The last thing observed is then the
   registration, on the connection and under the alias of the latest open or resume. Otherwise the stream ends.
   */
  lemma AttachesIff(side: Side, expiryZero: bool, conn: ConnId, alias: U32, token: string, events: seq<Event>,
      turns: seq<Turn>)
    requires Run(side, expiryZero, Open(conn, alias, token), events).phase == Out
    ensures var start := Open(conn, alias, token);
            var log := Run(side, expiryZero, start, events).log;
            var next := Run(side, expiryZero, start, events + [Attempt(turns)]);
            && next.phase == (if exists i: nat :: AttachesAt(expiryZero, Entitled(log).None?, turns, i) then Attached else Ended)
            && forall i: nat :: AttachesAt(expiryZero, Entitled(log).None?, turns, i) ==>
                 var before := LogAfter(expiryZero, Begun(log), turns[..i]);
                 (Entitled(before).Some?
                 && next.log == before + [Registered(Entitled(before).value.0, Entitled(before).value.1)])
  {
    hide Run, Open, Sound, Reads, Round, GetsTo, Stops, LogAfter, Begun, Ready, Entitled, AttachesAt;
    var start := Open(conn, alias, token);
    var m, need := Run(side, expiryZero, start, events), Entitled(Run(side, expiryZero, start, events).log).None?;
    OpensAs(conn, alias, token);
    RunIsSound(side, expiryZero, start, events);
    RunReads(side, expiryZero, start, events);
    NeedIs(m);
    AttemptRuns(side, expiryZero, start, events, turns);
    var i := FirstStop(expiryZero, need, turns, |turns|);
    if i < |turns| {
      RoundStops(side, expiryZero, m, turns, i);
    } else {
      RoundTimesOut(side, expiryZero, m, turns);
    }
    forall j: nat | AttachesAt(expiryZero, need, turns, j)
      ensures i == j < |turns|
      ensures var before := LogAfter(expiryZero, Begun(m.log), turns[..j]);
              (Entitled(before).Some?
              && Round(side, expiryZero, m, turns).log ==
                   before + [Registered(Entitled(before).value.0, Entitled(before).value.1)])
    {
      AttachingMeans(expiryZero, need, turns, j);
      AttachingStops(expiryZero, need, turns, j);
      StopIsReached(expiryZero, need, turns, i, j);
      OneStop(expiryZero, need, turns, i, j);
      RegistersLast(expiryZero, need, Begun(m.log), turns, j);
    }
  }

  lemma AttachingMeans(expiryZero: bool, need: bool, turns: seq<Turn>, i: nat)
    requires AttachesAt(expiryZero, need, turns, i)
    ensures i < |turns| && GetsTo(expiryZero, need, turns, i) && turns[i].connected && turns[i].added
  {
  }

  lemma StopIsReached(expiryZero: bool, need: bool, turns: seq<Turn>, i: nat, j: nat)
    requires i <= |turns| && GetsTo(expiryZero, need, turns, i)
    requires j < |turns| && Stops(expiryZero, need, turns, j)
    ensures i <= j
  {
    hide Stops;
  }

  lemma OpensAs(conn: ConnId, alias: U32, token: string)
    ensures var start := Open(conn, alias, token); start == Open(start.conn, start.alias, start.stored)
  {
  }

  lemma NeedIs(m: Machine)
    requires Reads(m) && m.phase == Out
    ensures m.needResume == Entitled(m.log).None?
  {
  }

  lemma AttemptRuns(side: Side, expiryZero: bool, start: Machine, events: seq<Event>, turns: seq<Turn>)
    requires Run(side, expiryZero, start, events).phase == Out
    ensures Run(side, expiryZero, start, events + [Attempt(turns)]) ==
              Round(side, expiryZero, Run(side, expiryZero, start, events), turns)
  {
    assert (events + [Attempt(turns)])[..|events|] == events;
  }

  /** What a round is observed to do, turn by turn, up to the one at which it stops. */
  lemma RoundGoesAsSaid(side: Side, expiryZero: bool, conn: ConnId, alias: U32, token: string, events: seq<Event>,
      turns: seq<Turn>, i: nat)
    requires Run(side, expiryZero, Open(conn, alias, token), events).phase == Out
    requires var need := Entitled(Run(side, expiryZero, Open(conn, alias, token), events).log).None?;
             i <= |turns| && GetsTo(expiryZero, need, turns, i) && (i < |turns| ==> Stops(expiryZero, need, turns, i))
    ensures var log := Run(side, expiryZero, Open(conn, alias, token), events).log;
            Run(side, expiryZero, Open(conn, alias, token), events + [Attempt(turns)]).log ==
              LogAfter(expiryZero, Begun(log), if i < |turns| then turns[..i + 1] else turns)
  {
    hide Run, Open, Sound, Reads, Round, GetsTo, Stops, LogAfter, Begun, Entitled, AttachesAt;
    var start := Open(conn, alias, token);
    var m := Run(side, expiryZero, start, events);
    OpensAs(conn, alias, token);
    RunIsSound(side, expiryZero, start, events);
    RunReads(side, expiryZero, start, events);
    NeedIs(m);
    AttemptRuns(side, expiryZero, start, events, turns);
    if i < |turns| {
      RoundStops(side, expiryZero, m, turns, i);
    } else {
      RoundTimesOut(side, expiryZero, m, turns);
    }
  }

  /**
   Leaving a connection: only an upstream whose flush loop was reached insists on a resume, and only a stream that is over
   ends.
   */
  lemma DepartingMeans(side: Side, expiryZero: bool, conn: ConnId, alias: U32, token: string, events: seq<Event>,
      resent: bool, over: bool)
    requires Run(side, expiryZero, Open(conn, alias, token), events).phase == Attached
    ensures var start := Open(conn, alias, token);
            var m, next := Run(side, expiryZero, start, events), Run(side, expiryZero, start, events + [Depart(resent, over)]);
            && next.phase == (if over then Ended else Out)
            && Entitled(m.log).Some?
            && (!over ==> Entitled(next.log) == if side == Up && resent then None else Entitled(m.log))
  {
    hide Run, Open, Entitled;
    var start := Open(conn, alias, token);
    OpensAs(conn, alias, token);
    RunIsSound(side, expiryZero, start, events);
    DepartRuns(side, expiryZero, start, events, resent, over);
    var m := Run(side, expiryZero, start, events);
    ReadsSnoc(m.log, LeftFlushLoop);
    hide RoundTokens, FirstNonEmpty, LatestToken, AllLawful;
  }

  lemma DepartRuns(side: Side, expiryZero: bool, start: Machine, events: seq<Event>, resent: bool, over: bool)
    requires Run(side, expiryZero, start, events).phase == Attached
    ensures Run(side, expiryZero, start, events + [Depart(resent, over)]) ==
              Leave(side, Run(side, expiryZero, start, events), resent, over)
  {
    assert (events + [Depart(resent, over)])[..|events|] == events;
  }
}
