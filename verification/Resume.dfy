/**
 The resume machines: how a stream finds its way back onto a connection after losing one
 (src/iscp/upstream.rs:265-421, 676-757; src/iscp/downstream.rs:222-304).
 */
module Resume {
  import opened Base

  type ConnId = nat

  datatype Side = Up | Down

  /** How the stream's loop is at: between rounds, in a resume round, registered on a connection, finished. */
  datatype Phase = Out | Trying | Attached | Ended

  /** What a run can be observed to do, oldest first. */
  datatype Obs =
    | Opened(conn: ConnId, alias: U32, token: string)
    | RoundStarted(stored: string)
    | Moved(conn: ConnId)
    | Requested(conn: ConnId, token: string)
    | Resumed(conn: ConnId, alias: U32, token: string)
    | Registered(conn: ConnId, alias: U32)
    | LeftFlushLoop

  type Log = seq<Obs>

  /** The outcome of a resume request; `Silent`: the round's time runs out or the stream is closed first. */
  datatype Reply = Granted(alias: U32, token: string) | Retriable | Refused | Silent

  /** What the environment answers in one turn of the loop. */
  datatype Turn = Turn(connected: bool, reply: Reply, added: bool, updated: Option<ConnId>)

  /** `token` is the loop's own variable; `stored` is the cell a resume takes it from. */
  datatype Machine = Machine(
    phase: Phase, conn: ConnId, needResume: bool, alias: U32, stored: string, token: string, log: Log)

  function Open(conn: ConnId, alias: U32, stored: string): Machine {
    Machine(Out, conn, false, alias, stored, "", [Opened(conn, alias, stored)])
  }

  function Begin(m: Machine): Machine {
    m.(phase := Trying, token := "", log := m.log + [RoundStarted(m.stored)])
  }

  /** The local token is filled from the cell, which this empties. */
  function TakeToken(m: Machine): Machine {
    if m.token == "" then m.(token := m.stored, stored := "") else m
  }

  function Answer(m: Machine, reply: Reply): Machine {
    match reply
    case Granted(alias, token) =>
      m.(alias := alias, stored := token, needResume := false, log := m.log + [Resumed(m.conn, alias, token)])
    case Retriable => m
    case Refused => m.(phase := Ended)
    case Silent => m.(phase := Ended)
  }

  /** One turn of the resume loop. The two sides check for a zero expiry interval at different points. */
  function TakeTurn(side: Side, expiryZero: bool, m: Machine, t: Turn): Machine {
    if m.phase != Trying then m
    else if !t.connected then
      match t.updated
      case Some(conn) => m.(conn := conn, needResume := true, log := m.log + [Moved(conn)])
      case None => m.(phase := Ended)
    else if !m.needResume then
      if t.added then m.(phase := Attached, log := m.log + [Registered(m.conn, m.alias)]) else m
    else if expiryZero then (if side == Up then TakeToken(m) else m).(phase := Ended)
    else
      var taken := TakeToken(m);
      Answer(taken.(log := taken.log + [Requested(taken.conn, taken.token)]), t.reply)
  }

  function TakeTurns(side: Side, expiryZero: bool, m: Machine, turns: seq<Turn>): Machine {
    if |turns| == 0 then m
    else TakeTurn(side, expiryZero, TakeTurns(side, expiryZero, m, turns[..|turns| - 1]), turns[|turns| - 1])
  }

  /** A round in which the loop is still trying when the environment's turns run out has timed out. */
  function Round(side: Side, expiryZero: bool, m: Machine, turns: seq<Turn>): Machine {
    var after := TakeTurns(side, expiryZero, Begin(m), turns);
    if after.phase == Trying then after.(phase := Ended) else after
  }

  /**
   Leaving the connection. Only an upstream whose flush loop was reached insists on a resume;
   `resent` says it was.
   */
  function Leave(side: Side, m: Machine, resent: bool, over: bool): Machine {
    if over then m.(phase := Ended)
    else if side == Up && resent then m.(phase := Out, needResume := true, log := m.log + [LeftFlushLoop])
    else m.(phase := Out)
  }

  datatype Event = Attempt(turns: seq<Turn>) | Depart(resent: bool, over: bool)

  function Step(side: Side, expiryZero: bool, m: Machine, e: Event): Machine {
    match e
    case Attempt(turns) => if m.phase == Out then Round(side, expiryZero, m, turns) else m
    case Depart(resent, over) => if m.phase == Attached then Leave(side, m, resent, over) else m
  }

  function Run(side: Side, expiryZero: bool, start: Machine, events: seq<Event>): Machine {
    if |events| == 0 then start
    else Step(side, expiryZero, Run(side, expiryZero, start, events[..|events| - 1]), events[|events| - 1])
  }

  // ---------------------------------------------------------------- the client's loop

  /** The fields the loop updates; the log is only for the proofs. */
  class Stream {
    const side: Side
    const expiryZero: bool
    var wireConn: ConnId
    var needResume: bool
    var streamIdAlias: U32
    var resumeToken: string
    ghost var log: Log

    ghost function Abs(phase: Phase, token: string): Machine
      reads this
    {
      Machine(phase, wireConn, needResume, streamIdAlias, resumeToken, token, log)
    }

    constructor (side: Side, expiryZero: bool, conn: ConnId, alias: U32, token: string)
      ensures this.side == side && this.expiryZero == expiryZero
      ensures Abs(Out, "") == Open(conn, alias, token)
    {
      this.side := side;
      this.expiryZero := expiryZero;
      wireConn := conn;
      needResume := false;
      streamIdAlias := alias;
      resumeToken := token;
      log := [Opened(conn, alias, token)];
    }

    /** The cell is emptied into the local token if that is empty. */
    method FillToken(token: string) returns (filled: string)
      modifies this`resumeToken
      ensures Abs(Trying, filled) == TakeToken(old(Abs(Trying, token)))
      ensures if token == "" then filled == old(resumeToken) && resumeToken == "" else filled == token
    {
      filled := token;
      if token == "" {
        filled, resumeToken := resumeToken, "";
      }
    }

    /** A resume request and what its reply does; `over` says the round has ended. */
    method RequestResume(token: string, reply: Reply) returns (over: bool)
      modifies this
      ensures over <==> reply.Refused? || reply.Silent?
      ensures var m := old(Abs(Trying, token));
              Abs(if over then Ended else Trying, token)
                == Answer(m.(log := m.log + [Requested(m.conn, m.token)]), reply)
    {
      log := log + [Requested(wireConn, token)];
      match reply {
        case Granted(alias, newToken) =>
          streamIdAlias, resumeToken := alias, newToken;
          log := log + [Resumed(wireConn, alias, newToken)];
          needResume := false;
          over := false;
        case Retriable =>
          over := false;
        case _ =>
          over := true;
      }
    }

    /** One turn of the loop; `over` says the round has ended, with the stream registered if `attached`. */
    method TryOnce(token: string, t: Turn) returns (next: string, over: bool, attached: bool)
      modifies this
      ensures attached ==> over
      ensures Abs(if attached then Attached else if over then Ended else Trying, next)
           == TakeTurn(side, expiryZero, old(Abs(Trying, token)), t)
    {
      next, over, attached := token, false, false;
      if t.connected {
        if needResume {
          if side == Down && expiryZero {
            return next, true, false;
          }
          next := FillToken(token);
          if side == Up && expiryZero {
            return next, true, false;
          }
          over := RequestResume(next, t.reply);
        } else if t.added {
          log := log + [Registered(wireConn, streamIdAlias)];
          return next, true, true;
        }
      } else {
        match t.updated {
          case Some(conn) =>
            wireConn, needResume := conn, true;
            log := log + [Moved(conn)];
          case None =>
            over := true;
        }
      }
    }

    /** One resume round; `attached` says the stream got onto a connection. */
    method GetConnAndResume(turns: seq<Turn>) returns (attached: bool, ghost token: string)
      modifies this
      ensures forall before :: Abs(if attached then Attached else Ended, token)
                == Round(side, expiryZero, old(Abs(Out, before)), turns)
    {
      var local, over := "", false;
      attached := false;
      log := log + [RoundStarted(resumeToken)];
      ghost var begun := Begin(old(Abs(Out, "")));
      hide TakeTurn;
      var i := 0;
      while i < |turns| && !over
        invariant i <= |turns| && (attached ==> over)
        invariant Abs(if attached then Attached else if over then Ended else Trying, local)
               == TakeTurns(side, expiryZero, begun, turns[..i])
      {
        OneMoreTurn(side, expiryZero, begun, turns, i);
        local, over, attached := TryOnce(local, turns[i]);
        i := i + 1;
      }
      assert i == |turns| ==> turns[..i] == turns;
      if over {
        EndedStays(side, expiryZero, begun, turns, i);
      }
      token := local;
    }

    /** The end of the outer loop's body, when the stream is to try again. */
    method TryAgain(resent: bool)
      modifies this
      ensures forall token :: Abs(Out, token) == Leave(side, old(Abs(Attached, token)), resent, false)
    {
      if side == Up && resent {
        needResume := true;
        log := log + [LeftFlushLoop];
      }
    }
  }

  lemma OneMoreTurn(side: Side, expiryZero: bool, m: Machine, turns: seq<Turn>, i: nat)
    requires i < |turns|
    ensures TakeTurns(side, expiryZero, m, turns[..i + 1])
         == TakeTurn(side, expiryZero, TakeTurns(side, expiryZero, m, turns[..i]), turns[i])
  {
    assert turns[..i + 1][..i] == turns[..i];
  }

  /** Once the loop is left the remaining turns change nothing. */
  lemma {:induction false} EndedStays(side: Side, expiryZero: bool, m: Machine, turns: seq<Turn>, n: nat)
    requires n <= |turns| && TakeTurns(side, expiryZero, m, turns[..n]).phase != Trying
    ensures TakeTurns(side, expiryZero, m, turns) == TakeTurns(side, expiryZero, m, turns[..n])
  {
    if n < |turns| {
      assert turns[..|turns| - 1][..n] == turns[..n];
      EndedStays(side, expiryZero, m, turns[..|turns| - 1], n);
    } else {
      assert turns[..n] == turns;
    }
  }

  // ---------------------------------------------------------------- reading a log

  predicate Grants(o: Obs) {
    o.Opened? || o.Resumed?
  }

  /** Events after which an earlier open or resume no longer entitles the stream to register. */
  predicate Voids(o: Obs) {
    o.Moved? || o.LeftFlushLoop?
  }

  /** The connection and alias the stream may register with. */
  function Entitled(log: Log): Option<(ConnId, U32)> {
    if |log| == 0 then None
    else
      var o := log[|log| - 1];
      if Grants(o) then Some((o.conn, o.alias))
      else if Voids(o) then None
      else Entitled(log[..|log| - 1])
  }

  /** The token of the latest open or resume. */
  function LatestToken(log: Log): string {
    if |log| == 0 then ""
    else
      var o := log[|log| - 1];
      if Grants(o) then o.token else LatestToken(log[..|log| - 1])
  }

  /** The tokens of the current round: the latest one at its start, then those of the resumes in it. */
  function RoundTokens(log: Log): (ts: seq<string>)
  {
    if |log| == 0 then []
    else
      var o, before := log[|log| - 1], log[..|log| - 1];
      if o.RoundStarted? then [LatestToken(before)]
      else if o.Resumed? then RoundTokens(before) + [o.token]
      else RoundTokens(before)
  }

  function FirstNonEmpty(ts: seq<string>): string {
    if |ts| == 0 then "" else if ts[0] != "" then ts[0] else FirstNonEmpty(ts[1..])
  }

  lemma {:induction false} FirstNonEmptySnoc(ts: seq<string>, t: string)
    ensures FirstNonEmpty(ts + [t]) == if FirstNonEmpty(ts) == "" then t else FirstNonEmpty(ts)
  {
    if |ts| > 0 {
      assert (ts + [t])[1..] == ts[1..] + [t];
      FirstNonEmptySnoc(ts[1..], t);
    }
  }

  /** `o` is what the machine may do after `log`. */
  predicate Lawful(log: Log, o: Obs) {
    match o
    case Registered(conn, alias) => Entitled(log) == Some((conn, alias))
    case RoundStarted(stored) => stored == LatestToken(log)
    case Requested(_, token) => |RoundTokens(log)| > 0 && token == FirstNonEmpty(RoundTokens(log))
    case Opened(_, _, _) => |log| == 0
    case _ => true
  }

  ghost predicate AllLawful(log: Log) {
    forall i :: 0 <= i < |log| ==> Lawful(log[..i], log[i])
  }

  lemma LawfulSnoc(log: Log, o: Obs)
    requires AllLawful(log) && Lawful(log, o)
    ensures AllLawful(log + [o])
  {
    var all := log + [o];
    forall i | 0 <= i < |all|
      ensures Lawful(all[..i], all[i])
    {
      assert all[..i] == if i < |log| then log[..i] else log;
    }
  }

  lemma SnocReads(log: Log, o: Obs)
    ensures Entitled(log + [o]) ==
              if Grants(o) then Some((o.conn, o.alias)) else if Voids(o) then None else Entitled(log)
    ensures LatestToken(log + [o]) == if Grants(o) then o.token else LatestToken(log)
    ensures RoundTokens(log + [o]) ==
              if o.RoundStarted? then [LatestToken(log)]
              else if o.Resumed? then RoundTokens(log) + [o.token]
              else RoundTokens(log)
  {
    assert (log + [o])[..|log|] == log;
  }

  // ---------------------------------------------------------------- what every step keeps

  /** The token is in the cell, except between taking it and the next grant. */
  predicate TokenAt(m: Machine, ts: seq<string>) {
    && |ts| > 0
    && ts[|ts| - 1] == LatestToken(m.log)
    && m.token == FirstNonEmpty(if m.token == "" then ts[..|ts| - 1] else ts)
    && (m.stored == LatestToken(m.log) || (m.needResume && m.token != "" && m.stored == ""))
  }

  ghost predicate Sound(m: Machine) {
    && AllLawful(m.log)
    && (m.phase != Ended && !m.needResume ==> Entitled(m.log) == Some((m.conn, m.alias)))
    && (m.phase != Ended && !m.needResume ==> m.stored == LatestToken(m.log))
    && (m.phase == Out || m.phase == Attached ==> m.stored == LatestToken(m.log))
    && (m.phase == Attached ==> !m.needResume)
    && (m.phase == Trying ==> TokenAt(m, RoundTokens(m.log)))
  }

  lemma TakeTokenIsSound(m: Machine)
    requires Sound(m) && m.phase == Trying && m.needResume
    ensures Sound(TakeToken(m)) && TakeToken(m).token == FirstNonEmpty(RoundTokens(m.log))
  {
    var ts := RoundTokens(m.log);
    FirstNonEmptySnoc(ts[..|ts| - 1], ts[|ts| - 1]);
    assert ts == ts[..|ts| - 1] + [ts[|ts| - 1]];
    hide RoundTokens, FirstNonEmpty, LatestToken, Entitled, AllLawful;
  }

  lemma AnswerIsSound(m: Machine, reply: Reply)
    requires Sound(m) && m.phase == Trying && m.needResume && m.token == FirstNonEmpty(RoundTokens(m.log))
    ensures Sound(Answer(m, reply))
  {
    if reply.Granted? {
      var o := Resumed(m.conn, reply.alias, reply.token);
      SnocReads(m.log, o);
      LawfulSnoc(m.log, o);
      var ts := RoundTokens(m.log);
      assert (ts + [reply.token])[..|ts|] == ts;
      FirstNonEmptySnoc(ts, reply.token);
      hide RoundTokens, FirstNonEmpty, LatestToken, Entitled, AllLawful;
    }
  }

  lemma LoggedIsSound(m: Machine, o: Obs)
    requires Sound(m) && Lawful(m.log, o) && (o.Requested? || o.Registered?)
    ensures Sound(m.(log := m.log + [o]))
    ensures RoundTokens(m.log + [o]) == RoundTokens(m.log)
  {
    SnocReads(m.log, o);
    LawfulSnoc(m.log, o);
    hide RoundTokens, FirstNonEmpty, LatestToken, Entitled, AllLawful;
  }

  lemma MovedIsSound(m: Machine, conn: ConnId)
    requires Sound(m) && m.phase == Trying
    ensures Sound(m.(conn := conn, needResume := true, log := m.log + [Moved(conn)]))
  {
    SnocReads(m.log, Moved(conn));
    LawfulSnoc(m.log, Moved(conn));
    hide RoundTokens, FirstNonEmpty, LatestToken, Entitled, AllLawful;
  }

  lemma BeginIsSound(m: Machine)
    requires Sound(m) && m.phase == Out
    ensures Sound(Begin(m))
  {
    var o := RoundStarted(m.stored);
    SnocReads(m.log, o);
    LawfulSnoc(m.log, o);
  }

  lemma TurnIsSound(side: Side, expiryZero: bool, m: Machine, t: Turn)
    requires Sound(m)
    ensures Sound(TakeTurn(side, expiryZero, m, t))
  {
    if m.phase == Trying {
      if !t.connected {
        if t.updated.Some? {
          MovedIsSound(m, t.updated.value);
        }
      } else if !m.needResume {
        LoggedIsSound(m, Registered(m.conn, m.alias));
      } else if !expiryZero {
        TakeTokenIsSound(m);
        var taken := TakeToken(m);
        LoggedIsSound(taken, Requested(taken.conn, taken.token));
        AnswerIsSound(taken.(log := taken.log + [Requested(taken.conn, taken.token)]), t.reply);
      }
    }
    hide RoundTokens, FirstNonEmpty, LatestToken, Entitled, AllLawful;
  }

  lemma {:induction false} TurnsAreSound(side: Side, expiryZero: bool, m: Machine, turns: seq<Turn>)
    requires Sound(m)
    ensures Sound(TakeTurns(side, expiryZero, m, turns))
  {
    if |turns| > 0 {
      TurnsAreSound(side, expiryZero, m, turns[..|turns| - 1]);
      TurnIsSound(side, expiryZero, TakeTurns(side, expiryZero, m, turns[..|turns| - 1]), turns[|turns| - 1]);
    }
  }

  lemma LeaveIsSound(side: Side, m: Machine, resent: bool, over: bool)
    requires Sound(m) && m.phase == Attached
    ensures Sound(Leave(side, m, resent, over))
  {
    SnocReads(m.log, LeftFlushLoop);
    LawfulSnoc(m.log, LeftFlushLoop);
    hide RoundTokens, FirstNonEmpty, LatestToken, Entitled, AllLawful;
  }

  lemma {:induction false} RunIsSound(side: Side, expiryZero: bool, start: Machine, events: seq<Event>)
    requires start == Open(start.conn, start.alias, start.stored)
    ensures Sound(Run(side, expiryZero, start, events))
  {
    if |events| > 0 {
      RunIsSound(side, expiryZero, start, events[..|events| - 1]);
      var m := Run(side, expiryZero, start, events[..|events| - 1]);
      match events[|events| - 1]
      case Attempt(turns) =>
        if m.phase == Out {
          BeginIsSound(m);
          TurnsAreSound(side, expiryZero, Begin(m), turns);
        }
      case Depart(resent, over) =>
        if m.phase == Attached {
          LeaveIsSound(side, m, resent, over);
        }
    }
  }

  // ---------------------------------------------------------------- main results

  lemma {:induction false} EntitledMeans(log: Log)
    requires Entitled(log).Some?
    ensures exists j :: HoldsFrom(log, j, Entitled(log).value.0, Entitled(log).value.1)
  {
    var o := log[|log| - 1];
    if Grants(o) {
      assert HoldsFrom(log, |log| - 1, o.conn, o.alias);
    } else {
      var before := log[..|log| - 1];
      EntitledMeans(before);
      var j :| HoldsFrom(before, j, Entitled(before).value.0, Entitled(before).value.1);
      assert HoldsFrom(log, j, Entitled(before).value.0, Entitled(before).value.1);
    }
  }

  /** The stream was opened or resumed on `conn` with `alias` at event `j`, and nothing since voids that. */
  ghost predicate HoldsFrom(log: Log, j: int, conn: ConnId, alias: U32) {
    && 0 <= j < |log|
    && (log[j].Opened? || log[j].Resumed?)
    && log[j].conn == conn && log[j].alias == alias
    && forall k :: j < k < |log| ==> !Voids(log[k]) && !Grants(log[k])
  }

  /**
   Attach safety. Whenever a stream registers on a connection, it was opened or resumed there, under
   the alias it registers, and since then it has not moved, has obtained no other alias and (for
   an upstream) has not been through its flush loop.
   */
  lemma AttachSafety(side: Side, expiryZero: bool, conn: ConnId, alias: U32, token: string, events: seq<Event>, i: nat)
    requires var log := Run(side, expiryZero, Open(conn, alias, token), events).log; i < |log| && log[i].Registered?
    ensures var log := Run(side, expiryZero, Open(conn, alias, token), events).log;
            exists j :: HoldsFrom(log[..i], j, log[i].conn, log[i].alias)
  {
    RunIsSound(side, expiryZero, Open(conn, alias, token), events);
    var log := Run(side, expiryZero, Open(conn, alias, token), events).log;
    assert Lawful(log[..i], log[i]);
    EntitledMeans(log[..i]);
  }

  /**
   Token discipline. A round starts with the token of the latest open or resume in the cell. Every request
   carries the first token of the round that is not empty.
   */
  lemma TokenDiscipline(side: Side, expiryZero: bool, conn: ConnId, alias: U32, token: string, events: seq<Event>, i: nat)
    requires i < |Run(side, expiryZero, Open(conn, alias, token), events).log|
    ensures var log := Run(side, expiryZero, Open(conn, alias, token), events).log;
            && (log[i].RoundStarted? ==> log[i].stored == LatestToken(log[..i]))
            && (log[i].Requested? ==> log[i].token == FirstNonEmpty(RoundTokens(log[..i])))
  {
    RunIsSound(side, expiryZero, Open(conn, alias, token), events);
    var log := Run(side, expiryZero, Open(conn, alias, token), events).log;
    assert Lawful(log[..i], log[i]);
  }

  /** A round `log[j..i]` that has started at event `j` and in which no resume has succeeded before event `i`. */
  predicate Fresh(log: Log, j: nat, i: nat) {
    j < i <= |log| && log[j].RoundStarted? && forall k :: j < k < i ==> !log[k].RoundStarted? && !log[k].Resumed?
  }

  /** Until a resume succeeds, the first request of a round and its retries carry the latest token. */
  lemma RetriesRepeatTheToken(side: Side, expiryZero: bool, conn: ConnId, alias: U32, token: string, events: seq<Event>,
      j: nat, i: nat)
    requires var log := Run(side, expiryZero, Open(conn, alias, token), events).log;
             i < |log| && log[i].Requested? && Fresh(log, j, i)
    ensures var log := Run(side, expiryZero, Open(conn, alias, token), events).log;
            log[i].token == log[j].stored == LatestToken(log[..j])
  {
    TokenDiscipline(side, expiryZero, conn, alias, token, events, i);
    TokenDiscipline(side, expiryZero, conn, alias, token, events, j);
    var log := Run(side, expiryZero, Open(conn, alias, token), events).log;
    FreshTokens(log, j, i);
    hide Run, Open, LatestToken, RoundTokens;
  }

  lemma {:induction false} FreshTokens(log: Log, j: nat, i: nat)
    requires Fresh(log, j, i)
    ensures RoundTokens(log[..i]) == [LatestToken(log[..j])]
    decreases i
  {
    assert log[..i][..i - 1] == log[..i - 1];
    if i > j + 1 {
      FreshTokens(log, j, i - 1);
    }
  }

  /**
   A request need not carry the latest token. When the server hands out tokens that are not empty
   and differ, it does exactly if no resume has succeeded yet in its round.
   */
  lemma LatestTokenIsSentIff(side: Side, expiryZero: bool, conn: ConnId, alias: U32, token: string, events: seq<Event>,
      i: nat)
    requires var log := Run(side, expiryZero, Open(conn, alias, token), events).log;
             && i < |log| && log[i].Requested?
             && (forall t :: t in RoundTokens(log[..i]) ==> t != "") && Distinct(RoundTokens(log[..i]))
    ensures var log := Run(side, expiryZero, Open(conn, alias, token), events).log;
            log[i].token == LatestToken(log[..i]) <==> |RoundTokens(log[..i])| == 1
  {
    RunIsSound(side, expiryZero, Open(conn, alias, token), events);
    var log := Run(side, expiryZero, Open(conn, alias, token), events).log;
    assert Lawful(log[..i], log[i]);
    assert forall k :: 0 <= k < i ==> log[..i][..k] == log[..k];
    LastOfRound(log[..i]);
    var ts := RoundTokens(log[..i]);
    hide Run, LatestToken, RoundTokens, AllLawful, Lawful;
    assert ts[0] in ts && FirstNonEmpty(ts) == ts[0];
  }

  lemma {:induction false} LastOfRound(log: Log)
    requires |RoundTokens(log)| > 0 && AllLawful(log)
    ensures RoundTokens(log)[|RoundTokens(log)| - 1] == LatestToken(log)
  {
    var o, before := log[|log| - 1], log[..|log| - 1];
    assert Lawful(before, o);
    if !o.RoundStarted? && !o.Resumed? {
      assert forall i :: 0 <= i < |before| ==> log[..i] == before[..i];
      LastOfRound(before);
    }
  }

  /** Two connections lost in one round: the second resume sends the token the first has already used. */
  lemma StaleTokenIsSent()
    ensures var turns := [Turn(false, Silent, false, Some(2)), Turn(true, Granted(8, "b"), false, None),
                          Turn(false, Silent, false, Some(3)), Turn(true, Granted(9, "c"), false, None)];
            var log := Run(Up, false, Open(1, 7, "a"), [Attempt(turns)]).log;
            |log| == 8 && log[6] == Requested(3, "a") && LatestToken(log[..6]) == "b"
  {
    var turns := [Turn(false, Silent, false, Some(2)), Turn(true, Granted(8, "b"), false, None),
                  Turn(false, Silent, false, Some(3)), Turn(true, Granted(9, "c"), false, None)];
    var m := Begin(Open(1, 7, "a"));
    OneMoreTurn(Up, false, m, turns, 0);
    OneMoreTurn(Up, false, m, turns, 1);
    OneMoreTurn(Up, false, m, turns, 2);
    OneMoreTurn(Up, false, m, turns, 3);
    assert TakeTurns(Up, false, m, turns[..0]) == m;
    assert turns[..4] == turns;
    var run := [Attempt(turns)];
    assert run[..0] == [];
    assert Run(Up, false, Open(1, 7, "a"), run) == Round(Up, false, Open(1, 7, "a"), turns);
    var log := Run(Up, false, Open(1, 7, "a"), run).log;
    assert log[..6][..5] == log[..5] && log[4] == Resumed(2, 8, "b");
  }
}
