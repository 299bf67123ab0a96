/**
 What each thing that happens to an upstream brings about, at any point of any run
 (src/iscp/upstream.rs:265-421, 453-468, 564-597).
 */
module UpstreamEvents {
  import opened Base
  import opened Types
  import opened UpstreamChunks
  import opened Upstream
  import opened UpstreamLoop

  /** All that has been written is in the chunks issued, and nothing is buffered. */
  ghost predicate AllIssued(s: State) {
    && s.counters.buffer == [] && s.taken == s.written
    && multiset(IssuedPoints(s.issued)) == multiset(AllPoints(s.written))
  }

  /** At most one more chunk, issued in this way. */
  ghost predicate IssuesOne(s: State, t: State, chunk: Option<Chunk>, how: Taking) {
    && (chunk.Some? <==> s.counters.buffer != [])
    && t.issued == s.issued + (if chunk.Some? then [chunk.value] else [])
    && t.takings == s.takings + (if chunk.Some? then [how] else [])
    && t.written == s.written && t.acked == s.acked && t.lastReceived == s.lastReceived
  }

  lemma TakeIssuesAll(cfg: Config, s: State, chunk: Option<Chunk>, how: Taking)
    requires Counting(s) && Accounts(s) && MayTake(cfg.rev, s.counters, chunk)
    ensures var t := Take(cfg, s, chunk, how);
            AllIssued(t) && IssuesOne(s, t, chunk, how) && t.phase == s.phase && t.enqueued == s.enqueued
  {
    TakeKeepsAccounts(cfg, s, chunk, how);
    hide Lists, Collected, Stored, IssuedPoints, AllPoints, BufferPayload, Wrap, Counting;
    var t := Take(cfg, s, chunk, how);
    assert t.counters.buffer == [];
    assert t.taken + [] == t.taken;
    assert s.issued + [] == s.issued && s.takings + [] == s.takings;
  }

  lemma SamePoints(s: State, t: State)
    requires AllIssued(s) && t.counters == s.counters && t.taken == s.taken && t.written == s.written && t.issued == s.issued
    ensures AllIssued(t)
  {
    hide IssuedPoints, AllPoints;
  }

  /**
   A flush puts everything written so far into chunks. On a connection that takes messages the chunk is sent, and the stream stays
   there unless it is closing or has used up its numbers; if the connection does not take it the stream leaves.
   */
  lemma FlushIssuesAll(cfg: Config, alias: U32, events: seq<Event>, chunk: Option<Chunk>, accepts: bool, giveUp: bool,
      closing: bool)
    requires var s := Run(cfg, alias, events); (s.phase == Waiting || s.phase == Live) && MayTake(cfg.rev, s.counters, chunk)
    ensures var s, t := Run(cfg, alias, events), Run(cfg, alias, events + [Flush(chunk, accepts, giveUp, closing)]);
            var sent := s.phase == Live && (chunk.None? || accepts);
            && AllIssued(t)
            && IssuesOne(s, t, chunk, if s.phase == Waiting then WhileWaiting else if sent then Sent else SendFailed)
            && t.enqueued == s.enqueued + (if sent && chunk.Some? then [chunk.value] else [])
            && (s.phase == Waiting ==> t.phase == Waiting)
            && (s.phase == Live && !sent ==> t.phase == if giveUp then Gone else Waiting)
            && (sent ==> t.phase == if closing || t.counters.lastIssued == U32_LIMIT - 1 then Closing else Live)
  {
    RunKeepsAccounts(cfg, alias, events);
    RunSnoc(cfg, alias, events, Flush(chunk, accepts, giveUp, closing));
    hide Run, MayTake, Drained, Stored, Counting, Accounts, Take, AllIssued;
    var s := Run(cfg, alias, events);
    var sent := s.phase == Live && (chunk.None? || accepts);
    var how := if s.phase == Waiting then WhileWaiting else if sent then Sent else SendFailed;
    TakeIssuesAll(cfg, s, chunk, how);
    SamePoints(Take(cfg, s, chunk, how), Step(cfg, s, Flush(chunk, accepts, giveUp, closing)));
    assert s.enqueued + [] == s.enqueued;
  }

  /** What has not been sent when the loop ends still goes into a chunk, after which the stream is finished. */
  lemma RemainingIsIssued(cfg: Config, alias: U32, events: seq<Event>, chunk: Option<Chunk>)
    requires var s := Run(cfg, alias, events); s.phase == Gone && MayTake(cfg.rev, s.counters, chunk)
    ensures var s, t := Run(cfg, alias, events), Run(cfg, alias, events + [Remaining(chunk)]);
            AllIssued(t) && IssuesOne(s, t, chunk, AtTheEnd) && t.enqueued == s.enqueued && t.phase == Done
  {
    hide Run, MayTake, Drained, Stored, Counting, Accounts, Take, AllIssued;
    RunKeepsAccounts(cfg, alias, events);
    RunSnoc(cfg, alias, events, Remaining(chunk));
    var s := Run(cfg, alias, events);
    TakeIssuesAll(cfg, s, chunk, AtTheEnd);
    SamePoints(Take(cfg, s, chunk, AtTheEnd), Step(cfg, s, Remaining(chunk)));
  }

  /**
   A resume brings the stream onto its connection. A reliable one sends all it has stored, in ascending order, and stays if all goes
   through; nothing is issued by that. Another one issues what is buffered, without sending it, and stays.
   */
  lemma ResumeBringsBack(cfg: Config, alias: U32, events: seq<Event>, chunk: Option<Chunk>, accepted: nat, giveUp: bool)
    requires var s := Run(cfg, alias, events);
             s.phase == Waiting && if cfg.reliable then chunk == None else MayTake(cfg.rev, s.counters, chunk)
    ensures var s, t := Run(cfg, alias, events), Run(cfg, alias, events + [Resume(chunk, accepted, giveUp)]);
            if cfg.reliable then
              && t.issued == s.issued && t.counters == s.counters && t.chunks == s.chunks && t.acked == s.acked
              && (t.phase == Live <==> |s.chunks| <= accepted)
              && (t.phase != Live ==> t.phase == if giveUp then Gone else Waiting)
              && Increasing(t.enqueued)
              && |t.enqueued| == (if |s.chunks| <= accepted then |s.chunks| else accepted)
              && (forall i :: 0 <= i < |t.enqueued| ==>
                    t.enqueued[i].sequenceNumber in s.chunks && s.chunks[t.enqueued[i].sequenceNumber] == t.enqueued[i])
              && (forall n, i :: n in s.chunks && 0 <= i < |t.enqueued| && n < t.enqueued[i].sequenceNumber ==>
                    s.chunks[n] in t.enqueued)
            else
              AllIssued(t) && IssuesOne(s, t, chunk, OnResume) && t.enqueued == [] && t.phase == Live
  {
    hide Run, MayTake, Drained, Counting, Accounts, AllIssued, Filed, Step, Increasing, Ascending;
    RunKeepsAccounts(cfg, alias, events);
    RunSnoc(cfg, alias, events, Resume(chunk, accepted, giveUp));
    var s := Run(cfg, alias, events);
    if cfg.reliable {
      StoredAreFiled(cfg, alias, events);
      ResendMeans(cfg, s, accepted, giveUp);
      AscendingLength(s.chunks);
      ResendsTheLeast(s.chunks, accepted);
    } else {
      OtherResumeMeans(cfg, s, chunk, accepted, giveUp);
    }
  }

  lemma ResendMeans(cfg: Config, s: State, accepted: nat, giveUp: bool)
    requires cfg.reliable && s.phase == Waiting
    ensures var t := Step(cfg, s, Resume(None, accepted, giveUp));
            && t.enqueued == Resent(s.chunks, accepted)
            && t.issued == s.issued && t.counters == s.counters && t.chunks == s.chunks && t.acked == s.acked
            && t.phase == (if |Ascending(s.chunks)| <= accepted then Live else if giveUp then Gone else Waiting)
  {
    hide Resent, Ascending, MayTake;
  }

  lemma OtherResumeMeans(cfg: Config, s: State, chunk: Option<Chunk>, accepted: nat, giveUp: bool)
    requires !cfg.reliable && s.phase == Waiting && Counting(s) && Accounts(s) && MayTake(cfg.rev, s.counters, chunk)
    ensures var t := Step(cfg, s, Resume(chunk, accepted, giveUp));
            AllIssued(t) && IssuesOne(s, t, chunk, OnResume) && t.enqueued == [] && t.phase == Live
  {
    hide MayTake, Drained, Stored, Counting, Accounts, Take, AllIssued;
    TakeIssuesAll(cfg, s, chunk, OnResume);
    SamePoints(Take(cfg, s, chunk, OnResume), Step(cfg, s, Resume(chunk, accepted, giveUp)));
  }

  lemma StepKeepsFiled(cfg: Config, s: State, e: Event)
    requires Filed(s.chunks)
    ensures Filed(Step(cfg, s, e).chunks)
  {
    hide MayTake, Drained, Resent, Ascending, Greatest, Written;
  }

  lemma {:induction false} StoredAreFiled(cfg: Config, alias: U32, events: seq<Event>)
    ensures Filed(Run(cfg, alias, events).chunks)
  {
    if |events| > 0 {
      StoredAreFiled(cfg, alias, events[..|events| - 1]);
      StepKeepsFiled(cfg, Run(cfg, alias, events[..|events| - 1]), events[|events| - 1]);
      hide Filed, Step;
    }
  }

  lemma {:induction false} AscendingLength(chunks: Chunks)
    ensures |Ascending(chunks)| == |chunks|
    decreases |chunks|
  {
    if |chunks| > 0 {
      var n := LeastKey(chunks);
      AscendingUnfolds(chunks, n);
      assert (chunks - {n}).Keys == chunks.Keys - {n};
      hide Ascending, IsLeast;
      AscendingLength(chunks - {n});
    }
  }

  /** A resend stops somewhere in the ascending order. */
  lemma ResendsTheLeast(chunks: Chunks, accepted: nat)
    requires Filed(chunks)
    ensures var out, all := Resent(chunks, accepted), Ascending(chunks);
            && |out| == (if |all| <= accepted then |all| else accepted) && Increasing(out)
            && (forall i :: 0 <= i < |out| ==>
                  out[i].sequenceNumber in chunks && chunks[out[i].sequenceNumber] == out[i])
            && (forall n, i :: n in chunks && 0 <= i < |out| && n < out[i].sequenceNumber ==> chunks[n] in out)
  {
    hide Ascending;
    var all, out := Ascending(chunks), Resent(chunks, accepted);
    AscendingIncreases(chunks);
    assert forall i :: 0 <= i < |out| ==> out[i] == all[i];
    forall i | 0 <= i < |all|
      ensures all[i].sequenceNumber in chunks && chunks[all[i].sequenceNumber] == all[i]
    {
      AscendingHasAll(chunks, all[i]);
    }
    forall n, i | n in chunks && 0 <= i < |out| && n < out[i].sequenceNumber
      ensures chunks[n] in out
    {
      AscendingHasAll(chunks, chunks[n]);
      var j :| 0 <= j < |all| && all[j] == chunks[n];
      assert j < i;
      assert out[j] == chunks[n];
    }
  }

  /**
   On a connection, until the stream has what it waits for to close, an ack takes up the numbers of all its results, whatever
   their codes, and nothing else happens.
   */
  lemma AcksAreTakenUp(cfg: Config, alias: U32, events: seq<Event>, results: seq<AckResult>)
    requires var s := Run(cfg, alias, events);
             && (s.phase == Live || (s.phase == Closing && StillWaits(s)))
             && forall r :: r in results ==> 1 <= r.sequenceNumber <= |s.issued|
    ensures var s, t := Run(cfg, alias, events), Run(cfg, alias, events + [Acks(results)]);
            && (forall n :: n in t.acked <==> n in s.acked || exists r :: r in results && r.sequenceNumber == n)
            && t.phase == s.phase && t.issued == s.issued && t.enqueued == s.enqueued && t.counters == s.counters
            && (cfg.reliable ==> forall n :: n in t.chunks <==> n in s.chunks && !exists r :: r in results && r.sequenceNumber == n)
  {
    RunSnoc(cfg, alias, events, Acks(results));
    hide Run, Greatest;
  }

  /** A written group is buffered last, at any time, and its points and payload wait for the next flush. */
  lemma WritesAreBuffered(cfg: Config, alias: U32, events: seq<Event>, g: DataPointGroup)
    ensures var s, t := Run(cfg, alias, events), Run(cfg, alias, events + [Write(g)]);
            && t.counters.buffer == s.counters.buffer + [g] && t.written == s.written + [g]
            && t.phase == s.phase && t.issued == s.issued && t.chunks == s.chunks && t.enqueued == s.enqueued
  {
    RunSnoc(cfg, alias, events, Write(g));
    hide Run;
  }

  /** Without its connection the stream waits to be resumed, unless it gives up; a failed resume and a close end it. */
  lemma LeavingMeans(cfg: Config, alias: U32, events: seq<Event>, e: Event)
    requires var s := Run(cfg, alias, events);
             match e
             case Lost(_) => s.phase == Live
             case ResumeFails => s.phase == Waiting
             case Close(end) => s.phase == Closing && (end == LastAcked <==> !StillWaits(s))
             case _ => false
    ensures var s, t := Run(cfg, alias, events), Run(cfg, alias, events + [e]);
            && t.phase == (if e.Lost? && !e.giveUp then Waiting else Gone)
            && t.issued == s.issued && t.chunks == s.chunks && t.counters == s.counters && t.acked == s.acked
            && (t.closeRequest.Some? <==> s.closeRequest.Some? || e.Close?)
  {
    RunSnoc(cfg, alias, events, e);
    hide Run, StillWaits;
  }
}
