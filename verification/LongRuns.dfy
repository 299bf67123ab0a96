/**
 Reassembly when message numbers come round again (src/transport/datagram.rs:26-123): any number of messages,
 over a channel that delivers within a bounded time or not at all.
 */
module LongRuns {
  import opened Base
  import opened Datagram
  import opened Reassembly

  /**
   Messages split in turn, from a splitter whose counter is `start`, and the arrivals of their frames; `who[k]` is the
   message that arrival `k` belongs to.
   */
  datatype Traffic = Traffic(start: U32, size: nat, ms: seq<Bytes>, arrivals: seq<Arrival>, who: seq<nat>) {
    function Number(w: nat): U32 {
      Wrap(start + w)
    }

    /** The channel invents nothing. */
    ghost predicate Genuine() {
      && Splittable(ms, size) && |who| == |arrivals|
      && forall k :: 0 <= k < |arrivals| ==> Belongs(k)
    }

    ghost predicate Belongs(k: nat)
      requires Splittable(ms, size) && |who| == |arrivals| && k < |arrivals|
    {
      who[k] < |ms| && IsFrameOf(arrivals[k].frame, Number(who[k]), size, ms[who[k]])
    }

    /** No frame of a message comes twice. */
    ghost predicate EachOnce()
      requires |who| == |arrivals|
    {
      forall i, j :: 0 <= i < j < |arrivals| && who[i] == who[j] ==> arrivals[i].frame != arrivals[j].frame
    }

    /** A number is used again only when the last frame of its former message is more than twice the expiry ago. */
    ghost predicate ReusesLate(expire: nat)
      requires |who| == |arrivals|
    {
      forall i, j :: 0 <= i < j < |arrivals| && who[i] != who[j] && Number(who[i]) == Number(who[j]) ==>
        arrivals[j].now - arrivals[i].later > 2 * expire
    }

    /** The frames of message `w` among the first `k` arrivals. */
    ghost function FramesOf(w: nat, k: nat): set<Bytes>
      requires |who| == |arrivals| && k <= |arrivals|
    {
      set i | 0 <= i < k && who[i] == w :: arrivals[i].frame
    }

    /** An entry holds frames of one message only, the one whose first frame opened it. */
    ghost predicate EntrySound(n: U32, e: Entry, k: nat, i: nat)
      requires Genuine() && i < k <= |arrivals|
    {
      assert Belongs(i);
      && Number(who[i]) == n && e.at == arrivals[i].later
      && GoodEntry(n, e, ms[who[i]], size, FramesOf(who[i], k))
    }

    ghost predicate Owned(n: U32, e: Entry, k: nat)
      requires Genuine() && k <= |arrivals|
    {
      exists i :: 0 <= i < k && EntrySound(n, e, k, i)
    }

    ghost predicate EntriesSound(t: Table, k: nat)
      requires Genuine() && k <= |arrivals|
    {
      forall n :: n in t.entries ==> Owned(n, t.entries[n], k)
    }

    /** What arrival `k` makes the buffer return is its message, all of whose frames have come. */
    ghost predicate OutputSound(out: Option<Bytes>, k: nat)
      requires Genuine() && k < |arrivals|
    {
      assert Belongs(k);
      out.Some? ==>
        out.value == ms[who[k]] && AllArrived(Number(who[k]), ms[who[k]], size, FramesOf(who[k], k + 1))
    }
  }

  lemma FramesOfNext(x: Traffic, w: nat, k: nat)
    requires |x.who| == |x.arrivals| && k < |x.arrivals|
    ensures x.FramesOf(w, k) <= x.FramesOf(w, k + 1)
    ensures w == x.who[k] ==> x.FramesOf(w, k + 1) == x.FramesOf(w, k) + {x.arrivals[k].frame}
  {
  }

  lemma NotSeen(x: Traffic, k: nat)
    requires |x.who| == |x.arrivals| && x.EachOnce() && k < |x.arrivals|
    ensures x.arrivals[k].frame !in x.FramesOf(x.who[k], k)
  {
  }

  /** Entries that the arrival leaves alone. */
  lemma OwnedStays(x: Traffic, n: U32, e: Entry, k: nat)
    requires x.Genuine() && k < |x.arrivals| && x.Owned(n, e, k)
    ensures x.Owned(n, e, k + 1)
  {
    hide Numberable, Frames, IsFrameOf;
    var i :| 0 <= i < k && x.EntrySound(n, e, k, i);
    assert x.Belongs(i);
    FramesOfNext(x, x.who[i], k);
    assert x.EntrySound(n, e, k + 1, i);
  }

  /** An entry that the sweep spares is for the message whose frame arrives. */
  lemma OwnEntry(x: Traffic, expire: nat, n: U32, e: Entry, k: nat, i: nat)
    requires x.Genuine() && x.ReusesLate(expire) && i < k < |x.arrivals|
    requires x.EntrySound(n, e, k, i) && n == x.Number(x.who[k]) && x.arrivals[k].now - e.at <= 2 * expire
    ensures x.who[i] == x.who[k]
  {
    hide GoodEntry;
  }

  lemma OwnFrameJoins(x: Traffic, n: U32, e: Entry, k: nat, i: nat)
    requires x.Genuine() && x.EachOnce() && i < k < |x.arrivals|
    requires x.EntrySound(n, e, k, i) && x.who[i] == x.who[k]
    ensures x.Belongs(k)
    ensures var w, fs := x.who[k], e.frames + [x.arrivals[k].frame];
            if |fs| == e.needed then x.OutputSound(Some(Joined(fs)), k)
            else x.EntrySound(n, e.(frames := fs), k + 1, i)
  {
    var w, frame := x.who[k], x.arrivals[k].frame;
    assert x.Belongs(k);
    hide Numberable, Frames, IsFrameOf, Joined, AllArrived;
    NotSeen(x, k);
    FramesOfNext(x, w, k);
    EntryGrows(n, e, x.ms[w], x.size, x.FramesOf(w, k), frame);
  }

  lemma FirstFrameOpens(x: Traffic, k: nat)
    requires x.Genuine() && x.EachOnce() && k < |x.arrivals| && x.Belongs(k)
    requires LastOf(x.arrivals[k].frame) > 0
    ensures var a := x.arrivals[k];
            x.EntrySound(x.Number(x.who[k]), Entry(a.later, LastOf(a.frame) as nat + 1, [a.frame]), k + 1, k)
  {
    var w, frame := x.who[k], x.arrivals[k].frame;
    LastOfFrame(frame, x.Number(w), x.size, x.ms[w]);
    FramesOfNext(x, w, k);
    hide Numberable, Frames, IsFrameOf, LastOf;
  }

  lemma OnlyFrame(x: Traffic, k: nat)
    requires x.Genuine() && k < |x.arrivals| && x.Belongs(k) && LastOf(x.arrivals[k].frame) == 0
    ensures x.OutputSound(Some(PayloadOf(x.arrivals[k].frame)), k)
  {
    var w, frame := x.who[k], x.arrivals[k].frame;
    FramesOfNext(x, w, k);
    SingleFrame(x.Number(w), x.size, x.ms[w], frame, x.FramesOf(w, k));
    hide Numberable, Frames, IsFrameOf, LastOf, PayloadOf;
  }

  /** What the push makes of the number's own entry, and what it returns. */
  lemma OwnNumber(x: Traffic, t: Table, k: nat)
    requires x.Genuine() && x.EachOnce() && x.ReusesLate(t.expire) && k < |x.arrivals| && x.Belongs(k)
    requires x.EntriesSound(t, k)
    requires var n, t1 := x.Number(x.who[k]), Sweep(t, x.arrivals[k].now);
             n in t1.entries ==> x.arrivals[k].now - t1.entries[n].at <= 2 * t.expire
    ensures var a, n := x.arrivals[k], x.Number(x.who[k]);
            var p := PushStep(t, a.frame, a.now, a.later);
            && x.OutputSound(p.out, k)
            && (n in p.table.entries ==> x.Owned(n, p.table.entries[n], k + 1))
  {
    hide Numberable, Frames, IsFrameOf, LastOf, PayloadOf, Joined;
    var a, n := x.arrivals[k], x.Number(x.who[k]);
    BelongsMeans(x, k);
    var t1, p := Sweep(t, a.now), PushStep(t, a.frame, a.now, a.later);
    if LastOf(a.frame) == 0 {
      OnlyFrame(x, k);
      if n in t1.entries {
        OwnedStays(x, n, t.entries[n], k);
      }
    } else if n in t1.entries {
      var i :| 0 <= i < k && x.EntrySound(n, t.entries[n], k, i);
      OwnEntry(x, t.expire, n, t.entries[n], k, i);
      OwnFrameJoins(x, n, t.entries[n], k, i);
    } else {
      FirstFrameOpens(x, k);
    }
  }

  lemma BelongsMeans(x: Traffic, k: nat)
    requires x.Genuine() && k < |x.arrivals| && x.Belongs(k)
    ensures |x.arrivals[k].frame| >= 9 && NumberOf(x.arrivals[k].frame) == x.Number(x.who[k])
  {
  }

  lemma OthersStay(t: Table, a: Arrival, n: U32)
    requires |a.frame| >= 9 && n != NumberOf(a.frame)
    ensures var u := PushStep(t, a.frame, a.now, a.later).table;
            n in u.entries ==> n in t.entries && u.entries[n] == t.entries[n]
  {
  }

  ghost predicate Young(t: Table, now: int) {
    forall n :: n in t.entries ==> now - t.entries[n].at <= 2 * t.expire
  }

  lemma ArrivalKeepsSound(x: Traffic, t: Table, k: nat)
    requires x.Genuine() && x.EachOnce() && x.ReusesLate(t.expire) && k < |x.arrivals|
    requires x.EntriesSound(t, k) && Young(Sweep(t, x.arrivals[k].now), x.arrivals[k].now)
    ensures var p := PushStep(t, x.arrivals[k].frame, x.arrivals[k].now, x.arrivals[k].later);
            x.OutputSound(p.out, k) && x.EntriesSound(p.table, k + 1)
  {
    hide IsFrameOf, LastOf, PayloadOf, Joined, Numberable, Frames, PushStep;
    assert x.Belongs(k);
    BelongsMeans(x, k);
    OwnNumber(x, t, k);
    var a, own := x.arrivals[k], x.Number(x.who[k]);
    var p := PushStep(t, a.frame, a.now, a.later);
    forall n | n in p.table.entries
      ensures x.Owned(n, p.table.entries[n], k + 1)
    {
      if n != own {
        OthersStay(t, a, n);
        OwnedStays(x, n, t.entries[n], k);
      }
    }
  }

  lemma {:induction false} RunKeepsOwners(x: Traffic, t: Table, k: nat)
    requires x.Genuine() && x.EachOnce() && x.ReusesLate(t.expire) && k <= |x.arrivals|
    requires t.entries == map[] && ClockRuns(t, x.arrivals)
    ensures var log := Run(t, x.arrivals[..k]);
            && log.table.expire == t.expire && x.EntriesSound(log.table, k)
            && (k > 0 ==> x.OutputSound(Run(t, x.arrivals).outs[k - 1], k - 1))
  {
    hide PushStep, Sweep, ClockRuns;
    if k > 0 {
      RunKeepsOwners(x, t, k - 1);
      var before := Run(t, x.arrivals[..k - 1]).table;
      SweptIsYoung(x, t, k - 1);
      ArrivalKeepsSound(x, before, k - 1);
      ExpiryStays(before, x.arrivals[k - 1]);
      RunAt(t, x.arrivals, k - 1);
    }
  }

  lemma SweptIsYoung(x: Traffic, t: Table, k: nat)
    requires t.entries == map[] && ClockRuns(t, x.arrivals) && k < |x.arrivals|
    ensures Young(Sweep(Run(t, x.arrivals[..k]).table, x.arrivals[k].now), x.arrivals[k].now)
  {
    RunChecksYoung(t, x.arrivals[..k]);
    hide Run, ClockRuns;
    var swept := Sweep(Run(t, x.arrivals[..k]).table, x.arrivals[k].now);
    forall n | n in swept.entries
      ensures x.arrivals[k].now - swept.entries[n].at <= 2 * t.expire
    {
      EntriesAreYoung(t, x.arrivals, k, n);
    }
  }

  lemma ExpiryStays(t: Table, a: Arrival)
    ensures PushStep(t, a.frame, a.now, a.later).table.expire == t.expire
  {
  }

  /** After a message has been returned, no arrival belongs to it any more. */
  lemma ReturnedIsClosed(x: Traffic, t: Table, j: nat, k: nat)
    requires x.Genuine() && x.EachOnce() && x.ReusesLate(t.expire)
    requires t.entries == map[] && ClockRuns(t, x.arrivals)
    requires j < k < |x.arrivals| && Run(t, x.arrivals).outs[j].Some?
    ensures x.who[j] != x.who[k]
  {
    hide Run, ClockRuns;
    RunKeepsOwners(x, t, j + 1);
    WholeHasAll(x, Run(t, x.arrivals).outs[j], j, k);
    LaterIsNew(x, j, k);
  }

  lemma WholeHasAll(x: Traffic, out: Option<Bytes>, j: nat, k: nat)
    requires x.Genuine() && j < |x.arrivals| && k < |x.arrivals| && x.OutputSound(out, j) && out.Some?
    ensures x.who[j] == x.who[k] ==> x.arrivals[k].frame in x.FramesOf(x.who[j], j + 1)
  {
    assert x.Belongs(j) && x.Belongs(k);
  }

  lemma LaterIsNew(x: Traffic, j: nat, k: nat)
    requires |x.who| == |x.arrivals| && x.EachOnce() && j < k < |x.arrivals|
    ensures x.who[j] == x.who[k] ==> x.arrivals[k].frame !in x.FramesOf(x.who[j], j + 1)
  {
  }

  /**
   Safety for any number of messages. As long as a number is used again only more than twice the expiry after the last
   frame of its former message, the buffer returns only sent messages, byte for byte, and each at most once.
   */
  lemma LateReuseIsSafe(x: Traffic, t: Table)
    requires x.Genuine() && x.EachOnce() && x.ReusesLate(t.expire)
    requires t.entries == map[] && ClockRuns(t, x.arrivals)
    ensures var outs := Run(t, x.arrivals).outs;
            && (forall k :: 0 <= k < |x.arrivals| && outs[k].Some? ==>
                  (x.who[k] < |x.ms| && outs[k].value == x.ms[x.who[k]]))
            && (forall j, k :: 0 <= j < k < |x.arrivals| && outs[j].Some? && outs[k].Some? ==> x.who[j] != x.who[k])
  {
    hide Run, ClockRuns, Numberable;
    var outs := Run(t, x.arrivals).outs;
    forall k | 0 <= k < |x.arrivals| && outs[k].Some?
      ensures x.who[k] < |x.ms| && outs[k].value == x.ms[x.who[k]]
    {
      RunKeepsOwners(x, t, k + 1);
      assert x.Belongs(k);
    }
    forall j, k | 0 <= j < k < |x.arrivals| && outs[j].Some?
      ensures x.who[j] != x.who[k]
    {
      ReturnedIsClosed(x, t, j, k);
    }
  }

  /** Message `w` is split at `sentAt[w]`; a frame is given to the buffer within `delay` of that, or never. */
  ghost predicate ArrivesWithin(x: Traffic, sentAt: seq<int>, delay: nat) {
    && |x.who| == |x.arrivals| && |sentAt| == |x.ms|
    && forall k :: 0 <= k < |x.arrivals| ==>
         (x.who[k] < |sentAt| && sentAt[x.who[k]] <= x.arrivals[k].now && x.arrivals[k].later <= sentAt[x.who[k]] + delay)
  }

  /** One turn of the numbers takes the sender longer than `turn`. */
  ghost predicate Paced(sentAt: seq<int>, turn: int) {
    forall v, w :: 0 <= v && v + U32_LIMIT <= w < |sentAt| ==> sentAt[w] - sentAt[v] > turn
  }

  /** Over a channel with bounded delay it is enough that the sender does not use up its 2^32 numbers too quickly. */
  lemma PacedSenderIsSafe(x: Traffic, t: Table, sentAt: seq<int>, delay: nat)
    requires x.Genuine() && x.EachOnce() && t.entries == map[] && ClockRuns(t, x.arrivals)
    requires ArrivesWithin(x, sentAt, delay) && Paced(sentAt, delay + 2 * t.expire)
    ensures var outs := Run(t, x.arrivals).outs;
            && (forall k :: 0 <= k < |x.arrivals| && outs[k].Some? ==>
                  (x.who[k] < |x.ms| && outs[k].value == x.ms[x.who[k]]))
            && (forall j, k :: 0 <= j < k < |x.arrivals| && outs[j].Some? && outs[k].Some? ==> x.who[j] != x.who[k])
  {
    hide Run;
    forall i, j | 0 <= i < j < |x.arrivals| && x.who[i] != x.who[j] && x.Number(x.who[i]) == x.Number(x.who[j])
      ensures x.arrivals[j].now - x.arrivals[i].later > 2 * t.expire
    {
      ATurnApart(x.start, x.who[i], x.who[j]);
    }
    LateReuseIsSafe(x, t);
  }

  lemma ATurnApart(start: U32, v: nat, w: nat)
    requires v != w && Wrap(start + v) == Wrap(start + w)
    ensures v + U32_LIMIT <= w || w + U32_LIMIT <= v
  {
    WrapAgrees(start, v, w);
  }

  // ---------------------------------------------------------------- numbers reused too early

  lemma JoinedInOrder(f: Frame, g: Frame)
    requires IndexOf(f) == 0 && IndexOf(g) == 1
    ensures Joined([f, g]) == PayloadOf(f) + PayloadOf(g)
  {
    hide SortByIndex, IndexOf, PayloadOf, Flatten;
    var pair: seq<Frame> := [f, g];
    SortIsDetermined(pair, pair);
    assert Payloads(pair) == [PayloadOf(f), PayloadOf(g)];
    FlattenPair(PayloadOf(f), PayloadOf(g));
  }

  lemma FlattenPair(a: Bytes, b: Bytes)
    ensures Flatten([a, b]) == a + b
  {
    assert [a, b] == [a] + [b];
    FlattenCons(a, [b]);
    FlattenCons(b, []);
  }

  /** A message in two frames, and what they carry. */
  lemma TwoFrames(n: U32, size: nat, data: Bytes)
    requires |data| > 0 && Numberable(size, data) && |Frames(n, size, data)| == 2
    ensures var fs, segments := Frames(n, size, data), Segments(data, size);
            && |segments| == 2 && data == segments[0] + segments[1] && |segments[0]| == size
            && forall i :: 0 <= i < 2 ==>
                 (|fs[i]| >= 9 && NumberOf(fs[i]) == n && LastOf(fs[i]) == 1 && IndexOf(fs[i]) == i
                 && PayloadOf(fs[i]) == segments[i])
  {
    var segments := Segments(data, size);
    FramesCarryTheMessage(n, size, data);
    HeaderRoundTrip(n, 1, 0, segments[0]);
    HeaderRoundTrip(n, 1, 1, segments[1]);
    SegmentsCarryTheData(data, size);
    SegmentsAreFull(data, size, 0);
    hide Segments, Frames, Numberable, FrameOf;
    assert segments == [segments[0], segments[1]];
    FlattenPair(segments[0], segments[1]);
  }

  /**
   Used again too early, a number makes a message of parts of two: of `a` the first frame has come, of `b`, which has the
   same number, the second. What comes out is `a` or `b` only if they have the other part in common.
   */
  lemma EarlyReuseMixes(t: Table, n: U32, size: nat, a: Bytes, b: Bytes, f: Arrival, g: Arrival)
    requires |a| > 0 && Numberable(size, a) && |Frames(n, size, a)| == 2 && f.frame == Frames(n, size, a)[0]
    requires |b| > 0 && Numberable(size, b) && |Frames(n, size, b)| == 2 && g.frame == Frames(n, size, b)[1]
    requires n !in t.entries && g.now - f.later <= t.expire
    ensures var first := PushStep(t, f.frame, f.now, f.later);
            var second := PushStep(first.table, g.frame, g.now, g.later);
            && first.out == None && second.out.Some?
            && (second.out == Some(a) <==> Segments(a, size)[1] == Segments(b, size)[1])
            && (second.out == Some(b) <==> Segments(a, size)[0] == Segments(b, size)[0])
  {
    hide PushStep, Joined, Frames, Segments, Numberable;
    TwoFrames(n, size, a);
    TwoFrames(n, size, b);
    EarlyPush(t, n, 2, [], f);
    assert [] + [f.frame] == [f.frame];
    LastPush(PushStep(t, f.frame, f.now, f.later).table, n, [f.frame], g);
    assert [f.frame] + [g.frame] == [f.frame, g.frame];
    JoinedInOrder(f.frame, g.frame);
    SumsAgree(Segments(a, size)[0], Segments(a, size)[1], Segments(b, size)[0], Segments(b, size)[1]);
  }

  lemma SumsAgree(a0: Bytes, a1: Bytes, b0: Bytes, b1: Bytes)
    requires |a0| == |b0|
    ensures a0 + b1 == a0 + a1 <==> a1 == b1
    ensures a0 + b1 == b0 + b1 <==> a0 == b0
  {
    assert (a0 + b1)[|a0|..] == b1 && (a0 + a1)[|a0|..] == a1;
    assert (a0 + b1)[..|a0|] == a0 && (b0 + b1)[..|a0|] == b0;
  }
}
