/**
 When the frames of a message make the receiver return it (src/transport/datagram.rs:77-123): exactly if no check of the
 buffer comes too late after the first of them.
 */
module Completeness {
  import opened Base
  import opened Datagram
  import opened Reassembly

  // ---------------------------------------------------------------- what one push drops

  /**
   A check is due more than the expiry after the last one. Then exactly the entries older than the expiry are dropped, apart from
   what the push does to its own number; otherwise nothing is.
   */
  lemma PushDropsExactly(t: Table, a: Arrival, m: U32)
    requires |a.frame| >= 9
    ensures var u, due := PushStep(t, a.frame, a.now, a.later).table, a.now - t.checkedAt > t.expire;
            && u.expire == t.expire
            && u.checkedAt == (if due then a.now else t.checkedAt)
            && (m != NumberOf(a.frame) ==>
                  && (m in u.entries <==> m in t.entries && (due ==> a.now - t.entries[m].at <= t.expire))
                  && (m in u.entries ==> u.entries[m] == t.entries[m]))
  {
    hide NumberOf, LastOf, Joined;
  }

  /**
   What a push does to its own number. Unless a check that is due finds the entry too old, a further frame joins it, and the
   one that makes up the number its first frame announced brings about the output and ends it. Without an entry the
   frame opens one. A frame that says it is the only one is returned at once and touches no entry.
   */
  lemma PushOwnExactly(t: Table, a: Arrival)
    requires |a.frame| >= 9
    ensures var n, p := NumberOf(a.frame), PushStep(t, a.frame, a.now, a.later);
            var there := n in t.entries && (a.now - t.checkedAt > t.expire ==> a.now - t.entries[n].at <= t.expire);
            if LastOf(a.frame) == 0 then
              && p.out == Some(PayloadOf(a.frame))
              && (n in p.table.entries <==> there) && (there ==> p.table.entries[n] == t.entries[n])
            else if there then
              var e := t.entries[n];
              var frames := e.frames + [a.frame];
              if |frames| == e.needed then p.out == Some(Joined(frames)) && n !in p.table.entries
              else p.out == None && n in p.table.entries && p.table.entries[n] == Entry(e.at, e.needed, frames)
            else
              && p.out == None && n in p.table.entries
              && p.table.entries[n] == Entry(a.later, LastOf(a.frame) as nat + 1, [a.frame])
  {
    hide NumberOf, LastOf, Joined, PayloadOf;
  }

  lemma ShortFrameIsIgnored(t: Table, a: Arrival)
    requires |a.frame| < 9
    ensures PushStep(t, a.frame, a.now, a.later) == Pushed(t, None)
  {
  }

  // ---------------------------------------------------------------- when checks are due

  /** The time of the last check before arrival `k`. */
  function CheckedAt(t: Table, arrivals: seq<Arrival>, k: nat): int
    requires k <= |arrivals|
  {
    if k == 0 then t.checkedAt
    else
      var before, a := CheckedAt(t, arrivals, k - 1), arrivals[k - 1];
      if |a.frame| >= 9 && a.now - before > t.expire then a.now else before
  }

  /** With arrival `k` a check is due. */
  predicate Due(t: Table, arrivals: seq<Arrival>, k: nat)
    requires k < |arrivals|
  {
    |arrivals[k].frame| >= 9 && arrivals[k].now - CheckedAt(t, arrivals, k) > t.expire
  }

  /** What came with arrival `first` is not dropped by a check before arrival `k`. */
  ghost predicate Lasts(t: Table, arrivals: seq<Arrival>, first: nat, k: nat)
    requires first < |arrivals| && k <= |arrivals|
  {
    forall j :: first < j < k && Due(t, arrivals, j) ==> arrivals[j].now - arrivals[first].later <= t.expire
  }

  lemma {:induction false} RunChecks(t: Table, arrivals: seq<Arrival>, k: nat)
    requires k <= |arrivals|
    ensures var u := Run(t, arrivals[..k]).table;
            u.checkedAt == CheckedAt(t, arrivals, k) && u.expire == t.expire
  {
    hide PushStep, Run;
    if k == 0 {
      RunStarts(t, arrivals[..0]);
    } else {
      var u, a := Run(t, arrivals[..k - 1]).table, arrivals[k - 1];
      RunChecks(t, arrivals, k - 1);
      RunAt(t, arrivals, k - 1);
      if |a.frame| >= 9 {
        PushDropsExactly(u, a, 0);
      } else {
        ShortFrameIsIgnored(u, a);
      }
    }
  }

  lemma RunStarts(t: Table, arrivals: seq<Arrival>)
    requires |arrivals| == 0
    ensures Run(t, arrivals).table == t
  {
  }

  // ---------------------------------------------------------------- the progress of one message

  /** Arrival `first` is the first frame for `n`, and arrival `last` the last. */
  ghost predicate Spans(n: U32, arrivals: seq<Arrival>, first: nat, last: nat) {
    && first <= last < |arrivals| && IsFor(n, arrivals[first]) && IsFor(n, arrivals[last])
    && forall i :: 0 <= i < |arrivals| && IsFor(n, arrivals[i]) ==> first <= i <= last
  }

  /** Between the first and the last frame the entry has all frames so far; once it has been dropped, always fewer. */
  ghost predicate Gathers(n: U32, needed: nat, got: seq<Frame>, t: Table, at: int, lasts: bool) {
    if lasts then n in t.entries && t.entries[n] == Entry(at, needed, got)
    else n in t.entries ==> t.entries[n].needed == needed && |t.entries[n].frames| < |got|
  }

  /** Whether an entry from `at` outlasts a push. */
  predicate Outlasts(t: Table, at: int, a: Arrival) {
    |a.frame| >= 9 && a.now - t.checkedAt > t.expire ==> a.now - at <= t.expire
  }

  /** A frame for another message, or none at all. */
  lemma OtherGathers(n: U32, needed: nat, got: seq<Frame>, t: Table, at: int, lasts: bool, a: Arrival)
    requires !IsFor(n, a) && Gathers(n, needed, got, t, at, lasts) && |got| > 0
    ensures Gathers(n, needed, got, PushStep(t, a.frame, a.now, a.later).table, at, lasts && Outlasts(t, at, a))
  {
    hide PushStep, NumberOf;
    if |a.frame| >= 9 {
      PushDropsExactly(t, a, n);
    } else {
      ShortFrameIsIgnored(t, a);
    }
  }

  /** A frame whose message has no entry, or no longer, opens one. */
  lemma PushOpens(t: Table, n: U32, a: Arrival)
    requires IsFor(n, a) && LastOf(a.frame) > 0 && (n in t.entries ==> !Outlasts(t, t.entries[n].at, a))
    ensures var p := PushStep(t, a.frame, a.now, a.later);
            && p.out == None && n in p.table.entries
            && p.table.entries[n] == Entry(a.later, LastOf(a.frame) as nat + 1, [a.frame])
  {
  }

  /** A further frame of the message. */
  lemma OwnGathers(n: U32, needed: nat, got: seq<Frame>, t: Table, at: int, lasts: bool, a: Arrival)
    requires IsFor(n, a) && LastOf(a.frame) + 1 == needed && 0 < |got| < needed
    requires Gathers(n, needed, got, t, at, lasts)
    ensures var p, still := PushStep(t, a.frame, a.now, a.later), lasts && Outlasts(t, at, a);
            if |got| + 1 == needed && still then p.out == Some(Joined(got + [a.frame])) && n !in p.table.entries
            else p.out == None && (|got| + 1 < needed ==> Gathers(n, needed, got + [a.frame], p.table, at, still))
  {
    hide PushStep, Joined, NumberOf, LastOf;
    if n in t.entries && Outlasts(t, t.entries[n].at, a) {
      var frames := t.entries[n].frames;
      if |frames| + 1 == needed {
        LastPush(t, n, frames, a);
      } else {
        SomeFrames(t, n, needed, frames, a);
      }
    } else {
      PushOpens(t, n, a);
    }
  }

  lemma SomeFrames(t: Table, n: U32, needed: nat, frames: seq<Frame>, a: Arrival)
    requires IsFor(n, a) && LastOf(a.frame) + 1 == needed && |frames| + 1 < needed
    requires n in t.entries && t.entries[n].needed == needed && t.entries[n].frames == frames
    requires Outlasts(t, t.entries[n].at, a)
    ensures var p := PushStep(t, a.frame, a.now, a.later);
            p.out == None && n in p.table.entries
            && p.table.entries[n] == Entry(t.entries[n].at, needed, frames + [a.frame])
  {
    if |frames| > 0 {
      EarlyPush(t, n, needed, frames, a);
    }
  }

  lemma {:induction false} StaysAbsent(t: Table, arrivals: seq<Arrival>, n: U32, j: nat, k: nat)
    requires j <= k <= |arrivals| && n !in Run(t, arrivals[..j]).table.entries
    requires forall i :: j <= i < k ==> !IsFor(n, arrivals[i])
    ensures n !in Run(t, arrivals[..k]).table.entries && FramesFor(n, arrivals[..k]) == FramesFor(n, arrivals[..j])
    decreases k
  {
    hide Run, PushStep, FramesFor, IsFor;
    if j < k {
      StaysAbsent(t, arrivals, n, j, k - 1);
      RunAt(t, arrivals, k - 1);
      FramesForAt(n, arrivals, k - 1);
      OtherPush(Run(t, arrivals[..k - 1]).table, n, arrivals[k - 1]);
    }
  }

  /** Arrival `k` outlasts the entry of arrival `first` as its check does. */
  lemma LastsNext(t: Table, arrivals: seq<Arrival>, first: nat, k: nat)
    requires first < k < |arrivals|
    ensures Lasts(t, arrivals, first, k + 1) <==>
              Lasts(t, arrivals, first, k) && Outlasts(Run(t, arrivals[..k]).table, arrivals[first].later, arrivals[k])
  {
    RunChecks(t, arrivals, k);
    hide Run, CheckedAt;
  }

  /** The message whose progress is watched, from its first frame to its last. */
  ghost predicate Watched(t: Table, arrivals: seq<Arrival>, n: U32, size: nat, data: Bytes, first: nat, last: nat) {
    && Numberable(size, data) && n !in t.entries
    && ArrivesWhole(n, data, size, arrivals) && Spans(n, arrivals, first, last)
  }

  /** The frames so far, when arrival `k` is the next for the message. */
  lemma FramesSoFar(t: Table, arrivals: seq<Arrival>, n: U32, size: nat, data: Bytes, first: nat, last: nat, k: nat)
    requires Watched(t, arrivals, n, size, data, first, last) && k <= last && IsFor(n, arrivals[k])
    ensures var needed, got := |Frames(n, size, data)|, FramesFor(n, arrivals[..k]);
            && |got| < needed && (|got| == 0 <==> k == first) && (|got| + 1 == needed <==> k == last)
            && LastOf(arrivals[k].frame) + 1 == needed
            && FramesFor(n, arrivals[..k + 1]) == got + [arrivals[k].frame]
  {
    hide Frames, Numberable, NumberOf, FramesFor, IsFrameOf, LastOf, Run;
    var got, all := FramesFor(n, arrivals[..k]), FramesFor(n, arrivals);
    FramesForAt(n, arrivals, k);
    FramesForPrefix(n, arrivals, k + 1);
    NoFrameLeft(n, arrivals, k, k);
    if k < last {
      NoFrameLeft(n, arrivals, k + 1, last);
    } else {
      NothingMore(arrivals, n, k + 1);
    }
    if k == first {
      NothingYet(arrivals, n, k);
    } else {
      NoFrameLeft(n, arrivals[..k], first, first);
    }
    assert all[|got|] == arrivals[k].frame && all[|got|] in all;
    LastOfFrame(arrivals[k].frame, n, size, data);
  }

  lemma {:induction false} NothingMore(arrivals: seq<Arrival>, n: U32, k: nat)
    requires k <= |arrivals| && forall i :: k <= i < |arrivals| ==> !IsFor(n, arrivals[i])
    ensures FramesFor(n, arrivals[..k]) == FramesFor(n, arrivals)
  {
    hide IsFor;
    var m := |arrivals| - 1;
    if k <= m {
      NothingMore(arrivals[..m], n, k);
      assert arrivals[..m][..k] == arrivals[..k];
    } else {
      assert arrivals[..k] == arrivals;
    }
  }

  lemma {:induction false} NothingYet(arrivals: seq<Arrival>, n: U32, k: nat)
    requires k <= |arrivals| && forall i :: 0 <= i < k ==> !IsFor(n, arrivals[i])
    ensures FramesFor(n, arrivals[..k]) == []
  {
    hide IsFor;
    if k > 0 {
      NothingYet(arrivals, n, k - 1);
      FramesForAt(n, arrivals, k - 1);
    }
  }

  /** Up to its last frame the message gathers. */
  lemma {:induction false} GathersUpTo(t: Table, arrivals: seq<Arrival>, n: U32, size: nat, data: Bytes, first: nat, last: nat,
      k: nat)
    requires Watched(t, arrivals, n, size, data, first, last) && first < k <= last
    ensures var got, u := FramesFor(n, arrivals[..k]), Run(t, arrivals[..k]).table;
            && 0 < |got| < |Frames(n, size, data)|
            && Gathers(n, |Frames(n, size, data)|, got, u, arrivals[first].later, Lasts(t, arrivals, first, k))
            && (IsFor(n, arrivals[k - 1]) ==> Run(t, arrivals).outs[k - 1] == None)
  {
    hide Run, PushStep, FramesFor, Frames, IsFor, Watched, Lasts, Gathers, LastOf, Outlasts;
    WatchedMeans(t, arrivals, n, size, data, first, last);
    var a, at, needed := arrivals[k - 1], arrivals[first].later, |Frames(n, size, data)|;
    RunAt(t, arrivals, k - 1);
    if k - 1 == first {
      FirstGathers(t, arrivals, n, size, data, first, last);
    } else {
      GathersUpTo(t, arrivals, n, size, data, first, last, k - 1);
      LastsNext(t, arrivals, first, k - 1);
      var u, got, lasts := Run(t, arrivals[..k - 1]).table, FramesFor(n, arrivals[..k - 1]), Lasts(t, arrivals, first, k - 1);
      if IsFor(n, a) {
        FramesSoFar(t, arrivals, n, size, data, first, last, k - 1);
        OwnGathers(n, needed, got, u, at, lasts, a);
      } else {
        FramesForAt(n, arrivals, k - 1);
        assert got + [] == got;
        OtherGathers(n, needed, got, u, at, lasts, a);
      }
    }
  }

  lemma WatchedMeans(t: Table, arrivals: seq<Arrival>, n: U32, size: nat, data: Bytes, first: nat, last: nat)
    requires Watched(t, arrivals, n, size, data, first, last)
    ensures Numberable(size, data)
    ensures first <= last < |arrivals| && IsFor(n, arrivals[first]) && IsFor(n, arrivals[last]) && n !in t.entries
    ensures forall i :: 0 <= i < |arrivals| && IsFor(n, arrivals[i]) ==> first <= i <= last
  {
  }

  lemma FirstGathers(t: Table, arrivals: seq<Arrival>, n: U32, size: nat, data: Bytes, first: nat, last: nat)
    requires Watched(t, arrivals, n, size, data, first, last) && first < last
    ensures var got, u := FramesFor(n, arrivals[..first + 1]), Run(t, arrivals[..first + 1]).table;
            && 0 < |got| < |Frames(n, size, data)|
            && Gathers(n, |Frames(n, size, data)|, got, u, arrivals[first].later, Lasts(t, arrivals, first, first + 1))
            && Run(t, arrivals).outs[first] == None
  {
    hide Run, PushStep, FramesFor, Frames, IsFor, Watched, LastOf;
    WatchedMeans(t, arrivals, n, size, data, first, last);
    RunStarts(t, arrivals[..0]);
    StaysAbsent(t, arrivals, n, 0, first);
    FramesSoFar(t, arrivals, n, size, data, first, last, first);
    RunAt(t, arrivals, first);
    var before := Run(t, arrivals[..first]).table;
    EarlyPush(before, n, |Frames(n, size, data)|, [], arrivals[first]);
    assert [] + [arrivals[first].frame] == [arrivals[first].frame];
    assert FramesFor(n, arrivals[..first]) == [];
  }

  /** The push of the last frame. */
  lemma LastFrame(t: Table, arrivals: seq<Arrival>, n: U32, size: nat, data: Bytes, first: nat, last: nat)
    requires Watched(t, arrivals, n, size, data, first, last)
    ensures Run(t, arrivals).outs[last] == if Lasts(t, arrivals, first, last + 1) then Some(data) else None
    ensures Lasts(t, arrivals, first, last + 1) ==> n !in Run(t, arrivals[..last + 1]).table.entries
  {
    hide Run, PushStep, FramesFor, Frames, IsFor, Watched, LastOf, Lasts, Gathers, Joined, Outlasts, PayloadOf;
    WatchedMeans(t, arrivals, n, size, data, first, last);
    var got, u := FramesFor(n, arrivals[..last]), Run(t, arrivals[..last]).table;
    FramesSoFar(t, arrivals, n, size, data, first, last, last);
    AllCome(t, arrivals, n, size, data, first, last);
    RunAt(t, arrivals, last);
    if first == last {
      RunStarts(t, arrivals[..0]);
      StaysAbsent(t, arrivals, n, 0, first);
      LastPush(u, n, [], arrivals[last]);
      AtOnceLasts(t, arrivals, first);
      assert [] + [arrivals[last].frame] == [arrivals[last].frame];
    } else {
      GathersUpTo(t, arrivals, n, size, data, first, last, last);
      LastsNext(t, arrivals, first, last);
      OwnGathers(n, |Frames(n, size, data)|, got, u, arrivals[first].later, Lasts(t, arrivals, first, last), arrivals[last]);
    }
  }

  lemma AtOnceLasts(t: Table, arrivals: seq<Arrival>, first: nat)
    requires first < |arrivals|
    ensures Lasts(t, arrivals, first, first + 1)
  {
  }

  /** With the last frame all have come. */
  lemma AllCome(t: Table, arrivals: seq<Arrival>, n: U32, size: nat, data: Bytes, first: nat, last: nat)
    requires Watched(t, arrivals, n, size, data, first, last)
    ensures var fs: seq<Frame> := FramesFor(n, arrivals[..last]) + [arrivals[last].frame];
            data == if |fs| == 1 then PayloadOf(fs[0]) else Joined(fs)
  {
    hide FramesFor, Frames, LastOf, Joined, PayloadOf;
    FramesSoFar(t, arrivals, n, size, data, first, last, last);
    NothingMore(arrivals, n, last + 1);
    LastRestoresMessage(n, size, data, FramesFor(n, arrivals));
  }

  // ---------------------------------------------------------------- main results

  /**
   Completeness, exactly. Let the frames for `n` be those of one message, each pushed once, in any order, among arbitrary other
   frames. The last of them makes the buffer return the message if and only if no check that was due since the first
   came more than the expiry after that; the others return nothing. If so no entry is left behind. Nothing is assumed of the clock.
   */
  lemma CompletesIff(t: Table, arrivals: seq<Arrival>, n: U32, size: nat, data: Bytes, first: nat, last: nat)
    requires Watched(t, arrivals, n, size, data, first, last)
    ensures forall k :: 0 <= k < |arrivals| && IsFor(n, arrivals[k]) ==>
              Run(t, arrivals).outs[k] == if k == last && Lasts(t, arrivals, first, last + 1) then Some(data) else None
    ensures Lasts(t, arrivals, first, last + 1) ==> n !in Run(t, arrivals).table.entries
  {
    hide Run, IsFor, Watched, Lasts, Frames, FramesFor;
    WatchedMeans(t, arrivals, n, size, data, first, last);
    LastFrame(t, arrivals, n, size, data, first, last);
    forall k | 0 <= k < |arrivals| && IsFor(n, arrivals[k]) && k != last
      ensures Run(t, arrivals).outs[k] == None
    {
      GathersUpTo(t, arrivals, n, size, data, first, last, k + 1);
    }
    if Lasts(t, arrivals, first, last + 1) {
      StaysAbsent(t, arrivals, n, last + 1, |arrivals|);
      assert arrivals[..|arrivals|] == arrivals;
    }
  }

  /** The clock never runs backwards, and the frames for `n` come within `expire` of the first. */
  ghost predicate Timely(n: U32, expire: nat, arrivals: seq<Arrival>) {
    && (forall i, j :: 0 <= i < j < |arrivals| ==> arrivals[i].now <= arrivals[j].now)
    && (forall i, j :: 0 <= i < j < |arrivals| && IsFor(n, arrivals[i]) && IsFor(n, arrivals[j]) ==>
          arrivals[j].now - arrivals[i].later <= expire)
  }

  lemma TimelyLasts(t: Table, arrivals: seq<Arrival>, n: U32, first: nat, last: nat)
    requires Timely(n, t.expire, arrivals) && Spans(n, arrivals, first, last)
    ensures Lasts(t, arrivals, first, last + 1)
  {
    hide IsFor;
    forall j | first < j <= last
      ensures arrivals[j].now - arrivals[first].later <= t.expire
    {
      assert arrivals[j].now <= arrivals[last].now;
    }
  }

  lemma {:induction false} SomeSpan(n: U32, arrivals: seq<Arrival>, k: nat) returns (first: nat, last: nat)
    requires k < |arrivals| && IsFor(n, arrivals[k])
    ensures Spans(n, arrivals, first, last)
  {
    hide IsFor;
    first, last := k, k;
    var i := k;
    while i > 0
      invariant 0 <= i <= first <= k < |arrivals| && IsFor(n, arrivals[first])
      invariant forall j :: i <= j < k && IsFor(n, arrivals[j]) ==> first <= j
    {
      i := i - 1;
      if IsFor(n, arrivals[i]) {
        first := i;
      }
    }
    i := k + 1;
    while i < |arrivals|
      invariant k <= last < i <= |arrivals| && IsFor(n, arrivals[last])
      invariant forall j :: k <= j < i && IsFor(n, arrivals[j]) ==> j <= last
    {
      if IsFor(n, arrivals[i]) {
        last := i;
      }
      i := i + 1;
    }
  }

  predicate MoreToCome(n: U32, arrivals: seq<Arrival>, k: nat) {
    exists j :: k < j < |arrivals| && IsFor(n, arrivals[j])
  }

  /**
   In particular frames that all come within the expiry of the first complete the message: every push of them returns
   nothing except the last, which returns exactly the message and leaves no entry behind.
   */
  lemma ReassemblyCompleteness(t: Table, arrivals: seq<Arrival>, n: U32, size: nat, data: Bytes)
    requires Numberable(size, data) && n !in t.entries
    requires ArrivesWhole(n, data, size, arrivals) && Timely(n, t.expire, arrivals)
    ensures n !in Run(t, arrivals).table.entries
    ensures forall k :: 0 <= k < |arrivals| && IsFor(n, arrivals[k]) ==>
              Run(t, arrivals).outs[k] == if MoreToCome(n, arrivals, k) then None else Some(data)
  {
    hide Run, Timely, Lasts, Frames, FramesFor, IsFor;
    var some := SomeArrival(arrivals, n, size, data);
    var first, last := SomeSpan(n, arrivals, some);
    TimelyLasts(t, arrivals, n, first, last);
    CompletesIff(t, arrivals, n, size, data, first, last);
  }

  lemma NoArrivals(arrivals: seq<Arrival>, n: U32)
    ensures |arrivals| == 0 ==> FramesFor(n, arrivals) == []
  {
  }

  /** A message has at least one frame. */
  lemma SomeArrival(arrivals: seq<Arrival>, n: U32, size: nat, data: Bytes) returns (k: nat)
    requires Numberable(size, data) && ArrivesWhole(n, data, size, arrivals)
    ensures k < |arrivals| && IsFor(n, arrivals[k])
  {
    hide FramesFor, Segments, IsFor;
    NothingYet(arrivals, n, 0);
    NoArrivals(arrivals, n);
    k := SomeFrameLeft(n, arrivals, 0);
  }
}
