/**
 Compression on the unreliable channel (src/wire/mod.rs:86-87, 120-146, 194-213), which loses and reorders frames:
 its write and read loops use converters configured like those of the reliable one.
 */
module LossySession {
  import opened Base
  import opened Dictionary
  import opened Session

  /** `carried` are the messages of the frames on the wire, `arrived` those of the frames read. */
  datatype Link<M> = Link(s: State<M>, carried: seq<M>, arrived: seq<M>)

  datatype Happening<M> = Loop(e: Session.Event<M>) | Arrive(i: nat) | Lose(i: nat)

  function Without<T>(q: seq<T>, i: nat): seq<T>
    requires i < |q|
  {
    q[..i] + q[i + 1..]
  }

  /** Frames are read in any order; the loops themselves work as in a session. */
  function Next<M>(codec: Codec<M>, mode: Mode, l: Link<M>, h: Happening<M>): Link<M> {
    match h
    case Loop(e) =>
      var t := if e.Read? then l.s else Session.Step(codec, mode, l.s, e);
      l.(s := t, carried := if |t.sent| > |l.s.sent| then l.carried + [t.sent[|t.sent| - 1]] else l.carried)
    case Arrive(i) =>
      if l.s.reading && i < |l.s.wire| && i < |l.carried| then
        Link(ReadTurn(codec, mode, l.s.(wire := Without(l.s.wire, i)), Some(l.s.wire[i])),
             Without(l.carried, i),
             l.arrived + [l.carried[i]])
      else l
    case Lose(i) =>
      if i < |l.s.wire| && i < |l.carried| then
        l.(s := l.s.(wire := Without(l.s.wire, i)), carried := Without(l.carried, i))
      else l
  }

  function Follow<M>(codec: Codec<M>, mode: Mode, hs: seq<Happening<M>>): Link<M> {
    if |hs| == 0 then Link(Session.Start(), [], [])
    else Next(codec, mode, Follow(codec, mode, hs[..|hs| - 1]), hs[|hs| - 1])
  }

  /** Without a dictionary, `frame` is a compressed form of `msg` for any reader. */
  ghost predicate Stands<M>(codec: Codec<M>, mode: Mode, msg: M, frame: Bytes) {
    codec.encode(msg).Some? && exists spare :: frame == Compressed(codec, mode, [], codec.encode(msg).value, spare)
  }

  ghost predicate Stateless<M>(codec: Codec<M>, mode: Mode, l: Link<M>) {
    && l.s.writerDict == [] && l.s.readerDict == [] && !l.s.readerFailed
    && l.s.received == l.arrived
    && |l.carried| == |l.s.wire|
    && forall i :: 0 <= i < |l.s.wire| ==> Stands(codec, mode, l.carried[i], l.s.wire[i])
  }

  lemma WriteIsStateless<M(!new)>(codec: Codec<M>, mode: Mode, l: Link<M>, e: Session.Event<M>)
    requires !mode.ContextTakeover? && Stateless(codec, mode, l) && e.Write?
    ensures Stateless(codec, mode, Next(codec, mode, l, Loop(e)))
  {
    hide Compressed;
    if codec.encode(e.msg).Some? {
      assert Stands(codec, mode, e.msg, Compressed(codec, mode, [], codec.encode(e.msg).value, e.spare));
    }
  }

  lemma ArrivalIsStateless<M(!new)>(codec: Codec<M>, mode: Mode, l: Link<M>, i: nat)
    requires Lossless(codec) && !mode.ContextTakeover? && Stateless(codec, mode, l)
    ensures Stateless(codec, mode, Next(codec, mode, l, Arrive(i)))
    ensures l.s.reading ==> Next(codec, mode, l, Arrive(i)).s.reading
  {
    if l.s.reading && i < |l.s.wire| {
      assert Stands(codec, mode, l.carried[i], l.s.wire[i]);
      var data := codec.encode(l.carried[i]).value;
      var spare :| l.s.wire[i] == Compressed(codec, mode, [], data, spare);
      ExtractUndoesCompress(codec, mode, [], data, spare);
      hide Lossless, Compressed, Extracted, Stands;
      assert codec.decode(data) == Some(l.carried[i]);
    }
  }

  lemma LossIsStateless<M>(codec: Codec<M>, mode: Mode, l: Link<M>, i: nat)
    requires Stateless(codec, mode, l)
    ensures Stateless(codec, mode, Next(codec, mode, l, Lose(i)))
  {
    hide Stands;
  }

  /** Commands, which extract an empty buffer, and the ends of the loops. */
  lemma StopIsStateless<M>(codec: Codec<M>, mode: Mode, l: Link<M>, e: Session.Event<M>)
    requires !mode.ContextTakeover? && Stateless(codec, mode, l) && !e.Write?
    ensures Stateless(codec, mode, Next(codec, mode, l, Loop(e)))
  {
    hide Stands, Extracted;
  }

  lemma NextIsStateless<M(!new)>(codec: Codec<M>, mode: Mode, l: Link<M>, h: Happening<M>)
    requires Lossless(codec) && !mode.ContextTakeover? && Stateless(codec, mode, l)
    ensures Stateless(codec, mode, Next(codec, mode, l, h))
  {
    hide Next, Stateless, Lossless;
    match h
    case Arrive(i) => ArrivalIsStateless(codec, mode, l, i);
    case Lose(i) => LossIsStateless(codec, mode, l, i);
    case Loop(e) =>
      if e.Write? {
        WriteIsStateless(codec, mode, l, e);
      } else {
        StopIsStateless(codec, mode, l, e);
      }
  }

  /**
   Without context takeover every frame that arrives is restored, whatever frames are lost or overtake each other:
   the receiver sees exactly the messages whose frames have arrived, in that order, and never fails.
   */
  lemma {:induction false} EveryArrivalIsRestored<M(!new)>(codec: Codec<M>, mode: Mode, hs: seq<Happening<M>>)
    requires Lossless(codec) && !mode.ContextTakeover?
    ensures var l := Follow(codec, mode, hs);
            l.s.received == l.arrived && !l.s.readerFailed && Stateless(codec, mode, l)
  {
    if |hs| > 0 {
      EveryArrivalIsRestored(codec, mode, hs[..|hs| - 1]);
      hide Lossless, Stateless, Next;
      NextIsStateless(codec, mode, Follow(codec, mode, hs[..|hs| - 1]), hs[|hs| - 1]);
    }
  }

  /** A codec whose streams start with the length of their dictionary. */
  function Marking(): Codec<Bytes> {
    Codec(
      (m: Bytes) => Some(m),
      (b: Bytes) => Some(b),
      (d: Bytes, x: Bytes) => [|d| % 256] + x,
      (d: Bytes, y: Bytes) => if |y| > 0 && y[0] == |d| % 256 then Some(y[1..]) else None)
  }

  lemma MarkingIsLossless()
    ensures Lossless(Marking())
  {
    assert forall d: Bytes, x: Bytes :: ([|d| % 256] + x)[1..] == x;
  }

  /** One message written by a session that has sent those before. */
  lemma MarkedWrite(bits: nat, l: Link<Bytes>, msg: Bytes)
    requires 9 <= bits && l.s.writing && |l.s.writerDict + msg| <= 9
    ensures Next(Marking(), ContextTakeover(bits), l, Loop(Write(msg, true, NoFault, true))) ==
              Link(l.s.(writerDict := l.s.writerDict + msg,
                        wire := l.s.wire + [[|l.s.writerDict| % 256] + msg],
                        sent := l.s.sent + [msg]),
                   l.carried + [msg],
                   l.arrived)
  {
    Pow2Grows(bits);
    hide Pow2;
  }

  const ONE: Link<Bytes> := Link(State([1], [], [[0, 1]], [[1]], [], true, true, false), [[1]], [])
  const TWO: Link<Bytes> := Link(State([1, 2], [], [[0, 1], [1, 2]], [[1], [2]], [], true, true, false), [[1], [2]], [])

  lemma FirstMarkedWrite(bits: nat)
    requires 9 <= bits
    ensures Next(Marking(), ContextTakeover(bits), Link(Session.Start(), [], []), Loop(Write([1], true, NoFault, true))) == ONE
  {
    var start: Link<Bytes> := Link(Session.Start(), [], []);
    hide Next, Marking;
    MarkedWrite(bits, start, [1]);
    assert start.s.writerDict + [1] == [1] && [|start.s.writerDict| % 256] + [1] == [0, 1];
    assert start.s.wire + [[0, 1]] == [[0, 1]] && start.s.sent + [[1]] == [[1]] && start.carried + [[1]] == [[1]];
  }

  lemma SecondMarkedWrite(bits: nat)
    requires 9 <= bits
    ensures Next(Marking(), ContextTakeover(bits), ONE, Loop(Write([2], true, NoFault, true))) == TWO
  {
    hide Next, Marking;
    MarkedWrite(bits, ONE, [2]);
    assert ONE.s.writerDict + [2] == [1, 2] && [|ONE.s.writerDict| % 256] + [2] == [1, 2];
    assert ONE.s.wire + [[1, 2]] == [[0, 1], [1, 2]] && ONE.s.sent + [[2]] == [[1], [2]];
    assert ONE.carried + [[2]] == [[1], [2]];
  }

  /** Two messages of which the first is lost. */
  function LossyRun(): seq<Happening<Bytes>> {
    [Loop(Write([1], true, NoFault, true)), Loop(Write([2], true, NoFault, true)), Lose(0), Arrive(0)]
  }

  /** With context takeover, whatever the window, one lost frame can make the reader fail on the next. */
  lemma LostFrameBreaksLockstep(bits: nat)
    requires 9 <= bits <= 15
    ensures Lossless(Marking())
    ensures var l := Follow(Marking(), ContextTakeover(bits), LossyRun());
            l.s.sent == [[1], [2]] && l.s.received == [] && l.arrived == [[2]] && l.s.readerFailed
  {
    MarkingIsLossless();
    hide Next, Follow, Lossless, Marking;
    var codec, mode := Marking(), ContextTakeover(bits);
    var h0, h1 := Loop(Write([1], true, NoFault, true)), Loop(Write([2], true, NoFault, true));
    FollowFour(codec, mode, h0, h1, Lose(0), Arrive(0));
    FirstMarkedWrite(bits);
    SecondMarkedWrite(bits);
    LoseThenRead(bits, TWO);
  }

  lemma LoseThenRead(bits: nat, l: Link<Bytes>)
    requires |l.s.wire| == 2 && |l.carried| == 2 && l.s.wire[1] == [1, 2] && l.s.readerDict == [] && l.s.reading
    ensures var codec, mode := Marking(), ContextTakeover(bits);
            var t := Next(codec, mode, Next(codec, mode, l, Lose(0)), Arrive(0));
            && t.s.readerFailed && t.s.received == l.s.received && t.s.sent == l.s.sent
            && t.arrived == l.arrived + [l.carried[1]]
  {
    assert Next(Marking(), ContextTakeover(bits), l, Lose(0)).s.wire == [[1, 2]];
  }

  /** Whatever is lost or overtaken, the reader restores every frame that arrives. */
  ghost predicate RestoresArrivals<M(!new)>(codec: Codec<M>, mode: Mode) {
    forall hs: seq<Happening<M>> ::
      var l := Follow(codec, mode, hs); l.s.received == l.arrived && !l.s.readerFailed
  }

  /** That holds of every lossless codec exactly without context takeover. */
  lemma RestoresArrivalsIff(mode: Mode)
    requires ModeValid(mode)
    ensures (forall codec: Codec<Bytes> :: Lossless(codec) ==> RestoresArrivals(codec, mode)) <==> !mode.ContextTakeover?
  {
    if mode.ContextTakeover? {
      LostFrameBreaksLockstep(mode.windowBits);
      var l := Follow(Marking(), mode, LossyRun());
      assert !RestoresArrivals(Marking(), mode);
    } else {
      forall codec: Codec<Bytes> | Lossless(codec)
        ensures RestoresArrivals(codec, mode)
      {
        forall hs: seq<Happening<Bytes>>
          ensures var l := Follow(codec, mode, hs); l.s.received == l.arrived && !l.s.readerFailed
        {
          EveryArrivalIsRestored(codec, mode, hs);
        }
      }
    }
  }

  lemma FollowFour<M>(codec: Codec<M>, mode: Mode,
      h0: Happening<M>, h1: Happening<M>, h2: Happening<M>, h3: Happening<M>)
    ensures var start: Link<M> := Link(Session.Start(), [], []);
            Follow(codec, mode, [h0, h1, h2, h3]) ==
              Next(codec, mode, Next(codec, mode, Next(codec, mode, Next(codec, mode, start, h0), h1), h2), h3)
  {
    hide Next;
    FollowSnoc(codec, mode, [], h0);
    FollowSnoc(codec, mode, [h0], h1);
    FollowSnoc(codec, mode, [h0, h1], h2);
    FollowSnoc(codec, mode, [h0, h1, h2], h3);
    assert [] + [h0] == [h0] && [h0] + [h1] == [h0, h1] && [h0, h1] + [h2] == [h0, h1, h2];
    assert [h0, h1, h2] + [h3] == [h0, h1, h2, h3];
  }

  lemma {:induction false} Pow2Grows(n: nat)
    ensures Pow2(n) > n
  {
    if n > 0 {
      Pow2Grows(n - 1);
    }
  }

  lemma FollowSnoc<M>(codec: Codec<M>, mode: Mode, hs: seq<Happening<M>>, h: Happening<M>)
    ensures Follow(codec, mode, hs + [h]) == Next(codec, mode, Follow(codec, mode, hs), h)
  {
    assert (hs + [h])[..|hs|] == hs;
  }
}
