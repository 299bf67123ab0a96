/**
 The read loop's routing: which registered channel a message of a stream or an end-to-end call
 goes to (src/wire/read_loop.rs:120-238).
 */
module ReadLoop {
  import opened Base
  import opened Messages

  type Tx = nat

  datatype Command =
    | AddUpstream(alias: U32, tx: Tx)
    | RemoveUpstream(alias: U32)
    | AddDownstream(alias: U32, tx: Tx)
    | RemoveDownstream(alias: U32)
    | SubscribeCallAck(callId: string, tx: Tx)
    | RemoveCallAck(callId: string)

  datatype Tables = Tables(up: map<U32, Tx>, down: map<U32, Tx>, calls: map<string, Tx>)

  // ---------------------------------------------------------------- the specification: the latest command wins

  datatype Key = UpKey(alias: U32) | DownKey(alias: U32) | CallKey(callId: string)

  datatype Input = Told(command: Command) | Got(message: Message)

  /** The registration a message is for; None for messages that are not the channels' business. */
  function KeyOf(m: Message): Option<Key> {
    if m.Empty? then None
    else
      match m.kind
      case UpstreamChunkAck => Some(UpKey(m.streamIdAlias))
      case DownstreamChunk | DownstreamMetadata | DownstreamChunkAckComplete => Some(DownKey(m.streamIdAlias))
      case UpstreamCallAck => Some(CallKey(m.callId))
      case _ => None
  }

  /** What an input makes of the registration under `key`, which was `before`. */
  function Registration(key: Key, before: Option<Tx>, input: Input): Option<Tx> {
    match input
    case Told(AddUpstream(alias, tx)) => if key == UpKey(alias) then Some(tx) else before
    case Told(RemoveUpstream(alias)) => if key == UpKey(alias) then None else before
    case Told(AddDownstream(alias, tx)) => if key == DownKey(alias) then Some(tx) else before
    case Told(RemoveDownstream(alias)) => if key == DownKey(alias) then None else before
    case Told(SubscribeCallAck(callId, tx)) => if key == CallKey(callId) then Some(tx) else before
    case Told(RemoveCallAck(callId)) => if key == CallKey(callId) then None else before
    case Got(m) => if key.CallKey? && KeyOf(m) == Some(key) then None else before
  }

  function Registered(key: Key, inputs: seq<Input>): Option<Tx> {
    if |inputs| == 0 then None
    else Registration(key, Registered(key, inputs[..|inputs| - 1]), inputs[|inputs| - 1])
  }

  /** The channel a message is put into after `inputs`. */
  function Destination(inputs: seq<Input>, m: Message): Option<Tx> {
    if KeyOf(m).Some? then Registered(KeyOf(m).value, inputs) else None
  }

  function Find(t: Tables, key: Key): Option<Tx> {
    match key
    case UpKey(alias) => if alias in t.up then Some(t.up[alias]) else None
    case DownKey(alias) => if alias in t.down then Some(t.down[alias]) else None
    case CallKey(callId) => if callId in t.calls then Some(t.calls[callId]) else None
  }

  /** The tables hold exactly the registrations of `inputs`. */
  ghost predicate Holds(t: Tables, inputs: seq<Input>) {
    forall key :: Find(t, key) == Registered(key, inputs)
  }

  // ---------------------------------------------------------------- the client's object

  class ReadLoopChannels {
    var txUpstreamChunkAck: map<U32, Tx>
    var txDownstreamMsg: map<U32, Tx>
    var txCallAck: map<string, Tx>
    ghost var inputs: seq<Input>

    ghost function Abs(): Tables
      reads this
    {
      Tables(txUpstreamChunkAck, txDownstreamMsg, txCallAck)
    }

    ghost predicate Valid()
      reads this
    {
      Holds(Abs(), inputs)
    }

    constructor ()
      ensures Valid() && inputs == []
    {
      txUpstreamChunkAck := map[];
      txDownstreamMsg := map[];
      txCallAck := map[];
      inputs := [];
    }

    method ProcessCommand(command: Command)
      requires Valid()
      modifies this
      ensures Valid() && inputs == old(inputs) + [Told(command)]
    {
      match command {
        case AddUpstream(alias, tx) => txUpstreamChunkAck := txUpstreamChunkAck[alias := tx];
        case RemoveUpstream(alias) => txUpstreamChunkAck := txUpstreamChunkAck - {alias};
        case AddDownstream(alias, tx) => txDownstreamMsg := txDownstreamMsg[alias := tx];
        case RemoveDownstream(alias) => txDownstreamMsg := txDownstreamMsg - {alias};
        case SubscribeCallAck(callId, tx) => txCallAck := txCallAck[callId := tx];
        case RemoveCallAck(callId) => txCallAck := txCallAck - {callId};
      }
      inputs := inputs + [Told(command)];
      assert inputs[..|inputs| - 1] == old(inputs);
    }

    /** `handled` is the original's Ok; `to` is the channel the message is put into, if any. */
    method ProcessMessage(m: Message) returns (handled: bool, to: Option<Tx>)
      requires Valid()
      modifies this
      ensures Valid() && inputs == old(inputs) + [Got(m)]
      ensures handled <==> KeyOf(m).Some?
      ensures to == Destination(old(inputs), m)
    {
      handled, to := true, None;
      assert KeyOf(m).Some? ==> Find(Abs(), KeyOf(m).value) == Registered(KeyOf(m).value, inputs);
      if m.Empty? {
        handled := false;
      } else {
        match m.kind {
          case UpstreamChunkAck =>
            if m.streamIdAlias in txUpstreamChunkAck {
              to := Some(txUpstreamChunkAck[m.streamIdAlias]);
            }
          case DownstreamChunk | DownstreamMetadata | DownstreamChunkAckComplete =>
            if m.streamIdAlias in txDownstreamMsg {
              to := Some(txDownstreamMsg[m.streamIdAlias]);
            }
          case UpstreamCallAck =>
            if m.callId in txCallAck {
              to := Some(txCallAck[m.callId]);
              txCallAck := txCallAck - {m.callId};
            }
          case _ =>
            handled := false;
        }
      }
      inputs := inputs + [Got(m)];
      assert inputs[..|inputs| - 1] == old(inputs);
    }
  }

  // ---------------------------------------------------------------- main results

  /** A stream's channel stays registered through any inputs that do not name its alias again. */
  lemma {:induction false} RegistrationLasts(key: Key, tx: Tx, before: seq<Input>, after: seq<Input>)
    requires Registered(key, before) == Some(tx)
    requires forall input :: input in after ==> Registration(key, Some(tx), input) == Some(tx)
    ensures Registered(key, before + after) == Some(tx)
  {
    if |after| == 0 {
      assert before + after == before;
    } else {
      var last := |after| - 1;
      assert (before + after)[..|before + after| - 1] == before + after[..last];
      RegistrationLasts(key, tx, before, after[..last]);
    }
  }

  /** One ack per subscription: a second one before the call id is subscribed again goes nowhere. */
  lemma {:induction false} CallIsAckedOnce(callId: string, before: seq<Input>, ack: Message, between: seq<Input>)
    requires KeyOf(ack) == Some(CallKey(callId))
    requires forall input :: input in between ==>
               !(input.Told? && input.command.SubscribeCallAck? && input.command.callId == callId)
    ensures Registered(CallKey(callId), before + [Got(ack)] + between) == None
  {
    var all := before + [Got(ack)] + between;
    if |between| == 0 {
      assert all == before + [Got(ack)];
      assert all[..|all| - 1] == before;
    } else {
      var last := |between| - 1;
      assert all[..|all| - 1] == before + [Got(ack)] + between[..last];
      assert between[last] in between;
      CallIsAckedOnce(callId, before, ack, between[..last]);
    }
  }

  // ---------------------------------------------------------------- told by kinds of messages and commands

  /** `input` registers channel `tx` for messages like `m`: those of its stream or call. */
  predicate Adds(input: Input, m: Message, tx: Tx) {
    && m.Body?
    && match m.kind
       case UpstreamChunkAck => input == Told(AddUpstream(m.streamIdAlias, tx))
       case DownstreamChunk | DownstreamMetadata | DownstreamChunkAckComplete =>
         input == Told(AddDownstream(m.streamIdAlias, tx))
       case UpstreamCallAck => input == Told(SubscribeCallAck(m.callId, tx))
       case _ => false
  }

  /** `input` ends a registration for messages like `m`; acks of calls end their own. */
  predicate Removes(input: Input, m: Message) {
    && m.Body?
    && match m.kind
       case UpstreamChunkAck => input == Told(RemoveUpstream(m.streamIdAlias))
       case DownstreamChunk | DownstreamMetadata | DownstreamChunkAckComplete =>
         input == Told(RemoveDownstream(m.streamIdAlias))
       case UpstreamCallAck =>
         || input == Told(RemoveCallAck(m.callId))
         || (input.Got? && input.message.Body? && input.message.kind == UpstreamCallAck && input.message.callId == m.callId)
       case _ => false
  }

  /** Registered at input `i`, and neither replaced nor removed since. */
  ghost predicate StandsFrom(inputs: seq<Input>, m: Message, tx: Tx, i: nat) {
    && i < |inputs| && Adds(inputs[i], m, tx)
    && forall j :: i < j < |inputs| ==> !Removes(inputs[j], m) && forall other :: !Adds(inputs[j], m, other)
  }

  lemma InputMeans(m: Message, before: Option<Tx>, input: Input, tx: Tx)
    requires KeyOf(m).Some?
    ensures Adds(input, m, tx) ==> Registration(KeyOf(m).value, before, input) == Some(tx)
    ensures Removes(input, m) ==> Registration(KeyOf(m).value, before, input) == None
    ensures !Removes(input, m) && (forall other :: !Adds(input, m, other)) ==>
              Registration(KeyOf(m).value, before, input) == before
    ensures Registration(KeyOf(m).value, before, input) == Some(tx) ==>
              Adds(input, m, tx) || (before == Some(tx) && !Removes(input, m) && forall other :: !Adds(input, m, other))
  {
    if input.Told? {
      match input.command
      case AddUpstream(alias, other) => assert Adds(input, m, other) <==> KeyOf(m) == Some(UpKey(alias));
      case AddDownstream(alias, other) => assert Adds(input, m, other) <==> KeyOf(m) == Some(DownKey(alias));
      case SubscribeCallAck(callId, other) => assert Adds(input, m, other) <==> KeyOf(m) == Some(CallKey(callId));
      case _ =>
    }
  }

  lemma NobodyRegisters(inputs: seq<Input>, m: Message, tx: Tx, i: nat)
    requires KeyOf(m).None?
    ensures !StandsFrom(inputs, m, tx, i)
  {
  }

  /**
   Routing. A message reaches a channel if and only if that was registered for the message's stream or call, by the alias
   or id it carries, and since then neither another one nor the end of the registration has come.
   */
  lemma {:induction false} ReachesIff(inputs: seq<Input>, m: Message, tx: Tx)
    ensures Destination(inputs, m) == Some(tx) <==> exists i: nat :: StandsFrom(inputs, m, tx, i)
  {
    hide Adds, Removes, Registration;
    if KeyOf(m).None? {
      forall i: nat
        ensures !StandsFrom(inputs, m, tx, i)
      {
        NobodyRegisters(inputs, m, tx, i);
      }
    } else if |inputs| > 0 {
      var before, last := inputs[..|inputs| - 1], |inputs| - 1;
      ReachesIff(before, m, tx);
      InputMeans(m, Registered(KeyOf(m).value, before), inputs[last], tx);
      if Destination(inputs, m) == Some(tx) {
        if Adds(inputs[last], m, tx) {
          assert StandsFrom(inputs, m, tx, last);
        } else {
          var i: nat :| StandsFrom(before, m, tx, i);
          assert StandsFrom(inputs, m, tx, i);
        }
      } else if i: nat :| StandsFrom(inputs, m, tx, i) {
        assert i < last ==> StandsFrom(before, m, tx, i);
      }
    }
  }
}
