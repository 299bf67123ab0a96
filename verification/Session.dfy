/**
 A session with context-takeover compression: the write loop of one endpoint and the read loop
 of the other (src/transport/compression.rs:121-260, src/wire/mod.rs:461-472,
 src/wire/read_loop.rs:35-66). The DEFLATE codec (RFC 1951) and the message encoding are parameters.
 */
module Session {
  import opened Base
  import opened Dictionary

  datatype Codec<!M> = Codec(
    encode: M -> Option<Bytes>,
    decode: Bytes -> Option<M>,
    deflate: (Bytes, Bytes) -> Bytes,
    inflate: (Bytes, Bytes) -> Option<Bytes>)

  /**
   The only facts assumed of the foreign code: both codecs restore what they encoded, and a deflate stream
   has at least one block.
   */
  ghost predicate Lossless<M(!new)>(codec: Codec<M>) {
    && (forall m :: codec.encode(m).Some? ==> codec.decode(codec.encode(m).value) == Some(m))
    && (forall d, x :: codec.inflate(d, codec.deflate(d, x)) == Some(x) && |codec.deflate(d, x)| > 0)
  }

  datatype Mode = Off | PerMessage | ContextTakeover(windowBits: nat)

  ghost predicate ModeValid(mode: Mode) {
    mode.ContextTakeover? ==> 9 <= mode.windowBits <= 15
  }

  datatype Fault = NoFault | AtDictionary | AtCodec

  // ---------------------------------------------------------------- one message

  /** The dictionary after a message went through the compressor or the extractor. */
  function NextDictionary(mode: Mode, dictionary: Bytes, data: Bytes): Bytes {
    match mode
    case ContextTakeover(bits) => Window(Pow2(bits), dictionary + data)
    case _ => dictionary
  }

  /**
   What the compressor makes of `data`. The loop gives up on blank data when its reused output
   buffer has no capacity yet; `spare` says that it has.
   */
  function Compressed<M>(codec: Codec<M>, mode: Mode, dictionary: Bytes, data: Bytes, spare: bool): Bytes {
    if mode.Off? || (|data| == 0 && !spare) then data else codec.deflate(dictionary, data)
  }

  /** What the extractor makes of `data`; blank input stays blank. */
  function Extracted<M>(codec: Codec<M>, mode: Mode, dictionary: Bytes, data: Bytes): Option<Bytes> {
    if mode.Off? || |data| == 0 then Some(data) else codec.inflate(dictionary, data)
  }

  lemma ExtractUndoesCompress<M(!new)>(codec: Codec<M>, mode: Mode, dictionary: Bytes, data: Bytes, spare: bool)
    requires Lossless(codec)
    ensures Extracted(codec, mode, dictionary, Compressed(codec, mode, dictionary, data, spare)) == Some(data)
  {
    assert codec.inflate(dictionary, codec.deflate(dictionary, data)) == Some(data);
  }

  /** State shared by both directions: the dictionary, kept only with context takeover. */
  class Converter {
    const mode: Mode
    const dictionary: DictionaryBuffer?

    ghost predicate Valid()
      reads this, dictionary
    {
      && (dictionary != null <==> mode.ContextTakeover?)
      && (dictionary != null ==> dictionary.Valid() && dictionary.size == Pow2(mode.windowBits))
    }

    ghost function Held(): Bytes
      requires Valid()
      reads this, dictionary, if dictionary != null then {dictionary.buf} else {}
    {
      if dictionary == null then [] else dictionary.Contents()
    }

    constructor (mode: Mode)
      requires ModeValid(mode)
      ensures Valid() && this.mode == mode && Held() == []
      ensures dictionary != null ==> fresh(dictionary) && fresh(dictionary.buf)
    {
      this.mode := mode;
      if mode.ContextTakeover? {
        dictionary := new DictionaryBuffer(mode.windowBits);
      } else {
        dictionary := null;
      }
    }

    method Dictionary() returns (bytes: Bytes)
      requires Valid()
      ensures bytes == Held()
    {
      bytes := if dictionary == null then [] else dictionary.buf[..dictionary.len];
    }

    method Remember(data: Bytes)
      requires Valid()
      modifies if dictionary != null then {dictionary, dictionary.buf} else {}
      ensures Valid() && Held() == NextDictionary(mode, old(Held()), data)
    {
      if dictionary != null {
        dictionary.PushMsg(data);
      }
    }

    /** `Compressor::compress`: the message enters the dictionary before it is compressed. */
    method Compress<M>(codec: Codec<M>, data: Bytes, spare: bool, fault: Fault) returns (r: Result<Bytes, Fault>)
      requires Valid()
      modifies if dictionary != null then {dictionary, dictionary.buf} else {}
      ensures Valid()
      ensures var early := fault == AtDictionary && |old(Held())| > 0;
              && (r.Err? <==> !mode.Off? && (early || fault == AtCodec))
              && (r.Ok? ==> r.value == Compressed(codec, mode, old(Held()), data, spare))
              && Held() == if r.Err? && early then old(Held()) else NextDictionary(mode, old(Held()), data)
    {
      if mode.Off? {
        return Ok(data);
      }
      var known := Dictionary();
      if fault == AtDictionary && |known| > 0 {
        return Err(fault);
      }
      Remember(data);
      if fault == AtCodec {
        return Err(fault);
      }
      var out := if |data| == 0 && !spare then [] else codec.deflate(known, data);
      return Ok(out);
    }

    /** `Extractor::extract`: the message enters the dictionary once it has been restored. */
    method Extract<M>(codec: Codec<M>, data: Bytes, fault: Fault) returns (r: Option<Bytes>)
      requires Valid()
      modifies if dictionary != null then {dictionary, dictionary.buf} else {}
      ensures Valid()
      ensures mode.Off? || fault == NoFault ==> r == Extracted(codec, mode, old(Held()), data)
      ensures Held() == if r.Some? then NextDictionary(mode, old(Held()), r.value) else old(Held())
    {
      if mode.Off? {
        return Some(data);
      }
      var known := Dictionary();
      if fault == AtCodec || (fault == AtDictionary && |known| > 0) {
        return None;
      }
      r := if |data| == 0 then Some([]) else codec.inflate(known, data);
      if r.Some? {
        Remember(r.value);
      }
    }
  }

  // ---------------------------------------------------------------- whole sessions

  /**
   Both ends of one direction of a connection. `wire` holds the frames written and not read yet:
   the transport neither loses nor reorders. `sent` and `received` are the histories.
   */
  datatype State<M> = State(
    writerDict: Bytes,
    readerDict: Bytes,
    wire: seq<Bytes>,
    sent: seq<M>,
    received: seq<M>,
    writing: bool,
    reading: bool,
    readerFailed: bool)

  datatype Event<M> =
    | Write(msg: M, spare: bool, fault: Fault, transportOk: bool)
    | Command
    | Read
    | StopWriter
    | StopReader

  function Start<M>(): State<M> {
    State([], [], [], [], [], true, true, false)
  }

  /** One turn of the write loop. */
  function WriteTurn<M>(codec: Codec<M>, mode: Mode, s: State<M>, e: Event<M>): State<M>
    requires e.Write?
  {
    var encoded := codec.encode(e.msg);
    if encoded.None? then s
    else
      var early := !mode.Off? && e.fault == AtDictionary && |s.writerDict| > 0;
      var failed := early || (!mode.Off? && e.fault == AtCodec) || !e.transportOk;
      var t := s.(writerDict := if early then s.writerDict else NextDictionary(mode, s.writerDict, encoded.value));
      if failed then t.(writing := false)
      else
        var frame := Compressed(codec, mode, s.writerDict, encoded.value, e.spare);
        t.(wire := s.wire + [frame], sent := s.sent + [e.msg])
  }

  /** One turn of the read loop, on a frame or, after a command, on the empty buffer. */
  function ReadTurn<M>(codec: Codec<M>, mode: Mode, s: State<M>, frame: Option<Bytes>): State<M> {
    var data := Extracted(codec, mode, s.readerDict, if frame.Some? then frame.value else []);
    if data.None? then s.(reading := false, readerFailed := frame.Some?)
    else
      var s1 := s.(readerDict := NextDictionary(mode, s.readerDict, data.value));
      var msg := codec.decode(data.value);
      if msg.None? then s1.(reading := false, readerFailed := frame.Some?)
      else if frame.Some? then s1.(received := s.received + [msg.value])
      else s1
  }

  function Step<M>(codec: Codec<M>, mode: Mode, s: State<M>, e: Event<M>): State<M> {
    match e
    case Write(_, _, _, _) => if s.writing then WriteTurn(codec, mode, s, e) else s
    case Command => if s.reading then ReadTurn(codec, mode, s, None) else s
    case Read =>
      if s.reading && |s.wire| > 0 then ReadTurn(codec, mode, s.(wire := s.wire[1..]), Some(s.wire[0])) else s
    case StopWriter => s.(writing := false)
    case StopReader => s.(reading := false)
  }

  function Run<M>(codec: Codec<M>, mode: Mode, events: seq<Event<M>>): State<M> {
    if |events| == 0 then Start()
    else Step(codec, mode, Run(codec, mode, events[..|events| - 1]), events[|events| - 1])
  }

  /** The write loop, between two messages. */
  class WriteLoop<M(!new)> {
    const codec: Codec<M>
    const compressor: Converter
    var running: bool

    constructor (codec: Codec<M>, mode: Mode)
      requires ModeValid(mode)
      ensures this.codec == codec && running && fresh(compressor)
      ensures compressor.Valid() && compressor.mode == mode && compressor.Held() == []
    {
      this.codec := codec;
      compressor := new Converter(mode);
      running := true;
    }

    /** One message; `frame` is what the transport was given. */
    method Turn(msg: M, spare: bool, fault: Fault, transportOk: bool) returns (frame: Option<Bytes>)
      requires compressor.Valid() && running
      modifies this, if compressor.dictionary != null then {compressor.dictionary, compressor.dictionary.buf} else {}
      ensures compressor.Valid()
      ensures forall s: State<M> :: s.writing && s.writerDict == old(compressor.Held()) ==>
                WriteTurn(codec, compressor.mode, s, Write(msg, spare, fault, transportOk)) ==
                  s.(writing := running,
                     writerDict := compressor.Held(),
                     wire := s.wire + if frame.Some? then [frame.value] else [],
                     sent := s.sent + if frame.Some? then [msg] else [])
    {
      var encoded := codec.encode(msg);
      if encoded.None? {
        return None;
      }
      var compressed := compressor.Compress(codec, encoded.value, spare, fault);
      if compressed.Err? || !transportOk {
        running := false;
        return None;
      }
      return Some(compressed.value);
    }
  }

  /** The read loop, between two turns. */
  class ReadLoop<M(!new)> {
    const codec: Codec<M>
    const extractor: Converter
    var running: bool

    constructor (codec: Codec<M>, mode: Mode)
      requires ModeValid(mode)
      ensures this.codec == codec && running && fresh(extractor)
      ensures extractor.Valid() && extractor.mode == mode && extractor.Held() == []
    {
      this.codec := codec;
      extractor := new Converter(mode);
      running := true;
    }

    /** One turn, on a frame or, after a command, on the empty buffer. */
    method Turn(frame: Option<Bytes>) returns (msg: Option<M>)
      requires extractor.Valid() && running
      modifies this, if extractor.dictionary != null then {extractor.dictionary, extractor.dictionary.buf} else {}
      ensures extractor.Valid() && (running <==> msg.Some?)
      ensures forall s: State<M> :: s.reading && s.readerDict == old(extractor.Held()) ==>
                ReadTurn(codec, extractor.mode, s, frame) ==
                  s.(reading := running,
                     readerDict := extractor.Held(),
                     readerFailed := if running then s.readerFailed else frame.Some?,
                     received := s.received + if frame.Some? && running then [msg.value] else [])
    {
      var buf := if frame.Some? then frame.value else [];
      var data := extractor.Extract(codec, buf, NoFault);
      if data.None? {
        running := false;
        return None;
      }
      msg := codec.decode(data.value);
      running := msg.Some?;
    }
  }

  predicate AllEncodable<M>(codec: Codec<M>, msgs: seq<M>) {
    forall i :: 0 <= i < |msgs| ==> codec.encode(msgs[i]).Some?
  }

  /** The dictionary an endpoint has after these messages. */
  function DictionaryAfter<M>(codec: Codec<M>, mode: Mode, msgs: seq<M>): Bytes
    requires AllEncodable(codec, msgs)
  {
    if |msgs| == 0 then []
    else
      NextDictionary(mode, DictionaryAfter(codec, mode, msgs[..|msgs| - 1]), codec.encode(msgs[|msgs| - 1]).value)
  }

  /** `frame` is a compressed form of message number `k`. */
  ghost predicate Carries<M>(codec: Codec<M>, mode: Mode, sent: seq<M>, k: nat, frame: Bytes)
    requires AllEncodable(codec, sent) && k < |sent|
  {
    exists spare ::
      frame == Compressed(codec, mode, DictionaryAfter(codec, mode, sent[..k]), codec.encode(sent[k]).value, spare)
  }

  ghost predicate InLockstep<M>(codec: Codec<M>, mode: Mode, s: State<M>) {
    && AllEncodable(codec, s.sent)
    && s.received <= s.sent && |s.received| + |s.wire| == |s.sent| && !s.readerFailed
    && s.readerDict == DictionaryAfter(codec, mode, s.received)
    && (s.writing ==> s.writerDict == DictionaryAfter(codec, mode, s.sent))
    && forall i :: 0 <= i < |s.wire| ==> Carries(codec, mode, s.sent, |s.received| + i, s.wire[i])
  }

  lemma CarriesStill<M>(codec: Codec<M>, mode: Mode, sent: seq<M>, msg: M, k: nat, frame: Bytes)
    requires AllEncodable(codec, sent) && codec.encode(msg).Some? && k < |sent|
    requires Carries(codec, mode, sent, k, frame)
    ensures Carries(codec, mode, sent + [msg], k, frame)
  {
    hide Compressed, DictionaryAfter;
    var spare :| frame ==
      Compressed(codec, mode, DictionaryAfter(codec, mode, sent[..k]), codec.encode(sent[k]).value, spare);
    var more := sent + [msg];
    assert more[..k] == sent[..k];
    assert frame ==
      Compressed(codec, mode, DictionaryAfter(codec, mode, more[..k]), codec.encode(more[k]).value, spare);
  }

  lemma CarriesNew<M>(codec: Codec<M>, mode: Mode, sent: seq<M>, msg: M, spare: bool)
    requires AllEncodable(codec, sent) && codec.encode(msg).Some?
    ensures AllEncodable(codec, sent + [msg])
    ensures Carries(codec, mode, sent + [msg], |sent|,
                    Compressed(codec, mode, DictionaryAfter(codec, mode, sent), codec.encode(msg).value, spare))
    ensures DictionaryAfter(codec, mode, sent + [msg]) ==
              NextDictionary(mode, DictionaryAfter(codec, mode, sent), codec.encode(msg).value)
  {
    hide Compressed, NextDictionary;
    var more, k := sent + [msg], |sent|;
    assert more[..k] == sent;
    var frame := Compressed(codec, mode, DictionaryAfter(codec, mode, sent), codec.encode(msg).value, spare);
    assert frame ==
      Compressed(codec, mode, DictionaryAfter(codec, mode, more[..k]), codec.encode(more[k]).value, spare);
  }

  lemma WriteKeepsLockstep<M(!new)>(codec: Codec<M>, mode: Mode, s: State<M>, e: Event<M>)
    requires InLockstep(codec, mode, s) && e.Write? && s.writing
    ensures InLockstep(codec, mode, WriteTurn(codec, mode, s, e))
  {
    hide Compressed, NextDictionary, Carries, DictionaryAfter;
    if codec.encode(e.msg).Some? {
      CarriesNew(codec, mode, s.sent, e.msg, e.spare);
      forall i | 0 <= i < |s.wire|
        ensures Carries(codec, mode, s.sent + [e.msg], |s.received| + i, s.wire[i])
      {
        CarriesStill(codec, mode, s.sent, e.msg, |s.received| + i, s.wire[i]);
      }
    }
  }

  lemma ReadKeepsLockstep<M(!new)>(codec: Codec<M>, mode: Mode, s: State<M>)
    requires Lossless(codec) && InLockstep(codec, mode, s) && |s.wire| > 0
    ensures InLockstep(codec, mode, ReadTurn(codec, mode, s.(wire := s.wire[1..]), Some(s.wire[0])))
    ensures var t := ReadTurn(codec, mode, s.(wire := s.wire[1..]), Some(s.wire[0]));
            t.received == s.received + [s.sent[|s.received|]] && t.reading == s.reading
  {
    hide Carries, DictionaryAfter, AllEncodable, Lossless, ReadTurn;
    var k, t := |s.received|, s.(wire := s.wire[1..]);
    DictionaryAfterNext(codec, mode, s.sent, k);
    assert s.sent[..k] == s.received;
    assert Carries(codec, mode, s.sent, k + 0, s.wire[0]);
    NextIsRestored(codec, mode, s.sent, k, s.readerDict, s.wire[0]);
    NextIsRead(codec, mode, t, s.wire[0], s.sent[k]);
    assert s.received + [s.sent[k]] == s.sent[..k + 1];
    forall i | 0 <= i < |t.wire|
      ensures Carries(codec, mode, t.sent, k + 1 + i, t.wire[i])
    {
      assert Carries(codec, mode, s.sent, k + (i + 1), s.wire[i + 1]);
    }
  }

  lemma DictionaryAfterNext<M>(codec: Codec<M>, mode: Mode, sent: seq<M>, k: nat)
    requires AllEncodable(codec, sent) && k < |sent|
    ensures AllEncodable(codec, sent[..k]) && AllEncodable(codec, sent[..k + 1]) && codec.encode(sent[k]).Some?
    ensures DictionaryAfter(codec, mode, sent[..k + 1]) ==
              NextDictionary(mode, DictionaryAfter(codec, mode, sent[..k]), codec.encode(sent[k]).value)
  {
    assert sent[..k + 1][..k] == sent[..k];
  }

  /** The reader's dictionary is the one the frame was compressed with. */
  lemma NextIsRestored<M(!new)>(codec: Codec<M>, mode: Mode, sent: seq<M>, k: nat, dictionary: Bytes, frame: Bytes)
    requires Lossless(codec) && AllEncodable(codec, sent) && k < |sent| && Carries(codec, mode, sent, k, frame)
    requires AllEncodable(codec, sent[..k]) && dictionary == DictionaryAfter(codec, mode, sent[..k])
    ensures codec.encode(sent[k]).Some?
    ensures Extracted(codec, mode, dictionary, frame) == codec.encode(sent[k])
    ensures codec.decode(codec.encode(sent[k]).value) == Some(sent[k])
  {
    hide Compressed, Extracted, DictionaryAfter;
    var data := codec.encode(sent[k]).value;
    var spare :| frame == Compressed(codec, mode, dictionary, data, spare);
    ExtractUndoesCompress(codec, mode, dictionary, data, spare);
  }

  lemma NextIsRead<M>(codec: Codec<M>, mode: Mode, s: State<M>, frame: Bytes, msg: M)
    requires Extracted(codec, mode, s.readerDict, frame) == codec.encode(msg)
    requires codec.encode(msg).Some? && codec.decode(codec.encode(msg).value) == Some(msg)
    ensures ReadTurn(codec, mode, s, Some(frame)) ==
              s.(readerDict := NextDictionary(mode, s.readerDict, codec.encode(msg).value),
                 received := s.received + [msg])
  {
    hide Extracted, NextDictionary;
  }

  /** A command step extracts an empty buffer, which leaves the dictionary as it was. */
  lemma CommandKeepsLockstep<M>(codec: Codec<M>, mode: Mode, s: State<M>)
    requires ModeValid(mode) && InLockstep(codec, mode, s)
    ensures ReadTurn(codec, mode, s, None).readerDict == s.readerDict
    ensures InLockstep(codec, mode, ReadTurn(codec, mode, s, None))
  {
    hide NextDictionary, DictionaryAfter, Carries, Pow2;
    DictionaryFits(codec, mode, s.received);
    NothingToRemember(mode, s.readerDict);
  }

  lemma NothingToRemember(mode: Mode, dictionary: Bytes)
    requires mode.ContextTakeover? ==> |dictionary| <= Pow2(mode.windowBits)
    ensures NextDictionary(mode, dictionary, []) == dictionary
  {
    assert dictionary + [] == dictionary;
  }

  lemma {:induction false} DictionaryFits<M>(codec: Codec<M>, mode: Mode, msgs: seq<M>)
    requires AllEncodable(codec, msgs)
    ensures mode.ContextTakeover? ==> |DictionaryAfter(codec, mode, msgs)| <= Pow2(mode.windowBits)
    ensures !mode.ContextTakeover? ==> DictionaryAfter(codec, mode, msgs) == []
  {
    if |msgs| > 0 {
      DictionaryFits(codec, mode, msgs[..|msgs| - 1]);
    }
  }

  lemma StepKeepsLockstep<M(!new)>(codec: Codec<M>, mode: Mode, s: State<M>, e: Event<M>)
    requires Lossless(codec) && ModeValid(mode) && InLockstep(codec, mode, s)
    ensures InLockstep(codec, mode, Step(codec, mode, s, e))
  {
    hide Lossless, ModeValid, WriteTurn, ReadTurn, DictionaryAfter, Carries;
    if e.Write? && s.writing {
      WriteKeepsLockstep(codec, mode, s, e);
    } else if e.Command? {
      CommandKeepsLockstep(codec, mode, s);
    } else if e.Read? && |s.wire| > 0 {
      ReadKeepsLockstep(codec, mode, s);
    }
  }

  lemma {:induction false} RunKeepsLockstep<M(!new)>(codec: Codec<M>, mode: Mode, events: seq<Event<M>>)
    requires Lossless(codec) && ModeValid(mode)
    ensures InLockstep(codec, mode, Run(codec, mode, events))
  {
    if |events| > 0 {
      var before := events[..|events| - 1];
      RunKeepsLockstep(codec, mode, before);
      hide Lossless, ModeValid, Step, InLockstep;
      StepKeepsLockstep(codec, mode, Run(codec, mode, before), events[|events| - 1]);
    }
  }

  /**
   Session round trip. In every run, with encode failures, command steps and either loop stopping
   at any point, the receiver has seen exactly a prefix of what was written, its extractor has
   never failed on it, and after each processed message its dictionary is the one the compressor
   had after writing that message; when everything written has been read the two are equal.
   */
  lemma SessionRoundTrip<M(!new)>(codec: Codec<M>, mode: Mode, events: seq<Event<M>>)
    requires Lossless(codec) && ModeValid(mode)
    ensures var s := Run(codec, mode, events);
            && s.received <= s.sent && !s.readerFailed
            && AllEncodable(codec, s.sent)
            && s.readerDict == DictionaryAfter(codec, mode, s.sent[..|s.received|])
            && (s.writing ==> s.writerDict == DictionaryAfter(codec, mode, s.sent))
            && (s.writing && |s.wire| == 0 ==> s.received == s.sent && s.readerDict == s.writerDict)
            && |s.received| + |s.wire| == |s.sent|
  {
    RunKeepsLockstep(codec, mode, events);
    var s := Run(codec, mode, events);
    hide Run, Lossless, DictionaryAfter, Carries;
    assert s.sent[..|s.received|] == s.received;
    assert s.sent[..|s.sent|] == s.sent;
  }

  lemma {:induction false} DictionaryAfterIsPushed<M>(codec: Codec<M>, mode: Mode, msgs: seq<M>)
    requires AllEncodable(codec, msgs) && mode.ContextTakeover?
    ensures DictionaryAfter(codec, mode, msgs) == Pushed(Pow2(mode.windowBits), EncodingsOf(codec, msgs))
  {
    if |msgs| > 0 {
      var before := msgs[..|msgs| - 1];
      DictionaryAfterIsPushed(codec, mode, before);
      assert EncodingsOf(codec, msgs)[..|msgs| - 1] == EncodingsOf(codec, before);
    }
  }

  function EncodingsOf<M>(codec: Codec<M>, msgs: seq<M>): seq<Bytes>
    requires AllEncodable(codec, msgs)
  {
    seq(|msgs|, i requires 0 <= i < |msgs| => codec.encode(msgs[i]).value)
  }

  // ---------------------------------------------------------------- how a session goes on

  /**
   A write that ends the write loop: the message can be encoded, but the transport fails or, with compression, the
   codec does or a dictionary that is not empty cannot be set. `sent` is what was written before.
   */
  ghost predicate WriteFails<M>(codec: Codec<M>, mode: Mode, sent: seq<M>, e: Event<M>)
    requires AllEncodable(codec, sent)
  {
    && e.Write? && codec.encode(e.msg).Some?
    && (|| !e.transportOk
        || (!mode.Off? && e.fault == AtCodec)
        || (mode.ContextTakeover? && e.fault == AtDictionary && exists i :: 0 <= i < |sent| && codec.encode(sent[i]) != Some([])))
  }

  /** The dictionary is empty as long as nothing but empty encodings has gone through. */
  lemma {:induction false} DictionaryIsEmptyIff<M>(codec: Codec<M>, mode: Mode, msgs: seq<M>)
    requires AllEncodable(codec, msgs) && ModeValid(mode) && mode.ContextTakeover?
    ensures DictionaryAfter(codec, mode, msgs) == [] <==> forall i :: 0 <= i < |msgs| ==> codec.encode(msgs[i]) == Some([])
  {
    if |msgs| > 0 {
      var before, data := msgs[..|msgs| - 1], codec.encode(msgs[|msgs| - 1]).value;
      DictionaryIsEmptyIff(codec, mode, before);
      PowerIsPositive(mode.windowBits);
      WindowIsEmptyIff(Pow2(mode.windowBits), DictionaryAfter(codec, mode, before) + data);
      hide Window, Pow2;
      assert forall i :: 0 <= i < |before| ==> before[i] == msgs[i];
    }
  }

  lemma {:induction false} PowerIsPositive(bits: nat)
    ensures Pow2(bits) > 0
  {
    if bits > 0 {
      PowerIsPositive(bits - 1);
    }
  }

  lemma WindowIsEmptyIff(size: nat, s: Bytes)
    requires size > 0
    ensures Window(size, s) == [] <==> s == []
  {
  }

  lemma WriteGoesOn<M(!new)>(codec: Codec<M>, mode: Mode, s: State<M>, e: Event<M>)
    requires ModeValid(mode) && InLockstep(codec, mode, s) && s.writing && e.Write?
    ensures var t := WriteTurn(codec, mode, s, e);
            && t.sent == s.sent +
                 (if codec.encode(e.msg).Some? && !WriteFails(codec, mode, s.sent, e) then [e.msg] else [])
            && (t.writing <==> !WriteFails(codec, mode, s.sent, e))
            && t.received == s.received && t.reading == s.reading
  {
    hide NextDictionary, Compressed, Carries, DictionaryAfter;
    DictionaryFits(codec, mode, s.sent);
    if mode.ContextTakeover? {
      DictionaryIsEmptyIff(codec, mode, s.sent);
    }
    assert s.sent + [] == s.sent;
  }

  lemma CommandGoesOn<M>(codec: Codec<M>, mode: Mode, s: State<M>)
    ensures var t := ReadTurn(codec, mode, s, None);
            && t.sent == s.sent && t.received == s.received && t.writing == s.writing
            && (t.reading <==> s.reading && codec.decode([]).Some?)
  {
    hide NextDictionary;
  }

  /**
   How a session goes on, from any point of any run. What is sent are exactly the messages that can be encoded and are written
   without a failure while the write loop runs; a message that cannot be encoded is passed over. Only a failure or the
   stop ends the write loop. Each frame read gives the next message sent. Only the stop ends the read loop, or a
   command, if nothing decodes from an empty buffer.
   */
  lemma SessionGoesOn<M(!new)>(codec: Codec<M>, mode: Mode, events: seq<Event<M>>, e: Event<M>)
    requires Lossless(codec) && ModeValid(mode)
    ensures var s, t := Run(codec, mode, events), Run(codec, mode, events + [e]);
            && AllEncodable(codec, s.sent) && |s.received| <= |s.sent|
            && t.sent == s.sent +
                 (if s.writing && e.Write? && codec.encode(e.msg).Some? && !WriteFails(codec, mode, s.sent, e) then [e.msg]
                  else [])
            && (t.writing <==> s.writing && !e.StopWriter? && !WriteFails(codec, mode, s.sent, e))
            && t.received == s.received +
                 (if s.reading && e.Read? && |s.received| < |s.sent| then [s.sent[|s.received|]] else [])
            && (t.reading <==> s.reading && !e.StopReader? && (e.Command? ==> codec.decode([]).Some?))
  {
    hide Run, Lossless, ModeValid, WriteTurn, ReadTurn, WriteFails, Carries, DictionaryAfter;
    RunKeepsLockstep(codec, mode, events);
    RunSnoc(codec, mode, events, e);
    var s := Run(codec, mode, events);
    assert s.sent + [] == s.sent && s.received + [] == s.received;
    OnlyWritesFail(codec, mode, s.sent, e);
    if e.Write? && s.writing {
      WriteGoesOn(codec, mode, s, e);
    } else if e.Command? {
      CommandGoesOn(codec, mode, s);
    } else if e.Read? && |s.wire| > 0 {
      ReadKeepsLockstep(codec, mode, s);
      ReadOnlyReads(codec, mode, s.(wire := s.wire[1..]), Some(s.wire[0]));
    }
  }

  lemma OnlyWritesFail<M>(codec: Codec<M>, mode: Mode, sent: seq<M>, e: Event<M>)
    requires AllEncodable(codec, sent)
    ensures WriteFails(codec, mode, sent, e) ==> e.Write?
  {
  }

  lemma ReadOnlyReads<M>(codec: Codec<M>, mode: Mode, s: State<M>, frame: Option<Bytes>)
    ensures var t := ReadTurn(codec, mode, s, frame); t.sent == s.sent && t.writing == s.writing
  {
    hide NextDictionary, Extracted;
  }

  lemma RunSnoc<M>(codec: Codec<M>, mode: Mode, events: seq<Event<M>>, e: Event<M>)
    ensures Run(codec, mode, events + [e]) == Step(codec, mode, Run(codec, mode, events), e)
  {
    assert (events + [e])[..|events|] == events;
  }

  /** What is remembered of the messages sent: with context takeover the last 2^bits bytes of their encodings, otherwise nothing. */
  function Known<M>(codec: Codec<M>, mode: Mode, sent: seq<M>): Bytes
    requires AllEncodable(codec, sent)
  {
    if mode.ContextTakeover? then Window(Pow2(mode.windowBits), Flatten(EncodingsOf(codec, sent))) else []
  }

  lemma DictionaryIsKnown<M>(codec: Codec<M>, mode: Mode, sent: seq<M>)
    requires AllEncodable(codec, sent)
    ensures DictionaryAfter(codec, mode, sent) == Known(codec, mode, sent)
  {
    DictionaryFits(codec, mode, sent);
    if mode.ContextTakeover? {
      DictionaryAfterIsPushed(codec, mode, sent);
      DictionaryIsSlidingWindow(Pow2(mode.windowBits), EncodingsOf(codec, sent));
    }
  }

  /**
   What goes onto the wire for a message that is sent: its encoding if compression is off, otherwise the encoding deflated with
   what is remembered of the messages sent before. Only a blank encoding may be left as it is.
   */
  lemma FramesAreDeflated<M(!new)>(codec: Codec<M>, mode: Mode, events: seq<Event<M>>, e: Event<M>)
    requires Lossless(codec) && ModeValid(mode)
    requires var s := Run(codec, mode, events);
             && s.writing && e.Write? && codec.encode(e.msg).Some?
             && AllEncodable(codec, s.sent) && !WriteFails(codec, mode, s.sent, e)
    ensures var s, t := Run(codec, mode, events), Run(codec, mode, events + [e]);
            var data := codec.encode(e.msg).value;
            t.wire == s.wire +
              [if mode.Off? || (data == [] && !e.spare) then data else codec.deflate(Known(codec, mode, s.sent), data)]
  {
    hide Run, Lossless, ModeValid, WriteFails, Carries, DictionaryAfter, Known, NextDictionary;
    RunKeepsLockstep(codec, mode, events);
    RunSnoc(codec, mode, events, e);
    var s := Run(codec, mode, events);
    DictionaryIsKnown(codec, mode, s.sent);
    WriteGoesOn(codec, mode, s, e);
    StaysWriting(codec, mode, s, e);
  }

  lemma StaysWriting<M>(codec: Codec<M>, mode: Mode, s: State<M>, e: Event<M>)
    requires e.Write? && s.writing && codec.encode(e.msg).Some? && WriteTurn(codec, mode, s, e).writing
    ensures WriteTurn(codec, mode, s, e).wire ==
              s.wire + [Compressed(codec, mode, s.writerDict, codec.encode(e.msg).value, e.spare)]
  {
    hide NextDictionary, Compressed;
  }

  /**
   A frame that cannot be inflated, or does not decode, ends the read loop and gives no message. Nothing is assumed of the
   codec.
   */
  lemma UnreadableFrameStops<M>(codec: Codec<M>, mode: Mode, s: State<M>)
    requires s.reading && |s.wire| > 0
    ensures var frame, t := s.wire[0], Step(codec, mode, s, Read);
            var data := if mode.Off? || frame == [] then Some(frame) else codec.inflate(s.readerDict, frame);
            && t.wire == s.wire[1..] && t.sent == s.sent
            && (if data.Some? && codec.decode(data.value).Some? then
                  t.reading && t.received == s.received + [codec.decode(data.value).value] && t.readerFailed == s.readerFailed
                else !t.reading && t.received == s.received && t.readerFailed)
  {
    hide NextDictionary;
  }
}
