/**
  The ZMTP 2.0 and 3.1 framing on top of the two drivers: the steps of
  v2_encoder.cpp and v3_1_encoder.cpp, and those of v2_decoder.cpp.
 */
module FrameCodec {
  import opened Bytes
  import opened MessageKinds
  import E = StreamEncoder
  import D = StreamDecoder
  import G = StreamEngine

  const MORE_FLAG := 1
  const LARGE_FLAG := 2
  const COMMAND_FLAG := 4
  const UCHAR_MAX := 255

  // An outgoing message: the more and command bits, whether it is a subscription, the data.
  datatype Msg = Msg(more: bool, command: bool, kind: Kind, body: seq<Byte>)

  // A decoded message.
  datatype Decoded = Decoded(more: bool, command: bool, data: seq<Byte>)

  datatype Version = V2 | V31

  predicate IsCommand(v: Version, m: Msg) {
    m.command || (v.V31? && !m.kind.Plain?)
  }

  function Bit(b: bool, value: nat): nat {
    if b then value else 0
  }

  /** Lines 50-89 of v2_encoder.cpp, 50-98 of v3_1_encoder.cpp. */
  function Header(v: Version, m: Msg): seq<Byte>
    requires |m.body| + 10 < 0x1_0000_0000_0000_0000
  {
    var size := |m.body| + |Prefix(v.V2?, m.kind)|;
    var flags := Bit(m.more, MORE_FLAG) + Bit(|m.body| > UCHAR_MAX, LARGE_FLAG) + Bit(IsCommand(v, m), COMMAND_FLAG);
    [flags] + (if size > UCHAR_MAX then PutUint64(size) else [size]) + Prefix(v.V2?, m.kind)
  }

  // The encoder's next step: message_ready, then size_ready.
  datatype EncState = MessageReady | SizeReady

  type Sendable = m: Msg | |m.body| + 10 < 0x1_0000_0000_0000_0000 witness Msg(false, false, Plain, [])

  function EncStep(v: Version, s: EncState, m: Sendable): E.Outcome<EncState> {
    match s
    case MessageReady => E.Outcome(SizeReady, Header(v, m), false)
    case SizeReady => E.Outcome(MessageReady, m.body, true)
  }

  function EncMachine(v: Version): E.Machine<EncState, Sendable> {
    E.Machine((s, m) => EncStep(v, s, m), (s: EncState) => if s.MessageReady? then 1 else 0)
  }

  function Wire(v: Version, m: Sendable): seq<Byte> {
    Header(v, m) + m.body
  }

  lemma EncoderSends(v: Version, m: Sendable)
    ensures E.Legal(EncMachine(v))
    ensures E.Stream(EncMachine(v), MessageReady, m) == Wire(v, m)
    ensures E.Final(EncMachine(v), MessageReady, m) == MessageReady
  {
  }

  /** Byte by byte: the flags, a size that counts all that follows it, a command name or one byte, the body. */
  lemma {:induction false} FrameBytes(v: Version, m: Sendable)
    ensures var w := Wire(v, m); var before := |w| - |m.body|;
            && before >= 2 && w[before..] == m.body
            && w[0] == (if m.more then 1 else 0) + (if |m.body| >= 256 then 2 else 0)
                       + (if m.command || (v.V31? && m.kind != Plain) then 4 else 0)
            && (if |w| < 258 then w[1] == |w| - 2 else |w| >= 265 && GetUint(w[1..9]) == |w| - 9)
            && (m.kind == Plain ==> before == if |w| < 258 then 2 else 9)
            && (m.kind == Subscribe && v.V2? ==> before == (if |w| < 258 then 3 else 10) && w[before - 1] == 1)
            && (m.kind == Cancel && v.V2? ==> before == (if |w| < 258 then 3 else 10) && w[before - 1] == 0)
            && (m.kind == Subscribe && v.V31? ==>
                  before == (if |w| < 258 then 12 else 19) && w[before - 10..before] == [9] + Ascii("SUBSCRIBE"))
            && (m.kind == Cancel && v.V31? ==>
                  before == (if |w| < 258 then 9 else 16) && w[before - 7..before] == [6] + Ascii("CANCEL"))
  {
    hide BigEndian, GetUint, Ascii, Prefix, Wire;
    PrefixIs(v.V2?);
    FrameParts(v, m);
  }

  lemma {:induction false} FrameParts(v: Version, m: Sendable)
    ensures var w := Wire(v, m); var p := Prefix(v.V2?, m.kind); var n := if |w| < 258 then 2 else 9;
            && |w| == n + |p| + |m.body| && w[n..n + |p|] == p && w[n + |p|..] == m.body
            && w[0] == Bit(m.more, 1) + Bit(|m.body| >= 256, 2) + Bit(IsCommand(v, m), 4)
            && (if |w| < 258 then w[1] == |w| - 2 else |w| >= 265 && GetUint(w[1..9]) == |w| - 9)
  {
    hide BigEndian, GetUint, Prefix;
    var p := Prefix(v.V2?, m.kind);
    var size := |m.body| + |p|;
    SizeBytes(size);
    var w := Wire(v, m);
    if size > UCHAR_MAX {
      assert w[1..9] == PutUint64(size);
    }
  }

  // ---------------------------------------------------------------------
  // The decoder's steps

  datatype Phase = FlagsReady | OneByteSizeReady | EightByteSizeReady | BodyReady

  datatype DecState = DecState(phase: Phase, more: bool, command: bool, out: seq<Decoded>)

  /** Lines 94-159 of v2_decoder.cpp: `maxSize` is negative for no limit. */
  function SizeReadyStep(maxSize: int, s: DecState, size: nat): D.Outcome<DecState> {
    if maxSize >= 0 && size > maxSize then D.Outcome(s, 0, -1)
    else D.Outcome(s.(phase := BodyReady), size, 0)
  }

  /** Lines 62-92 and 161-167. */
  function DecStep(maxSize: int, s: DecState, data: seq<Byte>): D.Outcome<DecState> {
    match s.phase
    case FlagsReady =>
      var f := if data == [] then 0 else data[0];
      var s' := s.(more := f % 2 == 1, command := f / 4 % 2 == 1);
      if f / 2 % 2 == 1 then D.Outcome(s'.(phase := EightByteSizeReady), 8, 0)
      else D.Outcome(s'.(phase := OneByteSizeReady), 1, 0)
    case OneByteSizeReady => SizeReadyStep(maxSize, s, if data == [] then 0 else data[0])
    case EightByteSizeReady => SizeReadyStep(maxSize, s, GetUint(data))
    case BodyReady =>
      D.Outcome(s.(phase := FlagsReady, out := s.out + [Decoded(s.more, s.command, data)]), 1, 1)
  }

  function DecMachine(maxSize: int): D.Machine<DecState> {
    D.Machine((s, d) => DecStep(maxSize, s, d), (s: DecState) => if s.phase.BodyReady? then 0 else 1)
  }

  lemma DecoderLegal(maxSize: int)
    ensures D.Legal(DecMachine(maxSize))
  {
  }

  /** Between messages: one byte is awaited for the flags. */
  ghost predicate Idle(c: D.Config<DecState>) {
    c.state.phase.FlagsReady? && c.got == [] && c.toRead == 1 && !c.dead
  }

  /** The message a receiver should see. */
  function Expected(v: Version, m: Msg): Decoded {
    Decoded(m.more, IsCommand(v, m), Prefix(v.V2?, m.kind) + m.body)
  }

  /** A plain message is seen as it was sent, a subscription as one byte, or as a command, in front of the topic. */
  lemma {:induction false} MessageSeen(v: Version, m: Msg)
    ensures var d := Expected(v, m);
            && d.more == m.more
            && (m.kind == Plain ==> d.command == m.command && d.data == m.body)
            && (v.V2? ==> d.command == m.command)
            && (v.V2? && m.kind == Subscribe ==> d.data == [1] + m.body)
            && (v.V2? && m.kind == Cancel ==> d.data == [0] + m.body)
            && (v.V31? && m.kind != Plain ==> d.command)
            && (v.V31? && m.kind == Subscribe ==> d.data == [9] + Ascii("SUBSCRIBE") + m.body)
            && (v.V31? && m.kind == Cancel ==> d.data == [6] + Ascii("CANCEL") + m.body)
  {
    PrefixIs(v.V2?);
    hide Ascii, Prefix;
  }

  ghost predicate Fits(maxSize: int, v: Version, m: Msg) {
    maxSize < 0 || |Expected(v, m).data| <= maxSize
  }

  /** The size field has eight bytes but the large flag is not set. */
  predicate Misframed(v: Version, m: Msg) {
    |m.body| <= UCHAR_MAX < |m.body| + |Prefix(v.V2?, m.kind)|
  }

  ghost predicate At(c: D.Config<DecState>, phase: Phase, toRead: nat, more: bool, command: bool, out: seq<Decoded>) {
    c.state == DecState(phase, more, command, out) && c.got == [] && c.toRead == toRead && !c.dead
  }

  lemma AfterFlags(maxSize: int, c: D.Config<DecState>, f: Byte)
    requires D.Legal(DecMachine(maxSize)) && Idle(c)
    ensures At(D.Feed(DecMachine(maxSize), c, [f]),
               if f / 2 % 2 == 1 then EightByteSizeReady else OneByteSizeReady, if f / 2 % 2 == 1 then 8 else 1,
               f % 2 == 1, f / 4 % 2 == 1, c.state.out)
  {
    var m := DecMachine(maxSize);
    D.FeedBlock(m, c, [f]);
    var c' := c.(got := c.got + [f], toRead := 0);
    assert c'.got == [f];
    assert D.Settle(m, c') == D.Stepped(m, c');
  }

  lemma AfterSize(maxSize: int, c: D.Config<DecState>, b: seq<Byte>, size: nat)
    requires D.Legal(DecMachine(maxSize)) && c.toRead == |b| && c.got == [] && !c.dead
    requires if c.state.phase.OneByteSizeReady? then |b| == 1 && size == b[0]
             else c.state.phase.EightByteSizeReady? && |b| == 8 && size == GetUint(b)
    ensures var c' := D.Feed(DecMachine(maxSize), c, b); var s := c.state;
            if maxSize >= 0 && size > maxSize then c'.dead && c'.state.out == s.out
            else if size > 0 then At(c', BodyReady, size, s.more, s.command, s.out)
            else At(c', FlagsReady, 1, s.more, s.command, s.out + [Decoded(s.more, s.command, [])])
  {
    var m := DecMachine(maxSize);
    D.FeedBlock(m, c, b);
    var c' := c.(got := c.got + b, toRead := 0);
    assert c'.got == b;
    if size == 0 {
      assert D.Settle(m, c') == D.Settle(m, D.Stepped(m, c'));
    } else {
      assert D.Settle(m, c') == D.Stepped(m, c');
    }
  }

  lemma AfterBody(maxSize: int, c: D.Config<DecState>, d: seq<Byte>, more: bool, command: bool, out: seq<Decoded>)
    requires D.Legal(DecMachine(maxSize)) && d != [] && At(c, BodyReady, |d|, more, command, out)
    ensures At(D.Feed(DecMachine(maxSize), c, d), FlagsReady, 1, more, command, out + [Decoded(more, command, d)])
  {
    var m := DecMachine(maxSize);
    D.FeedBlock(m, c, d);
    var c' := c.(got := c.got + d, toRead := 0);
    assert c'.got == d;
    assert D.Settle(m, c') == D.Stepped(m, c');
  }

  lemma FlagBits(more: bool, large: bool, command: bool)
    ensures var f := Bit(more, MORE_FLAG) + Bit(large, LARGE_FLAG) + Bit(command, COMMAND_FLAG);
            f < 256 && (f % 2 == 1 <==> more) && (f / 2 % 2 == 1 <==> large) && (f / 4 % 2 == 1 <==> command)
  {
  }

  /** A frame in three parts: flags, size, payload. */
  lemma FeedFrame(maxSize: int, c: D.Config<DecState>, f: Byte, b: seq<Byte>, size: nat, d: seq<Byte>)
    requires D.Legal(DecMachine(maxSize)) && Idle(c)
    requires if f / 2 % 2 == 1 then |b| == 8 && size == GetUint(b) else |b| == 1 && size == b[0]
    requires |d| == size
    ensures var c' := D.Feed(DecMachine(maxSize), c, [f] + b + d);
            if maxSize >= 0 && size > maxSize then c'.dead && c'.state.out == c.state.out
            else Idle(c') && c'.state.out == c.state.out + [Decoded(f % 2 == 1, f / 4 % 2 == 1, d)]
  {
    var m := DecMachine(maxSize);
    hide D.Legal, D.Feed;
    AfterFlags(maxSize, c, f);
    var c1 := D.Feed(m, c, [f]);
    D.FeedJoin(m, c, [f], b);
    AfterSize(maxSize, c1, b, size);
    var c2 := D.Feed(m, c1, b);
    D.FeedJoin(m, c, [f] + b, d);
    if c2.dead {
      D.FeedDead(m, c2, d);
    } else if size == 0 {
      D.FeedNone(m, c2);
    } else {
      AfterBody(maxSize, c2, d, f % 2 == 1, f / 4 % 2 == 1, c.state.out);
    }
  }

  /** Decoded messages are never taken back. */
  lemma {:induction false} OutGrows(maxSize: int, c: D.Config<DecState>, bytes: seq<Byte>)
    requires D.Legal(DecMachine(maxSize))
    ensures c.state.out <= D.Feed(DecMachine(maxSize), c, bytes).state.out
  {
    if bytes != [] {
      var m := DecMachine(maxSize);
      OutGrows(maxSize, c, bytes[..|bytes| - 1]);
      var c1 := D.Feed(m, c, bytes[..|bytes| - 1]);
      var left := if c1.toRead == 0 then 0 else c1.toRead - 1;
      SettleGrows(maxSize, c1.(got := c1.got + [bytes[|bytes| - 1]], toRead := left));
    }
  }

  lemma {:induction false} SettleGrows(maxSize: int, c: D.Config<DecState>)
    requires D.Legal(DecMachine(maxSize))
    ensures c.state.out <= D.Settle(DecMachine(maxSize), c).state.out
    decreases DecMachine(maxSize).rank(c.state)
  {
    var m := DecMachine(maxSize);
    if !D.Waiting(c) && m.step(c.state, c.got).rc == 0 && m.step(c.state, c.got).toRead == 0 {
      SettleGrows(maxSize, D.Stepped(m, c));
    }
  }

  /** A frame of the right form is decoded to the message sent, or refused if it is too long. */
  lemma FrameRoundTrip(v: Version, maxSize: int, c: D.Config<DecState>, m: Sendable)
    requires D.Legal(DecMachine(maxSize)) && Idle(c) && !Misframed(v, m)
    ensures var c' := D.Feed(DecMachine(maxSize), c, Wire(v, m));
            if maxSize < 0 || |Expected(v, m).data| <= maxSize
            then Idle(c') && c'.state.out == c.state.out + [Expected(v, m)]
            else c'.dead && c'.state.out == c.state.out
  {
    hide D.Legal, D.Feed, BigEndian, Prefix;
    var large := |m.body| > UCHAR_MAX;
    var size := |m.body| + |Prefix(v.V2?, m.kind)|;
    FlagBits(m.more, large, IsCommand(v, m));
    SizeBytes(size);
    var f := Bit(m.more, MORE_FLAG) + Bit(large, LARGE_FLAG) + Bit(IsCommand(v, m), COMMAND_FLAG);
    var b := if size > UCHAR_MAX then PutUint64(size) else [size];
    var d := Prefix(v.V2?, m.kind) + m.body;
    assert Wire(v, m) == [f] + b + d;
    FeedFrame(maxSize, c, f, b, size, d);
  }

  /** Without the large flag the decoder takes the first size byte, a zero, for the size. */
  lemma FrameBroken(v: Version, maxSize: int, c: D.Config<DecState>, m: Sendable)
    requires D.Legal(DecMachine(maxSize)) && Idle(c) && Misframed(v, m)
    ensures c.state.out + [Decoded(m.more, IsCommand(v, m), [])] <= D.Feed(DecMachine(maxSize), c, Wire(v, m)).state.out
  {
    hide D.Legal, D.Feed, Wire;
    FlagBits(m.more, false, IsCommand(v, m));
    var f := Bit(m.more, MORE_FLAG) + Bit(false, LARGE_FLAG) + Bit(IsCommand(v, m), COMMAND_FLAG);
    var rest := MisframedWire(v, m, f);
    FeedFrame(maxSize, c, f, [0], 0, []);
    D.FeedJoin(DecMachine(maxSize), c, [f] + [0] + [], rest);
    OutGrows(maxSize, D.Feed(DecMachine(maxSize), c, [f] + [0] + []), rest);
  }

  lemma MisframedWire(v: Version, m: Sendable, f: Byte) returns (rest: seq<Byte>)
    requires Misframed(v, m)
    requires f == Bit(m.more, MORE_FLAG) + Bit(false, LARGE_FLAG) + Bit(IsCommand(v, m), COMMAND_FLAG)
    ensures Wire(v, m) == ([f] + [0] + []) + rest
  {
    hide BigEndian, Prefix;
    var size := |m.body| + |Prefix(v.V2?, m.kind)|;
    SizeBytes(size);
    var eight := PutUint64(size);
    assert eight == [0] + eight[1..];
    rest := eight[1..] + Prefix(v.V2?, m.kind) + m.body;
  }

  /** The round trip holds exactly when the large flag and the size field agree. */
  lemma FramingExact(v: Version, maxSize: int, c: D.Config<DecState>, m: Sendable)
    requires D.Legal(DecMachine(maxSize)) && Idle(c) && Fits(maxSize, v, m)
    ensures var c' := D.Feed(DecMachine(maxSize), c, Wire(v, m));
            Idle(c') && c'.state.out == c.state.out + [Expected(v, m)] <==> !Misframed(v, m)
  {
    if !Misframed(v, m) {
      FrameRoundTrip(v, maxSize, c, m);
    } else {
      FrameBroken(v, maxSize, c, m);
      hide D.Legal, D.Feed;
      var out := D.Feed(DecMachine(maxSize), c, Wire(v, m)).state.out;
      assert out[|c.state.out|] == Decoded(m.more, IsCommand(v, m), []);
      assert Expected(v, m).data != [];
    }
  }

  /** A subscription to a topic of 255 bytes does not arrive. */
  lemma LostSubscription(c: D.Config<DecState>)
    requires D.Legal(DecMachine(-1)) && Idle(c)
    ensures var m := Msg(false, false, Subscribe, seq(255, _ => 97));
            D.Feed(DecMachine(-1), c, Wire(V2, m)).state.out != c.state.out + [Expected(V2, m)]
  {
    var m := Msg(false, false, Subscribe, seq(255, _ => 97));
    FrameBroken(V2, -1, c, m);
    hide D.Legal, D.Feed, Wire;
    var out := D.Feed(DecMachine(-1), c, Wire(V2, m)).state.out;
    assert out[|c.state.out|] == Decoded(false, false, []);
    assert Expected(V2, m).data != [];
  }

  // ---------------------------------------------------------------------
  // From sender to receiver

  function WireAll(v: Version, ms: seq<Sendable>): seq<Byte> {
    if ms == [] then [] else WireAll(v, ms[..|ms| - 1]) + Wire(v, ms[|ms| - 1])
  }

  function ExpectedAll(v: Version, ms: seq<Sendable>): seq<Decoded> {
    if ms == [] then [] else ExpectedAll(v, ms[..|ms| - 1]) + [Expected(v, ms[|ms| - 1])]
  }

  ghost predicate Deliverable(v: Version, maxSize: int, ms: seq<Sendable>) {
    forall i :: 0 <= i < |ms| ==> !Misframed(v, ms[i]) && Fits(maxSize, v, ms[i])
  }

  lemma {:induction false} StreamRoundTrip(v: Version, maxSize: int, c: D.Config<DecState>, ms: seq<Sendable>)
    requires D.Legal(DecMachine(maxSize)) && Idle(c) && Deliverable(v, maxSize, ms)
    ensures var c' := D.Feed(DecMachine(maxSize), c, WireAll(v, ms));
            Idle(c') && c'.state.out == c.state.out + ExpectedAll(v, ms)
  {
    hide D.Legal, D.Feed, Wire, Expected;
    if ms == [] {
      D.FeedNone(DecMachine(maxSize), c);
    } else {
      var init, last := ms[..|ms| - 1], ms[|ms| - 1];
      StreamRoundTrip(v, maxSize, c, init);
      D.FeedJoin(DecMachine(maxSize), c, WireAll(v, init), Wire(v, last));
      FrameRoundTrip(v, maxSize, D.Feed(DecMachine(maxSize), c, WireAll(v, init)), last);
    }
  }

  /**
    Messages encoded into buffers of any size, their bytes read in any pieces and
    by either path, the session putting messages off as it likes: the input is
    never refused, and once all of it is decoded the receiver has the messages, in
    order, and the session took each of them.
   */
  method EndToEnd(v: Version, maxSize: int, bufSize: nat, ms: seq<Sendable>,
                  supplied: nat -> bool, size: nat -> nat, occasions: seq<G.Occasion>)
    returns (sent: seq<Byte>, decoded: nat, finished: bool, badInput: bool, received: seq<Decoded>)
    requires bufSize > 0 && forall i :: size(i) > 0
    requires Deliverable(v, maxSize, ms)
    ensures sent == WireAll(v, ms) && decoded <= |sent| && !badInput
    ensures finished ==> decoded == |sent| && received == ExpectedAll(v, ms)
  {
    DecoderLegal(maxSize);
    EncoderLegal(v);
    hide D.Legal, D.Feed, E.Legal, Wire, Expected, Deliverable, D.Waiting, G.Messages;
    var e := new E.Encoder(EncMachine(v), MessageReady, bufSize);
    sent := [];
    assert ms[..0] == [];
    for i := 0 to |ms|
      invariant e.Valid() && fresh(e) && e.inProgress.None? && e.state == MessageReady
      invariant e.machine == EncMachine(v) && e.bufSize == bufSize
      invariant sent == WireAll(v, ms[..i])
    {
      EncoderSends(v, ms[i]);
      var out := E.SendMessage(e, ms[i], supplied, size);
      sent := sent + out;
      assert ms[..i + 1][..i] == ms[..i];
    }
    assert ms[..|ms|] == ms;
    var d := new D.Decoder(DecMachine(maxSize), DecState(FlagsReady, false, false, []), 1, bufSize);
    ghost var c := d.Now();
    var g := new G.Engine(d);
    ghost var parts;
    decoded, parts := G.Run(g, sent, occasions);
    StreamRoundTrip(v, maxSize, c, ms);
    G.PrefixAlive(d.machine, c, sent, decoded);
    finished := !g.failed && !g.inputStopped && |g.received| == |sent|;
    badInput, received := g.badInput, d.state.out;
  }

  lemma EncoderLegal(v: Version)
    ensures E.Legal(EncMachine(v))
  {
  }
}
