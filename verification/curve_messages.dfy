/**
  The CURVE message layer of curve_mechanism_base.cpp (ZeroMQ RFC 26/CURVEZMQ,
  the MESSAGE command).  The connection's crypto box is an abstract pair of seal
  and open.
 */
module CurveMessages {
  import opened Wrappers
  import opened Bytes
  import opened MessageKinds

  const MACBYTES := 16
  const ZEROBYTES := 32
  const BOXZEROBYTES := 16
  const HEADER_LEN := 16
  const NONCE_LIMIT := 0x1_0000_0000_0000_0000

  const MESSAGE: seq<Byte> := [7, 77, 69, 83, 83, 65, 71, 69]               // "\x07MESSAGE"

  // crypto_box_easy_afternm and its inverse, under the connection's key.
  datatype Box = Box(seal: (seq<Byte>, seq<Byte>) -> seq<Byte>, open: (seq<Byte>, seq<Byte>) -> Option<seq<Byte>>)

  /** Opening a sealed text returns it; a box is as long as its text and the MAC. */
  ghost predicate Sound(b: Box) {
    && (forall n, p :: b.open(n, b.seal(n, p)) == Some(p) && |b.seal(n, p)| == |p| + MACBYTES)
    && (forall n, c :: b.open(n, c).Some? ==> |c| == |b.open(n, c).value| + MACBYTES)
  }

  function Zeros(n: nat): (r: seq<Byte>)
    ensures |r| == n
  {
    seq(n, _ => 0)
  }

  /** crypto_box_afternm: the same box with zero bytes in front of text and result. */
  function PaddedSeal(b: Box, nonce: seq<Byte>, m: seq<Byte>): seq<Byte>
    requires |m| >= ZEROBYTES
  {
    Zeros(BOXZEROBYTES) + b.seal(nonce, m[ZEROBYTES..])
  }

  /** crypto_box_open_afternm. */
  function PaddedOpen(b: Box, nonce: seq<Byte>, c: seq<Byte>): Option<seq<Byte>>
    requires |c| >= BOXZEROBYTES
  {
    match b.open(nonce, c[BOXZEROBYTES..])
    case None => None
    case Some(p) => Some(Zeros(ZEROBYTES) + p)
  }

  datatype Msg = Msg(flags: nat, kind: Kind, body: seq<Byte>)

  datatype Error = MalformedCommand | UnexpectedCommand | MalformedMessage | InvalidSequence | Cryptographic

  datatype Result = Ok(flags: nat, body: seq<Byte>) | Err(error: Error)

  /** The bits sent: more and command, the latter forced for a subscription sent as a command. */
  function FlagByte(downgrade: bool, m: Msg): Byte {
    if m.kind.Plain? || downgrade || m.flags % 4 >= 2 then m.flags % 4 else m.flags % 4 + 2
  }

  function Plaintext(downgrade: bool, m: Msg): seq<Byte> {
    [FlagByte(downgrade, m)] + Prefix(downgrade, m.kind) + m.body
  }

  /** The MESSAGE command: name, short nonce, box. */
  function Sealed(b: Box, prefix: seq<Byte>, nonce: nat, plaintext: seq<Byte>): seq<Byte>
    requires nonce < NONCE_LIMIT
  {
    MESSAGE + PutUint64(nonce) + b.seal(prefix + PutUint64(nonce), plaintext)
  }

  /** What a receiver whose last accepted nonce is `peer` makes of a command. */
  function Received(b: Box, prefix: seq<Byte>, peer: nat, wire: seq<Byte>): (nat, Result) {
    if |wire| <= 1 || |wire| <= wire[0] then (peer, Err(MalformedCommand))
    else if !(MESSAGE <= wire) then (peer, Err(UnexpectedCommand))
    else if |wire| < HEADER_LEN + MACBYTES + 1 then (peer, Err(MalformedMessage))
    else
      var nonce := GetUint(wire[8..16]);
      if nonce <= peer then (peer, Err(InvalidSequence))
      else
        match b.open(prefix + wire[8..16], wire[16..])
        case None => (nonce, Err(Cryptographic))
        case Some(p) => (nonce, if p == [] then Err(Cryptographic) else Ok(p[0] % 4, p[1..]))
  }

  class CurveEncoding {
    var box: Box                  // the connection key, known once the handshake got that far
    const easy: bool              // which of the two compile-time layouts is used
    const encodePrefix: seq<Byte>
    const decodePrefix: seq<Byte>
    const downgradeSub: bool
    var cnNonce: nat
    var cnPeerNonce: nat

    ghost predicate Valid()
      reads this
    {
      Sound(box) && |encodePrefix| == 16 && |decodePrefix| == 16 && cnNonce < NONCE_LIMIT && cnPeerNonce < NONCE_LIMIT
    }

    constructor (box: Box, easy: bool, encodePrefix: seq<Byte>, decodePrefix: seq<Byte>, downgradeSub: bool)
      requires Sound(box) && |encodePrefix| == 16 && |decodePrefix| == 16
      ensures Valid() && cnNonce == 1 && cnPeerNonce == 1
      ensures this.box == box && this.easy == easy && this.downgradeSub == downgradeSub
      ensures this.encodePrefix == encodePrefix && this.decodePrefix == decodePrefix
    {
      this.box, this.easy, this.downgradeSub := box, easy, downgradeSub;
      this.encodePrefix, this.decodePrefix := encodePrefix, decodePrefix;
      cnNonce, cnPeerNonce := 1, 1;
    }

    /** A 64-bit counter. */
    method GetAndIncNonce() returns (n: nat)
      requires Valid()
      modifies this`cnNonce
      ensures Valid() && n == old(cnNonce) && cnNonce == (n + 1) % NONCE_LIMIT
    {
      n := cnNonce;
      cnNonce := (cnNonce + 1) % NONCE_LIMIT;
    }

    /** Lines 138-232, in either layout. */
    method Encode(m: Msg) returns (wire: seq<Byte>)
      requires Valid()
      modifies this`cnNonce
      ensures Valid() && cnNonce == (old(cnNonce) + 1) % NONCE_LIMIT
      ensures wire == Sealed(box, encodePrefix, old(cnNonce), Plaintext(downgradeSub, m))
    {
      var n := GetAndIncNonce();
      var messageNonce := encodePrefix + PutUint64(n);
      var plaintext := Plaintext(downgradeSub, m);
      if easy {
        wire := Zeros(HEADER_LEN) + box.seal(messageNonce, plaintext);
        assert |wire| == HEADER_LEN + |plaintext| + MACBYTES;
      } else {
        var mlen := ZEROBYTES + |plaintext|;
        var padded := Zeros(ZEROBYTES) + plaintext;
        assert padded[ZEROBYTES..] == plaintext;
        var messageBox := PaddedSeal(box, messageNonce, padded);
        assert |messageBox| == mlen;
        wire := Zeros(HEADER_LEN) + messageBox[BOXZEROBYTES..];
        assert |wire| == 16 + mlen - BOXZEROBYTES;
      }
      assert messageNonce[16..] == PutUint64(n);
      wire := MESSAGE + messageNonce[16..] + wire[HEADER_LEN..];
    }

    /** Lines 65-79, 107-136 and 234-311, in either layout. */
    method Decode(wire: seq<Byte>) returns (r: Result)
      requires Valid()
      modifies this`cnPeerNonce
      ensures Valid() && (cnPeerNonce, r) == Received(box, decodePrefix, old(cnPeerNonce), wire)
    {
      if |wire| <= 1 || |wire| <= wire[0] {
        return Err(MalformedCommand);
      }
      if |wire| < |MESSAGE| || wire[..|MESSAGE|] != MESSAGE {
        return Err(UnexpectedCommand);
      }
      if |wire| < HEADER_LEN + MACBYTES + 1 {
        return Err(MalformedMessage);
      }
      var nonce := GetUint(wire[8..16]);
      UintBound(wire[8..16]);
      if nonce <= cnPeerNonce {
        return Err(InvalidSequence);
      }
      cnPeerNonce := nonce;
      var messageNonce := decodePrefix + wire[8..16];
      if easy {
        var clen := |wire| - HEADER_LEN;
        var text := box.open(messageNonce, wire[HEADER_LEN..]);
        if text.None? {
          return Err(Cryptographic);
        }
        var size := clen - 1 - MACBYTES;
        assert |text.value| == 1 + size;
        assert text.value[1..1 + size] == text.value[1..];
        return Ok(text.value[0] % 4, text.value[1..1 + size]);
      } else {
        var clen := BOXZEROBYTES + |wire| - HEADER_LEN;
        var messageBox := Zeros(BOXZEROBYTES) + wire[HEADER_LEN..];
        assert messageBox[BOXZEROBYTES..] == wire[HEADER_LEN..];
        var text := PaddedOpen(box, messageNonce, messageBox);
        if text.None? {
          return Err(Cryptographic);
        }
        var plaintext := text.value[ZEROBYTES..];
        var size := clen - 1 - ZEROBYTES;
        assert |plaintext| == 1 + size;
        assert plaintext[1..1 + size] == plaintext[1..];
        return Ok(plaintext[0] % 4, plaintext[1..1 + size]);
      }
    }
  }

  lemma {:induction false} UintBound(b: seq<Byte>)
    requires |b| == 8
    ensures GetUint(b) < NONCE_LIMIT
  {
    UintBoundPow(b);
    assert Pow256(8) == NONCE_LIMIT by {
      assert Pow256(4) == 0x1_0000_0000;
    }
  }

  lemma {:induction false} UintBoundPow(b: seq<Byte>)
    ensures GetUint(b) < Pow256(|b|)
  {
    if b != [] {
      UintBoundPow(b[..|b| - 1]);
    }
  }

  // ---------------------------------------------------------------------
  // Sender and receiver

  /** What a message becomes on the other side; a plain one keeps its body and its two flags. */
  function Expected(downgrade: bool, m: Msg): (r: Result)
    ensures m.kind.Plain? ==> r == Ok(m.flags % 4, m.body)
  {
    assert [] + m.body == m.body;
    Ok(FlagByte(downgrade, m), Prefix(downgrade, m.kind) + m.body)
  }

  /** Both flags of a plain message arrive; a subscription becomes one byte, or a command, before the topic. */
  lemma {:induction false} MessageSeen(downgrade: bool, m: Msg)
    ensures var more, command := m.flags % 2, m.flags / 2 % 2;
            && (m.kind == Plain ==> Expected(downgrade, m) == Ok(more + 2 * command, m.body))
            && (downgrade && m.kind == Subscribe ==> Expected(downgrade, m) == Ok(more + 2 * command, [1] + m.body))
            && (downgrade && m.kind == Cancel ==> Expected(downgrade, m) == Ok(more + 2 * command, [0] + m.body))
            && (!downgrade && m.kind == Subscribe ==>
                  Expected(downgrade, m) == Ok(more + 2, [9] + Ascii("SUBSCRIBE") + m.body))
            && (!downgrade && m.kind == Cancel ==>
                  Expected(downgrade, m) == Ok(more + 2, [6] + Ascii("CANCEL") + m.body))
  {
    PrefixIs(downgrade);
    FlagsSeen(downgrade, m);
    hide Ascii, Prefix, FlagByte;
  }

  lemma {:induction false} FlagsSeen(downgrade: bool, m: Msg)
    ensures FlagByte(downgrade, m)
            == m.flags % 2 + if m.kind == Plain || downgrade then 2 * (m.flags / 2 % 2) else 2
  {
    var q := m.flags / 4;
    assert m.flags == 4 * q + m.flags % 4;
    assert m.flags / 2 == 2 * q + m.flags % 4 / 2;
  }

  lemma {:induction false} MessageName()
    ensures MESSAGE == [7] + Ascii("MESSAGE")
  {
    hide Ascii;
    assert MESSAGE[1..] == Ascii("MESSAGE");
  }

  /** The bytes of a MESSAGE: its name, the nonce, the box and its MAC. */
  lemma {:induction false} MessageBytes(b: Box, prefix: seq<Byte>, nonce: nat, text: seq<Byte>)
    requires Sound(b) && nonce < NONCE_LIMIT
    ensures var wire := Sealed(b, prefix, nonce, text);
            && |wire| == 32 + |text| && wire[..8] == [7] + Ascii("MESSAGE") && GetUint(wire[8..16]) == nonce
            && b.open(prefix + wire[8..16], wire[16..]) == Some(text)
  {
    hide BigEndian, GetUint, Ascii;
    MessageName();
    SizeBytes(nonce);
    var wire := Sealed(b, prefix, nonce, text);
    assert wire[..8] == MESSAGE && wire[8..16] == PutUint64(nonce);
    assert wire[16..] == b.seal(prefix + PutUint64(nonce), text);
  }

  /** Which command gets which answer, and what the record is then. */
  lemma {:induction false} Verdicts(b: Box, prefix: seq<Byte>, peer: nat, wire: seq<Byte>)
    ensures var (peer', r) := Received(b, prefix, peer, wire);
            var named := |wire| >= 8 && wire[..8] == [7] + Ascii("MESSAGE");
            var formed := named && |wire| >= 33;
            && (r == Err(MalformedCommand) <==> |wire| <= 1 || |wire| <= wire[0])
            && (r == Err(UnexpectedCommand) <==> |wire| > 1 && |wire| > wire[0] && !named)
            && (r == Err(MalformedMessage) <==> named && |wire| < 33)
            && (r == Err(InvalidSequence) <==> formed && GetUint(wire[8..16]) <= peer)
            && peer' == (if formed && GetUint(wire[8..16]) > peer then GetUint(wire[8..16]) else peer)
            && (r.Ok? ==> formed && var p := b.open(prefix + wire[8..16], wire[16..]);
                          p.Some? && p.value != [] && r == Ok(p.value[0] % 4, p.value[1..]))
            && (r == Err(Cryptographic) ==> formed && b.open(prefix + wire[8..16], wire[16..]) in {None, Some([])})
  {
    hide GetUint, Ascii;
    MessageName();
    assert MESSAGE <= wire <==> |wire| >= 8 && wire[..8] == MESSAGE;
  }

  /** Decode after encode, for every length: accepted with the message restored iff the nonce is new. */
  lemma RoundTrip(b: Box, prefix: seq<Byte>, peer: nat, nonce: nat, downgrade: bool, m: Msg)
    requires Sound(b) && nonce < NONCE_LIMIT
    ensures Received(b, prefix, peer, Sealed(b, prefix, nonce, Plaintext(downgrade, m)))
            == if peer < nonce then (nonce, Expected(downgrade, m)) else (peer, Err(InvalidSequence))
  {
    var p := Plaintext(downgrade, m);
    var wire := Sealed(b, prefix, nonce, p);
    SizeBytes(nonce);
    hide BigEndian, GetUint;
    assert wire[..8] == MESSAGE && wire[8..16] == PutUint64(nonce);
    assert wire[16..] == b.seal(prefix + PutUint64(nonce), p);
    assert p[1..] == Prefix(downgrade, m.kind) + m.body;
  }

  /** Accepted nonces strictly increase, and a refused command leaves no trace unless its box fails. */
  lemma NonceGrows(b: Box, prefix: seq<Byte>, peer: nat, wire: seq<Byte>)
    ensures var (peer', r) := Received(b, prefix, peer, wire);
            && peer <= peer'
            && (r.Ok? ==> peer < peer' == GetUint(wire[8..16]))
            && (r.Err? && r.error != Cryptographic ==> peer' == peer)
  {
  }

  /** A MESSAGE command as far as it is looked at before its nonce is recorded. */
  predicate WellFormed(wire: seq<Byte>) {
    |wire| > 1 && |wire| > wire[0] && MESSAGE <= wire && |wire| >= HEADER_LEN + MACBYTES + 1
  }

  function Short(wire: seq<Byte>): nat
    requires WellFormed(wire)
  {
    GetUint(wire[8..16])
  }

  /** The record after any commands, genuine or not. */
  function RecordAfter(b: Box, prefix: seq<Byte>, peer: nat, wires: seq<seq<Byte>>): nat {
    if wires == [] then peer
    else Received(b, prefix, RecordAfter(b, prefix, peer, wires[..|wires| - 1]), wires[|wires| - 1]).0
  }

  /** It is below a nonce iff the nonces of all well-formed ones are. */
  lemma {:induction false} RecordBelow(b: Box, prefix: seq<Byte>, peer: nat, wires: seq<seq<Byte>>, nonce: nat)
    ensures RecordAfter(b, prefix, peer, wires) < nonce <==>
            peer < nonce && forall i :: 0 <= i < |wires| && WellFormed(wires[i]) ==> Short(wires[i]) < nonce
  {
    if wires != [] {
      var init, last := wires[..|wires| - 1], wires[|wires| - 1];
      RecordBelow(b, prefix, peer, init, nonce);
      assert forall i :: 0 <= i < |init| ==> init[i] == wires[i];
      hide GetUint;
    }
  }

  /**
    The nonce is recorded before the box is opened: after any commands, a genuine
    one is accepted and restored iff its nonce is above those of all well-formed
    ones before it, whoever made them.
   */
  lemma {:induction false} GenuineAccepted(b: Box, prefix: seq<Byte>, peer: nat, wires: seq<seq<Byte>>, nonce: nat,
                                           downgrade: bool, m: Msg)
    requires Sound(b) && nonce < NONCE_LIMIT
    ensures var wire := Sealed(b, prefix, nonce, Plaintext(downgrade, m));
            Received(b, prefix, RecordAfter(b, prefix, peer, wires), wire).1 ==
            if peer < nonce && forall i :: 0 <= i < |wires| && WellFormed(wires[i]) ==> Short(wires[i]) < nonce
            then Expected(downgrade, m) else Err(InvalidSequence)
  {
    RecordBelow(b, prefix, peer, wires, nonce);
    RoundTrip(b, prefix, RecordAfter(b, prefix, peer, wires), nonce, downgrade, m);
    hide Received, RecordAfter, Sealed, Plaintext, GetUint;
  }

  /** After one command with the largest nonce and an arbitrary box, no genuine one is accepted. */
  lemma {:induction false} NoneAfterLargest(b: Box, prefix: seq<Byte>, peer: nat, box: seq<Byte>, nonce: nat,
                                            downgrade: bool, m: Msg)
    requires Sound(b) && nonce < NONCE_LIMIT && |box| >= 17
    ensures var forged := MESSAGE + PutUint64(NONCE_LIMIT - 1) + box;
            var wire := Sealed(b, prefix, nonce, Plaintext(downgrade, m));
            Received(b, prefix, RecordAfter(b, prefix, peer, [forged]), wire).1 == Err(InvalidSequence)
  {
    var forged := MESSAGE + PutUint64(NONCE_LIMIT - 1) + box;
    SizeBytes(NONCE_LIMIT - 1);
    assert forged[8..16] == PutUint64(NONCE_LIMIT - 1);
    hide BigEndian, GetUint, Received, Sealed, Plaintext;
    assert WellFormed([forged][0]);
    GenuineAccepted(b, prefix, peer, [forged], nonce, downgrade, m);
  }

  /** `wires` are the encodings of `msgs` with consecutive nonces from `first`. */
  ghost predicate Encoded(b: Box, prefix: seq<Byte>, downgrade: bool, first: nat, msgs: seq<Msg>,
                          wires: seq<seq<Byte>>) {
    && |wires| == |msgs| && first + |msgs| < NONCE_LIMIT
    && forall i :: 0 <= i < |msgs| ==> wires[i] == Sealed(b, prefix, first + i, Plaintext(downgrade, msgs[i]))
  }

  method SendAll(a: CurveEncoding, msgs: seq<Msg>) returns (wires: seq<seq<Byte>>)
    requires a.Valid() && a.cnNonce + |msgs| < NONCE_LIMIT
    modifies a`cnNonce
    ensures a.Valid() && a.cnNonce == old(a.cnNonce) + |msgs|
    ensures Encoded(a.box, a.encodePrefix, a.downgradeSub, old(a.cnNonce), msgs, wires)
  {
    hide Sound, Sealed, Plaintext;
    wires := [];
    for i := 0 to |msgs|
      invariant a.Valid() && |wires| == i && a.cnNonce == old(a.cnNonce) + i
      invariant forall j :: 0 <= j < i ==>
        wires[j] == Sealed(a.box, a.encodePrefix, old(a.cnNonce) + j, Plaintext(a.downgradeSub, msgs[j]))
    {
      var wire := a.Encode(msgs[i]);
      wires := wires + [wire];
    }
  }

  /** Later than everything delivered before it. */
  ghost predicate IsNew(picks: seq<nat>, k: nat)
    requires k < |picks|
  {
    forall j :: 0 <= j < k ==> picks[j] < picks[k]
  }

  /** `results[k]` answers the k-th delivery of `msgs`: accepted and restored iff it is new. */
  ghost predicate Delivered(downgrade: bool, msgs: seq<Msg>, picks: seq<nat>, results: seq<Result>)
    requires forall k :: 0 <= k < |picks| ==> picks[k] < |msgs|
  {
    && |results| == |picks|
    && forall k :: 0 <= k < |picks| ==>
      results[k] == if IsNew(picks, k) then Expected(downgrade, msgs[picks[k]]) else Err(InvalidSequence)
  }

  /**
    The network delivers any of the commands, in any order and any number of
    times: exactly those later than all delivered before are accepted, restored.
   */
  method Deliver(r: CurveEncoding, wires: seq<seq<Byte>>, picks: seq<nat>,
                 ghost downgrade: bool, ghost first: nat, ghost msgs: seq<Msg>) returns (results: seq<Result>)
    requires r.Valid() && Encoded(r.box, r.decodePrefix, downgrade, first, msgs, wires) && r.cnPeerNonce < first
    requires forall k :: 0 <= k < |picks| ==> picks[k] < |wires|
    modifies r`cnPeerNonce
    ensures r.Valid() && Delivered(downgrade, msgs, picks, results)
  {
    hide Sound, Sealed, Plaintext, Expected, Received;
    results := [];
    for i := 0 to |picks|
      invariant r.Valid() && |results| == i
      invariant forall j :: 0 <= j < i ==> first + picks[j] <= r.cnPeerNonce
      invariant if i == 0 then r.cnPeerNonce < first else exists j :: 0 <= j < i && r.cnPeerNonce == first + picks[j]
      invariant forall k :: 0 <= k < i ==>
        results[k] == if IsNew(picks, k) then Expected(downgrade, msgs[picks[k]]) else Err(InvalidSequence)
    {
      RoundTrip(r.box, r.decodePrefix, r.cnPeerNonce, first + picks[i], downgrade, msgs[picks[i]]);
      assert IsNew(picks, i) <==> r.cnPeerNonce < first + picks[i];
      var result := r.Decode(wires[picks[i]]);
      results := results + [result];
    }
  }
}
