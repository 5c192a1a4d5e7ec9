/** Every sequence of calls on the server's side of CURVE, with arbitrary commands from the peer. */
module CurveServerRuns {
  import opened Bytes
  import opened CurveMessages
  import opened CurveCommands
  import opened CurveHandshake
  import opened CurveCounters

  datatype Call =
    | Produce(x: Supply)                     // next_handshake_command
    | Process(msg: seq<Byte>, zap: Zap)      // process_handshake_command
    | ZapMsg(reply: Reply)                   // zap_msg_available
    | Encode(m: Msg)
    | Decode(wire: seq<Byte>)

  /** What the code asserts of its callers. */
  predicate Allowed(v: ServerView, c: Call) {
    && v.nonce < NONCE_LIMIT && v.peer < NONCE_LIMIT
    && (c.Encode? || c.Decode? ==> v.phase.Ready?)
    && (c.ZapMsg? ==> v.phase.WaitingForZapReply?)
  }

  function Step(k: ServerSetup, prefix: seq<Byte>, v: ServerView, c: Call): ServerView
    requires Allowed(v, c)
  {
    match c
    case Produce(x) => ServerProduce(k, v, x).0
    case Process(msg, zap) => ServerProcess(k, v, msg, zap).0
    case ZapMsg(reply) => v.(phase := AfterZap(reply))
    case Encode(_) => v.(nonce := (v.nonce + 1) % NONCE_LIMIT)
    case Decode(wire) => v.(peer := Received(v.box, prefix, v.peer, wire).0)
  }

  /** Whether the call sends a command that carries a nonce of the counter: READY or MESSAGE. */
  predicate Sends(v: ServerView, c: Call) {
    c.Encode? || (c.Produce? && v.phase.SendingReady?)
  }

  ghost predicate IsRun(k: ServerSetup, prefix: seq<Byte>, run: seq<ServerView>, calls: seq<Call>) {
    && |run| == |calls| + 1 && run[0].phase == WaitingForHello && run[0].nonce == 1 && run[0].peer == 1
    && forall i :: 0 <= i < |calls| ==> Allowed(run[i], calls[i]) && run[i + 1] == Step(k, prefix, run[i], calls[i])
  }

  // ---------------------------------------------------------------------
  // Nonces

  ghost function Counters(run: seq<ServerView>): seq<nat> {
    seq(|run|, i requires 0 <= i < |run| => run[i].nonce)
  }

  ghost function Sending(run: seq<ServerView>, calls: seq<Call>): seq<bool>
    requires |run| == |calls| + 1
  {
    seq(|calls|, i requires 0 <= i < |calls| => Sends(run[i], calls[i]))
  }

  lemma NonceStep(k: ServerSetup, prefix: seq<Byte>, v: ServerView, c: Call)
    requires Allowed(v, c)
    ensures Step(k, prefix, v, c).nonce == if Sends(v, c) then (v.nonce + 1) % NONCE_LIMIT else v.nonce
  {
    hide GetUint, Received, HelloForm, HelloOpens, InitiateForm, CookieOk, Admitted;
  }

  /** Over handshake and messages together, the nonces used in a run go up one by one. */
  lemma RunCounts(k: ServerSetup, prefix: seq<Byte>, run: seq<ServerView>, calls: seq<Call>)
    requires IsRun(k, prefix, run, calls)
    ensures Counting(Counters(run), Sending(run, calls))
  {
    hide Step;
    forall i | 0 <= i < |calls|
      ensures run[i + 1].nonce == if Sends(run[i], calls[i]) then (run[i].nonce + 1) % NONCE_LIMIT else run[i].nonce
    {
      NonceStep(k, prefix, run[i], calls[i]);
    }
  }

  /** The nonce that goes out with a call that sends a READY, as its eight bytes. */
  function ReadyNonce(k: ServerSetup, v: ServerView, c: Call): seq<Byte>
    requires Allowed(v, c) && c.Produce? && v.phase.SendingReady?
  {
    var cmd := ServerProduce(k, v, c.x).1.value;
    cmd[6..14]
  }

  /**
    In a run of fewer calls than there are nonces, the READY carries a nonce that no
    earlier call used, and every MESSAGE a larger one.
   */
  lemma {:induction false} ReadyBeforeMessages(k: ServerSetup, prefix: seq<Byte>, run: seq<ServerView>,
                                               calls: seq<Call>, i: nat, j: nat)
    requires IsRun(k, prefix, run, calls) && |calls| + 1 < NONCE_LIMIT && i < j < |calls|
    requires Sends(run[i], calls[i]) && Sends(run[j], calls[j])
    ensures calls[j].Encode? && run[i].nonce < run[j].nonce
    ensures calls[i].Produce? ==> ReadyNonce(k, run[i], calls[i]) == PutUint64(run[i].nonce)
  {
    RunCounts(k, prefix, run, calls);
    Bounded(Counters(run), Sending(run, calls), i, j);
    hide Counting, BigEndian;
    if calls[i].Produce? {
      assert run[i + 1].phase == Ready;
    }
    hide Step;
    RecordKept(k, prefix, run, calls, i + 1, j);
  }

  // ---------------------------------------------------------------------
  // The order of the handshake

  ghost predicate HelloAt(k: ServerSetup, run: seq<ServerView>, calls: seq<Call>, i: int) {
    && 0 <= i < |calls| < |run| && run[i].phase == WaitingForHello && calls[i].Process?
    && HelloForm(calls[i].msg) && HelloOpens(k.crypto, k.secretKey, calls[i].msg)
  }

  ghost predicate InitiateAt(k: ServerSetup, run: seq<ServerView>, calls: seq<Call>, i: int) {
    && 0 <= i < |calls| < |run| && run[i].phase == WaitingForInitiate && calls[i].Process?
    && Admitted(k, run[i], calls[i].msg)
  }

  /** What makes the server move, and where to. */
  lemma WhatMoves(k: ServerSetup, prefix: seq<Byte>, v: ServerView, c: Call)
    requires Allowed(v, c)
    ensures var p := Step(k, prefix, v, c).phase;
            match v.phase
            case WaitingForHello =>
              p == if c.Process? && HelloForm(c.msg) && HelloOpens(k.crypto, k.secretKey, c.msg) then SendingWelcome
                   else v.phase
            case SendingWelcome => p == if c.Produce? then WaitingForInitiate else v.phase
            case WaitingForInitiate =>
              if !c.Process? || !Admitted(k, v, c.msg) || c.zap == Unavailable then p == v.phase
              else
                && (p == SendingReady <==> c.zap == Skipped || c.zap == Requested(Code('2')))
                && (p == ErrorSent <==> c.zap == Requested(Code('3')))
                && (p == WaitingForZapReply <==> c.zap == Requested(NotYet) || c.zap == Requested(Malformed))
                && (p != SendingReady && p != ErrorSent && p != WaitingForZapReply ==> p == SendingError)
            case WaitingForZapReply =>
              && (p == SendingReady <==> c == ZapMsg(Code('2')))
              && (p == ErrorSent <==> c == ZapMsg(Code('3')))
              && (p == SendingError <==> c.ZapMsg? && c.reply.Code? && c.reply.digit != '2' && c.reply.digit != '3')
              && (p != SendingReady && p != ErrorSent && p != SendingError ==> p == WaitingForZapReply)
            case SendingReady => p == if c.Produce? then Ready else v.phase
            case SendingError => p == if c.Produce? then ErrorSent else v.phase
            case _ => p == v.phase
  {
    hide GetUint, Received, HelloForm, HelloOpens, InitiateForm, CookieOk;
  }

  /** The call that brought the server to its phase. */
  lemma {:induction false} Entered(k: ServerSetup, prefix: seq<Byte>, run: seq<ServerView>, calls: seq<Call>, n: nat)
    returns (j: nat)
    requires IsRun(k, prefix, run, calls) && n <= |calls| && run[n].phase != WaitingForHello
    ensures j < n && run[j].phase != run[n].phase && run[j + 1].phase == run[n].phase
    ensures forall x :: j < x <= n ==> run[x].phase == run[n].phase
  {
    hide Step;
    if run[n - 1].phase == run[n].phase {
      j := Entered(k, prefix, run, calls, n - 1);
    } else {
      j := n - 1;
    }
  }

  /** A server past the HELLO has accepted one. */
  lemma AfterHello(k: ServerSetup, prefix: seq<Byte>, run: seq<ServerView>, calls: seq<Call>, n: nat) returns (h: nat)
    requires IsRun(k, prefix, run, calls) && n <= |calls| && run[n].phase == WaitingForInitiate
    ensures h < n && HelloAt(k, run, calls, h)
  {
    hide Step, HelloForm, HelloOpens, Admitted;
    var w := Entered(k, prefix, run, calls, n);
    WhatMoves(k, prefix, run[w], calls[w]);
    h := Entered(k, prefix, run, calls, w);
    WhatMoves(k, prefix, run[h], calls[h]);
  }

  /**
    In every run, whatever commands come, a server that is ready accepted a HELLO,
    then an INITIATE whose cookie, box and vouch were right, and, if it asked for
    authentication, a 2xx reply, at once or later.
   */
  lemma ReadyInOrder(k: ServerSetup, prefix: seq<Byte>, run: seq<ServerView>, calls: seq<Call>, n: nat)
    returns (h: nat, i: nat, z: nat)
    requires IsRun(k, prefix, run, calls) && n <= |calls| && run[n].phase == Ready
    ensures h < i <= z < n && HelloAt(k, run, calls, h) && InitiateAt(k, run, calls, i)
    ensures if z == i then calls[i].zap == Skipped || calls[i].zap == Requested(Code('2'))
            else calls[i].zap == Requested(NotYet) || calls[i].zap == Requested(Malformed)
    ensures z != i ==> calls[z] == ZapMsg(Code('2')) && run[z].phase == WaitingForZapReply
  {
    hide Step, HelloForm, HelloOpens, Admitted;
    var r := Entered(k, prefix, run, calls, n);
    WhatMoves(k, prefix, run[r], calls[r]);
    z := Entered(k, prefix, run, calls, r);
    WhatMoves(k, prefix, run[z], calls[z]);
    i := z;
    if run[z].phase == WaitingForZapReply {
      i := Entered(k, prefix, run, calls, z);
      WhatMoves(k, prefix, run[i], calls[i]);
      ZapAsked(k, prefix, run[i], calls[i]);
    }
    h := AfterHello(k, prefix, run, calls, i);
  }

  lemma ZapAsked(k: ServerSetup, prefix: seq<Byte>, v: ServerView, c: Call)
    requires Allowed(v, c) && v.phase == WaitingForInitiate && c.Process?
    requires Step(k, prefix, v, c).phase == WaitingForZapReply
    ensures c.zap == Requested(NotYet) || c.zap == Requested(Malformed)
  {
    hide GetUint, HelloForm, HelloOpens, InitiateForm, CookieOk, Admitted;
  }

  /**
    An INITIATE that is refused can still move the server on: iff it passes all
    checks but its metadata are bad, or the immediate ZAP reply is malformed.
   */
  lemma RefusedButMoved(k: ServerSetup, v: ServerView, msg: seq<Byte>, zap: Zap)
    requires v.phase == WaitingForInitiate
    ensures var (w, ok) := ServerProcess(k, v, msg, zap);
            !ok && w.phase != WaitingForInitiate <==>
            && Admitted(k, v, msg) && zap != Unavailable
            && (!MetadataOk(k, v, msg) || zap == Requested(Malformed))
  {
    hide GetUint, HelloForm, HelloOpens, CookieOk, VouchOk;
  }

  /** A genuine INITIATE whose metadata the server does not like is such a one. */
  lemma {:induction false} RefusedForMetadata(k: ServerSetup, v: ServerView, cookieNonce: Long, longTerm: Key,
                                              shortTerm: Key, vouchNonce: Long, serverKey: Key, nonce: nat,
                                              metadata: seq<Byte>)
    requires Agrees(k.crypto) && v.phase == WaitingForInitiate && v.client == k.crypto.pub(shortTerm)
    requires nonce < NONCE_LIMIT && !k.parses(metadata)
    ensures var x := k.crypto;
            var cookie := Cookie(x, v.cookieKey, cookieNonce, v.client, k.cnSecret);
            var vouch := Vouch(x, x.pub(k.cnSecret), longTerm, vouchNonce, v.client, serverKey);
            var text := x.pub(longTerm) + vouch + metadata;
            var msg := InitiateCommand(x, cookie, x.pub(k.cnSecret), shortTerm, nonce, text);
            var (w, ok) := ServerProcess(k, v, msg, Skipped);
            !ok && w.phase == SendingReady
  {
    var x := k.crypto;
    var vouch := Vouch(x, x.pub(k.cnSecret), longTerm, vouchNonce, v.client, serverKey);
    var text := x.pub(longTerm) + vouch + metadata;
    VouchAccepted(x, longTerm, k.cnSecret, vouchNonce, v.client, serverKey, metadata);
    VouchSize(x, k.cnSecret, v.client, text);
    InitiateAccepted(x, v.cookieKey, cookieNonce, k.cnSecret, shortTerm, nonce, text);
    hide Agrees, Sound, GetUint, Cookie, Vouch, InitiateCommand, CookieOk, VouchOk, InitiateText;
  }

  /** A vouch for another short-term key is refused: a client cannot use one it was shown. */
  lemma {:induction false} VouchForAnother(k: ServerSetup, v: ServerView, cookieNonce: Long, longTerm: Key,
                                           shortTerm: Key, vouchNonce: Long, other: Key, serverKey: Key, nonce: nat,
                                           metadata: seq<Byte>, zap: Zap)
    requires Agrees(k.crypto) && v.phase == WaitingForInitiate && v.client == k.crypto.pub(shortTerm)
    requires nonce < NONCE_LIMIT && other != v.client
    ensures var x := k.crypto;
            var cookie := Cookie(x, v.cookieKey, cookieNonce, v.client, k.cnSecret);
            var vouch := Vouch(x, x.pub(k.cnSecret), longTerm, vouchNonce, other, serverKey);
            var text := x.pub(longTerm) + vouch + metadata;
            var msg := InitiateCommand(x, cookie, x.pub(k.cnSecret), shortTerm, nonce, text);
            ServerProcess(k, v, msg, zap) == (v.(peer := nonce), false)
  {
    var x := k.crypto;
    var vouch := Vouch(x, x.pub(k.cnSecret), longTerm, vouchNonce, other, serverKey);
    var text := x.pub(longTerm) + vouch + metadata;
    VouchNames(x, longTerm, k.cnSecret, vouchNonce, other, serverKey, metadata);
    InitiateAccepted(x, v.cookieKey, cookieNonce, k.cnSecret, shortTerm, nonce, text);
    hide Agrees, Sound, GetUint, Cookie, Vouch, InitiateCommand, CookieOk, VouchOk, InitiateText;
    assert !VouchOk(x, v.client, k.cnSecret, text);
  }

  /** A cookie made for another client, or for another connection, is refused. */
  lemma {:induction false} CookieForAnother(k: ServerSetup, v: ServerView, cookieNonce: Long, other: Key,
                                            otherSecret: Key, shortTerm: Key, nonce: nat, text: seq<Byte>, zap: Zap)
    requires Agrees(k.crypto) && v.phase == WaitingForInitiate && nonce < NONCE_LIMIT
    requires other != v.client || otherSecret != k.cnSecret
    ensures var x := k.crypto;
            var cookie := Cookie(x, v.cookieKey, cookieNonce, other, otherSecret);
            var msg := InitiateCommand(x, cookie, x.pub(k.cnSecret), shortTerm, nonce, text);
            ServerProcess(k, v, msg, zap) == (v, false)
  {
    var x := k.crypto;
    CookieReturns(x, v.cookieKey, cookieNonce, other, otherSecret);
    var cookie := Cookie(x, v.cookieKey, cookieNonce, other, otherSecret);
    hide Agrees, Sound, GetUint, Cookie, BigEndian;
    var msg := InitiateCommand(x, cookie, x.pub(k.cnSecret), shortTerm, nonce, text);
    assert msg[9..105] == cookie;
    assert msg[9..25] == cookie[..16] && (|msg| >= 257 ==> msg[25..105] == cookie[16..]);
    assert (other + otherSecret)[..32] == other && (other + otherSecret)[32..] == otherSecret;
    assert (v.client + k.cnSecret)[..32] == v.client && (v.client + k.cnSecret)[32..] == k.cnSecret;
  }

  /** The call was refused; the engine closes the connection then. */
  ghost predicate Refused(k: ServerSetup, v: ServerView, c: Call) {
    || (c.Process? && !ServerProcess(k, v, c.msg, c.zap).1)
    || (c.ZapMsg? && c.reply.Malformed?)
  }

  /** If no call comes after a refusal, the INITIATE was accepted, metadata and all. */
  lemma ReadyAcceptedAll(k: ServerSetup, prefix: seq<Byte>, run: seq<ServerView>, calls: seq<Call>, n: nat)
    returns (h: nat, i: nat, z: nat)
    requires IsRun(k, prefix, run, calls) && n <= |calls| && run[n].phase == Ready
    requires forall j :: 0 <= j < n ==> !Refused(k, run[j], calls[j])
    ensures h < i <= z < n && HelloAt(k, run, calls, h) && InitiateAt(k, run, calls, i)
    ensures MetadataOk(k, run[i], calls[i].msg) && calls[i].zap != Requested(Malformed)
    ensures if z == i then calls[i].zap == Skipped || calls[i].zap == Requested(Code('2'))
            else calls[z] == ZapMsg(Code('2')) && run[z].phase == WaitingForZapReply
  {
    h, i, z := ReadyInOrder(k, prefix, run, calls, n);
    assert !Refused(k, run[i], calls[i]);
    hide Step;
    RefusedButMoved(k, run[i], calls[i].msg, calls[i].zap);
  }

  // ---------------------------------------------------------------------
  // The record of the client's nonces

  /** The nonce of a HELLO or INITIATE is the record from then on, that of a MESSAGE only if it is larger. */
  lemma RecordIs(k: ServerSetup, prefix: seq<Byte>, v: ServerView, c: Call)
    requires Allowed(v, c)
    ensures Step(k, prefix, v, c).peer ==
            if c.Process? && v.phase == WaitingForHello && HelloForm(c.msg) then GetUint(c.msg[112..120])
            else if c.Process? && v.phase == WaitingForInitiate && InitiateForm(c.msg)
                    && CookieOk(k.crypto, v.cookieKey, v.client, k.cnSecret, c.msg) then GetUint(c.msg[105..113])
            else if c.Decode? && WellFormed(c.wire) && Short(c.wire) > v.peer then Short(c.wire)
            else v.peer
  {
    hide GetUint, HelloOpens, CookieOk, Admitted;
  }

  /** The record goes down iff a HELLO, or an INITIATE with the right cookie, carries a smaller nonce. */
  lemma RecordFalls(k: ServerSetup, prefix: seq<Byte>, v: ServerView, c: Call)
    requires Allowed(v, c)
    ensures Step(k, prefix, v, c).peer < v.peer <==>
            && c.Process?
            && (|| (v.phase == WaitingForHello && HelloForm(c.msg) && GetUint(c.msg[112..120]) < v.peer)
                || (v.phase == WaitingForInitiate && InitiateForm(c.msg)
                    && CookieOk(k.crypto, v.cookieKey, v.client, k.cnSecret, c.msg)
                    && GetUint(c.msg[105..113]) < v.peer))
  {
    RecordIs(k, prefix, v, c);
    hide GetUint, Step, CookieOk;
  }

  /** It does so on the first command, a HELLO with the nonce 0. */
  lemma RecordFallsAtOnce(k: ServerSetup, prefix: seq<Byte>, v: ServerView, zap: Zap)
    requires v.phase == WaitingForHello && v.nonce == 1 && v.peer == 1
    ensures Step(k, prefix, v, Process(HELLO + [1, 0] + Zeros(104) + PutUint64(0) + Zeros(80), zap)).peer == 0
  {
    var msg := HELLO + [1, 0] + Zeros(104) + PutUint64(0) + Zeros(80);
    SizeBytes(0);
    assert msg[112..120] == PutUint64(0);
    hide BigEndian, GetUint, HelloOpens;
    assert HelloForm(msg);
  }

  /** A ready server takes no handshake commands, so its record only goes up. */
  lemma {:induction false} RecordKept(k: ServerSetup, prefix: seq<Byte>, run: seq<ServerView>, calls: seq<Call>,
                                      i: nat, j: nat)
    requires IsRun(k, prefix, run, calls) && i <= j <= |calls| && run[i].phase == Ready
    ensures run[j].phase == Ready && run[i].peer <= run[j].peer && run[j].box == run[i].box
  {
    if i < j {
      RecordKept(k, prefix, run, calls, i, j - 1);
      hide Step;
      RecordFalls(k, prefix, run[j - 1], calls[j - 1]);
      WhatMoves(k, prefix, run[j - 1], calls[j - 1]);
      BoxKept(k, prefix, run[j - 1], calls[j - 1]);
    }
  }

  lemma BoxKept(k: ServerSetup, prefix: seq<Byte>, v: ServerView, c: Call)
    requires Allowed(v, c) && v.phase == Ready
    ensures Step(k, prefix, v, c).box == v.box
  {
    hide Received;
  }

  /** The MESSAGE of call `i` was accepted. */
  ghost predicate Accepts(prefix: seq<Byte>, run: seq<ServerView>, calls: seq<Call>, i: int) {
    && 0 <= i < |calls| < |run| && calls[i].Decode?
    && Received(run[i].box, prefix, run[i].peer, calls[i].wire).1.Ok?
  }

  /** In every run the nonces of accepted messages strictly increase, under one key. */
  lemma MessagesIncrease(k: ServerSetup, prefix: seq<Byte>, run: seq<ServerView>, calls: seq<Call>, i: nat, j: nat)
    requires IsRun(k, prefix, run, calls) && i < j && Accepts(prefix, run, calls, i) && Accepts(prefix, run, calls, j)
    ensures GetUint(calls[i].wire[8..16]) < GetUint(calls[j].wire[8..16]) && run[i].box == run[j].box
  {
    NonceGrows(run[i].box, prefix, run[i].peer, calls[i].wire);
    NonceGrows(run[j].box, prefix, run[j].peer, calls[j].wire);
    hide Received, GetUint;
    RecordKept(k, prefix, run, calls, i + 1, j);
  }

  // ---------------------------------------------------------------------
  // The class takes these steps

  method Perform(s: CurveServer, call: Call)
    requires s.Valid() && Allowed(s.View(), call)
    modifies s, s.enc
    ensures s.Valid() && s.View() == Step(s.k, s.enc.decodePrefix, old(s.View()), call)
  {
    hide Sound, Agrees, ServerProduce, ServerProcess, Received, Sealed, Plaintext;
    match call
    case Produce(x) =>
      var _ := s.NextHandshakeCommand(x);
    case Process(msg, zap) =>
      var _ := s.ProcessHandshakeCommand(msg, zap);
    case ZapMsg(reply) =>
      var _ := s.ReceiveZapReply(reply);
    case Encode(m) =>
      var _ := s.enc.Encode(m);
    case Decode(wire) =>
      var _ := s.enc.Decode(wire);
  }
}
