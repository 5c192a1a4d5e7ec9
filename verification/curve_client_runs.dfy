/** Every sequence of calls on the client's side of CURVE, with arbitrary commands from the peer. */
module CurveClientRuns {
  import opened Bytes
  import opened CurveMessages
  import opened CurveCommands
  import opened CurveHandshake
  import opened CurveCounters

  datatype Call =
    | Produce(vouchNonce: Long, metadata: seq<Byte>)   // next_handshake_command
    | Process(msg: seq<Byte>)                          // process_handshake_command
    | Encode(m: Msg)
    | Decode(wire: seq<Byte>)

  /** encode and decode assert that the client is connected. */
  predicate Allowed(v: ClientView, c: Call) {
    v.nonce < NONCE_LIMIT && v.peer < NONCE_LIMIT && (c.Encode? || c.Decode? ==> v.phase.Connected?)
  }

  function Step(k: ClientSetup, prefix: seq<Byte>, v: ClientView, c: Call): ClientView
    requires Allowed(v, c)
  {
    match c
    case Produce(vouchNonce, metadata) => ClientProduce(k, v, vouchNonce, metadata).0
    case Process(msg) => ClientProcess(k, v, msg).0
    case Encode(_) => v.(nonce := (v.nonce + 1) % NONCE_LIMIT)
    case Decode(wire) => v.(peer := Received(v.box, prefix, v.peer, wire).0)
  }

  /** Whether the call sends a command that carries a nonce: HELLO, INITIATE or MESSAGE. */
  predicate Sends(v: ClientView, c: Call) {
    c.Encode? || (c.Produce? && (v.phase.SendHello? || v.phase.SendInitiate?))
  }

  ghost predicate IsRun(k: ClientSetup, prefix: seq<Byte>, run: seq<ClientView>, calls: seq<Call>) {
    && |run| == |calls| + 1 && run[0].phase == SendHello && run[0].nonce == 1 && run[0].peer == 1
    && forall i :: 0 <= i < |calls| ==> Allowed(run[i], calls[i]) && run[i + 1] == Step(k, prefix, run[i], calls[i])
  }

  // ---------------------------------------------------------------------
  // Nonces

  ghost function Counters(run: seq<ClientView>): seq<nat> {
    seq(|run|, i requires 0 <= i < |run| => run[i].nonce)
  }

  ghost function Sending(run: seq<ClientView>, calls: seq<Call>): seq<bool>
    requires |run| == |calls| + 1
  {
    seq(|calls|, i requires 0 <= i < |calls| => Sends(run[i], calls[i]))
  }

  /** Over handshake and messages together, the nonces used in a run go up one by one. */
  lemma RunCounts(k: ClientSetup, prefix: seq<Byte>, run: seq<ClientView>, calls: seq<Call>)
    requires IsRun(k, prefix, run, calls)
    ensures Counting(Counters(run), Sending(run, calls))
  {
    forall i | 0 <= i < |calls|
      ensures run[i + 1].nonce == if Sends(run[i], calls[i]) then (run[i].nonce + 1) % NONCE_LIMIT else run[i].nonce
    {
      hide GetUint, Received, WelcomeOk, ReadyOk;
      assert run[i + 1] == Step(k, prefix, run[i], calls[i]);
    }
  }

  /** In a run of fewer calls than there are nonces each command sent carries a larger one than all before it. */
  lemma NoncesIncrease(k: ClientSetup, prefix: seq<Byte>, run: seq<ClientView>, calls: seq<Call>, i: nat, j: nat)
    requires IsRun(k, prefix, run, calls) && |calls| + 1 < NONCE_LIMIT && i < j < |calls|
    requires Sends(run[i], calls[i]) && Sends(run[j], calls[j])
    ensures run[i].nonce < run[j].nonce
  {
    RunCounts(k, prefix, run, calls);
    hide Step, Counting;
    Bounded(Counters(run), Sending(run, calls), i, j);
  }

  /** The nonce used is the one the command carries. */
  lemma {:induction false} CarriesNonce(k: ClientSetup, v: ClientView, vouchNonce: Long, metadata: seq<Byte>,
                                        prefix: seq<Byte>, text: seq<Byte>)
    requires v.nonce < NONCE_LIMIT && |v.cookie| == 96
    ensures v.phase == SendHello ==> ClientProduce(k, v, vouchNonce, metadata).1.value[112..120] == PutUint64(v.nonce)
    ensures v.phase == SendInitiate ==>
              ClientProduce(k, v, vouchNonce, metadata).1.value[105..113] == PutUint64(v.nonce)
    ensures Sealed(v.box, prefix, v.nonce, text)[8..16] == PutUint64(v.nonce)
  {
    hide BigEndian;
  }

  // ---------------------------------------------------------------------
  // The order of the handshake

  /** WELCOME and READY are in turn when they are what the client waits for. */
  predicate InTurn(k: ClientSetup, v: ClientView, c: Call) {
    c.Process? ==>
      && (WelcomeOk(k, c.msg) ==> v.phase.ExpectWelcome?)
      && (ReadyOk(k, v, c.msg) ==> v.phase.ExpectReady?)
  }

  /** The moves a handshake consists of. */
  predicate Forward(a: ClientPhase, b: ClientPhase) {
    match a
    case SendHello => b.ExpectWelcome?
    case ExpectWelcome => b.SendInitiate? || b.ErrorReceived?
    case SendInitiate => b.ExpectReady?
    case ExpectReady => b.Connected? || b.ErrorReceived?
    case _ => false
  }

  /** What makes the client move, in turn or not. */
  lemma WhatMoves(k: ClientSetup, prefix: seq<Byte>, v: ClientView, c: Call)
    requires Allowed(v, c)
    ensures var p := Step(k, prefix, v, c).phase;
            && (c.Process? && WelcomeOk(k, c.msg) ==> p == SendInitiate)
            && (c.Process? && ReadyOk(k, v, c.msg) ==> p == Connected)
            && (p == SendInitiate && v.phase != SendInitiate ==> c.Process? && WelcomeOk(k, c.msg))
            && (p == Connected && v.phase != Connected ==> c.Process? && ReadyOk(k, v, c.msg))
            && (p == ExpectWelcome && v.phase != ExpectWelcome ==> c.Produce? && v.phase == SendHello)
            && (p == ExpectReady && v.phase != ExpectReady ==> c.Produce? && v.phase == SendInitiate)
            && (p == SendHello ==> v.phase == SendHello)
            && (c.Process? && ErrorOk(v, c.msg) ==> p == ErrorReceived)
            && (p == ErrorReceived && v.phase != ErrorReceived ==> c.Process? && ErrorOk(v, c.msg))
            && (c.Produce? && v.phase == SendHello ==> p == ExpectWelcome)
            && (c.Produce? && v.phase == SendInitiate ==> p == ExpectReady)
  {
    hide GetUint, Received;
    if c.Process? {
      Distinct(c.msg);
    }
  }

  /**
    The client does not look at its state when a WELCOME or READY comes: a call
    moves it along the handshake, or not at all, iff no such command is out of turn
    or repeats the one that led to the state.
   */
  lemma MovesForward(k: ClientSetup, prefix: seq<Byte>, v: ClientView, c: Call)
    requires Allowed(v, c)
    ensures var p := Step(k, prefix, v, c).phase;
            (p == v.phase || Forward(v.phase, p)) <==>
            (c.Process? ==>
               && (WelcomeOk(k, c.msg) ==> v.phase == ExpectWelcome || v.phase == SendInitiate)
               && (ReadyOk(k, v, c.msg) ==> v.phase == ExpectReady || v.phase == Connected))
  {
    WhatMoves(k, prefix, v, c);
    hide Step, WelcomeOk, ReadyOk;
  }

  /** A client that has sent nothing is connected by a READY under the key it happens to have. */
  lemma ConnectedOutOfTurn(k: ClientSetup, prefix: seq<Byte>, v: ClientView, nonce: nat, metadata: seq<Byte>)
    requires v.phase == SendHello && v.nonce == 1 && v.peer == 1 && Sound(v.box)
    requires nonce < NONCE_LIMIT && k.parses(metadata)
    ensures Step(k, prefix, v, Process(ReadyCommand(v.box, nonce, metadata))).phase == Connected
  {
    ReadyAccepted(v.box, nonce, metadata);
    hide Sound, ReadyCommand, ReadyText, GetUint;
    WhatMoves(k, prefix, v, Process(ReadyCommand(v.box, nonce, metadata)));
  }

  /** The call that brought the client to its phase. */
  lemma {:induction false} Entered(k: ClientSetup, prefix: seq<Byte>, run: seq<ClientView>, calls: seq<Call>, n: nat)
    returns (j: nat)
    requires IsRun(k, prefix, run, calls) && n <= |calls| && run[n].phase != SendHello
    ensures j < n && run[j].phase != run[n].phase && run[j + 1].phase == run[n].phase
  {
    hide Step;
    if run[n - 1].phase == run[n].phase {
      j := Entered(k, prefix, run, calls, n - 1);
    } else {
      j := n - 1;
    }
  }

  /**
    In every run in which WELCOME and READY come in turn, a connected client sent a
    HELLO, then accepted a WELCOME, then sent an INITIATE, then accepted a READY.
   */
  lemma ConnectedInOrder(k: ClientSetup, prefix: seq<Byte>, run: seq<ClientView>, calls: seq<Call>, n: nat)
    returns (h: nat, w: nat, i: nat, r: nat)
    requires IsRun(k, prefix, run, calls) && n <= |calls| && run[n].phase == Connected
    requires forall j :: 0 <= j < n ==> InTurn(k, run[j], calls[j])
    ensures h < w < i < r < n
    ensures calls[h].Produce? && run[h].phase == SendHello
    ensures calls[w].Process? && run[w].phase == ExpectWelcome && WelcomeOk(k, calls[w].msg)
    ensures calls[i].Produce? && run[i].phase == SendInitiate
    ensures calls[r].Process? && run[r].phase == ExpectReady && ReadyOk(k, run[r], calls[r].msg)
  {
    hide Step, WelcomeOk, ReadyOk;
    r := Entered(k, prefix, run, calls, n);
    WhatMoves(k, prefix, run[r], calls[r]);
    assert InTurn(k, run[r], calls[r]);
    i := Entered(k, prefix, run, calls, r);
    WhatMoves(k, prefix, run[i], calls[i]);
    w := Entered(k, prefix, run, calls, i);
    WhatMoves(k, prefix, run[w], calls[w]);
    assert InTurn(k, run[w], calls[w]);
    h := Entered(k, prefix, run, calls, w);
    WhatMoves(k, prefix, run[h], calls[h]);
  }

  // ---------------------------------------------------------------------
  // The record of the peer's nonces

  /** The nonce of a READY is the record from then on, that of a MESSAGE only if it is larger. */
  lemma RecordIs(k: ClientSetup, prefix: seq<Byte>, v: ClientView, c: Call)
    requires Allowed(v, c)
    ensures Step(k, prefix, v, c).peer ==
            if c.Process? && ReadyForm(c.msg) then GetUint(c.msg[6..14])
            else if c.Decode? && WellFormed(c.wire) && Short(c.wire) > v.peer then Short(c.wire)
            else v.peer
  {
    if c.Process? {
      Distinct(c.msg);
    }
    hide GetUint, WelcomeOk, ReadyOk;
  }

  /** The record goes down iff a READY, whether or not its box opens, carries a smaller nonce. */
  lemma RecordFalls(k: ClientSetup, prefix: seq<Byte>, v: ClientView, c: Call)
    requires Allowed(v, c)
    ensures Step(k, prefix, v, c).peer < v.peer <==> c.Process? && ReadyForm(c.msg) && GetUint(c.msg[6..14]) < v.peer
  {
    RecordIs(k, prefix, v, c);
    hide GetUint, Step;
  }

  /** It does so on the first command, a READY with the nonce 0. */
  lemma RecordFallsAtOnce(k: ClientSetup, prefix: seq<Byte>, v: ClientView)
    requires v.phase == SendHello && v.nonce == 1 && v.peer == 1
    ensures Step(k, prefix, v, Process(READY + PutUint64(0) + Zeros(16))).peer == 0
  {
    var msg := READY + PutUint64(0) + Zeros(16);
    SizeBytes(0);
    assert msg[6..14] == PutUint64(0);
    assert READY <= msg;
    Distinct(msg);
    hide BigEndian, GetUint, ReadyOk, WelcomeOk;
  }

  /** The MESSAGE of call `i` was accepted. */
  ghost predicate Accepts(prefix: seq<Byte>, run: seq<ClientView>, calls: seq<Call>, i: int) {
    && 0 <= i < |calls| < |run| && calls[i].Decode?
    && Received(run[i].box, prefix, run[i].peer, calls[i].wire).1.Ok?
  }

  lemma {:induction false} RecordKept(k: ClientSetup, prefix: seq<Byte>, run: seq<ClientView>, calls: seq<Call>,
                                      i: nat, j: nat)
    requires IsRun(k, prefix, run, calls) && i <= j <= |calls|
    requires forall x :: i <= x < j && calls[x].Process? ==> !ReadyForm(calls[x].msg)
    ensures run[i].peer <= run[j].peer
  {
    hide Step, ReadyForm, GetUint;
    if i < j {
      RecordKept(k, prefix, run, calls, i, j - 1);
      RecordFalls(k, prefix, run[j - 1], calls[j - 1]);
    }
  }

  /** Without a further READY in between, the nonces of accepted messages strictly increase. */
  lemma MessagesIncrease(k: ClientSetup, prefix: seq<Byte>, run: seq<ClientView>, calls: seq<Call>, i: nat, j: nat)
    requires IsRun(k, prefix, run, calls) && i < j && Accepts(prefix, run, calls, i) && Accepts(prefix, run, calls, j)
    requires forall x :: i < x < j && calls[x].Process? ==> !ReadyForm(calls[x].msg)
    ensures GetUint(calls[i].wire[8..16]) < GetUint(calls[j].wire[8..16])
  {
    NonceGrows(run[i].box, prefix, run[i].peer, calls[i].wire);
    NonceGrows(run[j].box, prefix, run[j].peer, calls[j].wire);
    hide Received, GetUint, ReadyForm;
    RecordKept(k, prefix, run, calls, i + 1, j);
  }

  // ---------------------------------------------------------------------
  // The class takes these steps

  method Perform(c: CurveClient, call: Call)
    requires c.Valid() && Allowed(c.View(), call)
    modifies c, c.enc
    ensures c.Valid() && c.View() == Step(c.k, c.enc.decodePrefix, old(c.View()), call)
  {
    hide Sound, Agrees, ClientProduce, ClientProcess, Received, Sealed, Plaintext;
    match call
    case Produce(vouchNonce, metadata) =>
      var _ := c.NextHandshakeCommand(vouchNonce, metadata);
    case Process(msg) =>
      var _ := c.ProcessHandshakeCommand(msg);
    case Encode(m) =>
      var _ := c.enc.Encode(m);
    case Decode(wire) =>
      var _ := c.enc.Decode(wire);
  }
}
