/**
  The CURVE handshake of curve_client.cpp and curve_server.cpp: what each side
  does with a call, as a function on values, and the classes that do it.
 */
module CurveHandshake {
  import opened Wrappers
  import opened Bytes
  import opened CurveMessages
  import opened CurveCommands

  // ---------------------------------------------------------------------
  // The client

  datatype ClientPhase = SendHello | ExpectWelcome | SendInitiate | ExpectReady | ErrorReceived | Connected

  // The keys c, C, c' and S, and how the peer's metadata are judged.
  datatype ClientSetup = ClientSetup(
    crypto: Crypto, publicKey: Key, secretKey: Key, cnSecret: Key, serverKey: Key, parses: seq<Byte> -> bool)

  datatype ClientView = ClientView(
    phase: ClientPhase, nonce: nat, peer: nat, server: Key, cookie: seq<Byte>, box: Box)

  /** The box of an INITIATE: C, vouch and metadata. */
  function InitiateBox(k: ClientSetup, v: ClientView, vouchNonce: Long, metadata: seq<Byte>): seq<Byte> {
    k.publicKey + Vouch(k.crypto, v.server, k.secretKey, vouchNonce, k.crypto.pub(k.cnSecret), k.serverKey) + metadata
  }

  /** next_handshake_command. */
  function ClientProduce(k: ClientSetup, v: ClientView, vouchNonce: Long, metadata: seq<Byte>)
    : (ClientView, Option<seq<Byte>>)
    requires v.nonce < NONCE_LIMIT
  {
    var next := (v.nonce + 1) % NONCE_LIMIT;
    match v.phase
    case SendHello =>
      (v.(phase := ExpectWelcome, nonce := next), Some(HelloCommand(k.crypto, k.serverKey, k.cnSecret, v.nonce)))
    case SendInitiate =>
      var text := InitiateBox(k, v, vouchNonce, metadata);
      (v.(phase := ExpectReady, nonce := next),
       Some(InitiateCommand(k.crypto, v.cookie, v.server, k.cnSecret, v.nonce, text)))
    case _ => (v, None)
  }

  predicate WelcomeOk(k: ClientSetup, msg: seq<Byte>) {
    && WELCOME <= msg && |msg| == 168
    && var p := WelcomeText(k.crypto, k.serverKey, k.cnSecret, msg); p.Some? && |p.value| == 128
  }

  predicate ReadyForm(msg: seq<Byte>) {
    READY <= msg && |msg| >= 30
  }

  predicate ReadyOk(k: ClientSetup, v: ClientView, msg: seq<Byte>) {
    ReadyForm(msg) && var p := ReadyText(v.box, msg); p.Some? && k.parses(p.value)
  }

  predicate ErrorOk(v: ClientView, msg: seq<Byte>) {
    ERROR <= msg && (v.phase.ExpectWelcome? || v.phase.ExpectReady?) && |msg| >= 7 && msg[6] <= |msg| - 7
  }

  /** process_handshake_command: WELCOME and READY are taken in any state. */
  function ClientProcess(k: ClientSetup, v: ClientView, msg: seq<Byte>): (ClientView, bool) {
    if WELCOME <= msg then
      if WelcomeOk(k, msg) then
        var p := WelcomeText(k.crypto, k.serverKey, k.cnSecret, msg).value;
        var box := k.crypto.box(p[..32], k.cnSecret);
        (v.(phase := SendInitiate, server := p[..32], cookie := p[32..], box := box), true)
      else (v, false)
    else if READY <= msg then
      if !ReadyForm(msg) then (v, false)
      else
        var v' := v.(peer := GetUint(msg[6..14]));
        if ReadyOk(k, v, msg) then (v'.(phase := Connected), true) else (v', false)
    else if ErrorOk(v, msg) then (v.(phase := ErrorReceived), true)
    else (v, false)
  }

  class CurveClient {
    const k: ClientSetup
    const enc: CurveEncoding
    var phase: ClientPhase
    var server: Key
    var cookie: seq<Byte>

    ghost predicate Valid()
      reads this, enc
    {
      enc.Valid() && Agrees(k.crypto)
    }

    ghost function View(): ClientView
      reads this, enc
    {
      ClientView(phase, enc.cnNonce, enc.cnPeerNonce, server, cookie, enc.box)
    }

    constructor (k: ClientSetup, enc: CurveEncoding)
      requires Agrees(k.crypto) && enc.Valid()
      ensures Valid() && this.k == k && this.enc == enc
      ensures View() == ClientView(SendHello, enc.cnNonce, enc.cnPeerNonce, Zeros(32), [], enc.box)
    {
      this.k, this.enc := k, enc;
      phase, server, cookie := SendHello, Zeros(32), [];
    }

    /** Lines 63-83, 139-158 and 179-204. */
    method NextHandshakeCommand(vouchNonce: Long, metadata: seq<Byte>) returns (r: Option<seq<Byte>>)
      requires Valid()
      modifies this`phase, enc`cnNonce
      ensures Valid() && (View(), r) == ClientProduce(k, old(View()), vouchNonce, metadata)
      ensures r.Some? <==> old(phase) == SendHello || old(phase) == SendInitiate
    {
      hide Sound;
      match phase
      case SendHello =>
        var n := enc.GetAndIncNonce();
        r := Some(HelloCommand(k.crypto, k.serverKey, k.cnSecret, n));
        phase := ExpectWelcome;
      case SendInitiate =>
        var vouch := Vouch(k.crypto, server, k.secretKey, vouchNonce, k.crypto.pub(k.cnSecret), k.serverKey);
        var text := k.publicKey + vouch + metadata;
        var n := enc.GetAndIncNonce();
        r := Some(InitiateCommand(k.crypto, cookie, server, k.cnSecret, n, text));
        phase := ExpectReady;
      case _ =>
        r := None;
    }

    /** Lines 85-115. */
    method ProcessHandshakeCommand(msg: seq<Byte>) returns (ok: bool)
      requires Valid()
      modifies this, enc`cnPeerNonce, enc`box
      ensures Valid() && (View(), ok) == ClientProcess(k, old(View()), msg)
    {
      Distinct(msg);
      if WELCOME <= msg {
        ok := ProcessWelcome(msg);
      } else if READY <= msg {
        ok := ProcessReady(msg);
      } else if ERROR <= msg {
        ok := ProcessError(msg);
      } else {
        ok := false;
      }
    }

    /** Lines 160-177, with lines 96-138 of curve_client_tools.hpp. */
    method ProcessWelcome(msg: seq<Byte>) returns (ok: bool)
      requires Valid() && WELCOME <= msg
      modifies this, enc`box
      ensures Valid() && (View(), ok) == ClientProcess(k, old(View()), msg)
    {
      if |msg| != 168 {
        return false;
      }
      var text := k.crypto.box(k.serverKey, k.cnSecret).open(WELCOME_NONCE + msg[8..24], msg[24..]);
      if text.None? {
        return false;
      }
      Opened(k.crypto.box(k.serverKey, k.cnSecret), WELCOME_NONCE + msg[8..24], msg[24..]);
      server := text.value[..32];
      cookie := text.value[32..];
      enc.box := k.crypto.box(server, k.cnSecret);
      phase := SendInitiate;
      ok := true;
    }

    /** Lines 206-255. */
    method ProcessReady(msg: seq<Byte>) returns (ok: bool)
      requires Valid() && READY <= msg
      modifies this`phase, enc`cnPeerNonce
      ensures Valid() && (View(), ok) == ClientProcess(k, old(View()), msg)
    {
      Distinct(msg);
      hide GetUint, Sound;
      if |msg| < 30 {
        return false;
      }
      UintBound(msg[6..14]);
      enc.cnPeerNonce := GetUint(msg[6..14]);
      var text := enc.box.open(READY_NONCE + msg[6..14], msg[14..]);
      if text.None? {
        return false;
      }
      ok := k.parses(text.value);
      if ok {
        phase := Connected;
      }
    }

    /** Lines 257-285. */
    method ProcessError(msg: seq<Byte>) returns (ok: bool)
      requires Valid() && ERROR <= msg
      modifies this`phase
      ensures Valid() && (View(), ok) == ClientProcess(k, old(View()), msg)
    {
      Distinct(msg);
      hide Sound;
      if phase != ExpectWelcome && phase != ExpectReady {
        return false;
      }
      if |msg| < 7 {
        return false;
      }
      if msg[6] > |msg| - 7 {
        return false;
      }
      phase := ErrorReceived;
      ok := true;
    }
  }

  // ---------------------------------------------------------------------
  // The server

  datatype ServerPhase =
    | WaitingForHello | SendingWelcome | WaitingForInitiate | WaitingForZapReply | SendingReady | SendingError
    | ErrorSent | Ready

  // A ZAP reply: none yet, a malformed one, or the first digit of its status code.
  datatype Reply = NotYet | Malformed | Code(digit: char)

  // Whether a ZAP request was not needed, needed with no handler to send it to, or sent, with what came back at once.
  datatype Zap = Skipped | Unavailable | Requested(reply: Reply)

  // The keys s and s', and how the peer's metadata are judged.
  datatype ServerSetup = ServerSetup(crypto: Crypto, secretKey: Key, cnSecret: Key, parses: seq<Byte> -> bool)

  datatype ServerView = ServerView(phase: ServerPhase, nonce: nat, peer: nat, client: Key, cookieKey: Key, box: Box)

  type Status = s: seq<Byte> | |s| == 3 witness Zeros(3)

  // What the random generator, the options and the authentication supply for the next command.
  datatype Supply = Supply(welcomeNonce: Long, cookieNonce: Long, cookieKey: Key, metadata: seq<Byte>,
                           status: Status)

  /** next_handshake_command. */
  function ServerProduce(k: ServerSetup, v: ServerView, x: Supply): (ServerView, Option<seq<Byte>>)
    requires v.nonce < NONCE_LIMIT
  {
    match v.phase
    case SendingWelcome =>
      var cookie := Cookie(k.crypto, x.cookieKey, x.cookieNonce, v.client, k.cnSecret);
      (v.(phase := WaitingForInitiate, cookieKey := x.cookieKey),
       Some(WelcomeCommand(k.crypto, v.client, k.secretKey, x.welcomeNonce, k.crypto.pub(k.cnSecret), cookie)))
    case SendingReady =>
      (v.(phase := Ready, nonce := (v.nonce + 1) % NONCE_LIMIT), Some(ReadyCommand(v.box, v.nonce, x.metadata)))
    case SendingError => (v.(phase := ErrorSent), Some(ERROR + [3] + x.status))
    case _ => (v, None)
  }

  /** zap_client.cpp, lines 287-307: a reply leads on, to a silent end or to an ERROR. */
  function AfterZap(r: Reply): ServerPhase {
    match r
    case Code(d) => if d == '2' then SendingReady else if d == '3' then ErrorSent else SendingError
    case _ => WaitingForZapReply
  }

  /** process_hello: the nonce is recorded before the box is opened. */
  function ProcessHelloSpec(k: ServerSetup, v: ServerView, msg: seq<Byte>): (ServerView, bool) {
    if !HelloForm(msg) then (v, false)
    else
      var v' := v.(client := msg[80..112], peer := GetUint(msg[112..120]));
      if HelloOpens(k.crypto, k.secretKey, msg) then (v'.(phase := SendingWelcome), true) else (v', false)
  }

  /** The checks of an INITIATE up to the metadata and authentication. */
  predicate Admitted(k: ServerSetup, v: ServerView, msg: seq<Byte>) {
    && InitiateForm(msg) && CookieOk(k.crypto, v.cookieKey, v.client, k.cnSecret, msg)
    && var p := InitiateText(k.crypto, v.client, k.cnSecret, msg);
       p.Some? && VouchOk(k.crypto, v.client, k.cnSecret, p.value)
  }

  predicate MetadataOk(k: ServerSetup, v: ServerView, msg: seq<Byte>)
    requires Admitted(k, v, msg)
  {
    k.parses(InitiateText(k.crypto, v.client, k.cnSecret, msg).value[128..])
  }

  /** process_initiate: the metadata are looked at last, when the state has changed already. */
  function ProcessInitiateSpec(k: ServerSetup, v: ServerView, msg: seq<Byte>, zap: Zap): (ServerView, bool) {
    if !InitiateForm(msg) || !CookieOk(k.crypto, v.cookieKey, v.client, k.cnSecret, msg) then (v, false)
    else
      var v' := v.(peer := GetUint(msg[105..113]));
      if !Admitted(k, v, msg) then (v', false)
      else
        var w := v'.(box := k.crypto.box(v.client, k.cnSecret));
        match zap
        case Skipped => (w.(phase := SendingReady), MetadataOk(k, v, msg))
        case Unavailable => (w, false)
        case Requested(reply) =>
          (w.(phase := AfterZap(reply)), reply != Malformed && MetadataOk(k, v, msg))
  }

  /** process_handshake_command. */
  function ServerProcess(k: ServerSetup, v: ServerView, msg: seq<Byte>, zap: Zap): (ServerView, bool) {
    match v.phase
    case WaitingForHello => ProcessHelloSpec(k, v, msg)
    case WaitingForInitiate => ProcessInitiateSpec(k, v, msg, zap)
    case _ => (v, false)
  }

  class CurveServer {
    const k: ServerSetup
    const enc: CurveEncoding
    var phase: ServerPhase
    var client: Key
    var cookieKey: Key

    ghost predicate Valid()
      reads this, enc
    {
      enc.Valid() && Agrees(k.crypto)
    }

    ghost function View(): ServerView
      reads this, enc
    {
      ServerView(phase, enc.cnNonce, enc.cnPeerNonce, client, cookieKey, enc.box)
    }

    constructor (k: ServerSetup, enc: CurveEncoding)
      requires Agrees(k.crypto) && enc.Valid()
      ensures Valid() && this.k == k && this.enc == enc
      ensures View() == ServerView(WaitingForHello, enc.cnNonce, enc.cnPeerNonce, Zeros(32), Zeros(32), enc.box)
    {
      this.k, this.enc := k, enc;
      phase, client, cookieKey := WaitingForHello, Zeros(32), Zeros(32);
    }

    /** Lines 70-96, 210-281 and 446-498. */
    method NextHandshakeCommand(x: Supply) returns (r: Option<seq<Byte>>)
      requires Valid()
      modifies this`phase, this`cookieKey, enc`cnNonce
      ensures Valid() && (View(), r) == ServerProduce(k, old(View()), x)
      ensures r.Some? <==> old(phase) == SendingWelcome || old(phase) == SendingReady || old(phase) == SendingError
    {
      hide Sound;
      match phase
      case SendingWelcome =>
        cookieKey := x.cookieKey;
        var cookie := Cookie(k.crypto, cookieKey, x.cookieNonce, client, k.cnSecret);
        r := Some(WelcomeCommand(k.crypto, client, k.secretKey, x.welcomeNonce, k.crypto.pub(k.cnSecret), cookie));
        phase := WaitingForInitiate;
      case SendingReady =>
        var n := enc.GetAndIncNonce();
        r := Some(ReadyCommand(enc.box, n, x.metadata));
        phase := Ready;
      case SendingError =>
        r := Some(ERROR + [3] + x.status);
        phase := ErrorSent;
      case _ =>
        r := None;
    }

    /** Lines 98-130. */
    method ProcessHandshakeCommand(msg: seq<Byte>, zap: Zap) returns (ok: bool)
      requires Valid()
      modifies this`phase, this`client, enc`cnPeerNonce, enc`box
      ensures Valid() && (View(), ok) == ServerProcess(k, old(View()), msg, zap)
    {
      hide ProcessHelloSpec, ProcessInitiateSpec;
      match phase
      case WaitingForHello => ok := ProcessHello(msg);
      case WaitingForInitiate => ok := ProcessInitiate(msg, zap);
      case _ => ok := false;
    }

    /** Lines 144-208. */
    method ProcessHello(msg: seq<Byte>) returns (ok: bool)
      requires Valid()
      modifies this`phase, this`client, enc`cnPeerNonce
      ensures Valid() && (View(), ok) == ProcessHelloSpec(k, old(View()), msg)
    {
      hide GetUint, Sound;
      if |msg| <= 1 || |msg| <= msg[0] {
        return false;
      }
      if |msg| < 6 || msg[..6] != HELLO {
        return false;
      }
      if |msg| != 200 {
        return false;
      }
      if msg[6] != 1 || msg[7] != 0 {
        return false;
      }
      client := msg[80..112];
      UintBound(msg[112..120]);
      enc.cnPeerNonce := GetUint(msg[112..120]);
      var text := k.crypto.box(client, k.secretKey).open(HELLO_NONCE + msg[112..120], msg[120..]);
      if text.None? {
        return false;
      }
      phase := SendingWelcome;
      ok := true;
    }

    /** Lines 283-444. */
    method ProcessInitiate(msg: seq<Byte>, zap: Zap) returns (ok: bool)
      requires Valid() && phase == WaitingForInitiate
      modifies this`phase, enc`cnPeerNonce, enc`box
      ensures Valid() && (View(), ok) == ProcessInitiateSpec(k, old(View()), msg, zap)
    {
      hide GetUint, Sound;
      if |msg| <= 1 || |msg| <= msg[0] {
        return false;
      }
      if |msg| < 9 || msg[..9] != INITIATE {
        return false;
      }
      if |msg| < 257 {
        return false;
      }
      var plain := k.crypto.secretbox(cookieKey).open(COOKIE_NONCE + msg[9..25], msg[25..105]);
      if plain.None? {
        return false;
      }
      Opened(k.crypto.secretbox(cookieKey), COOKIE_NONCE + msg[9..25], msg[25..105]);
      assert plain.value == plain.value[..32] + plain.value[32..];
      if plain.value[..32] != client || plain.value[32..] != k.cnSecret {
        return false;
      }
      assert plain.value == client + k.cnSecret;
      UintBound(msg[105..113]);
      enc.cnPeerNonce := GetUint(msg[105..113]);
      var text := k.crypto.box(client, k.cnSecret).open(INITIATE_NONCE + msg[105..113], msg[113..]);
      if text.None? {
        return false;
      }
      Opened(k.crypto.box(client, k.cnSecret), INITIATE_NONCE + msg[105..113], msg[113..]);
      var p := text.value;
      var vouch := k.crypto.box(p[..32], k.cnSecret).open(VOUCH_NONCE + p[32..48], p[48..128]);
      if vouch.None? {
        return false;
      }
      Opened(k.crypto.box(p[..32], k.cnSecret), VOUCH_NONCE + p[32..48], p[48..128]);
      if vouch.value[..32] != client {
        return false;
      }
      enc.box := k.crypto.box(client, k.cnSecret);
      match zap {
        case Skipped =>
          phase := SendingReady;
        case Unavailable =>
          return false;
        case Requested(reply) =>
          phase := WaitingForZapReply;
          ok := ReceiveZapReply(reply);
          if !ok {
            return false;
          }
      }
      return k.parses(p[128..]);
    }

    /** Lines 280-284 and 286-313 of zap_client.cpp; the request was sent and the reply may be there. */
    method ReceiveZapReply(reply: Reply) returns (ok: bool)
      requires Valid() && phase == WaitingForZapReply
      modifies this`phase
      ensures Valid() && phase == AfterZap(reply) && (ok <==> reply != Malformed)
      ensures (phase == SendingReady <==> reply == Code('2')) && (phase == ErrorSent <==> reply == Code('3'))
      ensures phase == SendingError <==> reply.Code? && reply.digit != '2' && reply.digit != '3'
    {
      hide Sound;
      match reply
      case NotYet => ok := true;
      case Malformed => ok := false;
      case Code(d) =>
        match d {
          case '2' => phase := SendingReady;
          case '3' => phase := ErrorSent;
          case _ => phase := SendingError;
        }
        ok := true;
    }
  }

  // ---------------------------------------------------------------------
  // Which commands are taken, byte by byte

  /** A HELLO: 200 bytes, version 1.0, a box from the key it carries. */
  lemma {:induction false} HelloTaken(k: ServerSetup, v: ServerView, msg: seq<Byte>)
    ensures ProcessHelloSpec(k, v, msg).1 <==>
            && |msg| == 200 && msg[..6] == [5] + Ascii("HELLO") && msg[6..8] == [1, 0]
            && k.crypto.box(msg[80..112], k.secretKey).open(Ascii("CurveZMQHELLO---") + msg[112..120], msg[120..]).Some?
  {
    Names();
    NonceNames();
    hide Ascii, GetUint;
    assert HELLO <= msg <==> |msg| >= 6 && msg[..6] == HELLO;
    assert |msg| == 200 ==> msg[6..8] == [msg[6], msg[7]];
  }

  /** An INITIATE: the server's cookie for this client, a box from it, in that a vouch for its short-term key. */
  lemma {:induction false} InitiateAdmitted(k: ServerSetup, v: ServerView, msg: seq<Byte>)
    ensures Admitted(k, v, msg) <==>
            && |msg| >= 257 && msg[..9] == [8] + Ascii("INITIATE")
            && var cookie := k.crypto.secretbox(v.cookieKey).open(Ascii("COOKIE--") + msg[9..25], msg[25..105]);
               var box := k.crypto.box(v.client, k.cnSecret);
               var text := box.open(Ascii("CurveZMQINITIATE") + msg[105..113], msg[113..]);
            && cookie == Some(v.client + k.cnSecret) && text.Some? && |text.value| >= 128
            && var vouch := k.crypto.box(text.value[..32], k.cnSecret).open(
                              Ascii("VOUCH---") + text.value[32..48], text.value[48..128]);
               vouch.Some? && v.client <= vouch.value
  {
    Names();
    NonceNames();
    hide Ascii;
    assert INITIATE <= msg <==> |msg| >= 9 && msg[..9] == INITIATE;
  }

  /** When an INITIATE is accepted. */
  lemma {:induction false} InitiateTaken(k: ServerSetup, v: ServerView, msg: seq<Byte>, zap: Zap)
    ensures ProcessInitiateSpec(k, v, msg, zap).1 <==>
            Admitted(k, v, msg) && MetadataOk(k, v, msg) && zap != Unavailable && zap != Requested(Malformed)
  {
    hide GetUint, InitiateForm, CookieOk, VouchOk;
  }

  /** What a client takes: a WELCOME or a READY whose box opens, and an ERROR when it expects one of them. */
  lemma {:induction false} ClientTakes(k: ClientSetup, v: ClientView, msg: seq<Byte>)
    ensures var welcome := |msg| == 168 && msg[..8] == [7] + Ascii("WELCOME")
                           && var p := k.crypto.box(k.serverKey, k.cnSecret).open(
                                         Ascii("WELCOME-") + msg[8..24], msg[24..]);
                              p.Some? && |p.value| == 128;
            var ready := |msg| >= 30 && msg[..6] == [5] + Ascii("READY")
                         && var p := v.box.open(Ascii("CurveZMQREADY---") + msg[6..14], msg[14..]);
                            p.Some? && k.parses(p.value);
            var error := |msg| >= 7 && msg[..6] == [5] + Ascii("ERROR") && 7 + msg[6] <= |msg|
                         && (v.phase == ExpectWelcome || v.phase == ExpectReady);
            var (w, ok) := ClientProcess(k, v, msg);
            && (ok <==> welcome || ready || error)
            && w.phase == if welcome then SendInitiate else if ready then Connected else if error then ErrorReceived
                          else v.phase
  {
    Names();
    NonceNames();
    hide Ascii, GetUint;
    Distinct(msg);
    assert WELCOME <= msg <==> |msg| >= 8 && msg[..8] == WELCOME;
    assert READY <= msg <==> |msg| >= 6 && msg[..6] == READY;
    assert ERROR <= msg <==> |msg| >= 6 && msg[..6] == ERROR;
  }

  /** The ERROR of a server that refuses authentication ends the handshake of a client that waits. */
  lemma {:induction false} ErrorArrives(c: ClientSetup, v: ClientView, s: ServerSetup, w: ServerView, x: Supply)
    requires (v.phase == ExpectWelcome || v.phase == ExpectReady) && w.phase == SendingError && w.nonce < NONCE_LIMIT
    ensures var (w', msg) := ServerProduce(s, w, x);
            && w' == w.(phase := ErrorSent) && msg == Some([5] + Ascii("ERROR") + [3] + x.status)
            && ClientProcess(c, v, msg.value) == (v.(phase := ErrorReceived), true)
  {
    Names();
    hide Ascii, GetUint, WelcomeOk, ReadyOk;
    Distinct(ERROR + [3] + x.status);
  }

  // ---------------------------------------------------------------------
  // An honest handshake

  /** The two sides know what they should of each other, and like each other's metadata. */
  ghost predicate Peers(c: ClientSetup, s: ServerSetup, fromClient: seq<Byte>, fromServer: seq<Byte>) {
    && c.crypto == s.crypto && Agrees(c.crypto)
    && c.publicKey == c.crypto.pub(c.secretKey) && c.serverKey == s.crypto.pub(s.secretKey)
    && c.parses(fromServer) && s.parses(fromClient)
  }

  /** HELLO and WELCOME: each side has the other's short-term key, the client has the server's cookie. */
  method Introduce(c: CurveClient, s: CurveServer, x: Supply, ghost up: seq<Byte>)
    requires c.enc != s.enc && c.Valid() && s.Valid() && Peers(c.k, s.k, up, x.metadata)
    requires c.phase == SendHello && s.phase == WaitingForHello && c.enc.cnNonce + 1 < NONCE_LIMIT
    modifies c, s, c.enc, s.enc
    ensures c.Valid() && s.Valid() && c.phase == SendInitiate && s.phase == WaitingForInitiate
    ensures c.server == s.k.crypto.pub(s.k.cnSecret) && s.client == c.k.crypto.pub(c.k.cnSecret)
    ensures c.cookie == Cookie(s.k.crypto, x.cookieKey, x.cookieNonce, s.client, s.k.cnSecret)
    ensures c.enc.box == c.k.crypto.box(c.server, c.k.cnSecret) && s.cookieKey == x.cookieKey
    ensures c.enc.cnNonce == old(c.enc.cnNonce) + 1 && s.enc.cnNonce == old(s.enc.cnNonce)
  {
    hide Sound, Agrees, HelloCommand, HelloOpens, WelcomeCommand, WelcomeText, Cookie, GetUint;
    HelloAccepted(c.k.crypto, s.k.secretKey, c.k.cnSecret, c.enc.cnNonce);
    var hello := c.NextHandshakeCommand(Zeros(16), []);
    var ok := s.ProcessHandshakeCommand(hello.value, Skipped);
    ghost var client, key := c.k.crypto.pub(c.k.cnSecret), s.k.crypto.pub(s.k.cnSecret);
    assert s.client == client;
    ghost var cookie: seq<Byte> := Cookie(s.k.crypto, x.cookieKey, x.cookieNonce, client, s.k.cnSecret);
    CookieReturns(s.k.crypto, x.cookieKey, x.cookieNonce, client, s.k.cnSecret);
    WelcomeAccepted(c.k.crypto, s.k.secretKey, c.k.cnSecret, x.welcomeNonce, key, cookie);
    var welcome := s.NextHandshakeCommand(x);
    assert (key + cookie)[..32] == key && (key + cookie)[32..] == cookie;
    ok := c.ProcessHandshakeCommand(welcome.value);
  }

  /** INITIATE, and the ZAP exchange if there is one. */
  method Initiate(c: CurveClient, s: CurveServer, x: Supply, vouchNonce: Long, up: seq<Byte>, zap: bool)
    requires c.enc != s.enc && c.Valid() && s.Valid() && Peers(c.k, s.k, up, x.metadata)
    requires c.phase == SendInitiate && s.phase == WaitingForInitiate && s.cookieKey == x.cookieKey
    requires c.server == s.k.crypto.pub(s.k.cnSecret) && s.client == c.k.crypto.pub(c.k.cnSecret)
    requires c.cookie == Cookie(s.k.crypto, x.cookieKey, x.cookieNonce, s.client, s.k.cnSecret)
    requires c.enc.box == c.k.crypto.box(c.server, c.k.cnSecret) && c.enc.cnNonce + 1 < NONCE_LIMIT
    modifies c`phase, s`phase, s`client, c.enc`cnNonce, s.enc`cnPeerNonce, s.enc`box
    ensures c.Valid() && s.Valid() && c.phase == ExpectReady && s.phase == SendingReady && c.enc.box == s.enc.box
    ensures c.enc.cnNonce == old(c.enc.cnNonce) + 1 && s.enc.cnPeerNonce == old(c.enc.cnNonce)
  {
    hide Sound, InitiateCommand, InitiateText, CookieOk, VouchOk, Cookie, Vouch, GetUint;
    ghost var crypto, n := c.k.crypto, c.enc.cnNonce;
    ghost var text := InitiateBox(c.k, c.View(), vouchNonce, up);
    VouchAccepted(crypto, c.k.secretKey, s.k.cnSecret, vouchNonce, s.client, c.k.serverKey, up);
    VouchSize(crypto, s.k.cnSecret, s.client, text);
    InitiateAccepted(crypto, x.cookieKey, x.cookieNonce, s.k.cnSecret, c.k.cnSecret, n, text);
    assert crypto.box(c.server, c.k.cnSecret) == crypto.box(s.client, s.k.cnSecret);
    hide Agrees;
    var initiate := c.NextHandshakeCommand(vouchNonce, up);
    var ok := s.ProcessHandshakeCommand(initiate.value, if zap then Requested(NotYet) else Skipped);
    if zap {
      ok := s.ReceiveZapReply(Code('2'));
    }
  }

  /** READY. */
  method Confirm(c: CurveClient, s: CurveServer, x: Supply)
    requires c.enc != s.enc && c.Valid() && s.Valid() && c.k.parses(x.metadata) && c.enc.box == s.enc.box
    requires c.phase == ExpectReady && s.phase == SendingReady && s.enc.cnNonce + 1 < NONCE_LIMIT
    modifies c, s`phase, s`cookieKey, s.enc`cnNonce, c.enc`cnPeerNonce, c.enc`box
    ensures c.Valid() && s.Valid() && c.phase == Connected && s.phase == Ready && c.enc.box == s.enc.box
    ensures s.enc.cnNonce == old(s.enc.cnNonce) + 1 && c.enc.cnPeerNonce == old(s.enc.cnNonce)
  {
    ReadyAccepted(s.enc.box, s.enc.cnNonce, x.metadata);
    hide Sound, Agrees, ReadyCommand, ReadyText, GetUint;
    var ready := s.NextHandshakeCommand(x);
    Distinct(ready.value);
    var ok := c.ProcessHandshakeCommand(ready.value);
  }

  lemma VouchSize(x: Crypto, cnSecret: Key, client: Key, text: seq<Byte>)
    requires VouchOk(x, client, cnSecret, text)
    ensures |text| >= 128
  {
  }

  /** An honest handshake succeeds, agrees on the key, and leaves each record just below the peer's next nonce. */
  method Handshake(c: CurveClient, s: CurveServer, x: Supply, vouchNonce: Long, up: seq<Byte>, zap: bool)
    requires c.enc != s.enc && c.Valid() && s.Valid() && Peers(c.k, s.k, up, x.metadata)
    requires c.phase == SendHello && s.phase == WaitingForHello
    requires c.enc.cnNonce + 2 < NONCE_LIMIT && s.enc.cnNonce + 1 < NONCE_LIMIT
    modifies c, s, c.enc, s.enc
    ensures c.Valid() && s.Valid() && c.phase == Connected && s.phase == Ready && c.enc.box == s.enc.box
    ensures c.enc.cnNonce == old(c.enc.cnNonce) + 2 && s.enc.cnNonce == old(s.enc.cnNonce) + 1
    ensures s.enc.cnPeerNonce == c.enc.cnNonce - 1 && c.enc.cnPeerNonce == s.enc.cnNonce - 1
  {
    hide Sound, Agrees, Cookie;
    Introduce(c, s, x, up);
    Initiate(c, s, x, vouchNonce, up, zap);
    Confirm(c, s, x);
  }

  /**
    After an honest handshake every message in either direction is accepted and
    restored as long as the transport keeps order: any subsequence gets through,
    the first included, and anything repeated or late is refused.
   */
  method Session(c: CurveClient, s: CurveServer, x: Supply, vouchNonce: Long, metadata: seq<Byte>, zap: bool,
                 up: seq<Msg>, upPicks: seq<nat>, down: seq<Msg>, downPicks: seq<nat>)
    returns (atServer: seq<Result>, atClient: seq<Result>)
    requires c.enc != s.enc && c.Valid() && s.Valid() && Peers(c.k, s.k, metadata, x.metadata)
    requires c.phase == SendHello && s.phase == WaitingForHello
    requires c.enc.encodePrefix == s.enc.decodePrefix && s.enc.encodePrefix == c.enc.decodePrefix
    requires c.enc.cnNonce + 2 + |up| < NONCE_LIMIT && s.enc.cnNonce + 1 + |down| < NONCE_LIMIT
    requires forall k :: 0 <= k < |upPicks| ==> upPicks[k] < |up|
    requires forall k :: 0 <= k < |downPicks| ==> downPicks[k] < |down|
    modifies c, s, c.enc, s.enc
    ensures Delivered(c.enc.downgradeSub, up, upPicks, atServer)
    ensures Delivered(s.enc.downgradeSub, down, downPicks, atClient)
  {
    hide Sound, Agrees, Sealed, Plaintext, Received;
    Handshake(c, s, x, vouchNonce, metadata, zap);
    ghost var first, back := c.enc.cnNonce, s.enc.cnNonce;
    var sent := SendAll(c.enc, up);
    atServer := Deliver(s.enc, sent, upPicks, c.enc.downgradeSub, first, up);
    var replies := SendAll(s.enc, down);
    atClient := Deliver(c.enc, replies, downPicks, s.enc.downgradeSub, back, down);
  }
}
