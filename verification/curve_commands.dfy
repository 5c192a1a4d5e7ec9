/**
  The commands of the CURVE handshake (ZeroMQ RFC 26/CURVEZMQ): their layout and
  the boxes in them, over an abstract crypto library.
 */
module CurveCommands {
  import opened Wrappers
  import opened Bytes
  import opened CurveMessages

  const HELLO: seq<Byte> := [5, 72, 69, 76, 76, 79]
  const WELCOME: seq<Byte> := [7, 87, 69, 76, 67, 79, 77, 69]
  const INITIATE: seq<Byte> := [8, 73, 78, 73, 84, 73, 65, 84, 69]
  const READY: seq<Byte> := [5, 82, 69, 65, 68, 89]
  const ERROR: seq<Byte> := [5, 69, 82, 82, 79, 82]

  // The prefixes that make short nonces long: CurveZMQHELLO---, WELCOME-, COOKIE--, VOUCH---,
  // CurveZMQINITIATE, CurveZMQREADY---
  const HELLO_NONCE: seq<Byte> := [67, 117, 114, 118, 101, 90, 77, 81, 72, 69, 76, 76, 79, 45, 45, 45]
  const WELCOME_NONCE: seq<Byte> := [87, 69, 76, 67, 79, 77, 69, 45]
  const COOKIE_NONCE: seq<Byte> := [67, 79, 79, 75, 73, 69, 45, 45]
  const VOUCH_NONCE: seq<Byte> := [86, 79, 85, 67, 72, 45, 45, 45]
  const INITIATE_NONCE: seq<Byte> := [67, 117, 114, 118, 101, 90, 77, 81, 73, 78, 73, 84, 73, 65, 84, 69]
  const READY_NONCE: seq<Byte> := [67, 117, 114, 118, 101, 90, 77, 81, 82, 69, 65, 68, 89, 45, 45, 45]

  /** Names have their length in front, nonce prefixes have not. */
  lemma {:induction false} Names()
    ensures HELLO == [5] + Ascii("HELLO") && WELCOME == [7] + Ascii("WELCOME") && INITIATE == [8] + Ascii("INITIATE")
    ensures READY == [5] + Ascii("READY") && ERROR == [5] + Ascii("ERROR")
  {
    hide Ascii;
    assert HELLO[1..] == Ascii("HELLO") && WELCOME[1..] == Ascii("WELCOME") && INITIATE[1..] == Ascii("INITIATE");
    assert READY[1..] == Ascii("READY") && ERROR[1..] == Ascii("ERROR");
  }

  lemma {:induction false} NonceNames()
    ensures HELLO_NONCE == Ascii("CurveZMQHELLO---") && WELCOME_NONCE == Ascii("WELCOME-")
    ensures COOKIE_NONCE == Ascii("COOKIE--") && VOUCH_NONCE == Ascii("VOUCH---")
    ensures INITIATE_NONCE == Ascii("CurveZMQINITIATE") && READY_NONCE == Ascii("CurveZMQREADY---")
  {
    hide Ascii;
  }

  type Key = k: seq<Byte> | |k| == 32 witness Zeros(32)
  type Long = n: seq<Byte> | |n| == 16 witness Zeros(16)   // a random nonce

  // crypto_box_keypair, crypto_box with a public and a secret key, crypto_secretbox with one key.
  datatype Crypto = Crypto(pub: Key -> Key, box: (Key, Key) -> Box, secretbox: Key -> Box)

  /** Boxes open to what was sealed, and the two sides of a pair of keys have the same box. */
  ghost predicate Agrees(x: Crypto) {
    && (forall p, k :: Sound(x.box(p, k)))
    && (forall k :: Sound(x.secretbox(k)))
    && forall a, b :: x.box(x.pub(a), b) == x.box(x.pub(b), a)
  }

  lemma {:induction false} Opens(b: Box, nonce: seq<Byte>, text: seq<Byte>)
    requires Sound(b)
    ensures b.open(nonce, b.seal(nonce, text)) == Some(text) && |b.seal(nonce, text)| == |text| + MACBYTES
  {
  }

  lemma {:induction false} Opened(b: Box, nonce: seq<Byte>, c: seq<Byte>)
    requires Sound(b) && b.open(nonce, c).Some?
    ensures |c| == |b.open(nonce, c).value| + MACBYTES
  {
  }

  // ---------------------------------------------------------------------
  // HELLO: version, C', short nonce, box of 64 zeros from C' to S

  function HelloCommand(x: Crypto, serverKey: Key, cnSecret: Key, nonce: nat): seq<Byte>
    requires nonce < NONCE_LIMIT
  {
    HELLO + [1, 0] + Zeros(72) + x.pub(cnSecret) + PutUint64(nonce)
    + x.box(serverKey, cnSecret).seal(HELLO_NONCE + PutUint64(nonce), Zeros(64))
  }

  predicate HelloForm(msg: seq<Byte>) {
    HELLO <= msg && |msg| == 200 && msg[6] == 1 && msg[7] == 0
  }

  predicate HelloOpens(x: Crypto, secretKey: Key, msg: seq<Byte>)
    requires |msg| == 200
  {
    x.box(msg[80..112], secretKey).open(HELLO_NONCE + msg[112..120], msg[120..]).Some?
  }

  lemma {:induction false} HelloAccepted(x: Crypto, secretKey: Key, cnSecret: Key, nonce: nat)
    requires Agrees(x) && nonce < NONCE_LIMIT
    ensures var msg := HelloCommand(x, x.pub(secretKey), cnSecret, nonce);
            && HelloForm(msg) && HelloOpens(x, secretKey, msg)
            && msg[80..112] == x.pub(cnSecret) && GetUint(msg[112..120]) == nonce
  {
    hide BigEndian, GetUint, Sound;
    SizeBytes(nonce);
    var b := x.box(x.pub(secretKey), cnSecret);
    Opens(b, HELLO_NONCE + PutUint64(nonce), Zeros(64));
    var msg := HelloCommand(x, x.pub(secretKey), cnSecret, nonce);
    assert msg[80..112] == x.pub(cnSecret) && msg[112..120] == PutUint64(nonce);
    assert msg[120..] == b.seal(HELLO_NONCE + PutUint64(nonce), Zeros(64));
    assert x.box(x.pub(cnSecret), secretKey) == b;
  }

  // ---------------------------------------------------------------------
  // WELCOME: random nonce, box of S' and cookie from S to C'

  /** The cookie: random nonce, secret box of C' and s'. */
  function Cookie(x: Crypto, cookieKey: Key, nonce: Long, client: Key, cnSecret: Key): seq<Byte> {
    nonce + x.secretbox(cookieKey).seal(COOKIE_NONCE + nonce, client + cnSecret)
  }

  function WelcomeCommand(x: Crypto, client: Key, secretKey: Key, nonce: Long, cnServer: Key,
                          cookie: seq<Byte>): seq<Byte> {
    WELCOME + nonce + x.box(client, secretKey).seal(WELCOME_NONCE + nonce, cnServer + cookie)
  }

  /** What a client with this key finds in a WELCOME of the right size. */
  function WelcomeText(x: Crypto, serverKey: Key, cnSecret: Key, msg: seq<Byte>): Option<seq<Byte>>
    requires |msg| == 168
  {
    x.box(serverKey, cnSecret).open(WELCOME_NONCE + msg[8..24], msg[24..])
  }

  lemma {:induction false} WelcomeAccepted(x: Crypto, secretKey: Key, cnSecret: Key, nonce: Long, cnServer: Key,
                                           cookie: seq<Byte>)
    requires Agrees(x) && |cookie| == 96
    ensures var msg := WelcomeCommand(x, x.pub(cnSecret), secretKey, nonce, cnServer, cookie);
            |msg| == 168 && WELCOME <= msg && WelcomeText(x, x.pub(secretKey), cnSecret, msg) == Some(cnServer + cookie)
  {
    hide Sound;
    var b := x.box(x.pub(cnSecret), secretKey);
    assert x.box(x.pub(secretKey), cnSecret) == b;
    Opens(b, WELCOME_NONCE + nonce, cnServer + cookie);
    var msg := WelcomeCommand(x, x.pub(cnSecret), secretKey, nonce, cnServer, cookie);
    assert msg[8..24] == nonce && msg[24..] == b.seal(WELCOME_NONCE + nonce, cnServer + cookie);
  }

  // ---------------------------------------------------------------------
  // INITIATE: cookie, short nonce, box of C, vouch and metadata from C' to S'

  /** The vouch: random nonce, box of C' and S from C to S'. */
  function Vouch(x: Crypto, cnServer: Key, secretKey: Key, nonce: Long, client: Key, serverKey: Key): seq<Byte> {
    nonce + x.box(cnServer, secretKey).seal(VOUCH_NONCE + nonce, client + serverKey)
  }

  function InitiateCommand(x: Crypto, cookie: seq<Byte>, cnServer: Key, cnSecret: Key, nonce: nat,
                           text: seq<Byte>): seq<Byte>
    requires nonce < NONCE_LIMIT
  {
    INITIATE + cookie + PutUint64(nonce) + x.box(cnServer, cnSecret).seal(INITIATE_NONCE + PutUint64(nonce), text)
  }

  predicate InitiateForm(msg: seq<Byte>) {
    INITIATE <= msg && |msg| >= 257
  }

  /** The cookie is this server's, for this client. */
  predicate CookieOk(x: Crypto, cookieKey: Key, client: Key, cnSecret: Key, msg: seq<Byte>)
    requires |msg| >= 257
  {
    x.secretbox(cookieKey).open(COOKIE_NONCE + msg[9..25], msg[25..105]) == Some(client + cnSecret)
  }

  function InitiateText(x: Crypto, client: Key, cnSecret: Key, msg: seq<Byte>): Option<seq<Byte>>
    requires |msg| >= 257
  {
    x.box(client, cnSecret).open(INITIATE_NONCE + msg[105..113], msg[113..])
  }

  /** The vouch opens with the client's long-term key and names its short-term one. */
  predicate VouchOk(x: Crypto, client: Key, cnSecret: Key, text: seq<Byte>) {
    && |text| >= 128
    && var v := x.box(text[..32], cnSecret).open(VOUCH_NONCE + text[32..48], text[48..128]);
       v.Some? && |v.value| >= 32 && v.value[..32] == client
  }

  lemma {:induction false} CookieReturns(x: Crypto, cookieKey: Key, nonce: Long, client: Key, cnSecret: Key)
    requires Agrees(x)
    ensures var c := Cookie(x, cookieKey, nonce, client, cnSecret);
            && |c| == 96 && c[..16] == nonce
            && x.secretbox(cookieKey).open(COOKIE_NONCE + c[..16], c[16..]) == Some(client + cnSecret)
  {
    hide Sound;
    Opens(x.secretbox(cookieKey), COOKIE_NONCE + nonce, client + cnSecret);
    var c := Cookie(x, cookieKey, nonce, client, cnSecret);
    assert c[16..] == x.secretbox(cookieKey).seal(COOKIE_NONCE + nonce, client + cnSecret);
  }

  /** A vouch speaks for the key it was made for, and for no other. */
  lemma {:induction false} VouchNames(x: Crypto, secretKey: Key, cnSecret: Key, nonce: Long, client: Key,
                                      serverKey: Key, rest: seq<Byte>)
    requires Agrees(x)
    ensures var text := x.pub(secretKey) + Vouch(x, x.pub(cnSecret), secretKey, nonce, client, serverKey) + rest;
            |text| >= 128 && text[128..] == rest && forall c: Key :: VouchOk(x, c, cnSecret, text) <==> c == client
  {
    hide Sound;
    var b := x.box(x.pub(cnSecret), secretKey);
    assert x.box(x.pub(secretKey), cnSecret) == b;
    Opens(b, VOUCH_NONCE + nonce, client + serverKey);
    var text := x.pub(secretKey) + Vouch(x, x.pub(cnSecret), secretKey, nonce, client, serverKey) + rest;
    assert text[..32] == x.pub(secretKey) && text[32..48] == nonce;
    assert text[48..128] == b.seal(VOUCH_NONCE + nonce, client + serverKey);
    assert (client + serverKey)[..32] == client;
  }

  lemma {:induction false} VouchAccepted(x: Crypto, secretKey: Key, cnSecret: Key, nonce: Long, client: Key,
                                         serverKey: Key, rest: seq<Byte>)
    requires Agrees(x)
    ensures var text := x.pub(secretKey) + Vouch(x, x.pub(cnSecret), secretKey, nonce, client, serverKey) + rest;
            VouchOk(x, client, cnSecret, text) && text[128..] == rest
  {
    VouchNames(x, secretKey, cnSecret, nonce, client, serverKey, rest);
    hide Agrees, Vouch, VouchOk;
  }

  lemma {:induction false} InitiateAccepted(x: Crypto, cookieKey: Key, cookieNonce: Long, sSecret: Key, cSecret: Key,
                                            nonce: nat, text: seq<Byte>)
    requires Agrees(x) && nonce < NONCE_LIMIT && |text| >= 128
    ensures var cookie := Cookie(x, cookieKey, cookieNonce, x.pub(cSecret), sSecret);
            var msg := InitiateCommand(x, cookie, x.pub(sSecret), cSecret, nonce, text);
            && InitiateForm(msg) && CookieOk(x, cookieKey, x.pub(cSecret), sSecret, msg)
            && InitiateText(x, x.pub(cSecret), sSecret, msg) == Some(text) && GetUint(msg[105..113]) == nonce
  {
    hide BigEndian, GetUint, Sound;
    SizeBytes(nonce);
    CookieReturns(x, cookieKey, cookieNonce, x.pub(cSecret), sSecret);
    var cookie := Cookie(x, cookieKey, cookieNonce, x.pub(cSecret), sSecret);
    var b := x.box(x.pub(sSecret), cSecret);
    assert x.box(x.pub(cSecret), sSecret) == b;
    Opens(b, INITIATE_NONCE + PutUint64(nonce), text);
    hide Cookie;
    var msg := InitiateCommand(x, cookie, x.pub(sSecret), cSecret, nonce, text);
    assert msg[9..105] == cookie && msg[105..113] == PutUint64(nonce);
    assert msg[9..25] == cookie[..16] && msg[25..105] == cookie[16..];
    assert msg[113..] == b.seal(INITIATE_NONCE + PutUint64(nonce), text);
  }

  // ---------------------------------------------------------------------
  // READY: short nonce, box of metadata under the connection key

  function ReadyCommand(b: Box, nonce: nat, metadata: seq<Byte>): seq<Byte>
    requires nonce < NONCE_LIMIT
  {
    READY + PutUint64(nonce) + b.seal(READY_NONCE + PutUint64(nonce), metadata)
  }

  function ReadyText(b: Box, msg: seq<Byte>): Option<seq<Byte>>
    requires |msg| >= 30
  {
    b.open(READY_NONCE + msg[6..14], msg[14..])
  }

  lemma {:induction false} ReadyAccepted(b: Box, nonce: nat, metadata: seq<Byte>)
    requires Sound(b) && nonce < NONCE_LIMIT
    ensures var msg := ReadyCommand(b, nonce, metadata);
            |msg| >= 30 && READY <= msg && ReadyText(b, msg) == Some(metadata) && GetUint(msg[6..14]) == nonce
  {
    hide BigEndian, GetUint;
    SizeBytes(nonce);
    Opens(b, READY_NONCE + PutUint64(nonce), metadata);
    var msg := ReadyCommand(b, nonce, metadata);
    assert msg[6..14] == PutUint64(nonce) && msg[14..] == b.seal(READY_NONCE + PutUint64(nonce), metadata);
  }

  /** A command is at most one of these. */
  lemma Distinct(msg: seq<Byte>)
    ensures !(WELCOME <= msg && READY <= msg) && !(WELCOME <= msg && ERROR <= msg) && !(READY <= msg && ERROR <= msg)
  {
    assert READY[1] != ERROR[1];
    assert WELCOME[0] != READY[0];
  }
}
