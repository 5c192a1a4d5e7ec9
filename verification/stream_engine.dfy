/**
  The input side of stream_engine_base.cpp: reading into the decoder's buffer,
  decoding what was read, and handing the messages to a session that may put one
  off or reject it.
 */
module StreamEngine {
  import opened Bytes
  import opened StreamDecoder

  // What a read from the transport returns.
  datatype Read = Data(bytes: seq<Byte>) | NothingYet | Broken

  // What the session does with a message: take it, EAGAIN, or another error.
  datatype Verdict = Take | PutOff | Reject

  datatype Progress = Done | Held | Failed

  /** The messages completed: the steps that returned 1. */
  function Messages(events: seq<Event>): nat {
    if events == [] then 0
    else Messages(events[..|events| - 1]) + if events[|events| - 1].1 == 1 then 1 else 0
  }

  /** A call of decode completes at most one message, and then returns 1. */
  lemma {:induction false} QuietMessages(was: seq<Event>, now: seq<Event>, rc: int)
    requires Quiet(was, now, rc) && rc in {0, 1, -1}
    ensures Messages(now) == Messages(was) + if rc == 1 then 1 else 0
  {
    if |now| == |was| {
      assert now[..|was|] == now;
    } else {
      var init := now[..|now| - 1];
      assert init[..|was|] == now[..|was|];
      forall i | |was| <= i < |init| ensures init[i].1 == 0 {
        assert now[i].1 == 0;
      }
      QuietMessages(was, init, 0);
    }
  }

  /** `now` is where feeding what was received, but for the last bytes `left`, leads. */
  ghost predicate FedBy<S(!new)>(m: Machine<S>, start: Config<S>, now: Config<S>, received: seq<Byte>, left: seq<Byte>)
    requires Legal(m)
  {
    && |left| <= |received| && received[|received| - |left|..] == left
    && now == Feed(m, start, received[..|received| - |left|])
  }

  lemma {:induction false} FedStart<S(!new)>(m: Machine<S>, c: Config<S>)
    requires Legal(m)
    ensures FedBy(m, c, c, [], [])
  {
  }

  lemma {:induction false} FedRead<S(!new)>(m: Machine<S>, start: Config<S>, now: Config<S>, received: seq<Byte>,
                                            more: seq<Byte>)
    requires Legal(m) && FedBy(m, start, now, received, [])
    ensures FedBy(m, start, now, received + more, more)
  {
    hide Legal, Feed;
    assert (received + more)[..|received|] == received && received[..|received|] == received;
  }

  lemma {:induction false} FedDecoded<S(!new)>(m: Machine<S>, start: Config<S>, now: Config<S>, received: seq<Byte>,
                                               left: seq<Byte>, now': Config<S>, used: nat)
    requires Legal(m) && FedBy(m, start, now, received, left) && used <= |left| && now' == Feed(m, now, left[..used])
    ensures FedBy(m, start, now', received, left[used..])
  {
    hide Legal, Feed;
    var at := |received| - |left|;
    FeedJoin(m, start, received[..at], left[..used]);
    assert received[..at] + left[..used] == received[..at + used];
  }

  class Engine<S(!new)> {
    const decoder: Decoder<S>
    var inpos: seq<Byte>      // what was read and is not decoded yet
    var direct: bool          // it was read to where the decoder stores its data
    var inputStopped: bool
    var ioError: bool
    var failed: bool          // the connection was torn down
    var badInput: bool        // because the input could not be decoded
    var received: seq<Byte>   // everything read
    var taken: nat            // the messages the session took
    ghost const start: Config<S>
    ghost var offers: seq<Verdict>   // what the session said, message by message

    /** The decoder stands where feeding it what was read, one byte at a time, would bring it. */
    ghost predicate Fed()
      reads this, decoder
    {
      && decoder.Valid() && (decoder.dead ==> badInput) && (badInput ==> failed && decoder.dead)
      && FedBy(decoder.machine, start, decoder.Now(), received, inpos)
    }

    /** Every message completed was taken, but for one put off. */
    ghost predicate Valid()
      reads this, decoder
    {
      && Fed()
      && (!failed && !inputStopped ==> inpos == []) && (inputStopped ==> !direct)
      && (!failed ==> Messages(decoder.events) == taken + if inputStopped then 1 else 0)
      && taken == Takes(offers)
      && (!failed ==> (inputStopped <==> offers != [] && offers[|offers| - 1] == PutOff))
    }

    constructor (decoder: Decoder<S>)
      requires decoder.Valid() && !decoder.dead && decoder.events == []
      ensures Valid() && this.decoder == decoder && start == decoder.Now()
      ensures received == [] && taken == 0 && offers == []
      ensures !failed && !inputStopped && !ioError
    {
      this.decoder, this.start := decoder, decoder.Now();
      inpos, direct, received, taken, offers := [], false, [], 0, [];
      inputStopped, ioError, failed, badInput := false, false, false, false;
      new;
      hide Legal, FedBy, Waiting;
      FedStart(decoder.machine, start);
    }

    /** Lines 275-297: ask the decoder for a buffer and read into it. */
    method Fill(read: nat -> Read) returns (r: Read)
      requires Fed() && inpos == [] && !failed && forall n :: read(n).Data? ==> |read(n).bytes| <= n
      modifies this`inpos, this`direct, this`received
      ensures Fed() && (direct ==> |inpos| <= decoder.toRead)
      ensures r.Data? ==> received == old(received) + r.bytes && inpos == r.bytes
      ensures !r.Data? ==> received == old(received) && inpos == []
      ensures r == read(if decoder.toRead >= decoder.bufSize then decoder.toRead else decoder.bufSize)
    {
      hide FedBy, Legal;
      var zeroCopy, size := decoder.GetBuffer();
      r := read(size);
      if r.Data? {
        FedRead(decoder.machine, start, decoder.Now(), received, r.bytes);
        direct, inpos, received := zeroCopy, r.bytes, received + r.bytes;
      } else {
        direct := false;
      }
    }

    /** Lines 303-308: one call of decode. */
    method DecodeSome() returns (rc: int)
      requires Fed() && !failed && inpos != [] && (direct ==> |inpos| <= decoder.toRead)
      modifies this`inpos, this`direct, this`failed, this`badInput, decoder
      ensures Fed() && !direct && |inpos| < |old(inpos)| && rc in {0, 1, -1}
      ensures (failed <==> rc == -1) && badInput == failed && (rc == 0 ==> inpos == [])
      ensures Messages(decoder.events) == old(Messages(decoder.events)) + if rc == 1 then 1 else 0
    {
      hide FedBy, Feed, Legal, Messages, Quiet, Waiting;
      ghost var was := decoder.Now();
      var used;
      rc, used := decoder.Decode(inpos, direct);
      QuietMessages(was.events, decoder.events, rc);
      FedDecoded(decoder.machine, start, was, received, inpos, decoder.Now(), used);
      inpos, direct := inpos[used..], false;
      failed, badInput := rc == -1, rc == -1;
    }

    /** Lines 302-312 and 432-443: `n` messages are offered to the session. */
    method ProcessInput(verdicts: nat -> Verdict) returns (r: Progress, n: nat)
      requires Fed() && !failed && Messages(decoder.events) == taken == Takes(offers)
      requires direct ==> |inpos| <= decoder.toRead
      modifies this`inpos, this`direct, this`taken, this`failed, this`badInput, this`offers, decoder
      ensures Fed() && (failed <==> r.Failed?)
      ensures Messages(decoder.events) == old(Messages(decoder.events)) + n
      ensures forall j :: 0 <= j < n - 1 ==> verdicts(j) == Take
      ensures r.Held? <==> n > 0 && verdicts(n - 1) == PutOff
      ensures r.Failed? && !badInput <==> n > 0 && verdicts(n - 1) == Reject
      ensures taken == old(taken) + n - (if n > 0 && verdicts(n - 1) != Take then 1 else 0) == Takes(offers)
      ensures offers == old(offers) + Said(verdicts, n)
      ensures (r.Done? ==> inpos == []) && (r.Held? || old(!direct) ==> !direct)
    {
      hide FedBy, Legal, Messages, Waiting, Takes;
      n := 0;
      assert offers == offers + Said(verdicts, 0);
      while inpos != []
        invariant Fed() && !failed && Messages(decoder.events) == taken == old(taken) + n
        invariant forall j :: 0 <= j < n ==> verdicts(j) == Take
        invariant offers == old(offers) + Said(verdicts, n) && taken == Takes(offers)
        invariant (direct ==> |inpos| <= decoder.toRead) && (old(!direct) ==> !direct)
        decreases |inpos|
      {
        var rc := DecodeSome();
        if rc == -1 {
          return Failed, n;
        }
        if rc == 0 {
          break;
        }
        var v := verdicts(n);
        TakesNext(offers, v);
        offers := offers + [v];
        n := n + 1;
        match v
        case Take => taken := taken + 1;
        case PutOff => return Held, n;
        case Reject =>
          failed := true;
          return Failed, n;
      }
      r := Done;
    }

    /** Lines 265-327: a readable transport; `n` messages are offered to the session. */
    method InEvent(read: nat -> Read, verdicts: nat -> Verdict) returns (n: nat)
      requires Valid() && !failed && forall n :: read(n).Data? ==> |read(n).bytes| <= n
      modifies this, decoder
      ensures Valid() && offers == old(offers) + Said(verdicts, n)
      ensures forall j :: 0 <= j < n - 1 ==> verdicts(j) == Take
      ensures taken == old(taken) + n - (if n > 0 && verdicts(n - 1) != Take then 1 else 0)
      ensures old(inputStopped) ==> inputStopped && ioError && !failed && n == 0 && received == old(received)
      ensures !old(inputStopped) ==> ioError == old(ioError) && Messages(decoder.events) == old(taken) + n
      ensures !old(inputStopped) ==>
              var r := read(if old(decoder.toRead) >= decoder.bufSize then old(decoder.toRead) else decoder.bufSize);
              && received == old(received) + (if r.Data? then r.bytes else [])
              && (failed <==> badInput || r.Broken? || (n > 0 && verdicts(n - 1) == Reject))
              && (inputStopped <==> n > 0 && verdicts(n - 1) == PutOff)
    {
      hide FedBy, Legal, Messages, Takes;
      n := 0;
      assert offers == offers + Said(verdicts, 0);
      if inputStopped {
        ioError := true;
        return;
      }
      var r := Fill(read);
      match r
      case Broken => failed := true;
      case NothingYet =>
      case Data(_) =>
        var p;
        p, n := ProcessInput(verdicts);
        if p.Held? {
          inputStopped := true;
        }
    }

    /**
      Lines 415-466: the message put off is offered again and, if it is taken, `n`
      more of what was read and then `m` of what is read next.
     */
    method RestartInput(first: Verdict, verdicts: nat -> Verdict, read: nat -> Read, next: nat -> Verdict)
      returns (n: nat, m: nat)
      requires Valid() && !failed && inputStopped && forall n :: read(n).Data? ==> |read(n).bytes| <= n
      modifies this, decoder
      ensures Valid() && offers == old(offers) + [first] + Said(verdicts, n) + Said(next, m)
      ensures received == old(received) || exists k :: read(k).Data? && received == old(received) + read(k).bytes
      ensures !first.Take? ==> n == m == 0 && received == old(received) && taken == old(taken) && inputStopped
      ensures failed <== first.Reject?
      ensures first.PutOff? ==> !failed
      ensures first.Take? ==>
                && (forall j :: 0 <= j < n - 1 ==> verdicts(j) == Take)
                && (forall j :: 0 <= j < m - 1 ==> next(j) == Take)
                && (m > 0 ==> n == 0 || verdicts(n - 1) == Take)
      ensures first.Take? ==>
                taken == old(taken) + 1 + n - (if n > 0 && verdicts(n - 1) != Take then 1 else 0)
                         + m - (if m > 0 && next(m - 1) != Take then 1 else 0)
    {
      hide FedBy, Legal, Messages, Waiting, Takes;
      n, m := 0, 0;
      TakesNext(offers, first);
      offers := offers + [first];
      assert offers == offers + Said(verdicts, 0) + Said(next, 0);
      match first
      case PutOff => return;
      case Reject => failed := true; return;
      case Take =>
        taken := taken + 1;
        n, m := Resume(verdicts, read, next);
    }

    /** Lines 432-463: the message put off was taken. */
    method Resume(verdicts: nat -> Verdict, read: nat -> Read, next: nat -> Verdict) returns (n: nat, m: nat)
      requires Fed() && !failed && inputStopped && !direct && Messages(decoder.events) == taken == Takes(offers)
      requires offers != [] && offers[|offers| - 1] == Take
      requires forall n :: read(n).Data? ==> |read(n).bytes| <= n
      modifies this, decoder
      ensures Valid() && offers == old(offers) + Said(verdicts, n) + Said(next, m)
      ensures received == old(received) || exists k :: read(k).Data? && received == old(received) + read(k).bytes
      ensures forall j :: 0 <= j < n - 1 ==> verdicts(j) == Take
      ensures forall j :: 0 <= j < m - 1 ==> next(j) == Take
      ensures m > 0 ==> n == 0 || verdicts(n - 1) == Take
      ensures taken == old(taken) + n - (if n > 0 && verdicts(n - 1) != Take then 1 else 0)
                       + m - (if m > 0 && next(m - 1) != Take then 1 else 0)
      ensures n > 0 && verdicts(n - 1) == PutOff ==> inputStopped && !failed && m == 0
      ensures n > 0 && verdicts(n - 1) == Reject ==> failed && m == 0
      ensures old(ioError) && !(n > 0 && verdicts(n - 1) == PutOff) ==> failed && m == 0 && received == old(received)
    {
      hide FedBy, Legal, Messages, Waiting, Takes;
      m := 0;
      ghost var was := offers;
      var p;
      p, n := ProcessInput(verdicts);
      assert offers == was + Said(verdicts, n) + Said(next, 0);
      LastSaid(was, verdicts, n);
      if p.Held? {
        return;
      }
      if p.Failed? || ioError {
        failed := true;
        return;
      }
      inputStopped := false;
      m := InEvent(read, next);
    }
  }

  /** The first `n` verdicts. */
  ghost function Said(verdicts: nat -> Verdict, n: nat): seq<Verdict> {
    seq(n, (j: nat) => verdicts(j))
  }

  /** How many of them took the message. */
  ghost function Takes(offers: seq<Verdict>): nat {
    if offers == [] then 0
    else Takes(offers[..|offers| - 1]) + if offers[|offers| - 1] == Take then 1 else 0
  }

  lemma TakesNext(offers: seq<Verdict>, v: Verdict)
    ensures Takes(offers + [v]) == Takes(offers) + if v == Take then 1 else 0
  {
    assert (offers + [v])[..|offers|] == offers;
  }

  lemma LastSaid(was: seq<Verdict>, verdicts: nat -> Verdict, n: nat)
    requires was != []
    ensures var now := was + Said(verdicts, n);
            now != [] && now[|now| - 1] == if n == 0 then was[|was| - 1] else verdicts(n - 1)
  {
  }

  // ---------------------------------------------------------------------
  // Whole runs

  // What happens next, with the most bytes the transport has ready and the session's verdicts.
  datatype Occasion =
    | Readable(ready: nat, verdicts: nat -> Verdict)
    | Restart(first: Verdict, verdicts: nat -> Verdict, ready: nat, next: nat -> Verdict)

  /** A read of at most `n` bytes from a transport that has `ready` bytes of the stream. */
  function ReadFrom(stream: seq<Byte>, at: nat, ready: nat, n: nat): (r: Read)
    requires at <= |stream|
    ensures r.Data? ==> |r.bytes| <= n && stream[..at] + r.bytes <= stream
    ensures r != Broken
  {
    var k := if ready < n then ready else n;
    var m := if k < |stream| - at then k else |stream| - at;
    assert stream[..at] + stream[at..at + m] == stream[..at + m];
    if m == 0 then NothingYet else Data(stream[at..at + m])
  }

  /** Whatever can be decoded to its end can be decoded up to any point. */
  lemma {:induction false} PrefixAlive<S(!new)>(m: Machine<S>, c: Config<S>, stream: seq<Byte>, n: nat)
    requires Legal(m) && n <= |stream| && !Feed(m, c, stream).dead
    ensures !Feed(m, c, stream[..n]).dead
  {
    hide Legal, Feed;
    assert stream[..n] + stream[n..] == stream;
    FeedJoin(m, c, stream[..n], stream[n..]);
    if Feed(m, c, stream[..n]).dead {
      FeedDead(m, Feed(m, c, stream[..n]), stream[n..]);
    }
  }

  /** What the session can have said on an occasion. */
  ghost predicate SaidOn(o: Occasion, part: seq<Verdict>) {
    match o
    case Readable(_, verdicts) => exists n :: part == Said(verdicts, n)
    case Restart(first, verdicts, _, next) =>
      part == [] || exists n, m :: part == [first] + Said(verdicts, n) + Said(next, m)
  }

  ghost function Flat(parts: seq<seq<Verdict>>): seq<Verdict> {
    if parts == [] then [] else Flat(parts[..|parts| - 1]) + parts[|parts| - 1]
  }

  /**
    Any occasions: the decoder did what feeding it the decoded part of the stream
    one byte at a time does; of the messages of that part the session took as many
    as it said it takes, which is all of them but for one it put off last.  That
    the data read in place never exceeds what the decoder asked for is proved on the
    way, where decode asserts it.
   */
  method Run<S(!new)>(e: Engine<S>, stream: seq<Byte>, occasions: seq<Occasion>)
    returns (decoded: nat, ghost parts: seq<seq<Verdict>>)
    requires e.Valid() && e.received == [] && !e.failed && e.offers == []
    modifies e, e.decoder
    ensures e.Valid() && e.received <= stream && decoded == |e.received| - |e.inpos|
    ensures e.decoder.Now() == Feed(e.decoder.machine, e.start, stream[..decoded])
    ensures |parts| == |occasions| && forall i :: 0 <= i < |parts| ==> SaidOn(occasions[i], parts[i])
    ensures e.offers == Flat(parts) && e.taken == Takes(Flat(parts))
    ensures !e.failed ==> Messages(e.decoder.events) == e.taken + if e.inputStopped then 1 else 0
    ensures !e.failed ==> (e.inputStopped <==> e.offers != [] && e.offers[|e.offers| - 1] == PutOff)
    ensures !e.failed && !e.inputStopped && e.received == stream ==>
              e.decoder.Now() == Feed(e.decoder.machine, e.start, stream)
  {
    hide Feed, Legal, Messages, Takes, SaidOn, Flat, FedBy;
    parts := [];
    FlatNone();
    for i := 0 to |occasions|
      invariant e.Valid() && e.received <= stream
      invariant |parts| == i && e.offers == Flat(parts) && forall j :: 0 <= j < i ==> SaidOn(occasions[j], parts[j])
    {
      ghost var part := Serve(e, stream, occasions[i]);
      FlatNext(parts, part);
      parts := parts + [part];
    }
    FedUpTo(e.decoder.machine, e.start, e.decoder.Now(), e.received, e.inpos, stream);
    decoded := |e.received| - |e.inpos|;
  }

  /** One occasion, with what the session said on it. */
  method Serve<S(!new)>(e: Engine<S>, stream: seq<Byte>, o: Occasion) returns (ghost part: seq<Verdict>)
    requires e.Valid() && e.received <= stream
    modifies e, e.decoder
    ensures e.Valid() && e.received <= stream && e.offers == old(e.offers) + part && SaidOn(o, part)
  {
    hide Feed, Legal, Messages, Takes, FedBy;
    part := [];
    assert e.offers + part == e.offers;
    var at := |e.received|;
    assert stream[..at] == e.received;
    match o
    case Readable(ready, verdicts) =>
      assert Said(verdicts, 0) == [];
      if !e.failed {
        var n := e.InEvent((n: nat) => ReadFrom(stream, at, ready, n), verdicts);
        part := Said(verdicts, n);
      }
    case Restart(first, verdicts, ready, next) =>
      if !e.failed && e.inputStopped {
        var read := (n: nat) => ReadFrom(stream, at, ready, n);
        var n, m := e.RestartInput(first, verdicts, read, next);
        part := [first] + Said(verdicts, n) + Said(next, m);
        assert old(e.offers) + part == old(e.offers) + [first] + Said(verdicts, n) + Said(next, m);
      }
  }

  lemma FlatNone()
    ensures Flat([]) == []
  {
  }

  lemma FlatNext(parts: seq<seq<Verdict>>, part: seq<Verdict>)
    ensures Flat(parts + [part]) == Flat(parts) + part
  {
    assert (parts + [part])[..|parts|] == parts;
  }

  lemma {:induction false} FedUpTo<S(!new)>(m: Machine<S>, start: Config<S>, now: Config<S>, received: seq<Byte>,
                                            left: seq<Byte>, stream: seq<Byte>)
    requires Legal(m) && FedBy(m, start, now, received, left) && received <= stream
    ensures |left| <= |received| && now == Feed(m, start, stream[..|received| - |left|])
    ensures left == [] && received == stream ==> now == Feed(m, start, stream)
  {
    hide Legal, Feed;
    assert stream[..|received| - |left|] == received[..|received| - |left|];
    assert stream[..|stream|] == stream;
  }

  /**
    A stream read in pieces of any sizes with a session that takes everything:
    step inputs and results are those of feeding its bytes one at a time, and the
    bytes used add up to those consumed.
   */
  method ReceiveAll<S(!new)>(e: Engine<S>, stream: seq<Byte>, ready: nat -> nat) returns (decoded: nat)
    requires e.Valid() && e.received == [] && !e.failed && !e.inputStopped && forall i :: ready(i) > 0
    modifies e, e.decoder
    ensures e.Valid() && decoded == |e.received| - |e.inpos| <= |stream| && (!e.badInput ==> decoded == |stream|)
    ensures e.decoder.Now() == Feed(e.decoder.machine, e.start, stream)
    ensures e.decoder.Now() == Feed(e.decoder.machine, e.start, stream[..decoded])
    ensures !e.badInput ==> Messages(e.decoder.events) == e.taken
  {
    hide Feed, Legal, Messages;
    var i := 0;
    while !e.failed && |e.received| < |stream|
      invariant e.Valid() && e.received <= stream && !e.inputStopped && (e.failed ==> e.badInput)
      decreases |stream| - |e.received|, !e.failed
    {
      var at := |e.received|;
      assert stream[..at] == e.received;
      var n := e.InEvent((n: nat) => ReadFrom(stream, at, ready(i), n), _ => Take);
      i := i + 1;
    }
    decoded := |e.received| - |e.inpos|;
    assert stream[..decoded] == e.received[..decoded];
    FeedJoin(e.decoder.machine, e.start, stream[..decoded], stream[decoded..]);
    assert stream[..decoded] + stream[decoded..] == stream;
    if e.badInput {
      FeedDead(e.decoder.machine, e.decoder.Now(), stream[decoded..]);
    } else {
      FeedNone(e.decoder.machine, e.decoder.Now());
    }
  }
}
