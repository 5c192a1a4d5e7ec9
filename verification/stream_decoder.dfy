/**
  decoder_base_t of decoder.hpp: the driver that collects the bytes a step asked
  for and then runs the step.  The derived class is an arbitrary machine.
 */
module StreamDecoder {
  import opened Bytes

  // What a step leaves behind: the next state, the bytes it asks for, its return code.
  datatype Outcome<S> = Outcome(state: S, toRead: nat, rc: int)

  // The derived class: the step for a state and the bytes collected for it.
  datatype Machine<!S> = Machine(step: (S, seq<Byte>) -> Outcome<S>, rank: S -> nat)

  /**
    A step returns 0, 1 or -1; with 1 it asks for more bytes; and steps that ask
    for nothing and return 0 do not follow each other for ever.
   */
  ghost predicate Legal<S(!new)>(m: Machine<S>) {
    forall s, d :: var o := m.step(s, d);
      && (o.rc == 0 || o.rc == 1 || o.rc == -1)
      && (o.rc == 1 ==> o.toRead > 0)
      && (o.rc == 0 && o.toRead == 0 ==> m.rank(o.state) < m.rank(s))
  }

  type Event = (seq<Byte>, int)   // the bytes a step was given, and what it returned

  datatype Config<S> = Config(state: S, got: seq<Byte>, toRead: nat, events: seq<Event>, dead: bool)

  ghost predicate Waiting<S>(c: Config<S>) {
    c.dead || c.toRead > 0
  }

  lemma LegalStep<S(!new)>(m: Machine<S>, s: S, d: seq<Byte>)
    requires Legal(m)
    ensures var o := m.step(s, d);
            && o.rc in {0, 1, -1} && (o.rc == 1 ==> o.toRead > 0)
            && (o.rc == 0 && o.toRead == 0 ==> m.rank(o.state) < m.rank(s))
  {
  }

  /** Run one step. */
  ghost function Stepped<S>(m: Machine<S>, c: Config<S>): Config<S> {
    var o := m.step(c.state, c.got);
    Config(o.state, [], o.toRead, c.events + [(c.got, o.rc)], o.rc == -1)
  }

  /** Run steps until one asks for bytes or fails. */
  ghost function Settle<S(!new)>(m: Machine<S>, c: Config<S>): Config<S>
    requires Legal(m)
    decreases m.rank(c.state)
  {
    if Waiting(c) then c
    else if m.step(c.state, c.got).rc == 0 && m.step(c.state, c.got).toRead == 0 then Settle(m, Stepped(m, c))
    else Stepped(m, c)
  }

  /** The reference: one byte arrives. */
  ghost function FeedByte<S(!new)>(m: Machine<S>, c: Config<S>, b: Byte): Config<S>
    requires Legal(m)
  {
    if c.dead || c.toRead == 0 then c
    else Settle(m, c.(got := c.got + [b], toRead := c.toRead - 1))
  }

  /** The reference: a stream arrives one byte at a time. */
  ghost function Feed<S(!new)>(m: Machine<S>, c: Config<S>, bytes: seq<Byte>): Config<S>
    requires Legal(m)
  {
    if bytes == [] then c else FeedByte(m, Feed(m, c, bytes[..|bytes| - 1]), bytes[|bytes| - 1])
  }

  lemma {:induction false} FeedJoin<S(!new)>(m: Machine<S>, c: Config<S>, a: seq<Byte>, b: seq<Byte>)
    requires Legal(m)
    ensures Feed(m, c, a + b) == Feed(m, Feed(m, c, a), b)
  {
    if b == [] {
      assert a + b == a;
    } else {
      FeedJoin(m, c, a, b[..|b| - 1]);
      assert (a + b)[..|a + b| - 1] == a + b[..|b| - 1];
    }
  }

  lemma {:induction false} FeedDead<S(!new)>(m: Machine<S>, c: Config<S>, bytes: seq<Byte>)
    requires Legal(m) && c.dead
    ensures Feed(m, c, bytes) == c
  {
    if bytes != [] {
      FeedDead(m, c, bytes[..|bytes| - 1]);
    }
  }

  /** Fewer bytes than asked for are only collected. */
  lemma {:induction false} FeedShort<S(!new)>(m: Machine<S>, c: Config<S>, bytes: seq<Byte>)
    requires Legal(m) && !c.dead && |bytes| < c.toRead
    ensures Feed(m, c, bytes) == c.(got := c.got + bytes, toRead := c.toRead - |bytes|)
  {
    if bytes == [] {
      assert c.got + bytes == c.got;
    } else {
      FeedLast(m, c, bytes);
      hide Legal, Feed;
      var init := bytes[..|bytes| - 1];
      FeedShort(m, c, init);
      Snoc(c.got, bytes);
    }
  }

  /** All the bytes asked for, copied at once. */
  lemma {:induction false} FeedBlock<S(!new)>(m: Machine<S>, c: Config<S>, bytes: seq<Byte>)
    requires Legal(m) && !c.dead && 0 < |bytes| <= c.toRead
    ensures Feed(m, c, bytes) == Settle(m, c.(got := c.got + bytes, toRead := c.toRead - |bytes|))
  {
    hide *;
    var init, last := bytes[..|bytes| - 1], bytes[|bytes| - 1];
    FeedShort(m, c, init);
    FeedLast(m, c, bytes);
    var c1 := c.(got := c.got + init, toRead := c.toRead - |init|);
    FeedOne(m, c1, last);
    Snoc(c.got, bytes);
  }

  lemma {:induction false} Snoc(a: seq<Byte>, b: seq<Byte>)
    requires b != []
    ensures a + b[..|b| - 1] + [b[|b| - 1]] == a + b
  {
  }

  lemma {:induction false} FeedOne<S(!new)>(m: Machine<S>, c: Config<S>, b: Byte)
    requires Legal(m) && !c.dead && c.toRead > 0
    ensures FeedByte(m, c, b) == Settle(m, c.(got := c.got + [b], toRead := c.toRead - 1))
  {
    hide Legal, Settle;
  }

  lemma {:induction false} FeedLast<S(!new)>(m: Machine<S>, c: Config<S>, bytes: seq<Byte>)
    requires Legal(m) && bytes != []
    ensures Feed(m, c, bytes) == FeedByte(m, Feed(m, c, bytes[..|bytes| - 1]), bytes[|bytes| - 1])
  {
    hide Legal, FeedByte;
  }

  /** The return codes of the new events: all 0, but for the last one when a call stops early. */
  ghost predicate Quiet(was: seq<Event>, now: seq<Event>, rc: int) {
    && |was| <= |now| && now[..|was|] == was
    && (forall i :: |was| <= i < |now| - 1 ==> now[i].1 == 0)
    && (rc == 0 ==> |was| < |now| ==> now[|now| - 1].1 == 0)
    && (rc != 0 ==> |was| < |now| && now[|now| - 1].1 == rc)
  }

  class Decoder<S(!new)> {
    const machine: Machine<S>
    const bufSize: nat
    var state: S
    var got: seq<Byte>         // what lies before _read_pos since the last next_step
    var toRead: nat
    ghost var dead: bool       // a step returned -1
    ghost var events: seq<Event>

    ghost predicate Valid()
      reads this
    {
      Legal(machine) && Waiting(Now())
    }

    ghost function Now(): Config<S>
      reads this
    {
      Config(state, got, toRead, events, dead)
    }

    constructor (machine: Machine<S>, state: S, toRead: nat, bufSize: nat)
      requires Legal(machine) && toRead > 0
      ensures Valid() && this.machine == machine && this.bufSize == bufSize
      ensures Now() == Config(state, [], toRead, [], false)
    {
      this.machine, this.bufSize := machine, bufSize;
      this.state, this.got, this.toRead := state, [], toRead;
      this.dead, this.events := false, [];
    }

    /** Lines 72-92: the caller fills the message itself when a whole buffer or more is asked for. */
    method GetBuffer() returns (direct: bool, size: nat)
      requires Valid()
      ensures direct ==> size == toRead >= bufSize
      ensures !direct ==> size == bufSize > toRead
    {
      if toRead >= bufSize {
        return true, toRead;
      }
      return false, bufSize;
    }

    /** The inner loops of lines 115-120 and 138-144. */
    method RunSteps() returns (rc: int)
      requires Legal(machine) && !dead
      modifies this
      ensures Valid() && Now() == Settle(machine, old(Now())) && (dead <==> rc == -1)
      ensures Quiet(old(events), events, rc) && rc in {0, 1, -1}
    {
      hide Legal;
      while toRead == 0
        invariant !dead
        invariant Settle(machine, Now()) == Settle(machine, old(Now()))
        invariant Quiet(old(events), events, 0)
        decreases if toRead == 0 then 1 + machine.rank(state) else 0
      {
        LegalStep(machine, state, got);
        var o := machine.step(state, got);
        events, dead := events + [(got, o.rc)], o.rc == -1;
        state, got, toRead := o.state, [], o.toRead;
        if o.rc != 0 {
          return o.rc;
        }
      }
      rc := 0;
    }

    /** Store bytes at _read_pos and run the steps that are due. */
    method Take(piece: seq<Byte>) returns (rc: int)
      requires Valid() && !dead && |piece| <= toRead
      modifies this
      ensures Valid() && Now() == Feed(machine, old(Now()), piece)
      ensures Quiet(old(events), events, rc) && rc in {0, 1, -1} && (dead <==> rc == -1)
    {
      hide Legal, Quiet, Settle;
      if piece == [] {
        assert got + piece == got;
      } else {
        FeedBlock(machine, Now(), piece);
      }
      got := got + piece;
      toRead := toRead - |piece|;
      rc := RunSteps();
      if piece == [] {
        SettleNone(machine, old(Now()));
      }
    }

    /**
      Lines 100-148.  `inPlace` says that the data already lies at _read_pos; it
      is then no more than was asked for, which line 110 asserts.  Whatever the
      path, the call does what feeding its bytes one by one does.
     */
    method Decode(data: seq<Byte>, inPlace: bool) returns (rc: int, used: nat)
      requires Valid() && !dead
      requires inPlace ==> |data| <= toRead
      modifies this
      ensures Valid() && used <= |data|
      ensures Now() == Feed(machine, old(Now()), data[..used])
      ensures Quiet(old(events), events, rc) && rc in {0, 1, -1}
      ensures (rc == 0 ==> used == |data|) && (dead <==> rc == -1)
      ensures (data != [] ==> used > 0) && (inPlace ==> used == |data|)
    {
      hide Legal, Quiet, Settle, Feed;
      used := 0;
      if inPlace {
        assert data[..|data|] == data;
        rc := Take(data);
        return rc, |data|;
      }
      ghost var start, was := Now(), events;
      FeedNone(machine, start);
      QuietNone(was);
      assert data[..0] == [];
      while used < |data|
        invariant Valid() && !dead && used <= |data|
        invariant Now() == Feed(machine, start, data[..used])
        invariant Quiet(was, events, 0)
      {
        var n := if toRead < |data| - used then toRead else |data| - used;
        var piece := data[used..used + n];
        FeedJoin(machine, start, data[..used], piece);
        assert data[..used] + piece == data[..used + n];
        ghost var mid := events;
        rc := Take(piece);
        QuietJoin(was, mid, events, rc);
        used := used + n;
        if rc != 0 {
          return rc, used;
        }
      }
      assert data[..used] == data;
      rc := 0;
    }
  }

  lemma FeedNone<S(!new)>(m: Machine<S>, c: Config<S>)
    requires Legal(m)
    ensures Feed(m, c, []) == c
  {
  }

  lemma SettleNone<S(!new)>(m: Machine<S>, c: Config<S>)
    requires Legal(m) && Waiting(c)
    ensures Settle(m, c) == c
  {
  }

  lemma QuietNone(was: seq<Event>)
    ensures Quiet(was, was, 0)
  {
  }

  lemma QuietJoin(was: seq<Event>, mid: seq<Event>, now: seq<Event>, rc: int)
    requires Quiet(was, mid, 0) && Quiet(mid, now, rc)
    ensures Quiet(was, now, rc)
  {
    forall i | |was| <= i < |now| - 1 ensures now[i].1 == 0 {
      if i < |mid| {
        assert now[i] == now[..|mid|][i];
      }
    }
    assert now[..|was|] == now[..|mid|][..|was|];
    if rc == 0 && |was| < |now| && |mid| == |now| {
      assert now[|now| - 1] == now[..|mid|][|mid| - 1];
    }
  }
}
