/** Sockets that filter what the fair queue delivers: client.cpp and dish.cpp. */
module Filters {
  import opened IntrusiveArray
  import opened FairQueue
  import FairQueueRuns

  /** The messages of a single part, in order. */
  function Singles(log: Log): seq<Frame> {
    if log == [] then []
    else
      var init, f := log[..|log| - 1], log[|log| - 1].1;
      Singles(init) + if !f.more && !Mid(init) then [f] else []
  }

  /** The frames of subscribed groups, in order. */
  function Subscribed(log: Log, groups: set<nat>): seq<Frame> {
    if log == [] then []
    else
      var f := log[|log| - 1].1;
      Subscribed(log[..|log| - 1], groups) + if f.group in groups then [f] else []
  }

  lemma SinglesAppend(log: Log, e: (Pipe, Frame))
    ensures Singles(log + [e]) == Singles(log) + if !e.1.more && !Mid(log) then [e.1] else []
    ensures Mid(log + [e]) <==> e.1.more
  {
    assert (log + [e])[..|log|] == log;
  }

  /** A part of a message of several parts: it is not the last one, or not the first. */
  predicate OneOfSeveral(log: Log, i: nat)
    requires i < |log|
  {
    log[i].1.more || (i > 0 && log[i - 1].1.more)
  }

  ghost predicate Several(log: Log, from: nat, to: int) {
    forall i :: from <= i < to && i < |log| ==> OneOfSeveral(log, i)
  }

  lemma SeveralNone(log: Log)
    ensures Several(log, |log|, |log|)
  {
  }

  lemma SeveralAppend(log: Log, from: nat, e: (Pipe, Frame))
    requires Several(log, from, |log|)
    ensures Several(log + [e], from, if e.1.more || Mid(log) then |log| + 1 else |log|)
  {
    forall i | from <= i < |log| ensures OneOfSeveral(log + [e], i) {
      assert OneOfSeveral(log, i);
    }
  }

  lemma SubscribedAppend(log: Log, e: (Pipe, Frame), groups: set<nat>)
    ensures Subscribed(log + [e], groups) == Subscribed(log, groups) + if e.1.group in groups then [e.1] else []
  {
    assert (log + [e])[..|log|] == log;
  }

  // What is left to fetch, as a finite set, so that it can be counted.
  ghost function Waiting(queues: map<Pipe, seq<Frame>>): set<(Pipe, nat)> {
    set p, i: nat | p in queues && i < |queues[p]| :: (p, i)
  }

  lemma WaitingFetch(was: map<Pipe, seq<Frame>>, now: map<Pipe, seq<Frame>>, p: Pipe, f: Frame)
    requires p in was && p in now && was[p] == [f] + now[p] && now == was[p := now[p]]
    ensures |Waiting(now)| < |Waiting(was)|
  {
    var last: (Pipe, nat) := (p, |now[p]|);
    assert last in Waiting(was);
    assert Waiting(now) == Waiting(was) - {last};
  }

  // ---------------------------------------------------------------------
  // What happened to the frames between two points

  /** The log grew by exactly the frames that left the queues. */
  ghost predicate Drawn(log: Log, queues: map<Pipe, seq<Frame>>, log': Log, queues': map<Pipe, seq<Frame>>) {
    log <= log' && FairQueueRuns.Conserved(queues, log'[|log|..], queues')
  }

  lemma DrawnNone(log: Log, queues: map<Pipe, seq<Frame>>)
    ensures Drawn(log, queues, log, queues)
  {
  }

  lemma {:induction false} TakenJoin(a: Log, b: Log, p: Pipe)
    ensures FairQueueRuns.Taken(a + b, p) == FairQueueRuns.Taken(a, p) + FairQueueRuns.Taken(b, p)
  {
    if b == [] {
      assert a + b == a;
    } else {
      assert (a + b)[..|a + b| - 1] == a + b[..|b| - 1];
      TakenJoin(a, b[..|b| - 1], p);
    }
  }

  lemma ConservedJoin(q0: map<Pipe, seq<Frame>>, a: Log, q1: map<Pipe, seq<Frame>>, b: Log, q2: map<Pipe, seq<Frame>>)
    requires FairQueueRuns.Conserved(q0, a, q1) && FairQueueRuns.Conserved(q1, b, q2)
    ensures FairQueueRuns.Conserved(q0, a + b, q2)
  {
    hide FairQueueRuns.Taken;
    forall p | p in q2 ensures q0[p] == FairQueueRuns.Taken(a + b, p) + q2[p] {
      TakenJoin(a, b, p);
      assert q0[p] == FairQueueRuns.Taken(a, p) + q1[p];
    }
    forall i | 0 <= i < |a + b| ensures (a + b)[i].0 in q2 {
      assert (a + b)[i] == if i < |a| then a[i] else b[i - |a|];
    }
  }

  lemma DrawnTwice(l0: Log, q0: map<Pipe, seq<Frame>>, l1: Log, q1: map<Pipe, seq<Frame>>,
                   l2: Log, q2: map<Pipe, seq<Frame>>)
    requires Drawn(l0, q0, l1, q1) && Drawn(l1, q1, l2, q2)
    ensures Drawn(l0, q0, l2, q2)
  {
    hide FairQueueRuns.Conserved;
    ConservedJoin(q0, l1[|l0|..], q1, l2[|l1|..], q2);
    assert l2[|l0|..] == l1[|l0|..] + l2[|l1|..];
  }

  lemma DrawnOne(log: Log, was: map<Pipe, seq<Frame>>, now: map<Pipe, seq<Frame>>, p: Pipe, f: Frame)
    requires p in was && p in now && was[p] == [f] + now[p] && now == was[p := now[p]]
    ensures Drawn(log, was, log + [(p, f)], now)
  {
    assert (log + [(p, f)])[|log|..] == [] + [(p, f)];
    FairQueueRuns.ConservedFetch(was, [], was, now, p, f);
  }

  ghost function Actives(fq: Fq): set<Pipe>
    reads fq, fq.pipes
  {
    set p | p in fq.pipes.items && fq.IsActive(p)
  }

  /** Since then frames were only moved to the log, and the pipes active then are active unless drained. */
  ghost predicate Since(fq: Fq, log: Log, queues: map<Pipe, seq<Frame>>, actives: set<Pipe>)
    reads fq, fq.pipes
  {
    && Drawn(log, queues, fq.log, fq.queues)
    && forall p :: p in actives && p in fq.queues && fq.queues[p] != [] ==> fq.IsActive(p)
  }

  /** One fetch, which takes the next frame unless nothing can be read. */
  method Fetch(fq: Fq, ghost log: Log, ghost queues: map<Pipe, seq<Frame>>, ghost actives: set<Pipe>)
    returns (rc: int, f: Frame, ghost from: Pipe)
    requires fq.Counted() && Since(fq, log, queues, actives)
    modifies fq, fq.pipes
    ensures fq.Counted() && rc in {0, -1, ABORT} && Since(fq, log, queues, actives)
    ensures old(fq.Valid()) ==> fq.Valid() && rc != ABORT && (rc == -1 ==> !fq.more && !old(fq.more))
    ensures rc == 0 ==> fq.log == old(fq.log) + [(from, f)] && fq.more == f.more
    ensures rc == 0 ==> |Waiting(fq.queues)| < |old(Waiting(fq.queues))|
    ensures rc == -1 ==> fq.active == 0
    ensures rc != 0 ==> fq.log == old(fq.log) && fq.queues == old(fq.queues)
  {
    hide Waiting, Whole, Ahead, Drawn;
    var source;
    rc, f, source := fq.Recvpipe();
    from := source;
    if rc == 0 {
      WaitingFetch(old(fq.queues), fq.queues, from, f);
      DrawnOne(old(fq.log), old(fq.queues), fq.queues, from, f);
      DrawnTwice(log, queues, old(fq.log), old(fq.queues), fq.log, fq.queues);
    }
  }

  // ---------------------------------------------------------------------
  // client.cpp

  class Client {
    const fq: Fq
    ghost var returned: seq<Frame>

    ghost predicate Valid()
      reads this, fq, fq.pipes
    {
      fq.Valid() && !fq.more && !Mid(fq.log) && returned == Singles(fq.log)
    }

    constructor (fq: Fq)
      requires fq.Valid() && fq.log == [] && !fq.more
      ensures Valid() && this.fq == fq && returned == []
    {
      this.fq := fq;
      this.returned := [];
    }

    /** Lines 72, 77, 80 and 84. */
    method FetchPart(ghost log: Log, ghost queues: map<Pipe, seq<Frame>>, ghost actives: set<Pipe>)
      returns (rc: int, f: Frame)
      requires fq.Valid() && (fq.more <==> Mid(fq.log)) && Since(fq, log, queues, actives)
      requires Several(fq.log, |log|, |fq.log|)
      modifies fq, fq.pipes
      ensures fq.Valid() && (fq.more <==> Mid(fq.log)) && rc in {0, -1} && Since(fq, log, queues, actives)
      ensures rc == 0 ==> Mid(fq.log) == f.more && |Waiting(fq.queues)| < |old(Waiting(fq.queues))|
      ensures rc == 0 ==> Singles(fq.log) == Singles(old(fq.log)) + if !f.more && !Mid(old(fq.log)) then [f] else []
      ensures rc == 0 ==> fq.log != [] && fq.log == old(fq.log) + [fq.log[|fq.log| - 1]] && fq.log[|fq.log| - 1].1 == f
      ensures rc == 0 ==> Several(fq.log, |log|, if f.more || Mid(old(fq.log)) then |fq.log| else |fq.log| - 1)
      ensures rc == -1 ==> fq.log == old(fq.log) && !Mid(fq.log) && fq.active == 0
      ensures rc == -1 ==> fq.queues == old(fq.queues)
    {
      hide Singles, Several, Waiting, Whole, Ahead, Since;
      ghost var from;
      rc, f, from := Fetch(fq, log, queues, actives);
      if rc == 0 {
        SinglesAppend(old(fq.log), (from, f));
        SeveralAppend(old(fq.log), |log|, (from, f));
      }
    }

    /** Lines 77-81: the rest of a message of several parts. */
    method SkipRest(ghost log: Log, ghost queues: map<Pipe, seq<Frame>>, ghost actives: set<Pipe>)
      returns (rc: int, f: Frame)
      requires fq.Valid() && fq.more && Mid(fq.log) && Since(fq, log, queues, actives)
      requires Several(fq.log, |log|, |fq.log|)
      modifies fq, fq.pipes
      ensures fq.Valid() && !fq.more && !Mid(fq.log) && rc == 0 && Since(fq, log, queues, actives)
      ensures Singles(fq.log) == Singles(old(fq.log)) && |Waiting(fq.queues)| < |old(Waiting(fq.queues))|
      ensures Several(fq.log, |log|, |fq.log|) && old(fq.log) <= fq.log
    {
      hide Singles, Several, Waiting, Whole, Ahead, Since;
      rc, f := FetchPart(log, queues, actives);
      while rc == 0 && f.more
        invariant fq.Valid() && (fq.more <==> Mid(fq.log)) && rc == 0 && Mid(fq.log) == f.more
        invariant Several(fq.log, |log|, |fq.log|) && old(fq.log) <= fq.log
        invariant Singles(fq.log) == Singles(old(fq.log)) && Since(fq, log, queues, actives)
        invariant |Waiting(fq.queues)| < |old(Waiting(fq.queues))|
        decreases |Waiting(fq.queues)|
      {
        rc, f := FetchPart(log, queues, actives);
      }
    }

    /** Lines 70-88: the messages of several parts are dropped whole. */
    method XRecv() returns (rc: int, f: Frame)
      requires Valid()
      modifies this, fq, fq.pipes
      ensures Valid() && rc in {0, -1}
      ensures returned == old(returned) + if rc == 0 then [f] else []
      ensures Since(fq, old(fq.log), old(fq.queues), old(Actives(fq)))
      ensures if rc == 0 then !f.more && |Waiting(fq.queues)| < |old(Waiting(fq.queues))| else fq.active == 0
      ensures var n := if rc == 0 then |fq.log| - 1 else |fq.log|;
              && old(fq.log) <= fq.log && |old(fq.log)| <= n
              && (rc == 0 ==> fq.log[n].1 == f && (n > 0 ==> !fq.log[n - 1].1.more))
              && Several(fq.log, |old(fq.log)|, n)
    {
      hide Singles, Several, Waiting, Whole, Ahead, Since;
      ghost var log, queues, actives := fq.log, fq.queues, Actives(fq);
      SinceNow(fq);
      SeveralNone(log);
      rc, f := FetchPart(log, queues, actives);
      while rc == 0 && f.more
        invariant fq.Valid() && (fq.more <==> Mid(fq.log)) && rc in {0, -1} && Since(fq, log, queues, actives)
        invariant rc == 0 ==> Mid(fq.log) == f.more && |Waiting(fq.queues)| < |old(Waiting(fq.queues))|
        invariant rc == 0 && !f.more ==> Singles(fq.log) == old(returned) + [f]
        invariant rc == -1 || f.more ==> Singles(fq.log) == old(returned)
        invariant (rc == -1 ==> !Mid(fq.log) && fq.active == 0) && returned == old(returned) && old(fq.log) <= fq.log
        invariant rc == 0 ==> |old(fq.log)| < |fq.log| && fq.log[|fq.log| - 1].1 == f && !Mid(fq.log[..|fq.log| - 1])
        invariant Several(fq.log, |log|, if rc == 0 && !f.more then |fq.log| - 1 else |fq.log|)
        decreases |Waiting(fq.queues)|
      {
        rc, f := SkipRest(log, queues, actives);
        if rc == 0 {
          rc, f := FetchPart(log, queues, actives);
        }
      }
      if rc == 0 {
        returned := returned + [f];
      }
    }
  }

  lemma SinceNow(fq: Fq)
    requires fq.Counted()
    ensures Since(fq, fq.log, fq.queues, Actives(fq))
  {
    DrawnNone(fq.log, fq.queues);
  }

  // ---------------------------------------------------------------------
  // dish.cpp

  class Dish {
    const fq: Fq
    var subscriptions: set<nat>
    var message: Frame
    var hasMessage: bool
    ghost var returned: seq<Frame>

    /** What was returned, and then the prefetched message: exactly the subscribed ones. */
    ghost predicate Valid()
      reads this, fq, fq.pipes
    {
      && fq.Counted()
      && returned + (if hasMessage then [message] else []) == Subscribed(fq.log, subscriptions)
    }

    constructor (fq: Fq, subscriptions: set<nat>)
      requires fq.Counted() && fq.log == []
      ensures Valid() && this.fq == fq && this.subscriptions == subscriptions && returned == []
    {
      this.fq, this.subscriptions := fq, subscriptions;
      this.message, this.hasMessage, this.returned := Frame(false, 0, 0), false, [];
    }

    /** Lines 186-202. */
    method XxRecv() returns (rc: int, f: Frame)
      requires fq.Counted()
      modifies fq, fq.pipes
      ensures fq.Counted() && rc in {0, -1, ABORT} && (old(fq.Valid()) ==> fq.Valid() && rc != ABORT)
      ensures Subscribed(fq.log, subscriptions) == Subscribed(old(fq.log), subscriptions) + if rc == 0 then [f] else []
      ensures Since(fq, old(fq.log), old(fq.queues), old(Actives(fq)))
      ensures rc == 0 ==> |Waiting(fq.queues)| < |old(Waiting(fq.queues))|
      ensures rc == -1 ==> fq.active == 0
      ensures var n := if rc == 0 then |fq.log| - 1 else |fq.log|;
              && old(fq.log) <= fq.log && |old(fq.log)| <= n
              && (rc == 0 ==> fq.log[n].1 == f && f.group in subscriptions)
              && forall i :: |old(fq.log)| <= i < n ==> fq.log[i].1.group !in subscriptions
    {
      hide Subscribed, Waiting, Whole, Ahead, Since, Unmixed;
      ghost var log, queues, actives := fq.log, fq.queues, Actives(fq);
      SinceNow(fq);
      while true
        invariant fq.Counted() && Subscribed(fq.log, subscriptions) == Subscribed(old(fq.log), subscriptions)
        invariant old(fq.Valid()) ==> fq.Valid()
        invariant Since(fq, log, queues, actives) && |Waiting(fq.queues)| <= |old(Waiting(fq.queues))|
        invariant log <= fq.log && forall i :: |log| <= i < |fq.log| ==> fq.log[i].1.group !in subscriptions
        decreases |Waiting(fq.queues)|
      {
        ghost var before := fq.log;
        ghost var from;
        rc, f, from := Fetch(fq, log, queues, actives);
        if rc != 0 {
          return rc, f;
        }
        SubscribedAppend(before, (from, f), subscriptions);
        if f.group in subscriptions {
          break;
        }
      }
    }

    /** Lines 172-184. */
    method XRecv() returns (rc: int, f: Frame)
      requires Valid()
      modifies this, fq, fq.pipes
      ensures Valid() && rc in {0, -1, ABORT} && (old(fq.Valid()) ==> fq.Valid() && rc != ABORT)
      ensures subscriptions == old(subscriptions) && !hasMessage
      ensures returned == old(returned) + if rc == 0 then [f] else []
      ensures old(hasMessage) ==> rc == 0 && f == old(message)
      ensures Since(fq, old(fq.log), old(fq.queues), old(Actives(fq)))
      ensures rc == -1 ==> fq.active == 0
      ensures rc == 0 && !old(hasMessage) ==> |Waiting(fq.queues)| < |old(Waiting(fq.queues))|
    {
      hide Subscribed, Waiting, Whole, Ahead, Since, Unmixed;
      if hasMessage {
        SinceNow(fq);
        hasMessage := false;
        returned := returned + [message];
        return 0, message;
      }
      rc, f := XxRecv();
      if rc == 0 {
        returned := returned + [f];
      }
    }

    /** Lines 204-220: true iff the next receive succeeds. */
    method XHasIn() returns (r: bool, aborted: bool)
      requires Valid()
      modifies this, fq, fq.pipes
      ensures Valid() && subscriptions == old(subscriptions) && returned == old(returned)
      ensures old(fq.Valid()) ==> fq.Valid() && !aborted
      ensures r == hasMessage && (old(hasMessage) ==> r && message == old(message))
      ensures !r && !aborted ==> fq.active == 0
      ensures Since(fq, old(fq.log), old(fq.queues), old(Actives(fq)))
    {
      hide Subscribed, Waiting, Whole, Ahead, Since, Unmixed;
      if hasMessage {
        SinceNow(fq);
        return true, false;
      }
      var rc, f := XxRecv();
      message := f;
      if rc != 0 {
        return false, rc == ABORT;
      }
      hasMessage := true;
      return true, false;
    }
  }

  // ---------------------------------------------------------------------
  // Everything that can be read

  /** All the frames that were readable are in the log now, and nothing else was added. */
  ghost predicate ReadAll(log: Log, queues: map<Pipe, seq<Frame>>, actives: set<Pipe>, log': Log) {
    && log <= log'
    && forall p :: p in actives && p in queues ==> FairQueueRuns.Taken(log'[|log|..], p) == queues[p]
  }

  lemma SinceAll(fq: Fq, log: Log, queues: map<Pipe, seq<Frame>>, actives: set<Pipe>)
    requires Since(fq, log, queues, actives) && fq.active == 0
    ensures ReadAll(log, queues, actives, fq.log)
  {
    forall p | p in actives && p in queues ensures FairQueueRuns.Taken(fq.log[|log|..], p) == queues[p] {
      assert fq.queues[p] == [];
    }
  }

  lemma SinceTwice(fq: Fq, l0: Log, q0: map<Pipe, seq<Frame>>, a0: set<Pipe>, l1: Log, q1: map<Pipe, seq<Frame>>,
                   a1: set<Pipe>)
    requires Drawn(l0, q0, l1, q1) && Since(fq, l1, q1, a1)
    requires forall p :: p in a0 && p in q1 && q1[p] != [] ==> p in a1
    ensures Since(fq, l0, q0, a0)
  {
    DrawnTwice(l0, q0, l1, q1, fq.log, fq.queues);
  }

  datatype Call = Receive | Poll | Attach(p: Pipe, q: seq<Frame>) | Arrive(p: Pipe, q: seq<Frame>) | Terminate(p: Pipe)

  /** Pipes join and leave and whole messages arrive at any time. */
  method Supply(fq: Fq, call: Call)
    requires fq.Counted()
    modifies fq, fq.pipes
    ensures fq.Counted() && fq.log == old(fq.log) && fq.more == old(fq.more)
  {
    hide Ahead, Unmixed;
    match call
    case Attach(p, q) =>
      if p !in fq.pipes.items && Whole(q) {
        fq.Attach(p, q);
      }
    case Arrive(p, q) =>
      if p in fq.pipes.items && Whole(q) {
        fq.Arrive(p, q);
        if !fq.IsActive(p) {
          fq.Activated(p);
        }
      }
    case Terminate(p) =>
      if p in fq.pipes.items {
        fq.PipeTerminated(p);
      }
    case _ =>
  }

  /**
    For any interleaving of polls and receives with pipes that come and go, nothing
    is lost, repeated or reordered, up to a receive that aborts because a
    termination lost the place of a partly read message.
   */
  method RunDish(d: Dish, calls: seq<Call>) returns (got: seq<Frame>, aborted: bool)
    requires d.Valid()
    modifies d, d.fq, d.fq.pipes
    ensures d.Valid() && d.subscriptions == old(d.subscriptions) && d.returned == old(d.returned) + got
    ensures d.returned + (if d.hasMessage then [d.message] else []) == Subscribed(d.fq.log, d.subscriptions)
  {
    hide Subscribed, Whole, Ahead, Since, Unmixed;
    got, aborted := [], false;
    for i := 0 to |calls|
      invariant d.Valid() && d.subscriptions == old(d.subscriptions) && d.returned == old(d.returned) + got
    {
      if aborted {
        break;
      }
      match calls[i]
      case Receive =>
        var rc, f := d.XRecv();
        if rc == 0 {
          got := got + [f];
        }
        aborted := rc == ABORT;
      case Poll =>
        var _, a := d.XHasIn();
        aborted := a;
      case _ =>
        Supply(d.fq, calls[i]);
    }
  }

  /** Receiving until nothing is left returns exactly the single-part messages of all that was readable. */
  method DrainClient(c: Client) returns (got: seq<Frame>)
    requires c.Valid()
    modifies c, c.fq, c.fq.pipes
    ensures c.Valid() && Singles(c.fq.log) == Singles(old(c.fq.log)) + got
    ensures ReadAll(old(c.fq.log), old(c.fq.queues), old(Actives(c.fq)), c.fq.log)
  {
    hide Singles, Waiting, Whole, Ahead, Since, Drawn, ReadAll;
    ghost var log, queues, actives := c.fq.log, c.fq.queues, Actives(c.fq);
    SinceNow(c.fq);
    got := [];
    while true
      invariant c.Valid() && c.returned == old(c.returned) + got && Since(c.fq, log, queues, actives)
      decreases |Waiting(c.fq.queues)|
    {
      ghost var l, q, a := c.fq.log, c.fq.queues, Actives(c.fq);
      SinceParts(c.fq, log, queues, actives);
      var rc, f := c.XRecv();
      SinceTwice(c.fq, log, queues, actives, l, q, a);
      if rc != 0 {
        break;
      }
      got := got + [f];
    }
    SinceAll(c.fq, log, queues, actives);
  }

  lemma SinceParts(fq: Fq, log: Log, queues: map<Pipe, seq<Frame>>, actives: set<Pipe>)
    requires fq.Counted() && Since(fq, log, queues, actives)
    ensures Drawn(log, queues, fq.log, fq.queues)
    ensures forall p :: p in actives && p in fq.queues && fq.queues[p] != [] ==> p in Actives(fq)
  {
  }

  /** The same for the messages of the groups joined. */
  method DrainDish(d: Dish) returns (got: seq<Frame>, aborted: bool)
    requires d.Valid()
    modifies d, d.fq, d.fq.pipes
    ensures d.Valid() && d.returned == old(d.returned) + got == Subscribed(d.fq.log, d.subscriptions)
    ensures !aborted ==> ReadAll(old(d.fq.log), old(d.fq.queues), old(Actives(d.fq)), d.fq.log)
    ensures old(d.fq.Valid()) ==> !aborted
  {
    hide Subscribed, Waiting, Whole, Ahead, Since, Drawn, ReadAll, Unmixed;
    ghost var log, queues, actives := d.fq.log, d.fq.queues, Actives(d.fq);
    SinceNow(d.fq);
    got, aborted := [], false;
    while true
      invariant d.Valid() && d.returned == old(d.returned) + got && Since(d.fq, log, queues, actives)
      invariant old(d.fq.Valid()) ==> d.fq.Valid()
      decreases d.hasMessage, |Waiting(d.fq.queues)|
    {
      ghost var l, q, a := d.fq.log, d.fq.queues, Actives(d.fq);
      SinceParts(d.fq, log, queues, actives);
      var rc, f := d.XRecv();
      SinceTwice(d.fq, log, queues, actives, l, q, a);
      if rc != 0 {
        aborted := rc == ABORT;
        break;
      }
      got := got + [f];
    }
    if !aborted {
      SinceAll(d.fq, log, queues, actives);
    }
  }
}
