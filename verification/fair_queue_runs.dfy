/** Whole runs of the fair queue. */
module FairQueueRuns {
  import opened IntrusiveArray
  import opened FairQueue

  // The frames fetched from one pipe.
  function Taken(log: Log, p: Pipe): seq<Frame> {
    if log == [] then []
    else
      var e := log[|log| - 1];
      Taken(log[..|log| - 1], p) + if e.0 == p then [e.1] else []
  }

  lemma TakenAppend(log: Log, p: Pipe, f: Frame, q: Pipe)
    ensures Taken(log + [(p, f)], q) == Taken(log, q) + if p == q then [f] else []
  {
    assert (log + [(p, f)])[..|log|] == log;
  }

  lemma {:induction false} TakenNone(log: Log, p: Pipe)
    requires forall i :: 0 <= i < |log| ==> log[i].0 != p
    ensures Taken(log, p) == []
  {
    if log != [] {
      TakenNone(log[..|log| - 1], p);
    }
  }

  /** Every frame that reached a pipe was fetched, in order, or is still there. */
  ghost predicate Conserved(arrived: map<Pipe, seq<Frame>>, log: Log, queues: map<Pipe, seq<Frame>>) {
    && arrived.Keys == queues.Keys
    && (forall p :: p in queues ==> arrived[p] == Taken(log, p) + queues[p])
    && forall i :: 0 <= i < |log| ==> log[i].0 in queues
  }

  lemma ConservedFetch(arrived: map<Pipe, seq<Frame>>, log: Log, was: map<Pipe, seq<Frame>>, now: map<Pipe, seq<Frame>>,
                       p: Pipe, f: Frame)
    requires Conserved(arrived, log, was) && p in was && p in now && was[p] == [f] + now[p] && now == was[p := now[p]]
    ensures Conserved(arrived, log + [(p, f)], now)
  {
    hide Taken;
    forall q | q in now ensures arrived[q] == Taken(log + [(p, f)], q) + now[q] {
      TakenAppend(log, p, f, q);
      assert arrived[q] == Taken(log, q) + was[q];
    }
    assert now.Keys == was.Keys;
    forall i | 0 <= i < |log + [(p, f)]| ensures (log + [(p, f)])[i].0 in now {
    }
  }

  lemma ConservedAttach(arrived: map<Pipe, seq<Frame>>, log: Log, was: map<Pipe, seq<Frame>>, p: Pipe, q: seq<Frame>)
    requires Conserved(arrived, log, was) && p !in was
    ensures Conserved(arrived[p := q], log, was[p := q])
  {
    TakenNone(log, p);
  }

  lemma ConservedArrive(arrived: map<Pipe, seq<Frame>>, log: Log, was: map<Pipe, seq<Frame>>, p: Pipe, q: seq<Frame>)
    requires Conserved(arrived, log, was) && p in was
    ensures p in arrived
    ensures Conserved(arrived[p := arrived[p] + q], log, was[p := was[p] + q])
  {
    assert arrived[p] + q == Taken(log, p) + (was[p] + q);
  }

  // ---------------------------------------------------------------------
  // Runs as sequences of values

  datatype Command =
    | Attach(p: Pipe, q: seq<Frame>)     // a new pipe, with what it holds
    | Arrive(p: Pipe, q: seq<Frame>)     // whole messages reach a pipe
    | Activate(p: Pipe)                  // a passive pipe is readable again
    | Terminate(p: Pipe)
    | Receive
    | Poll

  datatype Snapshot = Snapshot(
    pipes: set<Pipe>,
    waits: map<Pipe, int>,               // the active pipes and their distances from the current one
    atEnd: bool,                         // the current pipe is the last active one
    more: bool,
    onRest: bool,                        // the next frame is one of the pipe of the last frame
    queues: map<Pipe, seq<Frame>>,
    log: Log,
    arrived: map<Pipe, seq<Frame>>)      // everything that ever reached each pipe

  const START := Snapshot({}, map[], false, false, false, map[], [], map[])

  ghost predicate WaitsOk(s: Snapshot) {
    && (forall p :: p in s.waits ==> p in s.pipes && 0 <= s.waits[p] < |s.waits|)
    && forall p :: p in s.pipes ==> p in s.queues
  }

  /** Terminating `p` leaves a partly read pipe current. */
  ghost predicate Harmless(s: Snapshot, p: Pipe) {
    p !in s.waits || (s.waits[p] != 0 && (!s.atEnd || s.waits[p] == 1))
  }

  ghost predicate Allowed(s: Snapshot, c: Command) {
    match c
    case Attach(p, q) => p !in s.queues && Whole(q)
    case Arrive(p, q) => p in s.pipes && Whole(q)
    case Activate(p) => p in s.pipes && p !in s.waits
    case Terminate(p) => p in s.pipes
    case Receive => true
    case Poll => true
  }

  ghost predicate SameData(s: Snapshot, t: Snapshot) {
    t.more == s.more && t.log == s.log && t.queues == s.queues && t.arrived == s.arrived
  }

  /** The active pipes with something to read stay active and get no further away. */
  ghost predicate Closer(s: Snapshot, t: Snapshot, gain: int, served: set<Pipe>) {
    forall r :: r in s.waits && r in s.queues && s.queues[r] != [] && r !in served ==>
      r in t.waits && t.waits[r] <= s.waits[r] - gain
  }

  /** One frame is taken from the front of one pipe, the same one while the message is current. */
  ghost predicate Fetched(s: Snapshot, t: Snapshot, p: Pipe, f: Frame) {
    && p in s.waits && p in s.queues && p in t.queues && s.queues[p] == [f] + t.queues[p]
    && t.queues == s.queues[p := t.queues[p]]
    && t.log == s.log + [(p, f)] && t.more == f.more && t.arrived == s.arrived
    && (s.more && s.onRest ==> s.log != [] && s.log[|s.log| - 1].0 == p)
    && (t.more ==> t.onRest)
    && Closer(s, t, if f.more then 0 else 1, {p})
  }

  /** Nothing can be read, and the pipes tried are passive now. */
  ghost predicate Dry(s: Snapshot, t: Snapshot) {
    && SameData(s, t) && !(s.more && s.onRest) && t.waits == map[]
    && forall r :: r in s.waits && r in s.queues ==> s.queues[r] == []
  }

  /** The call failed its assertion, a partly read message having lost its place. */
  ghost predicate Aborted(s: Snapshot, t: Snapshot) {
    s.more && !s.onRest && SameData(s, t) && t.waits == s.waits
  }

  ghost predicate Next(s: Snapshot, c: Command, t: Snapshot) {
    && WaitsOk(t)
    && (!c.Terminate? && !c.Receive? && s.more && s.onRest ==> t.onRest)
    && match c
       case Attach(p, q) =>
         && t.pipes == s.pipes + {p} && t.waits.Keys == s.waits.Keys + {p} && Closer(s, t, -1, {})
         && t.queues == s.queues[p := q] && t.arrived == s.arrived[p := q] && t.more == s.more && t.log == s.log
       case Arrive(p, q) =>
         && p in s.queues && p in s.arrived && t.pipes == s.pipes && t.waits == s.waits
         && t.more == s.more && t.log == s.log
         && t.queues == s.queues[p := s.queues[p] + q] && t.arrived == s.arrived[p := s.arrived[p] + q]
       case Activate(p) =>
         SameData(s, t) && t.pipes == s.pipes && t.waits.Keys == s.waits.Keys + {p} && Closer(s, t, -1, {})
       case Terminate(p) =>
         && SameData(s, t) && t.pipes == s.pipes - {p} && t.waits.Keys == s.waits.Keys - {p}
         && (s.onRest ==> (t.onRest <==> Harmless(s, p)))
       case Receive =>
         t.pipes == s.pipes && (Dry(s, t) || Aborted(s, t) || exists p, f :: Fetched(s, t, p, f))
       case Poll =>
         t.pipes == s.pipes && SameData(s, t) && Closer(s, t, 0, {})
  }

  ghost predicate IsRun(run: seq<Snapshot>, commands: seq<Command>) {
    && |run| == |commands| + 1 && run[0] == START
    && forall i :: 0 <= i < |commands| ==> Allowed(run[i], commands[i]) && Next(run[i], commands[i], run[i + 1])
  }

  ghost predicate Inv(s: Snapshot) {
    WaitsOk(s) && Conserved(s.arrived, s.log, s.queues) && (s.more <==> Mid(s.log))
  }

  lemma NextInv(s: Snapshot, c: Command, t: Snapshot)
    requires Inv(s) && Allowed(s, c) && Next(s, c, t)
    ensures Inv(t)
  {
    hide Conserved, WaitsOk, Whole;
    match c
    case Attach(p, q) => ConservedAttach(s.arrived, s.log, s.queues, p, q);
    case Arrive(p, q) => ConservedArrive(s.arrived, s.log, s.queues, p, q);
    case Receive =>
      if !SameData(s, t) {
        var p, f :| Fetched(s, t, p, f);
        ConservedFetch(s.arrived, s.log, s.queues, t.queues, p, f);
      }
    case _ =>
  }

  /** In every run no frame is lost or repeated. */
  lemma {:induction false} RunInv(run: seq<Snapshot>, commands: seq<Command>, i: nat)
    requires IsRun(run, commands) && i <= |commands|
    ensures Inv(run[i])
  {
    if i > 0 {
      RunInv(run, commands, i - 1);
      hide Inv, Next, Allowed;
      NextInv(run[i - 1], commands[i - 1], run[i]);
    }
  }

  /** No pipe is terminated in mid-message where that loses the message's place. */
  ghost predicate Tidy(run: seq<Snapshot>, commands: seq<Command>, n: nat)
    requires n <= |commands| < |run|
  {
    forall i :: 0 <= i < n && commands[i].Terminate? && run[i].more ==> Harmless(run[i], commands[i].p)
  }

  lemma NextUnmixed(s: Snapshot, c: Command, t: Snapshot)
    requires Inv(s) && Next(s, c, t) && Unmixed(s.log) && (s.more ==> s.onRest)
    requires c.Terminate? && s.more ==> Harmless(s, c.p)
    ensures Unmixed(t.log) && (t.more ==> t.onRest)
  {
    hide Conserved, WaitsOk, Harmless;
    if c.Receive? && !SameData(s, t) {
      var p, f :| Fetched(s, t, p, f);
      Fq.UnmixedNext(s.log, (p, f));
    }
  }

  /** In every such run parts of different messages are never mixed, and no receive aborts. */
  lemma {:induction false} RunUnmixed(run: seq<Snapshot>, commands: seq<Command>, i: nat)
    requires IsRun(run, commands) && i <= |commands| && Tidy(run, commands, i)
    ensures Unmixed(run[i].log) && (run[i].more ==> run[i].onRest)
  {
    if i > 0 {
      RunUnmixed(run, commands, i - 1);
      RunInv(run, commands, i - 1);
      hide Inv, Next, Allowed, Unmixed, Harmless;
      NextUnmixed(run[i - 1], commands[i - 1], run[i]);
    }
  }

  // ---------------------------------------------------------------------
  // Bounded wait

  /** The messages whose last part is in the log. */
  function Completed(log: Log): nat {
    if log == [] then 0 else Completed(log[..|log| - 1]) + if log[|log| - 1].1.more then 0 else 1
  }

  /** The commands that make a pipe active. */
  function Joins(commands: seq<Command>): nat {
    if commands == [] then 0
    else
      var c := commands[|commands| - 1];
      Joins(commands[..|commands| - 1]) + if c.Attach? || c.Activate? then 1 else 0
  }

  ghost predicate Ready(s: Snapshot, q: Pipe) {
    q in s.waits && q in s.queues && s.queues[q] != []
  }

  /** How much one step can add to a pipe's wait: a pipe that leaves may send it to the end of the line. */
  ghost function Delay(c: Command, t: Snapshot): nat {
    if c.Attach? || c.Activate? then 1 else if c.Terminate? then |t.waits| else 0
  }

  ghost function Delays(run: seq<Snapshot>, commands: seq<Command>, i: nat, j: nat): nat
    requires i <= j <= |commands| < |run|
  {
    if i == j then 0 else Delays(run, commands, i, j - 1) + Delay(commands[j - 1], run[j])
  }

  lemma StepCloser(s: Snapshot, c: Command, t: Snapshot, q: Pipe)
    requires Allowed(s, c) && Next(s, c, t) && Ready(s, q) && c != Terminate(q) && s.waits[q] >= 0
    requires t.log != s.log ==> t.log[|t.log| - 1].0 != q
    ensures Ready(t, q) && s.log <= t.log
    ensures Completed(t.log) + t.waits[q] <= Completed(s.log) + s.waits[q] + Delay(c, t)
    ensures c.Terminate? ==> t.waits[q] <= |t.waits| - 1
  {
    if c.Receive? && !SameData(s, t) {
      var p, f :| Fetched(s, t, p, f);
      assert t.log[..|s.log|] == s.log;
    }
  }

  /** What the log gained does not come from `q`. */
  ghost predicate Unserved(was: Log, now: Log, q: Pipe) {
    forall k :: |was| <= k < |now| ==> now[k].0 != q
  }

  lemma UnservedTo(was: Log, mid: Log, now: Log, q: Pipe)
    requires was <= mid <= now && Unserved(was, now, q)
    ensures Unserved(was, mid, q) && (now != mid ==> now[|now| - 1].0 != q)
  {
    forall k | |was| <= k < |mid| ensures mid[k].0 != q {
      assert now[k] == mid[k];
    }
    assert now != mid ==> |now| > |mid|;
  }

  lemma {:induction false} WaitShrinks(run: seq<Snapshot>, commands: seq<Command>, i: nat, j: nat, q: Pipe)
    requires IsRun(run, commands) && i <= j <= |commands| && Ready(run[i], q)
    requires forall k :: i <= k < j ==> commands[k] != Terminate(q)
    requires Unserved(run[i].log, run[j].log, q)
    ensures Ready(run[j], q)
    ensures Completed(run[j].log) + run[j].waits[q]
            <= Completed(run[i].log) + run[i].waits[q] + Delays(run, commands, i, j)
  {
    hide Next, Allowed, Completed, Delay, Unserved;
    if i < j {
      var s, c, t := run[j - 1], commands[j - 1], run[j];
      LogGrows(s, c, t);
      LogKept(run, commands, i, j - 1);
      UnservedTo(run[i].log, s.log, t.log, q);
      WaitShrinks(run, commands, i, j - 1, q);
      WaitInRun(run, commands, j - 1, q);
      StepCloser(s, c, t, q);
    }
  }

  /** Without terminations in between only the pipes that joined count. */
  lemma {:induction false} DelaysAreJoins(run: seq<Snapshot>, commands: seq<Command>, i: nat, j: nat)
    requires i <= j <= |commands| < |run|
    requires forall k :: i <= k < j ==> !commands[k].Terminate?
    ensures Delays(run, commands, i, j) == Joins(commands[i..j])
  {
    if i < j {
      DelaysAreJoins(run, commands, i, j - 1);
      assert commands[i..j][..j - 1 - i] == commands[i..j - 1];
    }
  }

  /**
    In every run a pipe with something to read that is not served between two
    points has seen at most as many messages completed as its distance, which is
    below the number of active pipes, plus one for each pipe that joined the
    active ones meanwhile; a termination starts the count again.
   */
  lemma BoundedWait(run: seq<Snapshot>, commands: seq<Command>, i: nat, j: nat, q: Pipe)
    requires IsRun(run, commands) && i <= j <= |commands| && Ready(run[i], q)
    requires forall k :: i <= k < j ==> commands[k] != Terminate(q)
    requires Unserved(run[i].log, run[j].log, q)
    ensures Ready(run[j], q) && run[i].log <= run[j].log
    ensures Completed(run[j].log) - Completed(run[i].log) <= run[i].waits[q] + Delays(run, commands, i, j)
    ensures (forall k :: i <= k < j ==> !commands[k].Terminate?) ==>
              Completed(run[j].log) - Completed(run[i].log) <= run[i].waits[q] + Joins(commands[i..j])
    ensures run[i].waits[q] <= |run[i].waits| - 1
  {
    if forall k :: i <= k < j ==> !commands[k].Terminate? {
      DelaysAreJoins(run, commands, i, j);
    }
    WaitShrinks(run, commands, i, j, q);
    LogKept(run, commands, i, j);
    WaitInRun(run, commands, i, q);
    WaitInRun(run, commands, j, q);
  }

  lemma WaitInRun(run: seq<Snapshot>, commands: seq<Command>, i: nat, q: Pipe)
    requires IsRun(run, commands) && i <= |commands| && q in run[i].waits
    ensures 0 <= run[i].waits[q] < |run[i].waits|
  {
    RunInv(run, commands, i);
  }

  lemma LogGrows(s: Snapshot, c: Command, t: Snapshot)
    requires Next(s, c, t)
    ensures s.log <= t.log
  {
  }

  lemma {:induction false} LogKept(run: seq<Snapshot>, commands: seq<Command>, i: nat, j: nat)
    requires IsRun(run, commands) && i <= j <= |commands|
    ensures run[i].log <= run[j].log
  {
    if i < j {
      LogKept(run, commands, i, j - 1);
      LogGrows(run[j - 1], commands[j - 1], run[j]);
    }
  }

  // ---------------------------------------------------------------------
  // The class takes these steps

  ghost function View(fq: Fq, arrived: map<Pipe, seq<Frame>>): Snapshot
    reads fq, fq.pipes
  {
    Snapshot(set p | p in fq.pipes.items, map p | p in fq.pipes.items && fq.IsActive(p) :: fq.Wait(p),
             fq.active == fq.current + 1, fq.more, fq.OnRest(), fq.queues, fq.log, arrived)
  }

  lemma ViewOk(fq: Fq, arrived: map<Pipe, seq<Frame>>)
    requires fq.Counted()
    ensures WaitsOk(View(fq, arrived))
  {
    hide Whole;
    var waits := View(fq, arrived).waits;
    assert waits.Keys == Region(fq.pipes.items, fq.pipes.index, fq.active);
    RegionSize(fq.pipes.items, fq.pipes.index, fq.active);
    forall p | p in waits ensures 0 <= waits[p] < |waits| {
      fq.WaitBound(p);
    }
  }

  lemma ViewHarmless(fq: Fq, arrived: map<Pipe, seq<Frame>>, p: Pipe)
    requires fq.Counted() && p in fq.pipes.items
    ensures Harmless(View(fq, arrived), p) <==> fq.StaysCurrent(fq.pipes.index[p])
  {
    hide Whole;
  }

  method Perform(fq: Fq, c: Command, ghost arrived: map<Pipe, seq<Frame>>)
    returns (ghost arrived': map<Pipe, seq<Frame>>)
    requires fq.Counted() && Allowed(View(fq, arrived), c) && arrived.Keys == fq.queues.Keys
    modifies fq, fq.pipes
    ensures fq.Counted() && Next(old(View(fq, arrived)), c, View(fq, arrived'))
  {
    hide Whole, Ahead, WaitsOk, Harmless, Next;
    arrived' := arrived;
    match c
    case Attach(p, q) =>
      arrived' := arrived[p := q];
      PerformAttach(fq, p, q, arrived);
    case Arrive(p, q) =>
      arrived' := arrived[p := arrived[p] + q];
      PerformArrive(fq, p, q, arrived);
    case Activate(p) =>
      PerformActivate(fq, p, arrived);
    case Terminate(p) =>
      PerformTerminate(fq, p, arrived);
    case Receive =>
      PerformReceive(fq, arrived);
    case Poll =>
      PerformPoll(fq, arrived);
  }

  /** A pipe joins the active ones. */
  lemma Joined(s: Snapshot, c: Command, t: Snapshot)
    requires (c.Attach? || c.Activate?) && WaitsOk(t) && t.pipes == s.pipes + {c.p} && (c.Activate? ==> c.p in s.pipes)
    requires forall r :: r in t.waits <==> r in s.waits || r == c.p
    requires forall r :: r in s.waits ==> t.waits[r] <= s.waits[r] + 1
    requires t.more == s.more && t.log == s.log && (s.more && s.onRest ==> t.onRest)
    requires t.queues == (if c.Attach? then s.queues[c.p := c.q] else s.queues)
    requires t.arrived == (if c.Attach? then s.arrived[c.p := c.q] else s.arrived)
    ensures Next(s, c, t)
  {
    hide WaitsOk, Fetched, Dry, Aborted, Harmless;
    assert t.waits.Keys == s.waits.Keys + {c.p};
    assert c.Activate? ==> t.pipes == s.pipes;
    assert Closer(s, t, -1, {});
    hide Closer;
  }

  method PerformAttach(fq: Fq, p: Pipe, q: seq<Frame>, ghost arrived: map<Pipe, seq<Frame>>)
    requires fq.Counted() && Allowed(View(fq, arrived), Attach(p, q))
    modifies fq, fq.pipes
    ensures fq.Counted() && Next(old(View(fq, arrived)), Attach(p, q), View(fq, arrived[p := q]))
  {
    hide Whole, Ahead, WaitsOk, Next;
    ghost var s := View(fq, arrived);
    fq.Attach(p, q);
    ghost var t := View(fq, arrived[p := q]);
    ViewOk(fq, arrived[p := q]);
    Joined(s, Attach(p, q), t);
  }

  method PerformArrive(fq: Fq, p: Pipe, q: seq<Frame>, ghost arrived: map<Pipe, seq<Frame>>)
    requires fq.Counted() && Allowed(View(fq, arrived), Arrive(p, q)) && p in arrived
    modifies fq, fq.pipes
    ensures fq.Counted() && Next(old(View(fq, arrived)), Arrive(p, q), View(fq, arrived[p := arrived[p] + q]))
  {
    hide Whole, Ahead, WaitsOk;
    fq.Arrive(p, q);
    ViewOk(fq, arrived[p := arrived[p] + q]);
  }

  method PerformActivate(fq: Fq, p: Pipe, ghost arrived: map<Pipe, seq<Frame>>)
    requires fq.Counted() && Allowed(View(fq, arrived), Activate(p))
    modifies fq, fq.pipes
    ensures fq.Counted() && Next(old(View(fq, arrived)), Activate(p), View(fq, arrived))
  {
    hide Whole, Ahead, WaitsOk, Next;
    ghost var s := View(fq, arrived);
    fq.Activated(p);
    ghost var t := View(fq, arrived);
    ViewOk(fq, arrived);
    Joined(s, Activate(p), t);
  }

  method PerformTerminate(fq: Fq, p: Pipe, ghost arrived: map<Pipe, seq<Frame>>)
    requires fq.Counted() && Allowed(View(fq, arrived), Terminate(p))
    modifies fq, fq.pipes
    ensures fq.Counted() && Next(old(View(fq, arrived)), Terminate(p), View(fq, arrived))
  {
    hide Whole, Ahead, WaitsOk, Harmless;
    ViewHarmless(fq, arrived, p);
    fq.PipeTerminated(p);
    ViewOk(fq, arrived);
  }

  lemma ReceiveStep(s: Snapshot, t: Snapshot, p: Pipe, f: Frame)
    requires WaitsOk(t) && t.pipes == s.pipes && (Dry(s, t) || Aborted(s, t) || Fetched(s, t, p, f))
    ensures Next(s, Receive, t)
  {
  }

  method PerformReceive(fq: Fq, ghost arrived: map<Pipe, seq<Frame>>)
    requires fq.Counted()
    modifies fq, fq.pipes
    ensures fq.Counted() && Next(old(View(fq, arrived)), Receive, View(fq, arrived))
  {
    hide Whole, Ahead, WaitsOk, Harmless, Next, Unmixed;
    ghost var s := View(fq, arrived);
    var rc, f, from := fq.Recvpipe();
    ViewOk(fq, arrived);
    ghost var t := View(fq, arrived);
    assert t.pipes == s.pipes;
    hide Fq.Counted;
    if rc == 0 {
      hide Dry, Aborted;
      assert Closer(s, t, if f.more then 0 else 1, {from});
      hide Closer;
      assert from in s.waits;
      assert Fetched(s, t, from, f);
      ReceiveStep(s, t, from, f);
    } else if rc == -1 {
      hide Fetched, Aborted;
      assert Dry(s, t);
      ReceiveStep(s, t, from, f);
    } else {
      hide Fetched, Dry;
      assert t.waits == s.waits;
      assert Aborted(s, t);
      ReceiveStep(s, t, from, f);
    }
  }

  method PerformPoll(fq: Fq, ghost arrived: map<Pipe, seq<Frame>>)
    requires fq.Counted()
    modifies fq, fq.pipes
    ensures fq.Counted() && Next(old(View(fq, arrived)), Poll, View(fq, arrived))
  {
    hide Whole, Ahead, WaitsOk, Harmless;
    var _ := fq.HasIn();
    ViewOk(fq, arrived);
  }
}
