/**
  Whole runs of the distributor: attaching, activating and terminating pipes at
  any time, matching between messages, sends whose writes may fail.
 */
module DistributorRuns {
  import opened IntrusiveArray
  import opened Distributor

  // The numbers of the parts of message `m` in a pipe, in the order written.
  function Parts(log: seq<Frame>, m: nat): seq<nat> {
    if log == [] then []
    else
      var f := log[|log| - 1];
      Parts(log[..|log| - 1], m) + if f.msg == m then [f.part] else []
  }

  function Upto(k: nat): seq<nat> {
    seq(k, i => i)
  }

  /** Messages do not interleave, and of each message a pipe holds a prefix. */
  ghost predicate Atomic(log: seq<Frame>) {
    && (forall m: nat :: Parts(log, m) == Upto(|Parts(log, m)|))
    && forall i, j :: 0 <= i < j < |log| ==> log[i].msg <= log[j].msg
  }

  // Message `msg` is being sent, `part` of its parts are out, all to one kind of target.
  datatype Progress = Progress(msg: nat, part: nat, toAll: bool)

  ghost function Target(r: Regions, toAll: bool): set<Pipe> {
    if toAll then r.active else r.matching
  }

  /** No pipe is ahead of the sender, and the current targets hold every part sent so far. */
  ghost predicate InStep(r: Regions, sent: map<Pipe, seq<Frame>>, g: Progress) {
    && Nested(r)
    && (r.more <==> g.part > 0)
    && r.all <= sent.Keys
    && (forall p :: p in sent ==>
         && Atomic(sent[p])
         && (forall i :: 0 <= i < |sent[p]| ==> sent[p][i].msg <= g.msg)
         && |Parts(sent[p], g.msg)| <= g.part)
    && forall p :: p in Target(r, g.toAll) && g.part > 0 ==> p in sent && |Parts(sent[p], g.msg)| == g.part
  }

  lemma {:induction false} PartsNone(log: seq<Frame>, m: nat)
    requires forall i :: 0 <= i < |log| ==> log[i].msg < m
    ensures Parts(log, m) == []
  {
    if log != [] {
      PartsNone(log[..|log| - 1], m);
    }
  }

  lemma PartsAppend(log: seq<Frame>, f: Frame, m: nat)
    ensures Parts(log + [f], m) == Parts(log, m) + if f.msg == m then [f.part] else []
  {
    assert (log + [f])[..|log|] == log;
  }

  lemma AtomicAppend(log: seq<Frame>, f: Frame)
    requires Atomic(log) && |Parts(log, f.msg)| == f.part
    requires forall i :: 0 <= i < |log| ==> log[i].msg <= f.msg
    ensures Atomic(log + [f]) && |Parts(log + [f], f.msg)| == f.part + 1
  {
    forall m: nat ensures Parts(log + [f], m) == Upto(|Parts(log + [f], m)|) {
      PartsAppend(log, f, m);
    }
    PartsAppend(log, f, f.msg);
  }

  /** A pipe's parts stay a prefix of the message iff it holds all the earlier ones. */
  lemma AtomicIff(log: seq<Frame>, f: Frame)
    requires Atomic(log) && forall i :: 0 <= i < |log| ==> log[i].msg <= f.msg
    ensures Atomic(log + [f]) <==> |Parts(log, f.msg)| == f.part
  {
    if |Parts(log, f.msg)| == f.part {
      AtomicAppend(log, f);
    } else {
      PartsAppend(log, f, f.msg);
      var n := |Parts(log, f.msg)|;
      assert Parts(log + [f], f.msg)[n] == f.part && Upto(n + 1)[n] == n;
    }
  }

  function Advance(g: Progress, f: Frame, toAll: bool): Progress {
    if f.more then Progress(g.msg, g.part + 1, toAll) else Progress(g.msg + 1, 0, toAll)
  }

  /** One pipe's log across the send of the next part. */
  lemma LogInStep(log: seq<Frame>, log': seq<Frame>, f: Frame, took: bool)
    requires Atomic(log) && (forall i :: 0 <= i < |log| ==> log[i].msg <= f.msg)
    requires |Parts(log, f.msg)| <= f.part && (took ==> |Parts(log, f.msg)| == f.part)
    requires log' == if took then log + [f] else log
    ensures Atomic(log') && (forall i :: 0 <= i < |log'| ==> log'[i].msg <= f.msg)
    ensures |Parts(log', f.msg)| <= f.part + 1 && (took ==> |Parts(log', f.msg)| == f.part + 1)
    ensures |Parts(log', f.msg + 1)| == 0
  {
    if took {
      AtomicAppend(log, f);
    }
    PartsNone(log', f.msg + 1);
  }

  /** A send keeps step, whichever of its writes fail. */
  lemma SendInStep(r: Regions, mid: Regions, was: map<Pipe, seq<Frame>>, now: map<Pipe, seq<Frame>>,
                   f: Frame, tried: seq<Pipe>, accepts: nat -> bool, g: Progress, toAll: bool)
    requires InStep(r, was, g) && f.msg == g.msg && f.part == g.part && (g.part > 0 ==> toAll == g.toAll)
    requires Sent(if toAll then ToAll(r) else r, mid, was, now, f, tried, accepts)
    ensures InStep(Closing(mid, f), now, Advance(g, f, toAll))
  {
    var took := Took(tried, accepts);
    hide Took, Atomic, Parts;
    assert took <= Target(r, toAll) by {
      assert mid.matching == took;
    }
    forall p | p in now
      ensures Atomic(now[p]) && (forall i :: 0 <= i < |now[p]| ==> now[p][i].msg <= g.msg)
      ensures |Parts(now[p], g.msg)| <= g.part + 1 && (p in took ==> |Parts(now[p], g.msg)| == g.part + 1)
      ensures |Parts(now[p], g.msg + 1)| == 0
    {
      assert p in took && g.part > 0 ==> p in Target(r, g.toAll);
      LogInStep(was[p], now[p], f, p in took);
    }
    assert mid.active <= mid.eligible && mid.matching <= mid.active;
    assert f.more ==> Target(mid, toAll) == took;
  }

  // ---------------------------------------------------------------------
  // Runs as sequences of values

  datatype Command =
    | Attach(p: Pipe) | Terminate(p: Pipe) | Activate(p: Pipe)
    | Match(p: Pipe) | Unmatch | ReverseMatch
    | Send(more: bool, toAll: bool, vsm: bool, accepts: nat -> bool)

  datatype Snapshot = Snapshot(r: Regions, sent: map<Pipe, seq<Frame>>, g: Progress)

  const START := Snapshot(Regions({}, {}, {}, {}, false), map[], Progress(0, 0, false))

  /** What callers may do: the hypotheses under which messages stay whole. */
  ghost predicate Allowed(s: Snapshot, c: Command) {
    match c
    case Attach(p) => p !in s.r.all
    case Terminate(p) => p in s.r.all
    case Activate(p) => p in s.r.all - s.r.eligible
    case Match(p) => p in s.r.all && !s.r.more
    case Unmatch => !s.r.more
    case ReverseMatch => !s.r.more
    case Send(_, toAll, _, _) => s.g.part == 0 || toAll == s.g.toAll
  }

  /** The effect of a command, as sets; of a send, whatever the order in which the pipes are tried. */
  ghost predicate Next(s: Snapshot, c: Command, t: Snapshot) {
    var r := s.r;
    match c
    case Attach(p) =>
      && t.r == Activating(r, p).(all := r.all + {p})
      && t.sent == s.sent[p := if p in s.sent then s.sent[p] else []] && t.g == s.g
    case Terminate(p) =>
      t == s.(r := Regions(r.all - {p}, r.eligible - {p}, r.active - {p}, r.matching - {p}, r.more))
    case Activate(p) =>
      t == s.(r := Activating(r, p))
    case Match(p) => t == s.(r := Matching(r, p))
    case Unmatch => t == s.(r := r.(matching := {}))
    case ReverseMatch => t == s.(r := Reversed(r))
    case Send(more, toAll, _, accepts) =>
      var f := Frame(s.g.msg, s.g.part, more);
      var from := if toAll then ToAll(r) else r;
      t.g == Advance(s.g, f, toAll) && exists mid, tried :: Goes(from, mid, s.sent, t, f, tried, accepts)
  }

  /** A send from regions `r` leaves `mid` and then, the frame being out, those of `t`. */
  ghost predicate Goes(r: Regions, mid: Regions, was: map<Pipe, seq<Frame>>, t: Snapshot, f: Frame, tried: seq<Pipe>,
                       accepts: nat -> bool) {
    Sent(r, mid, was, t.sent, f, tried, accepts) && t.r == Closing(mid, f)
  }

  ghost predicate IsRun(run: seq<Snapshot>, commands: seq<Command>) {
    && |run| == |commands| + 1 && run[0] == START
    && forall i :: 0 <= i < |commands| ==> Allowed(run[i], commands[i]) && Next(run[i], commands[i], run[i + 1])
  }

  /** The pipes change between sends without getting parts of the current message out of order. */
  lemma ChangeInStep(r: Regions, sent: map<Pipe, seq<Frame>>, g: Progress, r': Regions, sent': map<Pipe, seq<Frame>>)
    requires InStep(r, sent, g) && Nested(r') && r'.more == r.more && r'.all <= sent'.Keys
    requires r.more ==> r'.active <= r.active && r'.matching <= r.matching
    requires sent.Keys <= sent'.Keys
    requires forall p :: p in sent' ==> sent'[p] == if p in sent then sent[p] else []
    ensures InStep(r', sent', g)
  {
    assert Atomic([]);
    hide Atomic;
  }

  lemma NextInStep(s: Snapshot, c: Command, t: Snapshot)
    requires InStep(s.r, s.sent, s.g) && Allowed(s, c) && Next(s, c, t)
    ensures InStep(t.r, t.sent, t.g)
  {
    if c.Send? {
      var f := Frame(s.g.msg, s.g.part, c.more);
      hide InStep, Sent;
      var mid, tried :| Goes(if c.toAll then ToAll(s.r) else s.r, mid, s.sent, t, f, tried, c.accepts);
      SendInStep(s.r, mid, s.sent, t.sent, f, tried, c.accepts, s.g, c.toAll);
    } else {
      MoreInStep(s.r, s.sent, s.g);
      hide InStep;
      NextNested(s, c, t);
      ChangeInStep(s.r, s.sent, s.g, t.r, t.sent);
    }
  }

  lemma MoreInStep(r: Regions, sent: map<Pipe, seq<Frame>>, g: Progress)
    requires InStep(r, sent, g)
    ensures Nested(r) && r.all <= sent.Keys
  {
  }

  /** What the commands other than a send keep. */
  lemma NextNested(s: Snapshot, c: Command, t: Snapshot)
    requires Nested(s.r) && s.r.all <= s.sent.Keys && Allowed(s, c) && Next(s, c, t) && !c.Send?
    ensures Nested(t.r) && t.r.more == s.r.more && t.g == s.g
    ensures s.r.more ==> t.r.active <= s.r.active && t.r.matching <= s.r.matching
    ensures s.sent.Keys <= t.sent.Keys && t.r.all <= t.sent.Keys
    ensures forall p :: p in t.sent ==> t.sent[p] == if p in s.sent then s.sent[p] else []
  {
  }

  lemma {:induction false} RunInStep(run: seq<Snapshot>, commands: seq<Command>, i: nat)
    requires IsRun(run, commands) && i <= |commands|
    ensures InStep(run[i].r, run[i].sent, run[i].g)
  {
    if i > 0 {
      RunInStep(run, commands, i - 1);
      hide InStep, Next, Allowed;
      NextInStep(run[i - 1], commands[i - 1], run[i]);
    }
  }

  /** In every run, at every point, no pipe holds a part of a message without all the earlier ones. */
  lemma RunAtomic(run: seq<Snapshot>, commands: seq<Command>, i: nat, p: Pipe)
    requires IsRun(run, commands) && i <= |commands| && p in run[i].sent
    ensures Nested(run[i].r) && Atomic(run[i].sent[p])
  {
    RunInStep(run, commands, i);
  }

  // ---------------------------------------------------------------------
  // The class takes these steps

  ghost function View(d: Dist, g: Progress): Snapshot
    requires d.pipes.Valid()
    reads d, d.pipes
  {
    Snapshot(d.State(), d.sent, g)
  }

  method Perform(d: Dist, c: Command, g: Progress) returns (g': Progress)
    requires d.Valid() && Allowed(View(d, g), c)
    modifies d, d.pipes
    ensures d.Valid() && Next(old(View(d, g)), c, View(d, g'))
  {
    hide Sent, Failed;
    g' := g;
    match c
    case Attach(p) => d.Attach(p);
    case Terminate(p) => d.PipeTerminated(p);
    case Activate(p) => d.Activated(p);
    case Match(p) => d.Match(p);
    case Unmatch => d.Unmatch();
    case ReverseMatch => d.ReverseMatch();
    case Send(more, toAll, vsm, accepts) =>
      var f := Frame(g.msg, g.part, more);
      g' := Advance(g, f, toAll);
      ghost var r, was := d.State(), d.sent;
      var refs, tried;
      if toAll {
        refs, tried := d.SendToAll(f, vsm, accepts);
        ghost var mid :| Sent(ToAll(r), mid, was, d.sent, f, tried, accepts) && d.State() == Closing(mid, f);
        assert Goes(ToAll(r), mid, was, View(d, g'), f, tried, accepts);
      } else {
        refs, tried := d.SendToMatching(f, vsm, accepts);
        ghost var mid :| Sent(r, mid, was, d.sent, f, tried, accepts) && d.State() == Closing(mid, f);
        assert Goes(r, mid, was, View(d, g'), f, tried, accepts);
      }
  }

  // ---------------------------------------------------------------------
  // A match in mid-message

  lemma TookAll(r: Regions, mid: Regions, was: map<Pipe, seq<Frame>>, now: map<Pipe, seq<Frame>>, f: Frame,
                tried: seq<Pipe>, accepts: nat -> bool)
    requires Sent(r, mid, was, now, f, tried, accepts) && forall k :: accepts(k)
    ensures Delivered(was, now, r.matching, f)
  {
    forall p | p in r.matching ensures p in Took(tried, accepts) {
      assert p in multiset(tried);
      var k :| 0 <= k < |tried| && tried[k] == p;
    }
  }

  /** Every pipe that gets the frame but `p` holds all the earlier parts, and `p` gets it. */
  lemma LatePrefix(r: Regions, was: map<Pipe, seq<Frame>>, now: map<Pipe, seq<Frame>>, f: Frame, g: Progress, p: Pipe)
    requires InStep(r, was, g) && g.part > 0 && f.msg == g.msg && f.part == g.part && p in r.all
    requires Delivered(was, now, Matching(r, p).matching, f)
    ensures (forall q :: q in now ==> Atomic(now[q])) <==>
            p !in r.eligible || p in r.matching || |Parts(was[p], g.msg)| == g.part
  {
    hide Atomic, Parts;
    forall q | q in now ensures now[q] == if q in Matching(r, p).matching then was[q] + [f] else was[q] {
      assert was[q] + [] == was[q];
    }
    forall q | q in now && q != p ensures Atomic(now[q]) {
      if q in r.matching {
        assert q in Target(r, g.toAll);
        AtomicIff(was[q], f);
      }
    }
    assert p in r.matching ==> p in Target(r, g.toAll);
    AtomicIff(was[p], f);
  }

  /**
    A pipe is matched in mid-message and the next part goes out, every write
    succeeding: each pipe's parts stay a prefix iff the pipe is not eligible, matched
    already, or holds all the parts sent so far.
   */
  method LateMatch(d: Dist, p: Pipe, f: Frame, vsm: bool, ghost g: Progress)
    requires d.Valid() && d.more && p in d.State().all
    requires InStep(d.State(), d.sent, g) && f.msg == g.msg && f.part == g.part
    modifies d, d.pipes
    ensures (forall q :: q in d.sent ==> Atomic(d.sent[q])) <==>
            var r := old(d.State());
            p !in r.eligible || p in r.matching || |Parts(old(d.sent)[p], g.msg)| == g.part
  {
    hide Atomic, Parts, Sent, Delivered;
    assert InStep(d.State(), d.sent, g);
    ghost var r, was := d.State(), d.sent;
    MoreInStep(r, was, g);
    d.Match(p);
    ghost var r1 := d.State();
    assert r1.matching == Matching(r, p).matching;
    var refs, tried := d.SendToMatching(f, vsm, _ => true);
    ghost var mid :| Sent(r1, mid, was, d.sent, f, tried, _ => true) && d.State() == Closing(mid, f);
    TookAll(r1, mid, was, d.sent, f, tried, _ => true);
    LatePrefix(r, was, d.sent, f, g, p);
  }

  // ---------------------------------------------------------------------
  // Publishing

  /**
    As xpub.cpp does it, lines 300-321: between messages the pipes `subscribers` are
    matched anew, the selection is reversed if the socket inverts it, and a frame goes
    out, every write succeeding.  Exactly the eligible ones of them, or else exactly
    the other eligible ones, get it.
   */
  method Publish(d: Dist, subscribers: seq<Pipe>, invert: bool, f: Frame, vsm: bool)
    requires d.Valid() && !d.more && forall i :: 0 <= i < |subscribers| ==> subscribers[i] in d.State().all
    modifies d, d.pipes
    ensures forall p :: p in old(d.sent) ==>
              var chosen := p in old(d.State()).eligible && if invert then p !in subscribers else p in subscribers;
              p in d.sent && d.sent[p] == old(d.sent)[p] + if chosen then [f] else []
    ensures d.Valid() && d.State().eligible == old(d.State()).eligible
  {
    hide Sent;
    d.Unmatch();
    for i := 0 to |subscribers|
      invariant d.Valid() && !d.more && d.sent == old(d.sent)
      invariant d.State().all == old(d.State()).all && d.State().eligible == old(d.State()).eligible
      invariant forall p :: p in d.State().matching <==> p in subscribers[..i] && p in old(d.State()).eligible
    {
      d.StateNested();
      d.Match(subscribers[i]);
      assert subscribers[..i + 1] == subscribers[..i] + [subscribers[i]];
    }
    assert subscribers[..|subscribers|] == subscribers;
    d.StateNested();
    if invert {
      d.ReverseMatch();
    }
    ghost var targets := d.State().matching;
    var refs, tried := d.SendToMatching(f, vsm, _ => true);
    AllAccepted(tried, targets);
  }

  /** The same to every pipe that is active, which between messages is every eligible one. */
  method Broadcast(d: Dist, f: Frame, vsm: bool)
    requires d.Valid() && !d.more
    modifies d, d.pipes
    ensures forall p :: p in old(d.sent) ==>
              p in d.sent && d.sent[p] == old(d.sent)[p] + if p in old(d.State()).eligible then [f] else []
  {
    hide Sent;
    d.StateNested();
    ghost var targets := d.State().active;
    var refs, tried := d.SendToAll(f, vsm, _ => true);
    AllAccepted(tried, targets);
  }

  lemma AllAccepted(tried: seq<Pipe>, targets: set<Pipe>)
    requires multiset(tried) == multiset(targets)
    ensures forall p :: Accepted(p, tried, _ => true) <==> p in targets
  {
    forall p ensures Accepted(p, tried, _ => true) <==> p in targets {
      assert p in tried <==> p in multiset(tried);
      if p in tried {
        var k :| 0 <= k < |tried| && tried[k] == p;
      }
    }
  }
}
