/**
  dist_t of dist.cpp: one array of pipes, partitioned in place into the
  matching, active, eligible and passive pipes.
 */
module Distributor {
  import opened IntrusiveArray

  // A message part: the message it belongs to, its number in it, the more bit.
  datatype Frame = Frame(msg: nat, part: nat, more: bool)

  // What the counters and the order of the array stand for.
  datatype Regions = Regions(all: set<Pipe>, eligible: set<Pipe>, active: set<Pipe>, matching: set<Pipe>, more: bool)

  /** The ordering of the regions every operation keeps. */
  ghost predicate Nested(r: Regions) {
    && r.matching <= r.active <= r.eligible <= r.all
    && (!r.more ==> r.active == r.eligible)
  }

  ghost function Matching(r: Regions, p: Pipe): Regions {
    r.(matching := if p in r.eligible then r.matching + {p} else r.matching)
  }

  ghost function Reversed(r: Regions): Regions {
    r.(matching := r.eligible - r.matching)
  }

  ghost function Activating(r: Regions, p: Pipe): Regions {
    r.(eligible := r.eligible + {p}, active := if r.more then r.active else r.active + {p})
  }

  class Dist {
    const pipes: PipeArray
    var matching: nat
    var active: nat
    var eligible: nat
    var more: bool
    var sent: map<Pipe, seq<Frame>>   // what was written to each pipe

    /** What every call keeps; a match in mid-message can leave more matching than active pipes. */
    ghost predicate Loose()
      reads this, pipes
    {
      && pipes.Valid()
      && matching <= eligible && active <= eligible <= |pipes.items|
      && forall p :: p in pipes.items ==> p in sent
    }

    ghost predicate Counted()
      reads this, pipes
    {
      Loose() && matching <= active
    }

    ghost predicate Valid()
      reads this, pipes
    {
      Counted() && (!more ==> active == eligible)
    }

    /** The pipes in the first `n` positions. */
    ghost function Front(n: nat): set<Pipe>
      requires pipes.Valid()
      reads pipes
    {
      Region(pipes.items, pipes.index, n)
    }

    ghost function State(): Regions
      requires pipes.Valid()
      reads this, pipes
    {
      Regions(Front(|pipes.items|), Front(eligible), Front(active), Front(matching), more)
    }

    /** Nothing below position `n` moved. */
    ghost predicate Moved(items: seq<Pipe>, index: map<Pipe, nat>, n: nat)
      reads pipes
    {
      && (forall q :: q in items <==> q in pipes.items)
      && forall q :: q in items && q in index ==>
        q in pipes.index && (index[q] < n || pipes.index[q] < n ==> index[q] == pipes.index[q])
    }

    lemma StateNested()
      requires Valid()
      ensures Nested(State())
      ensures |State().matching| == matching && |State().active| == active && |State().eligible| == eligible
    {
      RegionSize(pipes.items, pipes.index, matching);
      RegionSize(pipes.items, pipes.index, active);
      RegionSize(pipes.items, pipes.index, eligible);
    }

    lemma FrontEnds()
      requires Loose()
      ensures Front(0) == {} && Front(matching) == State().matching
    {
    }

    constructor ()
      ensures Valid() && fresh(pipes)
      ensures State() == Regions({}, {}, {}, {}, false) && sent == map[]
    {
      pipes := new PipeArray();
      matching, active, eligible, more := 0, 0, 0, false;
      sent := map[];
    }

    /** Lines 50-65. */
    method Attach(p: Pipe)
      requires Valid() && p !in State().all
      modifies this, pipes
      ensures Valid() && more == old(more)
      ensures State() == var r := old(State());
                r.(all := r.all + {p}, eligible := r.eligible + {p},
                   active := if more then r.active else r.active + {p})
      ensures sent == old(sent)[p := if p in old(sent) then old(sent)[p] else []]
    {
      sent := sent[p := if p in sent then sent[p] else []];
      if more {
        AttachEligible(p);
      } else {
        AttachActive(p);
      }
    }

    method AttachEligible(p: Pipe)
      requires Counted() && p !in State().all && p in sent
      modifies pipes, this`eligible
      ensures Counted()
      ensures State() == var r := old(State()); r.(all := r.all + {p}, eligible := r.eligible + {p})
    {
      pipes.PushAt(p, eligible);
      eligible := eligible + 1;
    }

    method AttachActive(p: Pipe)
      requires Counted() && p !in State().all && p in sent && active == eligible
      modifies pipes, this`active, this`eligible
      ensures Counted() && active == eligible
      ensures State() == var r := old(State());
                r.(all := r.all + {p}, eligible := r.eligible + {p}, active := r.active + {p})
    {
      pipes.PushAt(p, active);
      active := active + 1;
      eligible := eligible + 1;
    }

    /**
      Lines 67-80.  In mid-message a pipe that is eligible but not active takes
      the place of an active one, or makes the counters disagree.
     */
    method Match(p: Pipe)
      requires Loose() && p in State().all
      modifies this`matching, pipes
      ensures Loose() && State().all == old(State()).all && State().eligible == old(State()).eligible
      ensures forall q :: q in State().matching <==>
                q in old(State()).matching || (q == p && p in old(State()).eligible)
      ensures old(Valid()) ==>
                (Valid() && State() == Matching(old(State()), p) <==>
                 p !in old(State()).eligible || p in old(State()).active)
    {
      if pipes.index[p] < matching {
        return;
      }
      if pipes.index[p] >= eligible {
        return;
      }
      pipes.Swap(pipes.index[p], matching);
      matching := matching + 1;
    }

    /** Lines 98-101. */
    method Unmatch()
      requires Loose()
      modifies this`matching
      ensures Counted() && (old(!more ==> active == eligible) ==> Valid())
      ensures matching == 0 && State() == old(State()).(matching := {})
    {
      matching := 0;
    }

    /** Lines 82-96; with eligible pipes that are not active, those become active in place of others. */
    method ReverseMatch()
      requires Loose()
      modifies this`matching, pipes
      ensures Loose() && State().all == old(State()).all && State().eligible == old(State()).eligible
      ensures forall q :: q in State().matching <==> q in old(State()).eligible && q !in old(State()).matching
      ensures old(Valid()) ==> (Valid() && State() == Reversed(old(State())) <==> old(active == eligible))
    {
      var prev := matching;
      Unmatch();
      ghost var x := if active < |pipes.items| then pipes.items[active] else 0;
      MoveToFront(prev);
      if active < eligible && 0 < prev <= active {
        assert x in pipes.items && pipes.index[x] == active - prev;
        assert x in State().active && x !in old(State()).active;
      }
    }

    /** Lines 93-95: the pipes from `prev` on move to the front, in their order. */
    method MoveToFront(prev: nat)
      requires pipes.Valid() && prev <= eligible <= |pipes.items| && matching == 0
      modifies this`matching, pipes
      ensures pipes.Valid() && |pipes.items| == old(|pipes.items|) && matching == eligible - prev
      ensures forall p :: p in pipes.items <==> p in old(pipes.items)
      ensures forall p :: p in pipes.items ==>
                var was, now := old(pipes.index)[p], pipes.index[p];
                && (prev <= was < eligible <==> now < matching)
                && (prev <= was < eligible ==> now == was - prev)
                && (eligible <= was ==> now == was)
                && (was < eligible <==> now < eligible)
    {
      var i := prev;
      while i < eligible
        invariant pipes.Valid() && |pipes.items| == old(|pipes.items|)
        invariant prev <= i <= eligible && matching == i - prev
        invariant forall p :: p in pipes.items <==> p in old(pipes.items)
        invariant forall p :: p in pipes.items ==>
          var was, now := old(pipes.index)[p], pipes.index[p];
          && (prev <= was < i <==> now < matching)
          && (prev <= was < i ==> now == was - prev)
          && (i <= was ==> now == was)
          && (was < i <==> now < i)
      {
        pipes.Swap(i, matching);
        matching := matching + 1;
        i := i + 1;
      }
    }

    /** Lines 107-110. */
    method LeaveMatching(p: Pipe)
      requires Counted() && p in pipes.items
      modifies pipes, this`matching
      ensures Counted()
      ensures p in pipes.items && pipes.index[p] >= matching
      ensures old(pipes.index[p]) < old(matching) ==> pipes.index[p] == matching == old(matching) - 1
      ensures Moved(old(pipes.items), old(pipes.index), old(pipes.index[p]))
      ensures State() == var r := old(State()); r.(matching := r.matching - {p})
    {
      if pipes.index[p] < matching {
        pipes.Swap(pipes.index[p], matching - 1);
        matching := matching - 1;
      }
    }

    /** Lines 111-114. */
    method LeaveActive(p: Pipe)
      requires Counted() && p in pipes.items && pipes.index[p] >= matching
      modifies pipes, this`active
      ensures Counted()
      ensures p in pipes.items && pipes.index[p] >= active
      ensures old(pipes.index[p]) < old(active) ==> pipes.index[p] == active == old(active) - 1
      ensures Moved(old(pipes.items), old(pipes.index), old(pipes.index[p]))
      ensures State() == var r := old(State()); r.(active := r.active - {p})
    {
      if pipes.index[p] < active {
        pipes.Swap(pipes.index[p], active - 1);
        active := active - 1;
      }
    }

    /** Lines 115-118. */
    method LeaveEligible(p: Pipe)
      requires Counted() && p in pipes.items && pipes.index[p] >= active
      modifies pipes, this`eligible
      ensures Counted()
      ensures p in pipes.items && pipes.index[p] >= eligible
      ensures Moved(old(pipes.items), old(pipes.index), old(pipes.index[p]))
      ensures State() == var r := old(State()); r.(eligible := r.eligible - {p})
      ensures old(pipes.index[p]) < old(eligible) ==> eligible == old(eligible) - 1
      ensures old(pipes.index[p]) >= old(eligible) ==> eligible == old(eligible)
    {
      if pipes.index[p] < eligible {
        pipes.Swap(pipes.index[p], eligible - 1);
        eligible := eligible - 1;
      }
    }

    /** Lines 103-121. */
    method PipeTerminated(p: Pipe)
      requires Valid() && p in State().all
      modifies this, pipes
      ensures Valid()
      ensures State() == var r := old(State());
                Regions(r.all - {p}, r.eligible - {p}, r.active - {p}, r.matching - {p}, r.more)
      ensures sent == old(sent)
    {
      LeaveMatching(p);
      LeaveActive(p);
      LeaveEligible(p);
      SameSize();
      EraseLast(p);
    }

    /** Line 120: the pipe is passive by now. */
    method EraseLast(p: Pipe)
      requires Counted() && p in pipes.items && pipes.index[p] >= eligible
      modifies pipes
      ensures Counted() && State() == old(State()).(all := old(State()).all - {p})
    {
      pipes.Erase(p);
    }

    lemma SameSize()
      requires Counted()
      ensures active == eligible <==> State().active == State().eligible
    {
      RegionSize(pipes.items, pipes.index, active);
      RegionSize(pipes.items, pipes.index, eligible);
    }

    /** Lines 123-137.  A pipe that was not passive lets a passive one in instead. */
    method Activated(p: Pipe)
      requires Valid() && p in State().all
      modifies this`active, this`eligible, pipes
      ensures Valid() && State().all == old(State()).all && more == old(more)
      ensures p !in old(State()).eligible ==>
                && (forall q :: q in State().eligible <==> q in old(State()).eligible || q == p)
                && (forall q :: q in State().active <==> q in old(State()).active || (q == p && !more))
                && State().matching == old(State()).matching
      ensures State() == Activating(old(State()), p)
              <==> p !in old(State()).eligible || old(State()).eligible == old(State()).all
    {
      ghost var r := State();
      SameSize();
      var q := MakeEligible(p);
      ghost var mid := State();
      assert eligible > old(eligible) ==> q in mid.eligible;
      if !more {
        MakeActive();
      }
      SameSize();
    }

    /** Lines 125-129: `q`, the first passive pipe unless `p` is passive, becomes eligible. */
    method MakeEligible(p: Pipe) returns (ghost q: Pipe)
      requires Counted() && p in pipes.items
      modifies this`eligible, pipes
      ensures Counted() && |pipes.items| == old(|pipes.items|) && State().all == old(State()).all
      ensures if old(eligible) == |pipes.items| then State() == old(State()) && State().eligible == State().all
              else eligible == old(eligible) + 1 && q in old(State()).all - old(State()).eligible
                   && State().eligible == old(State()).eligible + {q}
      ensures eligible == old(eligible) ==> eligible == |pipes.items|
      ensures p !in old(State()).eligible ==>
                q == p && State() == old(State()).(eligible := old(State()).eligible + {p})
    {
      q := p;
      if eligible < |pipes.items| {
        if pipes.index[p] < eligible {
          q := pipes.items[eligible];
        }
        pipes.Swap(pipes.index[p], eligible);
        eligible := eligible + 1;
      }
    }

    /** Lines 133-136, between messages. */
    method MakeActive()
      requires Counted() && !more && (active == eligible - 1 || active == eligible == |pipes.items|)
      modifies this`active, pipes
      ensures Valid() && State() == old(State()).(active := old(State()).eligible)
    {
      if active < |pipes.items| {
        pipes.Swap(eligible - 1, active);
        active := active + 1;
      }
    }

    /** Lines 214-228; `ok` says whether the pipe takes the frame. */
    method Write(p: Pipe, f: Frame, ok: bool) returns (written: bool)
      requires Loose() && (ok || Counted()) && p in pipes.items && pipes.index[p] < matching
      modifies this, pipes
      ensures Loose() && (old(Counted()) ==> Counted()) && written == ok && more == old(more)
      ensures ok ==> State() == old(State()) && pipes.index == old(pipes.index) && pipes.items == old(pipes.items)
      ensures ok ==> sent == old(sent)[p := old(sent)[p] + [f]]
      ensures !ok ==> sent == old(sent) && Moved(old(pipes.items), old(pipes.index), old(pipes.index[p]))
      ensures !ok ==> State() == var r := old(State());
                r.(matching := r.matching - {p}, active := r.active - {p}, eligible := r.eligible - {p})
      ensures matching == old(matching) - (if ok then 0 else 1)
    {
      written := ok;
      if !ok {
        LeaveMatching(p);
        LeaveActive(p);
        assert pipes.index[p] == active;
        LeaveEligible(p);
      } else {
        sent := sent[p := sent[p] + [f]];
      }
    }

    /** One round of those loops, at position `i`. */
    method TryOne(i: nat, f: Frame, ok: bool) returns (p: Pipe)
      requires Loose() && (ok || Counted()) && i < matching
      modifies this, pipes
      ensures Loose() && (old(Counted()) ==> Counted()) && more == old(more)
      ensures p in old(State()).matching && p !in old(Front(i))
      ensures State() == if ok then old(State()) else Failed(old(State()), {p})
      ensures if ok then i < matching && Front(i + 1) == old(Front(i)) + {p} else Front(i) == old(Front(i))
      ensures matching == old(matching) - (if ok then 0 else 1)
      ensures Delivered(old(sent), sent, if ok then {p} else {}, f)
    {
      p := pipes.items[i];
      var _ := Write(p, f, ok);
      assert ok ==> Front(i + 1) == old(Front(i)) + {p};
      assert !ok ==> Front(i) == old(Front(i));
    }

    /** The loops of lines 174-180 and 192-199: `accepts(k)` is the outcome of the k-th write. */
    method WriteAll(f: Frame, accepts: nat -> bool) returns (failed: nat, tried: seq<Pipe>)
      requires Loose() && (Counted() || forall k :: accepts(k))
      modifies this, pipes
      ensures Loose() && (old(Counted()) ==> Counted()) && more == old(more)
      ensures Sent(old(State()), State(), old(sent), sent, f, tried, accepts)
      ensures failed == |old(State()).matching| - |State().matching|
    {
      hide Tally, Failed, Took, Delivered, Front, State;
      failed, tried := 0, [];
      ghost var r := State();
      ghost var lost: set<Pipe> := {};
      FrontEnds();
      TallyStart(r, accepts, sent, f);
      var i := 0;
      while i < matching
        invariant Loose() && (old(Counted()) ==> Counted()) && more == old(more) && i <= matching
        invariant Tally(r, State(), Front(i), lost, tried, accepts)
        invariant failed == |lost|
        invariant Delivered(old(sent), sent, Front(i), f)
        decreases matching - i
      {
        ghost var was, took, mid := sent, Front(i), State();
        var ok := accepts(|tried|);
        var p := TryOne(i, f, ok);
        DeliveredNext(old(sent), was, sent, took, p, ok, f);
        if ok {
          TallyTook(r, mid, took, lost, tried, accepts, p);
        } else {
          TallyLost(r, mid, took, lost, tried, accepts, p);
        }
        tried := tried + [p];
        if !ok {
          failed := failed + 1;
          lost := lost + {p};
        } else {
          i := i + 1;
        }
      }
      FrontEnds();
      TallyEnd(r, State(), Front(i), lost, tried, accepts);
    }

    /** Lines 162-207; the result is the count of references left on the message's buffer. */
    method Distribute(f: Frame, vsm: bool, accepts: nat -> bool) returns (refs: int, tried: seq<Pipe>)
      requires Loose() && (Counted() || forall k :: accepts(k))
      modifies this, pipes
      ensures Loose() && (old(Counted()) ==> Counted()) && more == old(more)
      ensures Sent(old(State()), State(), old(sent), sent, f, tried, accepts)
      ensures !vsm ==> refs == |State().matching|
    {
      refs := 1;
      RegionSize(pipes.items, pipes.index, matching);
      if matching == 0 {
        refs := refs - 1;
        tried := [];
        assert Front(0) == {};
        return;
      }
      var failed;
      if vsm {
        failed, tried := WriteAll(f, accepts);
        return;
      }
      refs := refs + (matching - 1);
      failed, tried := WriteAll(f, accepts);
      refs := refs - failed;
    }

    /** Lines 145-160. */
    method SendToMatching(f: Frame, vsm: bool, accepts: nat -> bool) returns (refs: int, tried: seq<Pipe>)
      requires Loose() && (Counted() || forall k :: accepts(k))
      modifies this, pipes
      ensures Loose() && (old(Counted()) || !f.more ==> Valid())
      ensures multiset(tried) == multiset(old(State()).matching) && more == f.more
      ensures forall p :: p in old(sent) ==>
                p in sent && sent[p] == old(sent)[p] + if Accepted(p, tried, accepts) then [f] else []
      ensures forall p :: p in State().matching <==> Accepted(p, tried, accepts)
      ensures forall p :: p in State().eligible <==>
                p in old(State()).eligible && (p in tried ==> Accepted(p, tried, accepts))
      ensures forall p :: p in State().active <==>
                p in State().eligible && (f.more ==> p in old(State()).active)
      ensures exists mid :: Sent(old(State()), mid, old(sent), sent, f, tried, accepts) && State() == Closing(mid, f)
      ensures !vsm ==> refs == |State().matching|
    {
      refs, tried := Distribute(f, vsm, accepts);
      ghost var mid := State();
      if !f.more {
        active := eligible;
      }
      more := f.more;
      assert State() == Closing(mid, f);
      SentMeans(old(State()), mid, old(sent), sent, f, tried, accepts);
    }

    /** Lines 139-143. */
    method SendToAll(f: Frame, vsm: bool, accepts: nat -> bool) returns (refs: int, tried: seq<Pipe>)
      requires Loose()
      modifies this, pipes
      ensures Valid()
      ensures multiset(tried) == multiset(old(State()).active) && more == f.more
      ensures forall p :: p in old(sent) ==>
                p in sent && sent[p] == old(sent)[p] + if Accepted(p, tried, accepts) then [f] else []
      ensures forall p :: p in State().matching <==> Accepted(p, tried, accepts)
      ensures forall p :: p in State().eligible <==>
                p in old(State()).eligible && (p in tried ==> Accepted(p, tried, accepts))
      ensures forall p :: p in State().active <==>
                p in State().eligible && (f.more ==> p in old(State()).active)
      ensures exists mid ::
                Sent(ToAll(old(State())), mid, old(sent), sent, f, tried, accepts) && State() == Closing(mid, f)
      ensures !vsm ==> refs == |State().matching|
    {
      matching := active;
      assert State() == ToAll(old(State()));
      refs, tried := SendToMatching(f, vsm, accepts);
    }
  }

  ghost function ToAll(r: Regions): Regions {
    r.(matching := r.active)
  }

  /** Lines 153-157: what happens to the regions after the distribution. */
  ghost function Closing(r: Regions, f: Frame): Regions {
    r.(active := if f.more then r.active else r.eligible, more := f.more)
  }

  /** Every matching pipe was tried once; those that took the frame stay, the others are passive. */
  ghost predicate Sent(r: Regions, r': Regions, was: map<Pipe, seq<Frame>>, now: map<Pipe, seq<Frame>>,
                       f: Frame, tried: seq<Pipe>, accepts: nat -> bool)
  {
    && multiset(tried) == multiset(r.matching)
    && r' == Failed(r, r.matching - Took(tried, accepts))
    && r'.matching == Took(tried, accepts)
    && Delivered(was, now, Took(tried, accepts), f)
  }

  /** The pipe took the frame. */
  ghost predicate Accepted(p: Pipe, tried: seq<Pipe>, accepts: nat -> bool) {
    exists k :: 0 <= k < |tried| && tried[k] == p && accepts(k)
  }

  /** A distribution, pipe by pipe. */
  lemma SentMeans(r: Regions, mid: Regions, was: map<Pipe, seq<Frame>>, now: map<Pipe, seq<Frame>>, f: Frame,
                  tried: seq<Pipe>, accepts: nat -> bool)
    requires Sent(r, mid, was, now, f, tried, accepts)
    ensures multiset(tried) == multiset(r.matching)
    ensures forall p :: p in was ==> p in now && now[p] == was[p] + if Accepted(p, tried, accepts) then [f] else []
    ensures forall p :: p in mid.matching <==> Accepted(p, tried, accepts)
    ensures forall p :: p in mid.eligible <==> p in r.eligible && (p in tried ==> Accepted(p, tried, accepts))
    ensures forall p :: p in mid.active <==> p in r.active && (p in tried ==> Accepted(p, tried, accepts))
  {
    forall p ensures p in Took(tried, accepts) <==> Accepted(p, tried, accepts) {
    }
    forall p ensures p in tried <==> p in r.matching {
      assert p in tried <==> p in multiset(tried);
    }
    hide Took, Accepted;
  }

  /** Where a distribution stands: who took the frame, who failed, who was tried. */
  ghost predicate Tally(r: Regions, now: Regions, took: set<Pipe>, lost: set<Pipe>, tried: seq<Pipe>,
                        accepts: nat -> bool) {
    && now == Failed(r, lost)
    && took !! lost && took <= now.matching && lost <= r.matching
    && Took(tried, accepts) == took
    && multiset(tried) == multiset(took + lost)
  }

  lemma TallyStart(r: Regions, accepts: nat -> bool, sent: map<Pipe, seq<Frame>>, f: Frame)
    ensures Tally(r, r, {}, {}, [], accepts) && Delivered(sent, sent, {}, f)
  {
    assert Failed(r, {}) == r;
  }

  lemma TallyTook(r: Regions, now: Regions, took: set<Pipe>, lost: set<Pipe>, tried: seq<Pipe>, accepts: nat -> bool,
                  p: Pipe)
    requires Tally(r, now, took, lost, tried, accepts) && p in now.matching - took && accepts(|tried|)
    ensures Tally(r, now, took + {p}, lost, tried + [p], accepts)
  {
    TookNext(tried, accepts, p);
    hide Took;
    Counting(took + lost, p);
    assert took + {p} + lost == took + lost + {p};
  }

  lemma TallyLost(r: Regions, now: Regions, took: set<Pipe>, lost: set<Pipe>, tried: seq<Pipe>, accepts: nat -> bool,
                  p: Pipe)
    requires Tally(r, now, took, lost, tried, accepts) && p in now.matching - took && !accepts(|tried|)
    ensures Tally(r, Failed(now, {p}), took, lost + {p}, tried + [p], accepts)
    ensures |lost + {p}| == |lost| + 1
  {
    TookNext(tried, accepts, p);
    hide Took;
    Counting(took + lost, p);
    assert took + (lost + {p}) == took + lost + {p};
    assert Failed(now, {p}) == Failed(r, lost + {p}) by {
      FailedTwice(r, lost, p);
    }
  }

  lemma FailedTwice(r: Regions, lost: set<Pipe>, p: Pipe)
    ensures Failed(Failed(r, lost), {p}) == Failed(r, lost + {p})
  {
    forall s: set<Pipe> ensures s - lost - {p} == s - (lost + {p}) {
    }
  }

  lemma Counting(s: set<Pipe>, p: Pipe)
    requires p !in s
    ensures multiset(s + {p}) == multiset(s) + multiset{p} && |s + {p}| == |s| + 1
  {
  }

  lemma TallyEnd(r: Regions, now: Regions, took: set<Pipe>, lost: set<Pipe>, tried: seq<Pipe>, accepts: nat -> bool)
    requires Tally(r, now, took, lost, tried, accepts) && took == now.matching
    ensures multiset(tried) == multiset(r.matching)
    ensures took == Took(tried, accepts) && lost == r.matching - took && now == Failed(r, r.matching - took)
    ensures |lost| == |r.matching| - |took|
  {
    hide Took;
    assert r.matching == took + lost;
    assert |took + lost| == |took| + |lost|;
  }

  lemma DeliveredNext(was: map<Pipe, seq<Frame>>, mid: map<Pipe, seq<Frame>>, now: map<Pipe, seq<Frame>>,
                      took: set<Pipe>, p: Pipe, ok: bool, f: Frame)
    requires Delivered(was, mid, took, f) && p !in took
    requires Delivered(mid, now, if ok then {p} else {}, f)
    ensures Delivered(was, now, if ok then took + {p} else took, f)
  {
  }

  /** The pipes whose write succeeded. */
  ghost function Took(tried: seq<Pipe>, accepts: nat -> bool): set<Pipe> {
    set k | 0 <= k < |tried| && accepts(k) :: tried[k]
  }

  lemma TookNext(tried: seq<Pipe>, accepts: nat -> bool, p: Pipe)
    ensures Took(tried + [p], accepts) == Took(tried, accepts) + if accepts(|tried|) then {p} else {}
  {
    var next := tried + [p];
    forall q | q in Took(tried, accepts) ensures q in Took(next, accepts) {
      var k :| 0 <= k < |tried| && accepts(k) && tried[k] == q;
      assert next[k] == q;
    }
    assert next[|tried|] == p;
  }

  /** The pipes in `lost` became passive. */
  ghost function Failed(r: Regions, lost: set<Pipe>): Regions {
    r.(matching := r.matching - lost, active := r.active - lost, eligible := r.eligible - lost)
  }

  /** Exactly the pipes in `took` received the frame, once. */
  ghost predicate Delivered(was: map<Pipe, seq<Frame>>, now: map<Pipe, seq<Frame>>, took: set<Pipe>, f: Frame) {
    && now.Keys == was.Keys
    && forall p :: p in was ==> now[p] == was[p] + if p in took then [f] else []
  }
}