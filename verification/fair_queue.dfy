/**
  fq_t of fq.cpp: round-robin over the active pipes, the empty ones being
  swapped out of the active part of the array.
 */
module FairQueue {
  import opened IntrusiveArray

  // An inbound message part.
  datatype Frame = Frame(more: bool, group: nat, body: nat)

  /** A pipe's writer flushes whole messages only. */
  predicate Whole(q: seq<Frame>) {
    q == [] || !q[|q| - 1].more
  }

  /** How many pipes are served before the one at `i`. */
  function Ahead(i: int, current: int, active: int): int {
    if current <= i then i - current else active - current + i
  }

  type Log = seq<(Pipe, Frame)>   // the frames fetched, each with its pipe

  /** The log ends inside a message. */
  predicate Mid(log: Log) {
    log != [] && log[|log| - 1].1.more
  }

  /** No part of another message follows a part with the more bit. */
  ghost predicate Unmixed(log: Log) {
    forall i :: 0 <= i < |log| - 1 && log[i].1.more ==> log[i + 1].0 == log[i].0
  }

  const ABORT := -2   // the result of a call that fails an assertion

  class Fq {
    const pipes: PipeArray
    var active: nat
    var current: nat
    var more: bool
    var lastIn: int                       // the pipe of the last whole message, or -1
    var queues: map<Pipe, seq<Frame>>     // what each pipe holds
    ghost var log: Log                    // the frames fetched so far

    ghost predicate Counted()
      reads this, pipes
    {
      && pipes.Valid()
      && active <= |pipes.items|
      && (if active == 0 then current == 0 else current < active)
      && (forall p :: p in pipes.items ==> p in queues && Whole(queues[p]))
      && (more <==> Mid(log))
    }

    /** The current pipe can be read. */
    predicate Readable()
      reads this, pipes
    {
      current < active <= |pipes.items| && pipes.items[current] in queues && queues[pipes.items[current]] != []
    }

    /** The next frame is one of the pipe of the last frame. */
    ghost predicate OnRest()
      reads this, pipes
    {
      Readable() && log != [] && pipes.items[current] == log[|log| - 1].0
    }

    /** While a message is partly read, `current` stays on its pipe, which has the rest of it. */
    ghost predicate Partial()
      reads this, pipes
    {
      more ==> OnRest()
    }

    ghost predicate Valid()
      reads this, pipes
    {
      Counted() && Partial() && Unmixed(log)
    }

    predicate IsActive(p: Pipe)
      reads this, pipes
    {
      p in pipes.items && p in pipes.index && pipes.index[p] < active
    }

    /** The cyclic distance from `current`. */
    ghost function Wait(p: Pipe): int
      requires IsActive(p)
      reads this, pipes
    {
      Ahead(pipes.index[p], current, active)
    }

    lemma WaitBound(p: Pipe)
      requires Counted() && IsActive(p)
      ensures 0 <= Wait(p) < active && (Wait(p) == 0 <==> pipes.items[current] == p)
    {
    }

    constructor ()
      ensures Valid() && fresh(pipes) && pipes.items == [] && active == 0 && !more && log == [] && queues == map[]
    {
      pipes := new PipeArray();
      active, current, more, lastIn := 0, 0, false, -1;
      queues, log := map[], [];
    }

    /** Lines 45-50. */
    method Attach(p: Pipe, q: seq<Frame>)
      requires Counted() && p !in pipes.items && Whole(q)
      modifies this, pipes
      ensures Counted() && (old(Valid()) ==> Valid()) && (more && old(OnRest()) ==> OnRest())
      ensures queues == old(queues)[p := q] && log == old(log) && more == old(more) && lastIn == old(lastIn)
      ensures active == old(active) + 1 && current == old(current) && pipes.items[old(active)] == p
      ensures forall i :: 0 <= i < old(active) ==> pipes.items[i] == old(pipes.items)[i]
      ensures forall r :: r in pipes.items <==> r in old(pipes.items) || r == p
      ensures forall r :: IsActive(r) <==> old(IsActive(r)) || r == p
      ensures forall r :: old(IsActive(r)) ==> r != p && Wait(r) <= old(Wait(r)) + 1
    {
      queues := queues[p := q];
      pipes.PushAt(p, active);
      active := active + 1;
    }

    /**
      Lines 71-76; the array must have a position `active`, as it does if the pipe
      is passive.  A pipe that was active lets the first passive one in instead.
     */
    method Activated(p: Pipe)
      requires Counted() && p in pipes.items && active < |pipes.items|
      modifies pipes, this`active
      ensures Counted() && active == old(active) + 1
      ensures forall r :: r in pipes.items <==> r in old(pipes.items)
      ensures forall r :: IsActive(r) <==>
                old(IsActive(r)) || r == if old(IsActive(p)) then old(pipes.items[active]) else p
      ensures (forall r :: IsActive(r) <==> old(IsActive(r)) || r == p) <==> !old(IsActive(p))
      ensures !old(IsActive(p)) ==> (old(Valid()) ==> Valid()) && (more && old(OnRest()) ==> OnRest())
      ensures !old(IsActive(p)) ==> forall r :: old(IsActive(r)) ==> Wait(r) <= old(Wait(r)) + 1
    {
      ghost var i, q := pipes.index[p], pipes.items[active];
      assert pipes.index[q] == active && q in pipes.items;
      pipes.Swap(pipes.index[p], active);
      active := active + 1;
      assert q in pipes.items && pipes.index[q] == i;
      if i < old(active) {
        assert IsActive(q) && !old(IsActive(q)) && q != p;
      }
    }

    /** More whole messages reach a pipe. */
    method Arrive(p: Pipe, q: seq<Frame>)
      requires Counted() && p in pipes.items && Whole(q)
      modifies this`queues
      ensures Counted() && (old(Valid()) ==> Valid()) && (more && old(OnRest()) ==> OnRest())
      ensures queues == old(queues)[p := old(queues)[p] + q]
    {
      queues := queues[p := queues[p] + q];
    }

    /** Lines 114-117 and 143-146: swap the empty current pipe out. */
    method Deactivate()
      requires Counted() && !more && active > 0 && queues[pipes.items[current]] == []
      modifies pipes, this`active, this`current
      ensures Counted() && active == old(active) - 1
      ensures forall r :: r in pipes.items <==> r in old(pipes.items)
      ensures forall r :: old(IsActive(r)) && queues[r] != [] ==> IsActive(r) && Wait(r) <= old(Wait(r))
      ensures forall r :: IsActive(r) ==> old(IsActive(r))
    {
      active := active - 1;
      pipes.Swap(current, active);
      if current == active {
        current := 0;
      }
    }

    /** Lines 83-126; the call aborts when the assertion in line 112 fails. */
    method Recvpipe() returns (rc: int, f: Frame, from: Pipe)
      requires Counted()
      modifies this, pipes
      ensures Counted() && (old(Valid()) ==> Valid()) && rc in {0, -1, ABORT}
      ensures forall r :: r in pipes.items <==> r in old(pipes.items)
      ensures rc == ABORT <==> old(more && active > 0 && !Readable())
      ensures rc == ABORT ==> pipes.items == old(pipes.items) && pipes.index == old(pipes.index)
      ensures rc == ABORT ==> active == old(active) && current == old(current)
      ensures rc == 0 ==> Partial() && TookFront(old(queues), old(log), f, from)
      ensures rc == 0 ==> old(IsActive(from)) && IsActive(from) && lastIn == (if f.more then old(lastIn) else from)
      ensures rc == 0 && old(more) ==> from == old(pipes.items[current])
      ensures rc == 0 ==> (Unmixed(log) <==> old(Unmixed(log)) && (old(more) ==> from == old(log)[|old(log)| - 1].0))
      ensures rc == 0 ==> forall r :: old(IsActive(r)) && old(queues)[r] != [] && r != from ==>
                IsActive(r) && Wait(r) <= old(Wait(r)) - (if f.more then 0 else 1)
      ensures old(Readable()) ==>
                && rc == 0 && from == old(pipes.items[current])
                && pipes.items == old(pipes.items) && active == old(active)
                && current == (if f.more then old(current) else (old(current) + 1) % active)
      ensures rc != 0 ==> queues == old(queues) && log == old(log) && more == old(more) && lastIn == old(lastIn)
      ensures rc == -1 ==> active == 0 && forall r :: old(IsActive(r)) ==> queues[r] == []
    {
      from := 0;
      while active > 0
        invariant Counted() && more == old(more) && queues == old(queues) && log == old(log) && lastIn == old(lastIn)
        invariant old(more || Readable()) ==>
          pipes.items == old(pipes.items) && pipes.index == old(pipes.index) && active == old(active)
          && current == old(current)
        invariant forall r :: r in pipes.items <==> r in old(pipes.items)
        invariant forall r :: old(IsActive(r)) && queues[r] != [] ==> IsActive(r) && Wait(r) <= old(Wait(r))
        invariant forall r :: IsActive(r) ==> old(IsActive(r))
        decreases active
      {
        from := pipes.items[current];
        if queues[from] != [] {
          f := Fetch();
          return 0, f, from;
        }
        if more {
          return ABORT, Frame(false, 0, 0), from;
        }
        Deactivate();
      }
      rc, f := -1, Frame(false, 0, 0);
    }

    /** `f` went from the front of the queue of `from` to the end of the log, and nothing else moved. */
    ghost predicate TookFront(was: map<Pipe, seq<Frame>>, before: Log, f: Frame, from: Pipe)
      reads this
    {
      && from in was && from in queues && was[from] == [f] + queues[from]
      && queues == was[from := queues[from]]
      && log == before + [(from, f)] && more == f.more
    }

    /** Lines 98-107: take the first frame of the current pipe. */
    method Fetch() returns (f: Frame)
      requires Counted() && Readable()
      modifies this
      ensures Counted() && Partial() && active == old(active)
      ensures TookFront(old(queues), old(log), f, pipes.items[old(current)])
      ensures lastIn == (if f.more then old(lastIn) else pipes.items[old(current)])
      ensures current == (if f.more then old(current) else (old(current) + 1) % active)
      ensures Unmixed(log) <==>
              old(Unmixed(log)) && (old(more) ==> pipes.items[old(current)] == old(log)[|old(log)| - 1].0)
      ensures forall r :: IsActive(r) && pipes.items[old(current)] != r ==>
                Wait(r) <= old(Wait(r)) - (if f.more then 0 else 1)
    {
      var from := pipes.items[current];
      f := queues[from][0];
      queues := queues[from := queues[from][1..]];
      UnmixedNext(log, (from, f));
      log := log + [(from, f)];
      more := f.more;
      if !more {
        lastIn := from;
        NextSlot(current, active);
        current := (current + 1) % active;
      }
    }

    static lemma NextSlot(i: nat, n: nat)
      requires i < n
      ensures (i + 1) % n == if i + 1 == n then 0 else i + 1
    {
    }

    static lemma UnmixedNext(log: Log, e: (Pipe, Frame))
      ensures Unmixed(log + [e]) <==> Unmixed(log) && (Mid(log) ==> e.0 == log[|log| - 1].0)
    {
      var next := log + [e];
      assert forall i :: 0 <= i < |log| ==> next[i] == log[i];
      if Unmixed(next) {
        assert forall i :: 0 <= i < |log| - 1 && log[i].1.more ==> next[i + 1].0 == next[i].0;
        if Mid(log) {
          var i := |log| - 1;
          assert next[i].1.more && next[i + 1].0 == next[i].0;
        }
      }
    }

    /** Lines 128-150. */
    method HasIn() returns (r: bool)
      requires Counted()
      modifies pipes, this`active, this`current
      ensures Counted() && (old(Valid()) ==> Valid()) && (more && old(OnRest()) ==> OnRest())
      ensures forall p :: p in pipes.items <==> p in old(pipes.items)
      ensures more ==> r && pipes.items == old(pipes.items) && active == old(active) && current == old(current)
      ensures !more && r ==> Readable()
      ensures !r ==> active == 0 && forall p :: old(IsActive(p)) ==> queues[p] == []
      ensures forall p :: old(IsActive(p)) && queues[p] != [] ==> IsActive(p) && Wait(p) <= old(Wait(p))
    {
      if more {
        return true;
      }
      while active > 0
        invariant Counted()
        invariant forall p :: p in pipes.items <==> p in old(pipes.items)
        invariant forall p :: old(IsActive(p)) && queues[p] != [] ==> IsActive(p) && Wait(p) <= old(Wait(p))
        decreases active
      {
        if queues[pipes.items[current]] != [] {
          return true;
        }
        Deactivate();
      }
      return false;
    }

    /** Whether the partly read pipe is still current once the pipe at `i` is gone. */
    predicate StaysCurrent(i: nat)
      reads this
    {
      i >= active || (i != current && (current != active - 1 || i == 0))
    }

    /** The pipe that is current after such a termination, when it is another one. */
    ghost function Heir(): Pipe
      requires 1 < active <= |pipes.items|
      reads this, pipes
    {
      if current == active - 1 then pipes.items[0] else pipes.items[active - 1]
    }

    /** Lines 52-69. */
    method PipeTerminated(p: Pipe)
      requires Counted() && p in pipes.items
      modifies this, pipes
      ensures Counted() && more == old(more) && log == old(log) && queues == old(queues)
      ensures forall r :: r in pipes.items <==> r in old(pipes.items) && r != p
      ensures forall r :: IsActive(r) <==> old(IsActive(r)) && r != p
      ensures active == old(active) - if old(pipes.index[p] < active) then 1 else 0
      ensures old(OnRest()) ==> (OnRest() <==> old(StaysCurrent(pipes.index[p])))
      ensures active > 0 && !old(StaysCurrent(pipes.index[p])) ==> pipes.items[current] == old(Heir())
      ensures lastIn == if old(lastIn) == p then -1 else old(lastIn)
    {
      var i := pipes.index[p];
      if i < active {
        SwapOut(p, i);
      }
      Drop(p);
      if lastIn == p {
        lastIn := -1;
      }
    }

    /** Lines 58-63. */
    method SwapOut(p: Pipe, i: nat)
      requires Counted() && p in pipes.items && pipes.index[p] == i < active
      modifies pipes, this`active, this`current
      ensures Counted() && p in pipes.items && pipes.index[p] == active == old(active) - 1
      ensures forall r :: r in pipes.items <==> r in old(pipes.items)
      ensures forall r :: IsActive(r) <==> old(IsActive(r)) && r != p
      ensures active > 0 && pipes.items[current] == old(pipes.items[current]) <==> old(StaysCurrent(i))
      ensures active > 0 && !old(StaysCurrent(i)) ==> pipes.items[current] == old(Heir())
    {
      active := active - 1;
      pipes.Swap(i, active);
      if current == active {
        current := 0;
      }
    }

    /** Line 64: the pipe is not active any more. */
    method Drop(p: Pipe)
      requires Counted() && p in pipes.items && pipes.index[p] >= active
      modifies pipes
      ensures Counted() && p !in pipes.items
      ensures forall r :: r in pipes.items <==> r in old(pipes.items) && r != p
      ensures forall r :: IsActive(r) <==> old(IsActive(r))
      ensures active > 0 ==> pipes.items[current] == old(pipes.items[current])
    {
      ghost var at := if active > 0 then pipes.items[current] else p;
      pipes.Erase(p);
      assert active > 0 ==> at in pipes.items && pipes.index[at] == current;
    }
  }
}
