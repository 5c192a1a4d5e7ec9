/**
  Calls that the fair queue's other guarantees leave out: what a pipe's
  termination in the middle of a message does to the calls after it, and a pipe
  activated twice.
 */
module FairQueueCases {
  import opened IntrusiveArray
  import opened FairQueue

  /**
    A pipe goes away while a message is partly read; then the socket polls and
    receives.  The poll says that there is something to read in any case.  The
    receive gets the next part of the message iff `StaysCurrent`; otherwise it
    fails with nothing left to read, or aborts, or gets a part of another message.
   */
  method NextAfterTermination(fq: Fq, p: Pipe) returns (polled: bool, rc: int, f: Frame, from: Pipe)
    requires fq.Valid() && fq.more && p in fq.pipes.items
    modifies fq, fq.pipes
    ensures polled && rc in {0, -1, ABORT}
    ensures rc == 0 && Unmixed(fq.log) <==> old(fq.StaysCurrent(fq.pipes.index[p]))
    ensures rc == -1 <==> old(fq.active == 1 && fq.IsActive(p))
    ensures rc == -1 ==> fq.more && fq.active == 0
    ensures rc == ABORT <==>
            old(!fq.StaysCurrent(fq.pipes.index[p]) && fq.active > 1 && fq.queues[fq.Heir()] == [])
    ensures rc == 0 && !Unmixed(fq.log) ==> from == old(fq.Heir()) && fq.log == old(fq.log) + [(from, f)]
  {
    hide Whole, Ahead, Unmixed;
    var i := fq.pipes.index[p];
    fq.PipeTerminated(p);
    polled := fq.HasIn();
    rc, f, from := fq.Recvpipe();
  }

  // ---------------------------------------------------------------------
  // Each of the three happens

  /** Receiving from a current pipe that has something. */
  method Take(fq: Fq)
    requires fq.Valid() && fq.Readable()
    modifies fq, fq.pipes
    ensures fq.Valid() && fq.pipes.items == old(fq.pipes.items) && fq.active == old(fq.active)
    ensures var p := old(fq.pipes.items[fq.current]); var f := old(fq.queues)[p][0];
            && fq.queues == old(fq.queues)[p := old(fq.queues)[p][1..]] && fq.log == old(fq.log) + [(p, f)]
            && fq.more == f.more
            && fq.current == (if f.more then old(fq.current) else (old(fq.current) + 1) % fq.active)
  {
    hide Whole, Ahead, Unmixed;
    var rc, f, from := fq.Recvpipe();
    assert old(fq.queues)[from][0] == f && old(fq.queues)[from][1..] == fq.queues[from];
  }

  /** The partly read pipe is the only one: the poll is true and the receive finds nothing. */
  method SolePipe() returns (fq: Fq, polled: bool, rc: int)
    ensures polled && rc == -1 && fq.more && fq.active == 0
  {
    hide Ahead, Unmixed;
    fq := new Fq();
    fq.Attach(7, [Frame(true, 0, 0), Frame(false, 0, 1)]);
    Take(fq);
    var f, from;
    polled, rc, f, from := NextAfterTermination(fq, 7);
  }

  method ThreePipes(first: seq<Frame>) returns (fq: Fq)
    requires Whole(first)
    ensures fresh(fq) && fresh(fq.pipes) && fq.Valid() && !fq.more
    ensures fq.active == 3 && fq.current == 0 && |fq.pipes.items| >= 3
    ensures fq.pipes.items[0] == 1 && fq.pipes.items[1] == 2 && fq.pipes.items[2] == 3
    ensures fq.queues == map[1 := first, 2 := [Frame(false, 0, 0)], 3 := [Frame(true, 0, 0), Frame(false, 0, 1)]]
  {
    hide Ahead, Unmixed, Fq.Wait;
    fq := new Fq();
    fq.Attach(1, first);
    fq.Attach(2, [Frame(false, 0, 0)]);
    fq.Attach(3, [Frame(true, 0, 0), Frame(false, 0, 1)]);
  }

  /** Three pipes, the last one partly read. */
  method ThirdPartlyRead(first: seq<Frame>) returns (fq: Fq)
    requires Whole(first) && first != [] && !first[0].more
    ensures fresh(fq) && fresh(fq.pipes) && fq.Valid() && fq.more
    ensures fq.active == 3 && fq.current == 2 && |fq.pipes.items| >= 3
    ensures fq.pipes.items[0] == 1 && fq.pipes.items[1] == 2
    ensures 1 in fq.queues && fq.queues[1] == first[1..]
  {
    hide Whole, Ahead, Unmixed;
    fq := ThreePipes(first);
    Take(fq);
    Take(fq);
    Take(fq);
  }

  /** The second pipe goes, and a message of the first is read in the middle of the message of the third. */
  method MixedMessage() returns (fq: Fq, rc: int, from: Pipe)
    ensures rc == 0 && from == 1 && !Unmixed(fq.log)
  {
    fq := ThirdPartlyRead([Frame(false, 0, 0), Frame(false, 0, 1)]);
    assert fq.pipes.index[fq.pipes.items[1]] == 1;
    hide Ahead, Unmixed;
    var polled, f;
    polled, rc, f, from := NextAfterTermination(fq, 2);
  }

  /** The same with nothing left in the first pipe: the poll is true and the receive aborts. */
  method AbortedReceive() returns (fq: Fq, polled: bool, rc: int)
    ensures polled && rc == ABORT
  {
    fq := ThirdPartlyRead([Frame(false, 0, 0)]);
    assert fq.pipes.index[fq.pipes.items[1]] == 1;
    hide Ahead, Unmixed;
    var f, from;
    polled, rc, f, from := NextAfterTermination(fq, 2);
  }

  // ---------------------------------------------------------------------

  /** A pipe that is active is activated: a passive one with nothing to read comes back instead. */
  method ActivatedTwice() returns (fq: Fq)
    ensures fq.Counted() && 1 in fq.queues && fq.queues[1] == [] && fq.IsActive(1) && fq.active == 2
  {
    hide Ahead, Unmixed;
    fq := new Fq();
    fq.Attach(1, []);
    fq.Deactivate();
    fq.Attach(2, [Frame(false, 0, 0)]);
    assert fq.pipes.items[0] == 2 && 1 in fq.pipes.items && !fq.IsActive(1);
    assert |fq.pipes.items| > 1 && fq.pipes.items[1] in fq.pipes.items && fq.pipes.items[1] != 2;
    fq.Activated(2);
  }
}
