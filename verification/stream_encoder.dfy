/**
  encoder_base_t of encoder.hpp: the driver that runs the steps of a message and
  hands their data out in buffers of any size.  The derived class is an
  arbitrary machine.
 */
module StreamEncoder {
  import opened Wrappers
  import opened Bytes

  // What a step leaves behind: the next state, the data to write, the end-of-message flag.
  datatype Outcome<S> = Outcome(state: S, data: seq<Byte>, newMsg: bool)

  // The derived class: the step for a state and the message in progress.
  datatype Machine<!S, !M> = Machine(step: (S, M) -> Outcome<S>, rank: S -> nat)

  /** A message has finitely many steps. */
  ghost predicate Legal<S(!new), M(!new)>(m: Machine<S, M>) {
    forall s, msg :: !m.step(s, msg).newMsg ==> m.rank(m.step(s, msg).state) < m.rank(s)
  }

  /** The data of the steps still to run for a message. */
  ghost function Stream<S(!new), M(!new)>(m: Machine<S, M>, s: S, msg: M): seq<Byte>
    requires Legal(m)
    decreases m.rank(s)
  {
    var o := m.step(s, msg);
    if o.newMsg then o.data else o.data + Stream(m, o.state, msg)
  }

  /** The state the last step of a message leaves. */
  ghost function Final<S(!new), M(!new)>(m: Machine<S, M>, s: S, msg: M): S
    requires Legal(m)
    decreases m.rank(s)
  {
    var o := m.step(s, msg);
    if o.newMsg then o.state else Final(m, o.state, msg)
  }

  class Encoder<S(!new), M(!new)> {
    const machine: Machine<S, M>
    const bufSize: nat
    var state: S
    var toWrite: seq<Byte>
    var newMsg: bool
    var inProgress: Option<M>
    ghost var released: seq<M>   // the messages closed so far

    ghost predicate Valid()
      reads this
    {
      Legal(machine) && (inProgress.None? ==> toWrite == [])
    }

    /** What is still to be handed out for the message in progress. */
    ghost function Rest(): seq<Byte>
      requires Legal(machine)
      reads this
    {
      if inProgress.None? then []
      else if newMsg then toWrite
      else toWrite + Stream(machine, state, inProgress.value)
    }

    /** The state once the message in progress is finished. */
    ghost function End(): S
      requires Legal(machine)
      reads this
    {
      if inProgress.None? || newMsg then state else Final(machine, state, inProgress.value)
    }

    constructor (machine: Machine<S, M>, state: S, bufSize: nat)
      requires Legal(machine)
      ensures Valid() && this.machine == machine && this.bufSize == bufSize
      ensures this.state == state && inProgress.None? && released == []
    {
      this.machine, this.bufSize := machine, bufSize;
      this.state, this.toWrite, this.newMsg := state, [], true;
      this.inProgress, this.released := None, [];
    }

    /** Lines 142-151 and 96: run the next step. */
    method Step()
      requires Legal(machine) && inProgress.Some? && toWrite == []
      modifies this
      ensures inProgress == old(inProgress) && released == old(released)
      ensures var o := machine.step(old(state), inProgress.value);
                state == o.state && toWrite == o.data && newMsg == o.newMsg
      ensures Rest() == Stream(machine, old(state), inProgress.value)
      ensures End() == Final(machine, old(state), inProgress.value)
    {
      var o := machine.step(state, inProgress.value);
      state, toWrite, newMsg := o.state, o.data, o.newMsg;
    }

    lemma AllOut()
      requires Valid() && inProgress.None?
      ensures Rest() == [] && End() == state
    {
    }

    /** These are the data one step writes. */
    ghost predicate StepData(s: S, msg: M, data: seq<Byte>) {
      data == machine.step(s, msg).data
    }

    /** The steps left before the end of the message. */
    ghost function StepsLeft(): nat
      reads this
    {
      if newMsg then 0 else 1 + machine.rank(state)
    }

    /** Lines 87-97: release the finished message, or run its next step. */
    method Refill() returns (done: bool)
      requires Valid() && inProgress.Some? && toWrite == []
      modifies this
      ensures Valid() && Rest() == old(Rest()) && End() == old(End())
      ensures done ==> inProgress.None? && released == old(released) + [old(inProgress).value]
      ensures !done ==> inProgress == old(inProgress) && released == old(released) && StepsLeft() < old(StepsLeft())
      ensures !done ==> toWrite == machine.step(old(state), inProgress.value).data
    {
      if newMsg {
        released := released + [inProgress.value];
        inProgress := None;
        return true;
      }
      Step();
      return false;
    }

    /** Lines 129-134. */
    method LoadMsg(msg: M)
      requires Valid() && inProgress.None?
      modifies this
      ensures Valid() && inProgress == Some(msg) && released == old(released)
      ensures Rest() == Stream(machine, old(state), msg)
      ensures End() == Final(machine, old(state), msg)
    {
      inProgress := Some(msg);
      Step();
    }

    /** Lines 110-112 and 118-122: hand out the next `n` bytes. */
    method Give(n: nat) returns (piece: seq<Byte>)
      requires Valid() && n <= |toWrite|
      modifies this`toWrite
      ensures Valid() && piece == old(toWrite)[..n] && toWrite == old(toWrite)[n..] && StepsLeft() == old(StepsLeft())
      ensures old(Rest()) == piece + Rest() && End() == old(End())
    {
      piece := toWrite[..n];
      assert toWrite == toWrite[..n] + toWrite[n..];
      toWrite := toWrite[n..];
    }

    /**
      Lines 74-127.  The data of a step go out as they are when the buffer is the
      encoder's own, still empty, and would be filled; otherwise the buffer is never
      overrun.
     */
    method Encode(supplied: bool, size: nat) returns (out: seq<Byte>, zeroCopy: bool)
      requires Valid()
      modifies this
      ensures Valid() && old(Rest()) == out + Rest() && End() == old(End())
      ensures inProgress.Some? ==> inProgress == old(inProgress) && released == old(released)
      ensures inProgress.Some? ==> |out| >= if supplied then size else bufSize
      ensures inProgress.None? ==>
                released == old(released) + if old(inProgress).Some? then [old(inProgress).value] else []
      ensures !zeroCopy ==> |out| <= if supplied then size else bufSize
      ensures zeroCopy ==>
                && !supplied && |out| >= bufSize && toWrite == [] && old(inProgress).Some?
                && (out == old(toWrite) || exists s :: StepData(s, old(inProgress).value, out))
    {
      hide Legal, Stream, Final, Rest, End, StepsLeft;
      var bufferSize := if supplied then size else bufSize;
      out, zeroCopy := [], false;
      if inProgress.None? {
        return;
      }
      ghost var msg, all, end := inProgress.value, Rest(), End();
      while |out| < bufferSize
        invariant inProgress == Some(msg) && released == old(released)
        invariant all == out + Rest() && End() == end
        invariant |out| <= bufferSize && (out == [] ==> all == Rest())
        invariant out == [] ==> toWrite == old(toWrite) || exists s :: StepData(s, msg, toWrite)
        decreases bufferSize - |out|, StepsLeft()
      {
        if toWrite == [] {
          ghost var s := state;
          var done := Refill();
          if done {
            break;
          }
          assert StepData(s, msg, toWrite);
        }
        if out == [] && !supplied && |toWrite| >= bufferSize {
          ghost var data := toWrite;
          var whole := Give(|toWrite|);
          assert whole == data && all == whole + Rest();
          return whole, true;
        }
        var n := if |toWrite| < bufferSize - |out| then |toWrite| else bufferSize - |out|;
        var piece := Give(n);
        out := out + piece;
      }
    }
  }

  /**
    One message through encode calls with any buffers: exactly the data of its
    steps comes out, and it is released once, when all of it is out.
   */
  method SendMessage<S(!new), M(!new)>(e: Encoder<S, M>, msg: M, supplied: nat -> bool, size: nat -> nat)
    returns (out: seq<Byte>)
    requires e.Valid() && e.inProgress.None? && e.bufSize > 0
    requires forall i :: size(i) > 0
    modifies e
    ensures e.Valid() && e.inProgress.None?
    ensures out == Stream(e.machine, old(e.state), msg) && e.state == Final(e.machine, old(e.state), msg)
    ensures e.released == old(e.released) + [msg]
  {
    hide Legal, Stream, Final, Encoder.Rest, Encoder.End, Encoder.StepData;
    e.LoadMsg(msg);
    ghost var all, end := e.Rest(), e.End();
    out := [];
    var calls := 0;
    while e.inProgress.Some?
      invariant e.Valid() && all == out + e.Rest() && e.End() == end
      invariant if e.inProgress.Some? then e.inProgress == Some(msg) && e.released == old(e.released)
                else e.released == old(e.released) + [msg]
      decreases e.inProgress.Some?, |e.Rest()|
    {
      var piece, _ := e.Encode(supplied(calls), size(calls));
      out := out + piece;
      calls := calls + 1;
    }
    e.AllOut();
  }
}
