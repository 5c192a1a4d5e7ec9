/**
  Calls outside the distributor's rules: matching in mid-message, and activating a
  pipe that is not passive.
 */
module DistributorCases {
  import opened IntrusiveArray
  import opened Distributor
  import opened DistributorRuns

  /** One pipe has the first part of a message. */
  method FirstPart() returns (d: Dist)
    ensures fresh(d) && fresh(d.pipes) && d.Valid()
    ensures d.State() == Regions({1}, {1}, {1}, {1}, true) && d.sent == map[1 := [Frame(0, 0, true)]]
  {
    hide Sent, Accepted, Took;
    d := new Dist();
    d.Attach(1);
    var f := Frame(0, 0, true);
    ghost var r, was := d.State(), d.sent;
    var refs, tried := d.SendToAll(f, true, _ => true);
    ghost var mid :| Sent(ToAll(r), mid, was, d.sent, f, tried, _ => true) && d.State() == Closing(mid, f);
    TookAll(ToAll(r), mid, was, d.sent, f, tried, _ => true);
    assert was[1] + [f] == [f];
  }

  /** Another has just been attached. */
  method MidMessage() returns (d: Dist)
    ensures fresh(d) && fresh(d.pipes) && d.Valid()
    ensures d.State() == Regions({1, 2}, {1, 2}, {1}, {1}, true)
    ensures d.sent == map[1 := [Frame(0, 0, true)], 2 := []]
  {
    d := FirstPart();
    d.Attach(2);
  }

  /** The new pipe is matched: the regions are not what they should be. */
  method MatchInMidMessage() returns (d: Dist, ghost was: Regions)
    ensures was == Regions({1, 2}, {1, 2}, {1}, {1}, true)
    ensures d.pipes.Valid() && !(d.Valid() && d.State() == Matching(was, 2))
  {
    d := MidMessage();
    was := d.State();
    d.Match(2);
  }

  /** And it gets the second part of the message without the first. */
  method PartWithoutFirst() returns (d: Dist)
    ensures 2 in d.sent && d.sent[2] == [Frame(0, 1, false)] && !Atomic(d.sent[2])
  {
    d := MidMessage();
    d.Match(2);
    ghost var r, was := d.State(), d.sent;
    var f := Frame(0, 1, false);
    var refs, tried := d.SendToMatching(f, true, _ => true);
    ghost var mid :| Sent(r, mid, was, d.sent, f, tried, _ => true) && d.State() == Closing(mid, f);
    TookAll(r, mid, was, d.sent, f, tried, _ => true);
    assert d.sent[2] == [] + [f];
    AtomicIff([], f);
  }

  method ReverseMatchInMidMessage() returns (d: Dist, ghost was: Regions)
    ensures was == Regions({1, 2}, {1, 2}, {1}, {1}, true)
    ensures d.pipes.Valid() && !(d.Valid() && d.State() == Reversed(was))
  {
    d := MidMessage();
    was := d.State();
    d.StateNested();
    d.ReverseMatch();
  }

  /** Two pipes, one of which refused a frame; the other is activated, and the one that refused comes back. */
  method ActivatedEligible() returns (d: Dist, p: Pipe, ghost was: Regions)
    ensures d.Valid() && p in was.eligible && was.eligible < was.all && d.State() != Activating(was, p)
  {
    d := new Dist();
    d.Attach(1);
    d.Attach(2);
    ghost var r, before := d.State(), d.sent;
    var f, accepts := Frame(0, 0, false), (k: nat) => k == 0;
    var refs, tried := d.SendToAll(f, true, accepts);
    ghost var mid :| Sent(ToAll(r), mid, before, d.sent, f, tried, accepts) && d.State() == Closing(mid, f);
    assert |tried| == |multiset(tried)| == 2;
    assert tried[0] in multiset(tried) && tried[1] in multiset(tried);
    p := tried[0];
    was := d.State();
    assert p in Took(tried, accepts);
    Refuser(tried, accepts);
    d.Activated(p);
  }

  lemma Refuser(tried: seq<Pipe>, accepts: nat -> bool)
    requires |tried| == 2 && multiset(tried) == multiset({1, 2}) && forall k :: accepts(k) <==> k == 0
    ensures Took(tried, accepts) == {tried[0]} && tried[0] != tried[1] && {tried[0], tried[1]} == {1, 2}
  {
    assert tried == [tried[0], tried[1]];
    assert tried[0] in multiset(tried) && tried[1] in multiset(tried);
  }
}
