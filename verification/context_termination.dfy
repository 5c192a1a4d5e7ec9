/**
  terminate as a whole: the sockets it makes bind the addresses of the pending
  inproc connections while other threads go on connecting, binding and unbinding,
  and what is pending afterwards is what the rest of it finds.
 */
module ContextTermination {
  import C = Context
  import R = Rendezvous

  /** The connections in the queue, each with the socket that asked for it. */
  function Waiting(q: R.Queue, owner: R.Conn -> C.SocketId): map<C.Conn, C.SocketId> {
    map e | e in q :: e.1 := owner(e.1)
  }

  /** A step of a socket that was there before, not one of terminate's own. */
  predicate Foreign(c: R.Command, first: C.SocketId, sockets: set<C.SocketId>, owner: R.Conn -> C.SocketId) {
    match c
    case Pend(_, k) => owner(k) in sockets
    case _ => c.s < first
  }

  // ---------------------------------------------------------------------
  // The binds, on values

  /** From `v0` to `v` nothing was lost, and the connections in `tried` are made or in the hands of a binder. */
  ghost predicate Along(v0: R.Snapshot, v: R.Snapshot, tried: R.Queue) {
    && R.Inv(v) && (forall k :: R.Keeps(v0, v, k))
    && forall e :: e in tried ==> R.InHand(v, e)
  }

  lemma AlongStart(v0: R.Snapshot)
    requires R.Inv(v0)
    ensures Along(v0, v0, [])
  {
  }

  lemma AlongStep(v0: R.Snapshot, v: R.Snapshot, c: R.Command, v': R.Snapshot, tried: R.Queue)
    requires Along(v0, v, tried) && R.Allowed(v, c) && R.Next(v, c, v')
    ensures Along(v0, v', tried)
  {
    hide R.Inv, R.Allowed, R.Next, R.InHand;
    R.NextInv(v, c, v');
    forall k ensures R.Keeps(v0, v', k) {
      R.NextKeeps(v, c, v', k);
      assert R.Keeps(v0, v, k);
    }
    forall e | e in tried ensures R.InHand(v', e) {
      R.NextInHand(v, c, v', e);
    }
  }

  /** A pending connection is made or pending still. */
  lemma Wanted(v0: R.Snapshot, v: R.Snapshot, tried: R.Queue, e: (R.Addr, R.Conn))
    requires R.Inv(v0) && Along(v0, v, tried) && e in v0.pending
    ensures e.1 in v.connected || e in v.pending
  {
    var i :| 0 <= i < |v0.pending| && v0.pending[i] == e;
    assert R.Waits(v0.pending[i], v0.connected, v0.requested);
    assert R.Keeps(v0, v, e.1);
  }

  lemma AlongRegister(v0: R.Snapshot, v: R.Snapshot, s: R.SocketId, v': R.Snapshot, tried: R.Queue, e: (R.Addr, R.Conn))
    requires R.Inv(v0) && Along(v0, v, tried) && e in v0.pending
    requires R.Allowed(v, R.Register(e.0, s)) && R.Next(v, R.Register(e.0, s), v')
    ensures Along(v0, v', tried + [e])
  {
    Wanted(v0, v, tried, e);
    AlongStep(v0, v, R.Register(e.0, s), v', tried);
    hide R.Inv;
    assert R.InHand(v', e);
  }

  /** What is left once every pending connection was tried and no socket from `first` on is in mid-bind. */
  lemma Left(v0: R.Snapshot, v: R.Snapshot, first: C.SocketId)
    requires R.Inv(v0) && Along(v0, v, v0.pending) && forall s :: s in v.binding ==> s < first
    ensures forall e :: e in v0.pending ==>
              e.1 in v.connected || (R.MidBind(v, e.0) && v.endpoints[e.0] < first)
    ensures forall e :: e in v.pending && !R.MidBind(v, e.0) ==> e.1 !in v0.requested && e.0 !in v.endpoints
  {
    forall e | e in v0.pending && e.1 !in v.connected ensures R.MidBind(v, e.0) {
      assert R.InHand(v, e);
      R.MissedMidBind(v, e);
    }
    forall e | e in v.pending && !R.MidBind(v, e.0) ensures e.1 !in v0.requested && e.0 !in v.endpoints {
      LeftOver(v0, v, e);
    }
  }

  lemma LeftOver(v0: R.Snapshot, v: R.Snapshot, e: (R.Addr, R.Conn))
    requires R.Inv(v0) && Along(v0, v, v0.pending) && e in v.pending && !R.MidBind(v, e.0)
    ensures e.1 !in v0.requested && e.0 !in v.endpoints
  {
    if e.0 in v.endpoints {
      R.MissedMidBind(v, e);
    }
    var i :| 0 <= i < |v.pending| && v.pending[i] == e;
    assert R.Waits(v.pending[i], v.connected, v.requested);
    assert R.Keeps(v0, v, e.1);
  }

  // ---------------------------------------------------------------------
  // The same in place

  /** Steps of other threads' sockets, those that are not possible being skipped. */
  method Others(e: R.Endpoints, steps: seq<R.Command>, first: C.SocketId, sockets: set<C.SocketId>,
                owner: R.Conn -> C.SocketId, ghost v0: R.Snapshot, ghost tried: R.Queue)
    requires e.Valid() && Along(v0, R.View(e), tried) && OwnedBy(e.pending, sockets, owner)
    requires forall j :: 0 <= j < |steps| ==> Foreign(steps[j], first, sockets, owner)
    modifies e
    ensures e.Valid() && Along(v0, R.View(e), tried) && OwnedBy(e.pending, sockets, owner)
    ensures forall s :: s in e.binding && s >= first ==> s in old(e.binding) && e.binding[s] == old(e.binding)[s]
    ensures forall s :: s in old(e.binding) && s >= first ==> s in e.binding
  {
    hide Along;
    for i := 0 to |steps|
      invariant e.Valid() && Along(v0, R.View(e), tried) && OwnedBy(e.pending, sockets, owner)
      invariant forall s :: s in e.binding && s >= first ==> s in old(e.binding) && e.binding[s] == old(e.binding)[s]
      invariant forall s :: s in old(e.binding) && s >= first ==> s in e.binding
    {
      if Possible(e, steps[i]) {
        ghost var v := R.View(e);
        R.Perform(e, steps[i]);
        AlongStep(v0, v, steps[i], R.View(e), tried);
        OwnedNext(v, steps[i], R.View(e), first, sockets, owner);
      }
    }
  }

  ghost predicate OwnedBy(q: R.Queue, sockets: set<C.SocketId>, owner: R.Conn -> C.SocketId) {
    forall e :: e in q ==> owner(e.1) in sockets
  }

  lemma OwnedNext(v: R.Snapshot, c: R.Command, v': R.Snapshot, first: C.SocketId, sockets: set<C.SocketId>,
                  owner: R.Conn -> C.SocketId)
    requires R.Next(v, c, v') && Foreign(c, first, sockets, owner) && OwnedBy(v.pending, sockets, owner)
    ensures OwnedBy(v'.pending, sockets, owner)
  {
  }

  predicate Possible(e: R.Endpoints, c: R.Command)
    reads e
  {
    match c
    case Register(_, s) => s !in e.binding
    case Connect(s) => s in e.binding
    case Unregister(_, s) => s !in e.binding
    case UnregisterAll(s) => s !in e.binding
    case Pend(_, k) => k !in e.requested
  }

  /** Lines 163-173: one bind for each pending connection, other threads running before and within each of them. */
  method BindAll(e: R.Endpoints, first: C.SocketId, sockets: set<C.SocketId>, owner: R.Conn -> C.SocketId,
                 others: nat -> seq<R.Command>)
    requires e.Valid() && OwnedBy(e.pending, sockets, owner) && forall s :: s in e.binding ==> s < first
    requires forall i, j :: 0 <= j < |others(i)| ==> Foreign(others(i)[j], first, sockets, owner)
    modifies e
    ensures e.Valid() && Along(old(R.View(e)), R.View(e), old(e.pending)) && OwnedBy(e.pending, sockets, owner)
    ensures forall s :: s in e.binding ==> s < first
  {
    hide Along;
    ghost var v0 := R.View(e);
    var copy := e.pending;
    AlongStart(v0);
    for i := 0 to |copy|
      invariant e.Valid() && Along(v0, R.View(e), copy[..i]) && OwnedBy(e.pending, sockets, owner)
      invariant forall s :: s in e.binding ==> s < first
    {
      Others(e, others(2 * i), first, sockets, owner, v0, copy[..i]);
      var s := first + i;
      BindOne(e, s, first, sockets, owner, others(2 * i + 1), v0, copy[..i], copy[i]);
      assert copy[..i] + [copy[i]] == copy[..i + 1];
    }
    assert copy[..|copy|] == copy;
  }

  /** socket_base.cpp, lines 555-564: register, then connect what is pending; other threads run in between. */
  method BindOne(e: R.Endpoints, s: C.SocketId, first: C.SocketId, sockets: set<C.SocketId>,
                 owner: R.Conn -> C.SocketId, others: seq<R.Command>,
                 ghost v0: R.Snapshot, ghost tried: R.Queue, x: (R.Addr, R.Conn))
    requires e.Valid() && R.Inv(v0) && Along(v0, R.View(e), tried) && x in v0.pending && first <= s
    requires OwnedBy(e.pending, sockets, owner) && forall t :: t in e.binding ==> t < first
    requires forall j :: 0 <= j < |others| ==> Foreign(others[j], first, sockets, owner)
    modifies e
    ensures e.Valid() && Along(v0, R.View(e), tried + [x]) && OwnedBy(e.pending, sockets, owner)
    ensures forall t :: t in e.binding ==> t < first
  {
    hide Along, R.Once, R.Split;
    ghost var v := R.View(e);
    R.Perform(e, R.Register(x.0, s));
    AlongRegister(v0, v, s, R.View(e), tried, x);
    Others(e, others, first, sockets, owner, v0, tried + [x]);
    if s in e.binding {
      v := R.View(e);
      R.Perform(e, R.Connect(s));
      AlongStep(v0, v, R.Connect(s), R.View(e), tried + [x]);
      OwnedConnect(v, s, R.View(e), sockets, owner);
    }
  }

  lemma OwnedConnect(v: R.Snapshot, s: C.SocketId, v': R.Snapshot, sockets: set<C.SocketId>,
                     owner: R.Conn -> C.SocketId)
    requires R.Next(v, R.Connect(s), v') && OwnedBy(v.pending, sockets, owner)
    ensures OwnedBy(v'.pending, sockets, owner)
  {
  }

  /** What the binds achieve, from one state of the endpoints to another. */
  ghost predicate Bound(v0: R.Snapshot, v: R.Snapshot, first: C.SocketId) {
    && (forall x :: x in v0.pending ==> x.1 in v.connected || (R.MidBind(v, x.0) && v.endpoints[x.0] < first))
    && forall x :: x in v.pending && !R.MidBind(v, x.0) ==> x.1 !in v0.requested && x.0 !in v.endpoints
  }

  method TerminateBinds(e: R.Endpoints, first: C.SocketId, sockets: set<C.SocketId>, owner: R.Conn -> C.SocketId,
                        others: nat -> seq<R.Command>) returns (left: map<C.Conn, C.SocketId>)
    requires e.Valid() && OwnedBy(e.pending, sockets, owner) && forall s :: s in e.binding ==> s < first
    requires forall i, j :: 0 <= j < |others(i)| ==> Foreign(others(i)[j], first, sockets, owner)
    modifies e
    ensures e.Valid() && Bound(old(R.View(e)), R.View(e), first)
    ensures left == Waiting(e.pending, owner) && forall k :: k in left ==> left[k] in sockets
  {
    hide Along, R.Once, R.MidBind;
    ghost var v0 := R.View(e);
    BindAll(e, first, sockets, owner, others);
    Left(v0, R.View(e), first);
    left := Waiting(e.pending, owner);
  }

  /**
    Lines 156-204, whatever other sockets do meanwhile: nothing of what was pending
    is pending afterwards but what another socket in mid-bind is about to connect;
    the rest was pended meanwhile at an address that is not bound.
   */
  method Terminate(c: C.Ctx, e: R.Endpoints, owner: R.Conn -> C.SocketId, made: nat -> bool,
                   others: nat -> seq<R.Command>) returns (ok: bool)
    requires c.Valid() && e.Valid() && c.pending == Waiting(e.pending, owner)
    requires forall s :: s in e.binding ==> s < c.nextId
    requires forall i, j :: 0 <= j < |others(i)| ==> Foreign(others(i)[j], c.nextId, c.sockets.Keys, owner)
    modifies c, e
    ensures ok <==> old(|e.pending| <= |c.emptySlots|) && forall i :: 0 <= i < old(|e.pending|) ==> made(i)
    ensures ok ==> c.Valid() && e.Valid() && c.pending == Waiting(e.pending, owner)
    ensures ok ==> C.View(c) == C.Terminating(old(C.View(c)), c.pending)
    ensures Bound(old(R.View(e)), R.View(e), old(c.nextId))
  {
    OneEach(e.pending, owner);
    OwnersLive(c, e.pending, owner);
    hide C.SlotsOk, R.Once, C.Terminating, Bound, Waiting, C.Stop;
    var left := TerminateBinds(e, c.nextId, c.sockets.Keys, owner, others);
    ok := c.TerminateBegin(left, made);
    assert ok ==> c.pending == left by {
      TerminatingPending(old(C.View(c)), left);
    }
  }

  lemma TerminatingPending(s: C.Snapshot, left: map<C.Conn, C.SocketId>)
    ensures C.Terminating(s, left).pending == left
  {
  }

  /** One socket is made for each entry of the queue. */
  lemma {:induction false} OneEach(q: R.Queue, owner: R.Conn -> C.SocketId)
    requires forall i, j :: 0 <= i < j < |q| ==> q[i].1 != q[j].1
    ensures |Waiting(q, owner)| == |q|
  {
    hide Waiting;
    if q == [] {
      WaitingNone(owner);
    } else {
      var init, last := q[..|q| - 1], q[|q| - 1];
      OneEach(init, owner);
      WaitingSnoc(init, last, owner);
      assert q == init + [last];
      assert last.1 !in Waiting(init, owner).Keys;
      assert |Waiting(q, owner)| == |Waiting(q, owner).Keys| && |Waiting(init, owner)| == |Waiting(init, owner).Keys|;
    }
  }

  lemma {:induction false} WaitingNone(owner: R.Conn -> C.SocketId)
    ensures Waiting([], owner) == map[]
  {
  }

  lemma {:induction false} WaitingSnoc(init: R.Queue, last: (R.Addr, R.Conn), owner: R.Conn -> C.SocketId)
    ensures Waiting(init + [last], owner).Keys == Waiting(init, owner).Keys + {last.1}
    ensures (forall i :: 0 <= i < |init| ==> init[i].1 != last.1) ==> last.1 !in Waiting(init, owner)
  {
    forall k ensures k in Waiting(init + [last], owner).Keys <==> k in Waiting(init, owner).Keys || k == last.1 {
      InWaiting(init + [last], owner, k);
      InWaiting(init, owner, k);
    }
    InWaiting(init, owner, last.1);
  }

  lemma {:induction false} InWaiting(q: R.Queue, owner: R.Conn -> C.SocketId, k: R.Conn)
    ensures k in Waiting(q, owner) <==> exists i :: 0 <= i < |q| && q[i].1 == k
  {
    if k in Waiting(q, owner) {
      var e :| e in q && e.1 == k;
    }
    if i :| 0 <= i < |q| && q[i].1 == k {
      assert q[i] in q;
    }
  }

  lemma OwnersLive(c: C.Ctx, q: R.Queue, owner: R.Conn -> C.SocketId)
    requires c.Valid() && c.pending == Waiting(q, owner)
    ensures OwnedBy(q, c.sockets.Keys, owner)
  {
    forall x | x in q ensures owner(x.1) in c.sockets.Keys {
      assert x.1 in c.pending && c.pending[x.1] == owner(x.1);
    }
  }
}
