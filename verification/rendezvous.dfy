/**
  The rendezvous of inproc binds and connects, lines 688-795 of ctx.cpp.  Each
  method holds the endpoints lock, so the methods are the atomic steps; a bind is
  two of them, register_endpoint and then connect_pending.
 */
module Rendezvous {
  type Addr = nat
  type SocketId = nat
  type Conn = nat        // one connect call: a connecting socket and its pair of pipes

  type Queue = seq<(Addr, Conn)>

  /** Every requested connection is pending once or connected once, never both. */
  ghost predicate Once(pending: Queue, connected: map<Conn, (Addr, SocketId)>, requested: map<Conn, Addr>) {
    && (forall i :: 0 <= i < |pending| ==> Waits(pending[i], connected, requested))
    && (forall i, j :: 0 <= i < j < |pending| ==> pending[i].1 != pending[j].1)
    && (forall c :: c in connected ==> c in requested && connected[c].0 == requested[c])
    && (forall c :: c in requested ==> c in connected || (requested[c], c) in pending)
  }

  ghost predicate Waits(e: (Addr, Conn), connected: map<Conn, (Addr, SocketId)>, requested: map<Conn, Addr>) {
    e.1 in requested && requested[e.1] == e.0 && e.1 !in connected
  }

  /** The entries of `was` at one address are connected to its binder, the others kept. */
  ghost predicate Split(was: Queue, before: map<Conn, (Addr, SocketId)>, kept: Queue,
                        after: map<Conn, (Addr, SocketId)>,
                        addr: Addr, s: SocketId)
  {
    && (forall e :: e in kept <==> e in was && e.0 != addr)
    && (forall j, k :: 0 <= j < k < |kept| ==> kept[j].1 != kept[k].1)
    && (forall c :: c in after <==> c in before || (addr, c) in was)
    && (forall c :: c in after ==> after[c] == if c in before then before[c] else (addr, s))
  }

  lemma SplitStart(was: Queue, before: map<Conn, (Addr, SocketId)>, addr: Addr, s: SocketId)
    ensures Split(was[..0], before, [], before, addr, s)
  {
  }

  lemma SplitNext(was: Queue, before: map<Conn, (Addr, SocketId)>, requested: map<Conn, Addr>, kept: Queue,
                  after: map<Conn, (Addr, SocketId)>, addr: Addr, s: SocketId, i: nat)
    requires Once(was, before, requested) && i < |was| && Split(was[..i], before, kept, after, addr, s)
    ensures was[i].0 == addr ==> Split(was[..i + 1], before, kept, after[was[i].1 := (addr, s)], addr, s)
    ensures was[i].0 != addr ==> Split(was[..i + 1], before, kept + [was[i]], after, addr, s)
  {
    assert was[..i + 1] == was[..i] + [was[i]];
    assert Waits(was[i], before, requested);
    if was[i].0 != addr {
      forall j | 0 <= j < |kept| ensures kept[j].1 != was[i].1 {
        assert kept[j] in was[..i];
      }
    }
    hide Once;
  }

  /** The entry about to be connected is not connected yet. */
  lemma NotYet(was: Queue, before: map<Conn, (Addr, SocketId)>, requested: map<Conn, Addr>, kept: Queue,
               after: map<Conn, (Addr, SocketId)>, addr: Addr, s: SocketId, i: nat)
    requires Once(was, before, requested) && i < |was| && Split(was[..i], before, kept, after, addr, s)
    ensures was[i].1 !in after
  {
    assert Waits(was[i], before, requested);
    assert forall e :: e in was[..i] ==> e.1 != was[i].1;
  }

  /** Connecting everything that waits at one address. */
  lemma ConnectOnce(was: Queue, before: map<Conn, (Addr, SocketId)>, requested: map<Conn, Addr>,
                    kept: Queue, after: map<Conn, (Addr, SocketId)>, addr: Addr, s: SocketId)
    requires Once(was, before, requested) && Split(was, before, kept, after, addr, s)
    ensures Once(kept, after, requested)
  {
    forall i | 0 <= i < |kept| ensures Waits(kept[i], after, requested) {
      assert kept[i] in was;
      var j :| 0 <= j < |was| && was[j] == kept[i];
      assert Waits(was[j], before, requested);
    }
    forall c | c in after ensures c in requested && after[c].0 == requested[c] {
      if c !in before {
        var j :| 0 <= j < |was| && was[j] == (addr, c);
        assert Waits(was[j], before, requested);
      }
    }
  }

  /** A binder in mid-bind owns its address. */
  ghost predicate Owners(endpoints: map<Addr, SocketId>, binding: map<SocketId, Addr>) {
    forall s :: s in binding ==> binding[s] in endpoints && endpoints[binding[s]] == s
  }

  /** Nothing waits at an address whose binder has finished. */
  ghost predicate NothingMissed(pending: Queue, endpoints: map<Addr, SocketId>, binding: map<SocketId, Addr>) {
    forall i :: 0 <= i < |pending| && pending[i].0 in endpoints ==>
      var s := endpoints[pending[i].0]; s in binding && binding[s] == pending[i].0
  }

  class Endpoints {
    var endpoints: map<Addr, SocketId>
    var pending: Queue
    var connected: map<Conn, (Addr, SocketId)>   // where, and to which binder
    var requested: map<Conn, Addr>
    var binding: map<SocketId, Addr>             // binders between their two steps

    ghost predicate OnceEach()
      reads this`pending, this`connected, this`requested
    {
      Once(pending, connected, requested)
    }

    ghost predicate Valid()
      reads this
    {
      OnceEach() && Owners(endpoints, binding) && NothingMissed(pending, endpoints, binding)
    }

    constructor ()
      ensures Valid() && endpoints == map[] && pending == [] && requested == map[] && binding == map[]
    {
      endpoints, pending, connected, requested, binding := map[], [], map[], map[], map[];
    }

    /** Lines 688-701, the first half of a bind. */
    method RegisterEndpoint(addr: Addr, s: SocketId) returns (ok: bool)
      requires Valid() && s !in binding
      modifies this`endpoints, this`binding
      ensures Valid() && (ok <==> addr !in old(endpoints))
      ensures endpoints == if ok then old(endpoints)[addr := s] else old(endpoints)
      ensures binding == if ok then old(binding)[s := addr] else old(binding)
    {
      if addr in endpoints {
        return false;
      }
      endpoints := endpoints[addr := s];
      binding := binding[s := addr];
      ok := true;
    }

    /** connect_inproc_sockets, lines 797-866: not to be called twice for one connection. */
    method ConnectInprocSockets(c: Conn, addr: Addr, s: SocketId)
      requires c !in connected
      modifies this`connected
      ensures connected == old(connected)[c := (addr, s)]
    {
      connected := connected[c := (addr, s)];
    }

    /** Lines 786-794: connect what waits at the address, keep the rest. */
    method ConnectAll(addr: Addr, s: SocketId)
      requires OnceEach()
      modifies this`pending, this`connected
      ensures OnceEach()
      ensures Split(old(pending), old(connected), pending, connected, addr, s)
    {
      hide Once, Split;
      var was := pending;
      var kept: Queue := [];
      SplitStart(was, connected, addr, s);
      var i := 0;
      while i < |was|
        invariant 0 <= i <= |was| && pending == was
        invariant Split(was[..i], old(connected), kept, connected, addr, s)
      {
        SplitNext(was, old(connected), requested, kept, connected, addr, s, i);
        if was[i].0 == addr {
          NotYet(was, old(connected), requested, kept, connected, addr, s, i);
          ConnectInprocSockets(was[i].1, addr, s);
        } else {
          kept := kept + [was[i]];
        }
        i := i + 1;
      }
      assert was[..i] == was;
      ConnectOnce(was, old(connected), requested, kept, connected, addr, s);
      pending := kept;
    }

    /** Lines 781-795, the second half. */
    method ConnectPending(s: SocketId)
      requires Valid() && s in binding
      modifies this`pending, this`connected, this`binding
      ensures Valid() && binding == old(binding) - {s}
      ensures Split(old(pending), old(connected), pending, connected, old(binding)[s], s)
      ensures var addr := old(binding)[s];
              && (forall e :: e in pending <==> e in old(pending) && e.0 != addr)
              && (forall c :: c in connected <==> c in old(connected) || (addr, c) in old(pending))
              && (forall c :: c in connected && c !in old(connected) ==> connected[c] == (addr, s))
              && (forall c :: c in old(connected) ==> c in connected && connected[c] == old(connected)[c])
    {
      hide OnceEach;
      var addr := binding[s];
      ConnectAll(addr, s);
      binding := binding - {s};
      forall i | 0 <= i < |pending| && pending[i].0 in endpoints
        ensures var t := endpoints[pending[i].0]; t in binding && binding[t] == pending[i].0
      {
        assert pending[i] in old(pending);
      }
    }

    /** Lines 703-718; a socket in mid-bind is not doing anything else. */
    method UnregisterEndpoint(addr: Addr, s: SocketId) returns (ok: bool)
      requires Valid() && s !in binding
      modifies this`endpoints
      ensures Valid() && (ok <==> addr in old(endpoints) && old(endpoints)[addr] == s)
      ensures endpoints == if ok then old(endpoints) - {addr} else old(endpoints)
    {
      if addr !in endpoints || endpoints[addr] != s {
        return false;
      }
      endpoints := endpoints - {addr};
      ok := true;
    }

    /** Lines 720-736. */
    method UnregisterEndpoints(s: SocketId)
      requires Valid() && s !in binding
      modifies this`endpoints
      ensures Valid()
      ensures endpoints == map a | a in old(endpoints) && old(endpoints)[a] != s :: old(endpoints)[a]
    {
      var rest := endpoints.Keys;
      while rest != {}
        invariant rest <= old(endpoints).Keys
        invariant endpoints == map a | a in old(endpoints) && (a in rest || old(endpoints)[a] != s) :: old(endpoints)[a]
        decreases |rest|
      {
        var a :| a in rest;
        if endpoints[a] == s {
          endpoints := endpoints - {a};
        }
        rest := rest - {a};
      }
    }

    /** Lines 759-779. */
    method PendConnection(addr: Addr, c: Conn)
      requires Valid() && c !in requested
      modifies this`pending, this`connected, this`requested
      ensures Valid() && requested == old(requested)[c := addr]
      ensures addr in endpoints ==> connected == old(connected)[c := (addr, endpoints[addr])] && pending == old(pending)
      ensures addr !in endpoints ==> connected == old(connected) && pending == old(pending) + [(addr, c)]
    {
      PendOnce(pending, connected, requested, addr, c, (addr, if addr in endpoints then endpoints[addr] else 0));
      assert c !in connected;
      hide Once;
      requested := requested[c := addr];
      if addr !in endpoints {
        pending := pending + [(addr, c)];
      } else {
        ConnectInprocSockets(c, addr, endpoints[addr]);
      }
    }
  }

  datatype Command =
    | Register(addr: Addr, s: SocketId) | Connect(s: SocketId)
    | Unregister(addr: Addr, s: SocketId) | UnregisterAll(s: SocketId)
    | Pend(addr: Addr, c: Conn)

  // ---------------------------------------------------------------------
  // Every interleaving of the sockets' steps

  datatype Snapshot = Snapshot(endpoints: map<Addr, SocketId>, pending: Queue, connected: map<Conn, (Addr, SocketId)>,
                               requested: map<Conn, Addr>, binding: map<SocketId, Addr>)

  const START := Snapshot(map[], [], map[], map[], map[])

  /** A socket in mid-bind does nothing else, and each connect call is one request. */
  ghost predicate Allowed(s: Snapshot, c: Command) {
    match c
    case Register(_, b) => b !in s.binding
    case Connect(b) => b in s.binding
    case Unregister(_, b) => b !in s.binding
    case UnregisterAll(b) => b !in s.binding
    case Pend(_, k) => k !in s.requested
  }

  ghost predicate Next(s: Snapshot, c: Command, t: Snapshot) {
    match c
    case Register(addr, b) =>
      t == if addr in s.endpoints then s else s.(endpoints := s.endpoints[addr := b], binding := s.binding[b := addr])
    case Connect(b) =>
      && b in s.binding && Split(s.pending, s.connected, t.pending, t.connected, s.binding[b], b)
      && t == s.(pending := t.pending, connected := t.connected, binding := s.binding - {b})
    case Unregister(addr, b) =>
      t == if addr in s.endpoints && s.endpoints[addr] == b then s.(endpoints := s.endpoints - {addr}) else s
    case UnregisterAll(b) =>
      t == s.(endpoints := map a | a in s.endpoints && s.endpoints[a] != b :: s.endpoints[a])
    case Pend(addr, k) =>
      if addr in s.endpoints then
        t == s.(requested := s.requested[k := addr], connected := s.connected[k := (addr, s.endpoints[addr])])
      else
        t == s.(requested := s.requested[k := addr], pending := s.pending + [(addr, k)])
  }

  ghost predicate IsRun(run: seq<Snapshot>, commands: seq<Command>) {
    && |run| == |commands| + 1 && run[0] == START
    && forall i :: 0 <= i < |commands| ==> Allowed(run[i], commands[i]) && Next(run[i], commands[i], run[i + 1])
  }

  ghost predicate Inv(s: Snapshot) {
    && Once(s.pending, s.connected, s.requested) && Owners(s.endpoints, s.binding)
    && NothingMissed(s.pending, s.endpoints, s.binding)
  }

  lemma ConnectInv(s: Snapshot, b: SocketId, t: Snapshot)
    requires Inv(s) && Allowed(s, Connect(b)) && Next(s, Connect(b), t)
    ensures Inv(t)
  {
    hide Once;
    ConnectOnce(s.pending, s.connected, s.requested, t.pending, t.connected, s.binding[b], b);
    forall i | 0 <= i < |t.pending| && t.pending[i].0 in t.endpoints
      ensures var x := t.endpoints[t.pending[i].0]; x in t.binding && t.binding[x] == t.pending[i].0
    {
      assert t.pending[i] in s.pending;
    }
  }

  lemma PendInv(s: Snapshot, addr: Addr, k: Conn, t: Snapshot)
    requires Inv(s) && Allowed(s, Pend(addr, k)) && Next(s, Pend(addr, k), t)
    ensures Inv(t)
  {
    var binder := if addr in s.endpoints then s.endpoints[addr] else 0;
    PendOnce(s.pending, s.connected, s.requested, addr, k, (addr, binder));
    hide Once;
  }

  lemma PendOnce(pending: Queue, connected: map<Conn, (Addr, SocketId)>, requested: map<Conn, Addr>,
                 addr: Addr, k: Conn, at: (Addr, SocketId))
    requires Once(pending, connected, requested) && k !in requested && at.0 == addr
    ensures Once(pending, connected[k := at], requested[k := addr])
    ensures Once(pending + [(addr, k)], connected, requested[k := addr])
  {
    assert forall i :: 0 <= i < |pending| ==> Waits(pending[i], connected, requested);
  }

  lemma NextInv(s: Snapshot, c: Command, t: Snapshot)
    requires Inv(s) && Allowed(s, c) && Next(s, c, t)
    ensures Inv(t)
  {
    if c.Connect? {
      hide Inv;
      ConnectInv(s, c.s, t);
    } else if c.Pend? {
      hide Inv;
      PendInv(s, c.addr, c.c, t);
    } else {
      hide Once;
    }
  }

  /** What is connected or requested stays so. */
  ghost predicate Keeps(s: Snapshot, t: Snapshot, k: Conn) {
    && (k in s.connected ==> k in t.connected && t.connected[k] == s.connected[k])
    && (k in s.requested ==> k in t.requested && t.requested[k] == s.requested[k])
  }

  lemma NextKeeps(s: Snapshot, c: Command, t: Snapshot, k: Conn)
    requires Inv(s) && Allowed(s, c) && Next(s, c, t)
    ensures Keeps(s, t, k)
  {
    assert k in s.connected ==> k in s.requested;
    hide Inv;
  }

  /**
    In every interleaving each requested connection is pending once or connected,
    and nothing waits at an address whose binder has finished.
   */
  lemma {:induction false} RunInv(run: seq<Snapshot>, commands: seq<Command>, i: nat)
    requires IsRun(run, commands) && i <= |commands|
    ensures Once(run[i].pending, run[i].connected, run[i].requested)
    ensures NothingMissed(run[i].pending, run[i].endpoints, run[i].binding)
    ensures Inv(run[i])
  {
    if i > 0 {
      RunInv(run, commands, i - 1);
      hide Next, Allowed, Once, NothingMissed;
      NextInv(run[i - 1], commands[i - 1], run[i]);
    }
  }

  /** A connection once made is never made again, and a request is never forgotten. */
  lemma {:induction false} ConnectedForGood(run: seq<Snapshot>, commands: seq<Command>, i: nat, j: nat, k: Conn)
    requires IsRun(run, commands) && i <= j <= |commands|
    ensures Keeps(run[i], run[j], k)
  {
    hide Inv, Next, Allowed;
    if i < j {
      ConnectedForGood(run, commands, i, j - 1, k);
      RunInv(run, commands, j - 1);
      NextKeeps(run[j - 1], commands[j - 1], run[j], k);
      hide IsRun;
    }
  }

  /** In every run a connection is made to the socket that is bound to its address at that time. */
  lemma MadeWithBinder(run: seq<Snapshot>, commands: seq<Command>, i: nat, k: Conn)
    requires IsRun(run, commands) && i < |commands| && k in run[i + 1].connected && k !in run[i].connected
    ensures k in run[i + 1].requested && run[i + 1].requested[k] in run[i].endpoints
    ensures run[i + 1].connected[k].0 == run[i + 1].requested[k]
    ensures run[i + 1].connected[k].1 == run[i].endpoints[run[i + 1].requested[k]]
  {
    RunInv(run, commands, i);
    RunInv(run, commands, i + 1);
    hide NothingMissed, IsRun;
  }

  // ---------------------------------------------------------------------
  // What terminate's binds achieve (lines 163-173)

  /** The binder of the address is between its two steps, the second of which is still to come. */
  ghost predicate MidBind(s: Snapshot, addr: Addr) {
    addr in s.endpoints && s.endpoints[addr] in s.binding && s.binding[s.endpoints[addr]] == addr
  }

  lemma MissedMidBind(s: Snapshot, e: (Addr, Conn))
    requires Inv(s) && e in s.pending && e.0 in s.endpoints
    ensures MidBind(s, e.0)
  {
    var i :| 0 <= i < |s.pending| && s.pending[i] == e;
    hide Once, Owners;
    assert s.pending[i].0 in s.endpoints;
  }

  /** Made, or waiting at an address that is being bound. */
  ghost predicate InHand(s: Snapshot, e: (Addr, Conn)) {
    e.1 in s.connected || (e in s.pending && e.0 in s.endpoints)
  }

  lemma NextInHand(s: Snapshot, c: Command, t: Snapshot, e: (Addr, Conn))
    requires Inv(s) && Allowed(s, c) && Next(s, c, t) && InHand(s, e)
    ensures InHand(t, e)
  {
    if e.1 in s.connected {
      NextKeeps(s, c, t, e.1);
      hide Inv, Next;
    } else {
      MissedMidBind(s, e);
      hide Once, NothingMissed;
      if c.Connect? {
        assert s.binding[c.s] == e.0 ==> c.s == s.endpoints[e.0];
      }
    }
  }

  lemma {:induction false} StaysInHand(run: seq<Snapshot>, commands: seq<Command>, i: nat, j: nat, e: (Addr, Conn))
    requires IsRun(run, commands) && i <= j <= |commands| && InHand(run[i], e)
    ensures InHand(run[j], e)
  {
    hide Next, Allowed, Inv, InHand;
    if i < j {
      StaysInHand(run, commands, i, j - 1, e);
      RunInv(run, commands, j - 1);
      NextInHand(run[j - 1], commands[j - 1], run[j], e);
    }
  }

  /** Once a bind at its address was tried, a connection is made, or the binder in charge is about to make it. */
  lemma TriedBind(run: seq<Snapshot>, commands: seq<Command>, i: nat, k: nat, j: nat, e: (Addr, Conn))
    requires IsRun(run, commands) && i <= k < j <= |commands| && e in run[i].pending
    requires commands[k].Register? && commands[k].addr == e.0
    ensures e.1 in run[j].connected || MidBind(run[j], e.0)
  {
    StillWanted(run, commands, i, k, e);
    RunInv(run, commands, k);
    NextKeeps(run[k], commands[k], run[k + 1], e.1);
    assert InHand(run[k + 1], e);
    StaysInHand(run, commands, k + 1, j, e);
    RunInv(run, commands, j);
    if e.1 !in run[j].connected {
      MissedMidBind(run[j], e);
    }
  }

  /** A pending connection is never dropped. */
  lemma StillWanted(run: seq<Snapshot>, commands: seq<Command>, i: nat, j: nat, e: (Addr, Conn))
    requires IsRun(run, commands) && i <= j <= |commands| && e in run[i].pending
    ensures e.1 in run[j].connected || e in run[j].pending
  {
    RunInv(run, commands, i);
    RunInv(run, commands, j);
    ConnectedForGood(run, commands, i, j, e.1);
    var x :| 0 <= x < |run[i].pending| && run[i].pending[x] == e;
    assert Waits(run[i].pending[x], run[i].connected, run[i].requested);
  }

  /**
    The sockets `own` bind, both steps of each bind, between `i` and `j`: every
    connection pending at `i` gets a bind of theirs at its address.
   */
  ghost predicate BindsAll(run: seq<Snapshot>, commands: seq<Command>, own: set<SocketId>, i: nat, j: nat)
    requires i <= j <= |commands| < |run|
  {
    && (forall s :: s in own ==> s !in run[i].binding)
    && (forall e :: e in run[i].pending ==>
          exists k :: i <= k < j && commands[k].Register? && commands[k].addr == e.0 && commands[k].s in own)
    && (forall k :: i <= k < j && commands[k].Register? && commands[k].s in own ==>
          || commands[k].addr in run[k].endpoints
          || exists c :: k < c < j && commands[c] == Connect(commands[k].s))
  }

  /** A binder in mid-bind registered and did not connect since. */
  lemma {:induction false} StillOpen(run: seq<Snapshot>, commands: seq<Command>, i: nat, n: nat, s: SocketId)
    returns (k: nat)
    requires IsRun(run, commands) && i <= n <= |commands| && s !in run[i].binding && s in run[n].binding
    ensures i <= k < n && commands[k].Register? && commands[k].s == s && commands[k].addr !in run[k].endpoints
    ensures forall c :: k < c < n ==> commands[c] != Connect(s)
  {
    if s in run[n - 1].binding {
      k := StillOpen(run, commands, i, n - 1, s);
      assert Next(run[n - 1], commands[n - 1], run[n]);
    } else {
      k := n - 1;
      assert Next(run[k], commands[k], run[k + 1]);
    }
  }

  lemma OwnDone(run: seq<Snapshot>, commands: seq<Command>, own: set<SocketId>, i: nat, j: nat, s: SocketId)
    requires IsRun(run, commands) && i <= j <= |commands| && BindsAll(run, commands, own, i, j) && s in own
    ensures s !in run[j].binding
  {
    if s in run[j].binding {
      var k := StillOpen(run, commands, i, j, s);
      assert false;
    }
  }

  /**
    After such binds, whatever other sockets do in between: each connection that was
    pending is made, or about to be made by another socket in mid-bind; and what is
    pending otherwise was pended during the binds, at an address that is not bound,
    and waits for a bind still.
   */
  lemma AfterBinds(run: seq<Snapshot>, commands: seq<Command>, own: set<SocketId>, i: nat, j: nat)
    requires IsRun(run, commands) && i <= j <= |commands| && BindsAll(run, commands, own, i, j)
    ensures forall e :: e in run[i].pending ==>
              e.1 in run[j].connected || (MidBind(run[j], e.0) && run[j].endpoints[e.0] !in own)
    ensures forall e :: e in run[j].pending && !MidBind(run[j], e.0) ==>
              e.1 !in run[i].requested && e.0 !in run[j].endpoints
  {
    forall e | e in run[i].pending
      ensures e.1 in run[j].connected || (MidBind(run[j], e.0) && run[j].endpoints[e.0] !in own)
    {
      var k :| i <= k < j && commands[k].Register? && commands[k].addr == e.0 && commands[k].s in own;
      TriedBind(run, commands, i, k, j, e);
      if MidBind(run[j], e.0) && run[j].endpoints[e.0] in own {
        OwnDone(run, commands, own, i, j, run[j].endpoints[e.0]);
        assert false;
      }
    }
    forall e | e in run[j].pending && !MidBind(run[j], e.0)
      ensures e.1 !in run[i].requested && e.0 !in run[j].endpoints
    {
      PendedSince(run, commands, i, j, e);
    }
  }

  lemma PendedSince(run: seq<Snapshot>, commands: seq<Command>, i: nat, j: nat, e: (Addr, Conn))
    requires IsRun(run, commands) && i <= j <= |commands|
    requires forall d :: d in run[i].pending ==> d.1 in run[j].connected || MidBind(run[j], d.0)
    requires e in run[j].pending && !MidBind(run[j], e.0)
    ensures e.1 !in run[i].requested && e.0 !in run[j].endpoints
  {
    RunInv(run, commands, i);
    RunInv(run, commands, j);
    if e.0 in run[j].endpoints {
      MissedMidBind(run[j], e);
    }
    var x :| 0 <= x < |run[j].pending| && run[j].pending[x] == e;
    assert Waits(run[j].pending[x], run[j].connected, run[j].requested);
    ConnectedForGood(run, commands, i, j, e.1);
  }

  // ---------------------------------------------------------------------
  // The class takes these steps

  ghost function View(e: Endpoints): Snapshot
    reads e
  {
    Snapshot(e.endpoints, e.pending, e.connected, e.requested, e.binding)
  }

  method Perform(e: Endpoints, c: Command)
    requires e.Valid() && Allowed(View(e), c)
    modifies e
    ensures e.Valid() && Next(old(View(e)), c, View(e))
  {
    hide Once, Split;
    match c
    case Register(addr, s) =>
      var _ := e.RegisterEndpoint(addr, s);
    case Connect(s) =>
      e.ConnectPending(s);
    case Unregister(addr, s) =>
      var _ := e.UnregisterEndpoint(addr, s);
    case UnregisterAll(s) =>
      e.UnregisterEndpoints(s);
    case Pend(addr, k) =>
      e.PendConnection(addr, k);
  }
}
