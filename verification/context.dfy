/**
  The slot allocator and the termination state machine of ctx.cpp.  Each method
  holds the slot lock from start to end, so the methods are the atomic steps.
 */
module Context {
  type SocketId = nat
  type Conn = nat        // one inproc connect call

  // Whose mailbox a slot holds.
  datatype Mailbox = Nobody | Term | Reaper | IoThread(i: nat) | Socket(id: SocketId)

  datatype Created = Sock(id: SocketId) | Eterm | NotStarted | Emfile | NotMade

  const TERM_TID := 0
  const REAPER_TID := 1
  const TERM_AND_REAPER := 2

  /** The slots in use and the free ones are distinct and together all of lo..hi. */
  ghost predicate Partition(sockets: map<SocketId, nat>, free: seq<nat>, lo: nat, hi: nat) {
    && (forall i, j :: 0 <= i < j < |free| ==> free[i] != free[j])
    && (forall s, t :: s in sockets && t in sockets && sockets[s] == sockets[t] ==> s == t)
    && (forall s :: s in sockets ==> lo <= sockets[s] < hi && sockets[s] !in free)
    && (forall t :: t in free ==> lo <= t < hi)
    && (forall t :: lo <= t < hi ==> t in free || t in sockets.Values)
  }

  /** The slot array: the fixed slots, then those of the live sockets, the others empty. */
  ghost predicate SlotsOk(slots: seq<Mailbox>, sockets: map<SocketId, nat>, free: seq<nat>, maxSockets: nat, io: nat) {
    && |slots| == maxSockets + io + TERM_AND_REAPER
    && slots[TERM_TID] == Term && slots[REAPER_TID] == Reaper
    && (forall i :: TERM_AND_REAPER <= i < io + TERM_AND_REAPER ==> slots[i] == IoThread(i - TERM_AND_REAPER))
    && Partition(sockets, free, TERM_AND_REAPER + io, |slots|)
    && (forall s :: s in sockets ==> slots[sockets[s]] == Socket(s))
    && (forall t :: t in free ==> slots[t] == Nobody)
  }

  /** The ids of the next `n` sockets. */
  ghost function NewIds(from: nat, n: nat): (r: set<SocketId>)
    ensures forall id :: id in r ==> from <= id < from + n
  {
    if n == 0 then {} else NewIds(from, n - 1) + {from + n - 1}
  }

  class Ctx {
    const maxSockets: nat
    const ioThreads: nat
    var starting: bool
    var terminating: bool
    var slots: seq<Mailbox>
    var emptySlots: seq<nat>
    var sockets: map<SocketId, nat>       // the live sockets and their slots
    var nextId: SocketId
    var stopped: set<SocketId>            // the sockets that were sent a stop command
    var reaperStops: nat                  // the stop commands sent to the reaper
    var dones: nat                        // the done commands the reaper sent
    var pending: map<Conn, SocketId>      // the unmatched inproc connections and their sockets

    ghost predicate Valid()
      reads this
    {
      && (if starting then sockets == map[] && emptySlots == []
          else SlotsOk(slots, sockets, emptySlots, maxSockets, ioThreads))
      && (forall s :: s in sockets ==> s < nextId)
      && (forall k :: k in pending ==> pending[k] in sockets)
      // the reaper was told to stop iff the context is terminating with no sockets left
      && reaperStops == (if terminating && !starting && sockets == map[] then 1 else 0)
      && dones <= reaperStops
    }

    constructor (maxSockets: nat, ioThreads: nat)
      ensures Valid() && View(this) == Begin(maxSockets)
      ensures this.maxSockets == maxSockets && this.ioThreads == ioThreads
    {
      this.maxSockets, this.ioThreads := maxSockets, ioThreads;
      starting, terminating := true, false;
      slots, emptySlots, sockets := [], [], map[];
      nextId, stopped, reaperStops, dones, pending := 0, {}, 0, 0, map[];
    }

    /** A slot in the socket range is used exactly when its mailbox is set. */
    lemma UsedSlots(t: nat)
      requires Valid() && !starting && TERM_AND_REAPER + ioThreads <= t < |slots|
      ensures slots[t] != Nobody <==> t !in emptySlots
      ensures slots[t] != Nobody <==> exists s :: s in sockets && sockets[s] == t
    {
      if t !in emptySlots {
        var s :| s in sockets && sockets[s] == t;
      }
    }

    /** Lines 440-457: launch the I/O threads. */
    method LaunchThreads(slotCount: nat) returns (r: seq<Mailbox>)
      requires slotCount == maxSockets + ioThreads + TERM_AND_REAPER
      ensures |r| == slotCount && r[TERM_TID] == Term && r[REAPER_TID] == Reaper
      ensures forall k :: TERM_AND_REAPER <= k < ioThreads + TERM_AND_REAPER ==> r[k] == IoThread(k - TERM_AND_REAPER)
      ensures forall k :: ioThreads + TERM_AND_REAPER <= k < slotCount ==> r[k] == Nobody
    {
      r := [Term, Reaper] + seq(slotCount - TERM_AND_REAPER, _ => Nobody);
      var i := TERM_AND_REAPER;
      while i != ioThreads + TERM_AND_REAPER
        invariant TERM_AND_REAPER <= i <= ioThreads + TERM_AND_REAPER && |r| == slotCount
        invariant r[TERM_TID] == Term && r[REAPER_TID] == Reaper
        invariant forall k :: TERM_AND_REAPER <= k < i ==> r[k] == IoThread(k - TERM_AND_REAPER)
        invariant forall k :: i <= k < slotCount ==> r[k] == Nobody
        decreases ioThreads + TERM_AND_REAPER - i
      {
        r := r[i := IoThread(i - TERM_AND_REAPER)];
        i := i + 1;
      }
    }

    /** Lines 459-463: the free slots, the lowest to be used first. */
    method ListEmpty(lo: nat, hi: nat) returns (r: seq<nat>)
      requires lo <= hi
      ensures |r| == hi - lo && forall k :: 0 <= k < |r| ==> r[k] == hi - 1 - k
    {
      r := [];
      var i := hi - 1;
      while i >= lo
        invariant lo - 1 <= i < hi && |r| == hi - 1 - i
        invariant forall k :: 0 <= k < |r| ==> r[k] == hi - 1 - k
      {
        r := r + [i];
        i := i - 1;
      }
    }

    /** Lines 406-476; `works` says whether the reaper and the I/O threads could be made. */
    method Start(works: bool) returns (ok: bool)
      requires Valid() && starting && !terminating
      modifies this`starting, this`slots, this`emptySlots
      ensures Valid() && ok == works && starting == !ok
      ensures |emptySlots| == if ok then maxSockets else 0
      ensures forall k :: 0 <= k < |emptySlots| ==> emptySlots[k] == maxSockets + ioThreads + TERM_AND_REAPER - 1 - k
    {
      var slotCount := maxSockets + ioThreads + TERM_AND_REAPER;
      if !works {
        slots := [];
        return false;
      }
      slots := LaunchThreads(slotCount);
      emptySlots := ListEmpty(ioThreads + TERM_AND_REAPER, slotCount);
      FreshSlots(slots, emptySlots, maxSockets, ioThreads);
      hide SlotsOk;
      starting := false;
      ok := true;
    }

    /** Lines 478-517; `made` says whether the socket object itself could be made. */
    method CreateSocket(startWorks: bool, made: bool) returns (r: Created)
      requires Valid()
      modifies this`starting, this`slots, this`emptySlots, this`sockets, this`nextId
      ensures Valid()
      ensures r.Eterm? <==> old(terminating)
      ensures r.NotStarted? <==> !old(terminating) && old(starting) && !startWorks
      ensures r.Emfile? <==>
              !old(terminating) && if old(starting) then startWorks && maxSockets == 0 else old(emptySlots) == []
      ensures r.Sock? <==>
              !old(terminating) && made && if old(starting) then startWorks && maxSockets > 0 else old(emptySlots) != []
      ensures View(this) == Creating(old(View(this)), startWorks, made)
      ensures !r.Sock? ==> sockets == old(sockets)
      ensures r.Sock? ==> r.id == old(nextId) && r.id in sockets && sockets == old(sockets)[r.id := sockets[r.id]]
      ensures r.Sock? && !old(starting) ==> old(emptySlots) == emptySlots + [sockets[r.id]]
      ensures r.Sock? && old(starting) ==>
        |emptySlots| == maxSockets - 1 && sockets[r.id] == ioThreads + TERM_AND_REAPER
      ensures !r.Sock? && !old(starting) ==> emptySlots == old(emptySlots)
      ensures nextId == old(nextId) + if r.Sock? || r.NotMade? then 1 else 0
      ensures starting <==> old(starting) && (r.Eterm? || r.NotStarted?)
    {
      hide SlotsOk;
      if terminating {
        return Eterm;
      }
      if starting {
        var ok := Start(startWorks);
        if !ok {
          return NotStarted;
        }
      }
      if emptySlots == [] {
        return Emfile;
      }
      var slot := emptySlots[|emptySlots| - 1];
      ghost var free := emptySlots;
      emptySlots := emptySlots[..|emptySlots| - 1];
      var id := nextId;
      nextId := nextId + 1;
      if !made {
        emptySlots := emptySlots + [slot];
        assert emptySlots == free;
        return NotMade;
      }
      TakeSlot(slots, sockets, free, id, maxSockets, ioThreads);
      sockets := sockets[id := slot];
      slots := slots[slot := Socket(id)];
      return Sock(id);
    }

    /** Lines 519-535, for a socket that no pending connection keeps alive. */
    method DestroySocket(id: SocketId)
      requires Valid() && id in sockets && id !in pending.Values
      modifies this`emptySlots, this`slots, this`sockets, this`reaperStops
      ensures Valid() && sockets == old(sockets) - {id} && emptySlots == old(emptySlots) + [old(sockets)[id]]
      ensures reaperStops == old(reaperStops) + if terminating && sockets == map[] then 1 else 0
      ensures View(this) == Destroying(old(View(this)), id)
    {
      hide SlotsOk;
      var tid := sockets[id];
      GiveSlot(slots, sockets, emptySlots, id, maxSockets, ioThreads);
      emptySlots := emptySlots + [tid];
      slots := slots[tid := Nobody];
      sockets := sockets - {id};
      if terminating && sockets == map[] {
        reaperStops := reaperStops + 1;
      }
    }

    /** A connect whose address is not bound yet (pend_connection). */
    method Pend(k: Conn, id: SocketId)
      requires Valid() && id in sockets && k !in pending
      modifies this`pending
      ensures Valid() && pending == old(pending)[k := id]
    {
      hide SlotsOk;
      pending := pending[k := id];
    }

    /** A bind matched some pending connections (connect_pending). */
    method Matched(made: set<Conn>)
      requires Valid()
      modifies this`pending
      ensures Valid() && pending == old(pending) - made
    {
      hide SlotsOk;
      pending := pending - made;
    }

    /** reaper.cpp, lines 118-149: told to stop, the reaper reports once that it is done. */
    method ReaperDone()
      requires Valid() && dones < reaperStops
      modifies this`dones
      ensures Valid() && dones == old(dones) + 1
    {
      hide SlotsOk;
      dones := dones + 1;
    }

    /** Lines 193-204 and 242-252. */
    method StopAll()
      requires !starting && reaperStops == 0
      modifies this`stopped, this`reaperStops
      ensures stopped == old(stopped) + sockets.Keys
      ensures reaperStops == if sockets == map[] then 1 else 0
    {
      stopped := stopped + sockets.Keys;
      if sockets == map[] {
        reaperStops := reaperStops + 1;
      }
    }

    /** Lines 235-256. */
    method Shutdown()
      requires Valid()
      modifies this`terminating, this`stopped, this`reaperStops
      ensures Valid() && terminating
      ensures reaperStops == old(reaperStops) + if !old(terminating) && !starting && sockets == map[] then 1 else 0
      ensures stopped == if !old(terminating) && !starting then old(stopped) + sockets.Keys else old(stopped)
      ensures View(this) == ShuttingDown(old(View(this)))
    {
      hide SlotsOk;
      if !terminating {
        terminating := true;
        if !starting {
          StopAll();
        }
      }
    }

    /**
      Lines 158-205, `left` being what is pending after the binds, which module
      ContextTermination derives.  The result is false when a socket could not be
      made, where the code aborts.
     */
    method TerminateBegin(left: map<Conn, SocketId>, made: nat -> bool) returns (ok: bool)
      requires Valid() && forall k :: k in left ==> left[k] in sockets
      modifies this
      ensures ok <==> |old(pending)| <= |old(emptySlots)| && forall i :: 0 <= i < |old(pending)| ==> made(i)
      ensures ok ==> Valid() && (terminating <==> old(terminating) || !starting)
      ensures ok ==>
        reaperStops == old(reaperStops) + if !old(terminating) && !starting && sockets == map[] then 1 else 0
      ensures ok ==> starting == old(starting) && dones == old(dones) && pending == left
      ensures ok ==> stopped == if !old(terminating) && !starting then old(stopped) + sockets.Keys else old(stopped)
      ensures ok ==> (forall id :: id in sockets <==> id in old(sockets) || old(nextId) <= id < nextId)
      ensures ok ==> nextId == old(nextId) + |old(pending)| && |emptySlots| == |old(emptySlots)| - |old(pending)|
      ensures ok ==> View(this) == Terminating(old(View(this)), left)
    {
      hide SlotsOk, Binding, Stop;
      ok := Rebind(made);
      if ok {
        pending := left;
        BeginStop();
      }
    }

    /** Lines 160-174: terminating is switched off while the pending addresses are bound. */
    method Rebind(made: nat -> bool) returns (ok: bool)
      requires Valid()
      modifies this
      ensures ok <==> |old(pending)| <= |old(emptySlots)| && forall i :: 0 <= i < |old(pending)| ==> made(i)
      ensures ok ==> Valid() && View(this) == Binding(old(View(this)), |old(pending)|)
      ensures ok ==> old(sockets.Keys) <= sockets.Keys
      ensures ok ==> starting == old(starting) && terminating == old(terminating) && reaperStops == old(reaperStops)
      ensures ok ==> dones == old(dones) && stopped == old(stopped)
      ensures ok ==> (forall id :: id in sockets <==> id in old(sockets) || old(nextId) <= id < nextId)
      ensures ok ==> nextId == old(nextId) + |old(pending)| && |emptySlots| == |old(emptySlots)| - |old(pending)|
    {
      hide SlotsOk, Binding;
      PendingNeedsSockets();
      BindingAside(View(this), |pending|);
      var saveTerminating := terminating;
      terminating := false;
      ok := true;
      if |pending| > 0 {
        ok := BindPending(|pending|, made);
        if !ok {
          return;
        }
      }
      terminating := saveTerminating;
    }

    /** Lines 175-204. */
    method BeginStop()
      requires Valid()
      modifies this`terminating, this`stopped, this`reaperStops
      ensures Valid() && View(this) == Stop(old(View(this)))
      ensures terminating <==> old(terminating) || !starting
      ensures reaperStops == old(reaperStops) + if !old(terminating) && !starting && sockets == map[] then 1 else 0
      ensures stopped == if !old(terminating) && !starting then old(stopped) + sockets.Keys else old(stopped)
    {
      hide SlotsOk;
      if !starting {
        var restarted := terminating;
        terminating := true;
        if !restarted {
          StopAll();
        }
      }
    }

    /** Lines 165-172: one socket for each pending connection. */
    method BindPending(n: nat, made: nat -> bool) returns (ok: bool)
      requires Valid() && !starting && !terminating && sockets != map[]
      modifies this`starting, this`slots, this`emptySlots, this`sockets, this`nextId
      ensures ok <==> n <= |old(emptySlots)| && forall i :: 0 <= i < n ==> made(i)
      ensures ok ==> Valid() && View(this) == Binding(old(View(this)), n) && old(sockets.Keys) <= sockets.Keys
      ensures ok ==> !starting && nextId == old(nextId) + n && |emptySlots| == |old(emptySlots)| - n
      ensures ok ==> (forall id :: id in sockets <==> id in old(sockets) || old(nextId) <= id < nextId)
    {
      hide SlotsOk, Binding;
      BindingNone(View(this));
      for i := 0 to n
        invariant Valid() && !starting && i <= |old(emptySlots)| && View(this) == Binding(old(View(this)), i)
        invariant old(sockets.Keys) <= sockets.Keys && forall k :: 0 <= k < i ==> made(k)
        invariant nextId == old(nextId) + i && |emptySlots| == |old(emptySlots)| - i
        invariant forall id :: id in sockets <==> id in old(sockets) || old(nextId) <= id < nextId
      {
        var r := CreateSocket(true, made(i));
        if !r.Sock? {
          BindingNext(old(View(this)), i);
          return false;
        }
        BindingNext(old(View(this)), i);
      }
      ok := true;
    }

    lemma PendingNeedsSockets()
      requires Valid()
      ensures |pending| > 0 ==> sockets != map[] && !starting && reaperStops == 0
    {
      if |pending| > 0 {
        var k :| k in pending;
      }
    }

    /** Lines 207-215: when the done command is there, no socket is, as line 215 asserts. */
    lemma TerminateEnd()
      requires Valid() && !starting && dones > 0
      ensures sockets == map[] && reaperStops == 1
      ensures forall t :: TERM_AND_REAPER + ioThreads <= t < |slots| ==> slots[t] == Nobody
    {
      assert sockets == map[];
    }
  }

  // ---------------------------------------------------------------------
  // Runs as sequences of values

  datatype Command =
    | Create(startWorks: bool, made: bool) | Destroy(id: SocketId)
    | Pend(k: Conn, id: SocketId) | Matched(conns: set<Conn>)
    | Shutdown | Terminate(left: map<Conn, SocketId>) | ReaperDone

  datatype Snapshot = Snapshot(
    starting: bool, terminating: bool, live: set<SocketId>, nextId: nat, free: nat,
    stopped: set<SocketId>, stops: nat, dones: nat, pending: map<Conn, SocketId>)

  function Begin(maxSockets: nat): Snapshot {
    Snapshot(true, false, {}, 0, maxSockets, {}, 0, 0, map[])
  }

  /** A pending connection keeps its socket alive; terminate aborts without a free slot for each of them. */
  ghost predicate Allowed(s: Snapshot, c: Command) {
    match c
    case Destroy(id) => id in s.live && id !in s.pending.Values
    case Pend(k, id) => id in s.live && k !in s.pending
    case Terminate(left) => |s.pending| <= s.free && forall k :: k in left ==> left[k] in s.live
    case ReaperDone => s.dones < s.stops
    case _ => true
  }

  /** Termination of a running context begins: the sockets, or else the reaper, are told to stop. */
  ghost function Stop(s: Snapshot): Snapshot {
    if s.terminating || s.starting then s
    else s.(terminating := true, stopped := s.stopped + s.live, stops := s.stops + if s.live == {} then 1 else 0)
  }

  ghost function Creating(s: Snapshot, startWorks: bool, made: bool): Snapshot {
    if s.terminating || (s.starting && !startWorks) then s
    else if s.free == 0 then s.(starting := false)
    else if !made then s.(starting := false, nextId := s.nextId + 1)
    else s.(starting := false, live := s.live + {s.nextId}, nextId := s.nextId + 1, free := s.free - 1)
  }

  ghost function Destroying(s: Snapshot, id: SocketId): Snapshot {
    var live := s.live - {id};
    s.(live := live, free := s.free + 1, stops := s.stops + if s.terminating && live == {} then 1 else 0)
  }

  ghost function ShuttingDown(s: Snapshot): Snapshot {
    if s.starting then s.(terminating := true) else Stop(s)
  }

  /** `n` sockets are made one after the other. */
  ghost function Binding(s: Snapshot, n: nat): Snapshot {
    s.(live := s.live + NewIds(s.nextId, n), nextId := s.nextId + n, free := if n <= s.free then s.free - n else 0)
  }

  ghost function Terminating(s: Snapshot, left: map<Conn, SocketId>): Snapshot {
    Stop(Binding(s, |s.pending|).(pending := left))
  }

  ghost function Next(s: Snapshot, c: Command): Snapshot {
    match c
    case Create(startWorks, made) => Creating(s, startWorks, made)
    case Destroy(id) => Destroying(s, id)
    case Pend(k, id) => s.(pending := s.pending[k := id])
    case Matched(conns) => s.(pending := s.pending - conns)
    case Shutdown => ShuttingDown(s)
    case Terminate(left) => Terminating(s, left)
    case ReaperDone => s.(dones := s.dones + 1)
  }

  lemma BindingAside(s: Snapshot, n: nat)
    ensures Binding(s, n) == Binding(s.(terminating := false), n).(terminating := s.terminating)
    ensures Binding(s, n).starting == s.starting && Binding(s, n).stops == s.stops
    ensures n == 0 ==> Binding(s, n) == s
  {
  }

  lemma BindingNone(s: Snapshot)
    ensures Binding(s, 0) == s
  {
  }

  lemma BindingNext(s: Snapshot, n: nat)
    ensures Binding(s, n).starting == s.starting && Binding(s, n).terminating == s.terminating
    ensures Binding(s, n).free == if n <= s.free then s.free - n else 0
    ensures !s.starting && !s.terminating && n < s.free ==> Creating(Binding(s, n), true, true) == Binding(s, n + 1)
  {
    assert NewIds(s.nextId, n + 1) == NewIds(s.nextId, n) + {s.nextId + n};
  }

  ghost predicate IsRun(run: seq<Snapshot>, commands: seq<Command>, maxSockets: nat) {
    && |run| == |commands| + 1 && run[0] == Begin(maxSockets)
    && forall i :: 0 <= i < |commands| ==> Allowed(run[i], commands[i]) && run[i + 1] == Next(run[i], commands[i])
  }

  /** The reaper was told to stop, once, iff a running context is terminating with no sockets left. */
  ghost predicate Inv(s: Snapshot) {
    && s.stops == (if s.terminating && !s.starting && s.live == {} then 1 else 0)
    && s.dones <= s.stops && (s.starting ==> s.live == {})
    && (forall k :: k in s.pending ==> s.pending[k] in s.live)
    && forall id :: id in s.live ==> id < s.nextId
  }

  lemma CreatingInv(s: Snapshot, startWorks: bool, made: bool)
    requires Inv(s)
    ensures Inv(Creating(s, startWorks, made))
  {
    assert s.nextId in s.live + {s.nextId};
  }

  lemma BindingLive(s: Snapshot, n: nat)
    requires forall id :: id in s.live ==> id < s.nextId
    ensures s.live <= Binding(s, n).live && Binding(s, n).dones == s.dones
    ensures forall id :: id in Binding(s, n).live ==> id < Binding(s, n).nextId
  {
  }

  lemma TerminatingInv(s: Snapshot, left: map<Conn, SocketId>)
    requires Inv(s) && forall k :: k in left ==> left[k] in s.live
    ensures Inv(Terminating(s, left))
  {
    if |s.pending| > 0 {
      var k :| k in s.pending;
      assert s.pending[k] in s.live;
    }
    BindingAside(s, |s.pending|);
    BindingLive(s, |s.pending|);
    hide Binding;
  }

  lemma NextInv(s: Snapshot, c: Command)
    requires Inv(s) && Allowed(s, c)
    ensures Inv(Next(s, c))
  {
    hide Creating, Terminating;
    match c
    case Create(startWorks, made) => CreatingInv(s, startWorks, made);
    case Terminate(left) => TerminatingInv(s, left);
    case _ =>
  }

  lemma {:induction false} RunInv(run: seq<Snapshot>, commands: seq<Command>, maxSockets: nat, i: nat)
    requires IsRun(run, commands, maxSockets) && i <= |commands|
    ensures run[i].stops == if run[i].terminating && !run[i].starting && run[i].live == {} then 1 else 0
    ensures Inv(run[i])
  {
    if i > 0 {
      RunInv(run, commands, maxSockets, i - 1);
      hide Inv, Next, Allowed;
      NextInv(run[i - 1], commands[i - 1]);
    }
  }

  /** Terminate makes a socket here: the only way to get one once termination began. */
  ghost predicate OwnSocket(run: seq<Snapshot>, commands: seq<Command>, k: int, id: SocketId)
    requires |run| == |commands| + 1
  {
    0 <= k < |commands| && commands[k].Terminate? && id in run[k + 1].live && id !in run[k].live
  }

  lemma NextCreates(s: Snapshot, c: Command)
    requires s.terminating
    ensures Next(s, c).terminating && (c.Terminate? || Next(s, c).live <= s.live)
  {
    hide NewIds;
  }

  lemma {:induction false} NoLateSocket(run: seq<Snapshot>, commands: seq<Command>, maxSockets: nat, i: nat, j: nat)
    requires IsRun(run, commands, maxSockets) && i <= j <= |commands| && run[i].terminating
    ensures run[j].terminating
    ensures forall id :: id in run[j].live ==>
              id in run[i].live || exists k :: i <= k < j && OwnSocket(run, commands, k, id)
  {
    if i < j {
      hide Next, Allowed;
      NoLateSocket(run, commands, maxSockets, i, j - 1);
      var s, c := run[j - 1], commands[j - 1];
      NextCreates(s, c);
      forall id | id in run[j].live
        ensures id in run[i].live || exists k :: i <= k < j && OwnSocket(run, commands, k, id)
      {
        if id !in s.live {
          assert OwnSocket(run, commands, j - 1, id);
        }
      }
    }
  }

  /** The reaper is told to stop at most once, only with no sockets left, and none appears afterwards. */
  lemma {:induction false} StopOnce(run: seq<Snapshot>, commands: seq<Command>, maxSockets: nat, i: nat, j: nat)
    requires IsRun(run, commands, maxSockets) && i <= j <= |commands|
    ensures run[i].stops <= run[j].stops <= 1
    ensures run[i].stops == 1 ==> run[j].terminating && run[j].live == {} && run[j].pending == map[]
  {
    RunInv(run, commands, maxSockets, j);
    if i < j {
      StopOnce(run, commands, maxSockets, i, j - 1);
      RunInv(run, commands, maxSockets, j - 1);
    }
  }

  lemma StopsSockets(s: Snapshot, c: Command)
    requires !s.terminating && !s.starting && Next(s, c).terminating
    ensures Next(s, c).live <= Next(s, c).stopped
  {
  }

  lemma KeepsStopped(s: Snapshot, c: Command)
    ensures s.stopped <= Next(s, c).stopped
  {
  }

  /** In every run the sockets alive when a running context begins to terminate are told to stop, for good. */
  lemma {:induction false} ToldToStop(run: seq<Snapshot>, commands: seq<Command>, maxSockets: nat, i: nat, j: nat)
    requires IsRun(run, commands, maxSockets) && i < j <= |commands|
    requires !run[i].terminating && !run[i].starting && run[i + 1].terminating
    ensures run[i + 1].live <= run[j].stopped
  {
    hide Next, Allowed;
    if j == i + 1 {
      StopsSockets(run[i], commands[i]);
    } else {
      ToldToStop(run, commands, maxSockets, i, j - 1);
      KeepsStopped(run[j - 1], commands[j - 1]);
    }
  }

  /** In every run, once the reaper reported, no socket is left and none appears. */
  lemma DoneAtEnd(run: seq<Snapshot>, commands: seq<Command>, maxSockets: nat, i: nat, j: nat)
    requires IsRun(run, commands, maxSockets) && i <= j <= |commands| && run[i].dones > 0
    ensures run[j].terminating && run[j].live == {} && run[j].pending == map[] && run[j].dones == 1
  {
    RunInv(run, commands, maxSockets, i);
    StopOnce(run, commands, maxSockets, i, j);
    DonesKept(run, commands, maxSockets, i, j);
    RunInv(run, commands, maxSockets, j);
  }

  lemma {:induction false} DonesKept(run: seq<Snapshot>, commands: seq<Command>, maxSockets: nat, i: nat, j: nat)
    requires IsRun(run, commands, maxSockets) && i <= j <= |commands|
    ensures run[i].dones <= run[j].dones
  {
    if i < j {
      DonesKept(run, commands, maxSockets, i, j - 1);
      hide Next, Allowed;
      NextDones(run[j - 1], commands[j - 1]);
    }
  }

  lemma NextDones(s: Snapshot, c: Command)
    ensures Next(s, c).dones >= s.dones
  {
  }

  // ---------------------------------------------------------------------
  // The class takes these steps

  ghost function View(c: Ctx): Snapshot
    reads c
  {
    Snapshot(c.starting, c.terminating, c.sockets.Keys, c.nextId, if c.starting then c.maxSockets else |c.emptySlots|,
             c.stopped, c.reaperStops, c.dones, c.pending)
  }

  method Perform(c: Ctx, command: Command)
    requires c.Valid() && Allowed(View(c), command)
    modifies c
    ensures c.Valid() && View(c) == Next(old(View(c)), command)
  {
    hide SlotsOk, Creating, Destroying, ShuttingDown, Terminating;
    match command
    case Create(startWorks, made) =>
      var _ := c.CreateSocket(startWorks, made);
    case Destroy(id) =>
      c.DestroySocket(id);
    case Pend(k, id) =>
      c.Pend(k, id);
    case Matched(conns) =>
      c.Matched(conns);
    case Shutdown =>
      c.Shutdown();
    case Terminate(left) =>
      c.PendingNeedsSockets();
      var ok := c.TerminateBegin(left, _ => true);
    case ReaperDone =>
      c.ReaperDone();
  }

  /** One socket, which waits for a bind, and no room for another: terminate aborts. */
  method NoRoomToTerminate() returns (c: Ctx, ok: bool)
    ensures !ok
  {
    hide SlotsOk;
    c := new Ctx(1, 1);
    var r := c.CreateSocket(true, true);
    c.Pend(0, r.id);
    ok := c.TerminateBegin(map[], _ => true);
  }

  lemma FreshSlots(slots: seq<Mailbox>, free: seq<nat>, maxSockets: nat, io: nat)
    requires |slots| == maxSockets + io + TERM_AND_REAPER && |free| == maxSockets
    requires slots[TERM_TID] == Term && slots[REAPER_TID] == Reaper
    requires forall k :: TERM_AND_REAPER <= k < io + TERM_AND_REAPER ==> slots[k] == IoThread(k - TERM_AND_REAPER)
    requires forall k :: io + TERM_AND_REAPER <= k < |slots| ==> slots[k] == Nobody
    requires forall k :: 0 <= k < |free| ==> free[k] == |slots| - 1 - k
    ensures SlotsOk(slots, map[], free, maxSockets, io)
  {
    forall t | TERM_AND_REAPER + io <= t < |slots| ensures t in free {
      assert free[|slots| - 1 - t] == t;
    }
  }

  lemma TakePartition(sockets: map<SocketId, nat>, free: seq<nat>, id: SocketId, lo: nat, hi: nat)
    requires Partition(sockets, free, lo, hi) && free != [] && id !in sockets
    ensures Partition(sockets[id := free[|free| - 1]], free[..|free| - 1], lo, hi)
  {
    var slot := free[|free| - 1];
    var s', f' := sockets[id := slot], free[..|free| - 1];
    assert slot in free && forall t :: t in f' ==> t in free && t != slot;
    forall t | lo <= t < hi ensures t in f' || t in s'.Values {
      if t == slot {
        assert s'[id] == slot;
      } else if t in free {
        var i :| 0 <= i < |free| && free[i] == t;
        assert f'[i] == t;
      } else {
        var s :| s in sockets && sockets[s] == t;
        assert s'[s] == t;
      }
    }
  }

  lemma GivePartition(sockets: map<SocketId, nat>, free: seq<nat>, id: SocketId, lo: nat, hi: nat)
    requires Partition(sockets, free, lo, hi) && id in sockets
    ensures Partition(sockets - {id}, free + [sockets[id]], lo, hi)
  {
    var s', f' := sockets - {id}, free + [sockets[id]];
    assert f'[|free|] == sockets[id];
    forall t | lo <= t < hi ensures t in f' || t in s'.Values {
      if t !in free && t != sockets[id] {
        var s :| s in sockets && sockets[s] == t;
        assert s in s' && s'[s] == t;
      }
    }
  }

  lemma TakeSlot(slots: seq<Mailbox>, sockets: map<SocketId, nat>, free: seq<nat>, id: SocketId, maxSockets: nat,
                 io: nat)
    requires SlotsOk(slots, sockets, free, maxSockets, io) && free != [] && id !in sockets
    ensures free[|free| - 1] < |slots|
    ensures SlotsOk(slots[free[|free| - 1] := Socket(id)], sockets[id := free[|free| - 1]], free[..|free| - 1],
                    maxSockets, io)
  {
    var slot := free[|free| - 1];
    assert slot in free;
    TakePartition(sockets, free, id, TERM_AND_REAPER + io, |slots|);
    assert forall s :: s in sockets ==> sockets[s] != slot;
    assert forall t :: t in free[..|free| - 1] ==> t in free && t != slot;
  }

  lemma GiveSlot(slots: seq<Mailbox>, sockets: map<SocketId, nat>, free: seq<nat>, id: SocketId, maxSockets: nat,
                 io: nat)
    requires SlotsOk(slots, sockets, free, maxSockets, io) && id in sockets
    ensures sockets[id] < |slots|
    ensures SlotsOk(slots[sockets[id] := Nobody], sockets - {id}, free + [sockets[id]], maxSockets, io)
  {
    GivePartition(sockets, free, id, TERM_AND_REAPER + io, |slots|);
  }
}
