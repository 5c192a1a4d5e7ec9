/**
  shared_message_memory_allocator of decoder_allocators.cpp, as the steps its
  threads interleave: one step for each access to a reference counter.

  The decoder's thread allocates, reuses and gives up receive buffers and makes
  messages on top of them; any thread shares and closes messages.
 */
module SharedBuffer {
  import opened Wrappers

  type Id = nat          // one malloc'ed buffer
  type MsgId = nat       // one content_t in a buffer

  const MAX_VSM_SIZE := 33
  const WRAP := 0x1_0000_0000

  // Where allocate stands: between calls, after sub(1) returned, or after deallocate.
  datatype Pc = Idle | Dropped(inUse: bool) | Gone

  // A message's data block: its buffer and its own reference count, 0 when it is being closed.
  datatype Content = Content(buf: Id, refs: nat)

  datatype State = State(
    heap: map<Id, nat>,             // the counter at the start of each allocated buffer
    buf: Option<Id>,                // _buf
    pc: Pc,
    used: nat,                      // bytes of the buffer already handed to messages or skipped
    slots: nat,                     // content_t slots handed out, _msg_content's offset
    contents: map<MsgId, Content>,
    condemned: set<Id>,             // a thread saw the counter reach 0 and is about to free
    freed: seq<Id>,
    next: Id
  )

  datatype Step =
    | DropOwn                       // line 70
    | Release                       // line 73
    | Malloc                        // lines 84-87
    | Reuse                         // line 92
    | Skip(n: nat)                  // bytes that do not become shared message data
    | NewMsg(m: MsgId, size: nat)   // lines 118-120 and 126 (provide_content, advance_content, inc_ref)
    | Share(m: MsgId)               // msg_t::copy, add_refs
    | Unshare(m: MsgId)             // msg_t::close, rm_refs
    | DecRef(m: MsgId)              // line 135
    | Free(id: Id)                  // lines 105 and 137
    | Deallocate                    // lines 103-107

  /** atomic_counter_t::add (1): a 32-bit counter. */
  function Inc(c: nat): (r: nat)
    ensures c + 1 < WRAP ==> r == c + 1
  {
    (c + 1) % WRAP
  }

  /** atomic_counter_t::sub (1), which returns false when the result is 0. */
  function Dec(c: nat): (r: nat)
    ensures 0 < c <= WRAP ==> r == c - 1
  {
    (c + WRAP - 1) % WRAP
  }

  function MaxCounters(maxSize: nat): nat {
    (maxSize + MAX_VSM_SIZE - 1) / MAX_VSM_SIZE
  }

  const START := State(map[], None, Idle, 0, 0, map[], {}, [], 0)

  /** What the code's own control flow and the message layer allow. */
  predicate Enabled(maxSize: nat, s: State, a: Step) {
    match a
    case DropOwn => s.pc.Idle? && s.buf.Some?
    case Release => s.pc == Dropped(true)
    case Malloc => s.pc.Idle? && s.buf.None?
    case Reuse => s.pc == Dropped(false)
    case Skip(n) => s.pc.Idle? && s.buf.Some? && s.used + n <= maxSize
    case NewMsg(m, size) =>
      s.pc.Idle? && s.buf.Some? && size >= MAX_VSM_SIZE && s.used + size <= maxSize && m !in s.contents
    case Share(m) => m in s.contents && s.contents[m].refs > 0
    case Unshare(m) => m in s.contents && s.contents[m].refs > 0
    case DecRef(m) => m in s.contents && s.contents[m].refs == 0
    case Free(id) => id in s.condemned
    case Deallocate => s.pc.Idle?
  }

  /** The buffers whose memory the step reads, writes or frees. */
  function Touched(s: State, a: Step): set<Id> {
    match a
    case DropOwn => if s.buf.Some? then {s.buf.value} else {}
    case Reuse => if s.buf.Some? then {s.buf.value} else {}
    case NewMsg(_, _) => if s.buf.Some? then {s.buf.value} else {}
    case Share(m) => if m in s.contents then {s.contents[m].buf} else {}
    case Unshare(m) => if m in s.contents then {s.contents[m].buf} else {}
    case DecRef(m) => if m in s.contents then {s.contents[m].buf} else {}
    case Free(id) => {id}
    case Deallocate => if s.buf.Some? then {s.buf.value} else {}
    case _ => {}
  }

  function CounterAt(s: State, id: Id): nat {
    if id in s.heap then s.heap[id] else 0
  }

  function Next(s: State, a: Step): State {
    match a
    case DropOwn =>
      if s.buf.None? then s
      else
        var c := Dec(CounterAt(s, s.buf.value));
        s.(heap := s.heap[s.buf.value := c], pc := Dropped(c != 0))
    case Release => s.(buf := None, pc := Idle)
    case Malloc => s.(heap := s.heap[s.next := 1], buf := Some(s.next), used := 0, slots := 0, next := s.next + 1)
    case Reuse => if s.buf.None? then s else s.(heap := s.heap[s.buf.value := 1], pc := Idle, used := 0, slots := 0)
    case Skip(n) => s.(used := s.used + n)
    case NewMsg(m, size) =>
      if s.buf.None? then s
      else
        s.(heap := s.heap[s.buf.value := Inc(CounterAt(s, s.buf.value))], used := s.used + size, slots := s.slots + 1,
           contents := s.contents[m := Content(s.buf.value, 1)])
    case Share(m) =>
      if m !in s.contents then s else s.(contents := s.contents[m := s.contents[m].(refs := s.contents[m].refs + 1)])
    case Unshare(m) =>
      if m !in s.contents || s.contents[m].refs == 0 then s
      else s.(contents := s.contents[m := s.contents[m].(refs := s.contents[m].refs - 1)])
    case DecRef(m) =>
      if m !in s.contents then s
      else
        var id := s.contents[m].buf;
        var c := Dec(CounterAt(s, id));
        s.(heap := s.heap[id := c], contents := s.contents - {m},
           condemned := if c == 0 then s.condemned + {id} else s.condemned)
    case Free(id) => s.(heap := s.heap - {id}, condemned := s.condemned - {id}, freed := s.freed + [id])
    case Deallocate =>
      if s.buf.None? then s.(pc := Gone)
      else
        var c := Dec(CounterAt(s, s.buf.value));
        s.(heap := s.heap[s.buf.value := c], buf := None, pc := Gone,
           condemned := if c == 0 then s.condemned + {s.buf.value} else s.condemned)
  }

  /** The messages on a buffer. */
  function Holders(contents: map<MsgId, Content>, id: Id): set<MsgId> {
    set m | m in contents && contents[m].buf == id
  }

  /** The allocator's own reference. */
  function Own(s: State, id: Id): nat {
    if s.buf == Some(id) && s.pc.Idle? then 1 else 0
  }

  /** The counter is the allocator's reference plus the live messages, and none of them is on a freed buffer. */
  ghost predicate Counted(maxSize: nat, s: State) {
    && (forall id :: id in s.heap ==>
          && s.heap[id] == Own(s, id) + |Holders(s.contents, id)|
          && |Holders(s.contents, id)| <= MaxCounters(maxSize))
    && (forall m :: m in s.contents ==> s.contents[m].buf in s.heap)
  }

  /** Exactly the buffers nobody refers to are about to be freed or to be reused. */
  ghost predicate Owned(s: State) {
    && (forall id :: id in s.condemned ==> id in s.heap && s.heap[id] == 0)
    && (forall id :: id in s.heap && s.heap[id] == 0 ==>
          (id in s.condemned <==> !(s.buf == Some(id) && s.pc == Dropped(false))))
    && (s.buf.Some? && s.pc != Dropped(true) ==> s.buf.value in s.heap)
    && (s.pc.Dropped? ==> s.buf.Some?) && (s.pc.Gone? ==> s.buf.None?)
    && (s.pc == Dropped(false) ==> s.heap[s.buf.value] == 0)
  }

  /** Each buffer is allocated or was freed exactly once. */
  ghost predicate FreedOnce(s: State) {
    && (forall id :: id in s.heap ==> id < s.next && id !in s.freed)
    && (forall i :: 0 <= i < |s.freed| ==> s.freed[i] < s.next)
    && (forall i, j :: 0 <= i < j < |s.freed| ==> s.freed[i] != s.freed[j])
    && (forall id :: 0 <= id < s.next ==> id in s.heap || id in s.freed)
  }

  /** The content slots behind the buffer suffice. */
  ghost predicate SlotsSuffice(maxSize: nat, s: State) {
    s.pc.Idle? && s.buf.Some? ==>
      && s.slots * MAX_VSM_SIZE <= s.used <= maxSize
      && |Holders(s.contents, s.buf.value)| <= s.slots
  }

  ghost predicate Inv(maxSize: nat, s: State) {
    Counted(maxSize, s) && Owned(s) && FreedOnce(s) && SlotsSuffice(maxSize, s)
  }

  lemma SlotBound(maxSize: nat, slots: nat)
    requires slots * MAX_VSM_SIZE <= maxSize
    ensures slots <= MaxCounters(maxSize)
  {
  }

  lemma HoldersKeep(c: map<MsgId, Content>, c': map<MsgId, Content>)
    requires c.Keys == c'.Keys && forall m :: m in c ==> c'[m].buf == c[m].buf
    ensures forall id :: Holders(c', id) == Holders(c, id)
  {
  }

  lemma HoldersAdd(c: map<MsgId, Content>, m: MsgId, k: Content, id: Id)
    requires m !in c
    ensures |Holders(c[m := k], id)| == |Holders(c, id)| + if k.buf == id then 1 else 0
  {
    assert Holders(c[m := k], id) == Holders(c, id) + if k.buf == id then {m} else {};
  }

  lemma HoldersDrop(c: map<MsgId, Content>, m: MsgId, id: Id)
    requires m in c
    ensures |Holders(c - {m}, id)| == |Holders(c, id)| - if c[m].buf == id then 1 else 0
  {
    assert Holders(c - {m}, id) == Holders(c, id) - if c[m].buf == id then {m} else {};
    if c[m].buf == id {
      assert m in Holders(c, id);
    }
  }

  lemma FreedSame(s: State, t: State)
    requires FreedOnce(s) && t.heap.Keys == s.heap.Keys && t.freed == s.freed && t.next == s.next
    ensures FreedOnce(t)
  {
    assert forall id :: id in t.heap <==> id in t.heap.Keys;
    assert forall id :: id in s.heap <==> id in s.heap.Keys;
  }

  /** What the counter of the allocator's buffer says. */
  lemma OwnCounter(maxSize: nat, s: State)
    requires MaxCounters(maxSize) + 1 < WRAP && Inv(maxSize, s) && s.pc.Idle? && s.buf.Some?
    ensures var id := s.buf.value;
            && id in s.heap && s.heap[id] == 1 + |Holders(s.contents, id)| < WRAP
            && Dec(s.heap[id]) == |Holders(s.contents, id)|
    ensures s.buf.value !in s.condemned
  {
    hide Holders, MaxCounters, FreedOnce;
  }

  lemma DropOwnStep(maxSize: nat, s: State)
    requires MaxCounters(maxSize) + 1 < WRAP && Inv(maxSize, s) && Enabled(maxSize, s, DropOwn)
    ensures Inv(maxSize, Next(s, DropOwn))
  {
    OwnCounter(maxSize, s);
    hide Holders, MaxCounters, Dec, FreedOnce;
    FreedSame(s, Next(s, DropOwn));
  }

  lemma DeallocateStep(maxSize: nat, s: State)
    requires MaxCounters(maxSize) + 1 < WRAP && Inv(maxSize, s) && Enabled(maxSize, s, Deallocate)
    ensures Inv(maxSize, Next(s, Deallocate))
  {
    if s.buf.Some? {
      OwnCounter(maxSize, s);
    }
    hide Holders, MaxCounters, Dec, FreedOnce;
    FreedSame(s, Next(s, Deallocate));
  }

  lemma ReleaseStep(maxSize: nat, s: State)
    requires Inv(maxSize, s) && Enabled(maxSize, s, Release)
    ensures Inv(maxSize, Next(s, Release))
  {
    hide Holders, MaxCounters, FreedOnce;
    FreedSame(s, Next(s, Release));
  }

  lemma ReuseStep(maxSize: nat, s: State)
    requires Inv(maxSize, s) && Enabled(maxSize, s, Reuse)
    ensures Inv(maxSize, Next(s, Reuse)) && Holders(s.contents, s.buf.value) == {}
  {
    hide Holders, MaxCounters, FreedOnce;
    FreedSame(s, Next(s, Reuse));
  }

  lemma SkipStep(maxSize: nat, s: State, n: nat)
    requires Inv(maxSize, s) && Enabled(maxSize, s, Skip(n))
    ensures Inv(maxSize, Next(s, Skip(n)))
  {
    hide Holders, MaxCounters, FreedOnce;
    FreedSame(s, Next(s, Skip(n)));
  }

  lemma MallocStep(maxSize: nat, s: State)
    requires Inv(maxSize, s) && Enabled(maxSize, s, Malloc)
    ensures Inv(maxSize, Next(s, Malloc))
  {
    assert s.next !in s.heap;
    assert Holders(s.contents, s.next) == {};
    hide MaxCounters;
  }

  lemma NewMsgStep(maxSize: nat, s: State, m: MsgId, size: nat)
    requires MaxCounters(maxSize) + 1 < WRAP && Inv(maxSize, s) && Enabled(maxSize, s, NewMsg(m, size))
    ensures Inv(maxSize, Next(s, NewMsg(m, size))) && s.slots < MaxCounters(maxSize)
  {
    var t := Next(s, NewMsg(m, size));
    SlotBound(maxSize, s.slots + 1);
    OwnCounter(maxSize, s);
    forall id ensures |Holders(t.contents, id)| == |Holders(s.contents, id)| + if s.buf.value == id then 1 else 0 {
      HoldersAdd(s.contents, m, Content(s.buf.value, 1), id);
    }
    hide Holders, MaxCounters, Inc, Dec, FreedOnce;
    FreedSame(s, t);
    assert Counted(maxSize, t);
    hide Counted;
    assert Owned(t);
  }

  lemma ContentsKeep(maxSize: nat, s: State, c: map<MsgId, Content>)
    requires Inv(maxSize, s) && c.Keys == s.contents.Keys && forall m :: m in c ==> c[m].buf == s.contents[m].buf
    ensures Inv(maxSize, s.(contents := c))
  {
    var t := s.(contents := c);
    HoldersKeep(s.contents, c);
    hide Holders, MaxCounters, FreedOnce, Next;
    FreedSame(s, t);
    assert Owned(t);
    hide Owned;
  }

  lemma ShareStep(maxSize: nat, s: State, a: Step)
    requires Inv(maxSize, s) && Enabled(maxSize, s, a) && (a.Share? || a.Unshare?)
    ensures Inv(maxSize, Next(s, a)) && Touched(s, a) <= s.heap.Keys
  {
    hide Holders, MaxCounters, FreedOnce, Owned, SlotsSuffice;
    ContentsKeep(maxSize, s, Next(s, a).contents);
    assert Touched(s, a) <= s.heap.Keys;
    hide Counted;
  }

  lemma DecRefFacts(maxSize: nat, s: State, m: MsgId)
    requires MaxCounters(maxSize) + 1 < WRAP && Inv(maxSize, s) && Enabled(maxSize, s, DecRef(m))
    ensures var id := s.contents[m].buf;
            && id in s.heap && 0 < s.heap[id] < WRAP && Dec(s.heap[id]) == s.heap[id] - 1
            && id !in s.condemned && !(s.buf == Some(id) && s.pc == Dropped(false))
  {
    var id := s.contents[m].buf;
    assert m in Holders(s.contents, id);
    hide MaxCounters, FreedOnce;
  }

  lemma DecRefStep(maxSize: nat, s: State, m: MsgId)
    requires MaxCounters(maxSize) + 1 < WRAP && Inv(maxSize, s) && Enabled(maxSize, s, DecRef(m))
    ensures Inv(maxSize, Next(s, DecRef(m)))
  {
    var t := Next(s, DecRef(m));
    forall id
      ensures |Holders(t.contents, id)| == |Holders(s.contents, id)| - if s.contents[m].buf == id then 1 else 0
    {
      HoldersDrop(s.contents, m, id);
    }
    DecRefFacts(maxSize, s, m);
    hide Holders, MaxCounters, Dec, FreedOnce, Enabled;
    FreedSame(s, t);
    assert SlotsSuffice(maxSize, t);
    hide SlotsSuffice;
    DropCounted(maxSize, s, m, t);
    assert s.contents[m].buf in s.heap && t.heap.Keys == s.heap.Keys;
    hide Counted;
    assert Owned(t);
  }

  /** The counter and the messages of one buffer go down together. */
  lemma DropCounted(maxSize: nat, s: State, m: MsgId, t: State)
    requires Counted(maxSize, s) && m in s.contents && s.contents[m].buf in s.heap && s.heap[s.contents[m].buf] > 0
    requires t.heap == s.heap[s.contents[m].buf := s.heap[s.contents[m].buf] - 1]
    requires t.contents == s.contents - {m} && t.buf == s.buf && t.pc == s.pc
    ensures Counted(maxSize, t)
  {
    forall id | id in t.heap
      ensures t.heap[id] == Own(t, id) + |Holders(t.contents, id)| && |Holders(t.contents, id)| <= MaxCounters(maxSize)
    {
      HoldersDrop(s.contents, m, id);
      hide Holders, MaxCounters;
    }
  }

  lemma FreeStep(maxSize: nat, s: State, id: Id)
    requires Inv(maxSize, s) && Enabled(maxSize, s, Free(id))
    ensures Inv(maxSize, Next(s, Free(id)))
  {
    assert |Holders(s.contents, id)| == 0;
    assert forall m :: m in s.contents && s.contents[m].buf == id ==> m in Holders(s.contents, id);
    hide Holders, MaxCounters;
  }

  /** Every step keeps the invariant and touches allocated memory only. */
  lemma StepSafe(maxSize: nat, s: State, a: Step)
    requires MaxCounters(maxSize) + 1 < WRAP && Inv(maxSize, s) && Enabled(maxSize, s, a)
    ensures Inv(maxSize, Next(s, a))
    ensures Touched(s, a) <= s.heap.Keys
    ensures a.Reuse? ==> forall m :: m in s.contents ==> Some(s.contents[m].buf) != s.buf
    ensures a.NewMsg? ==> s.slots < MaxCounters(maxSize) && (s.slots + 1) * MAX_VSM_SIZE <= maxSize
  {
    match a
    case DropOwn => DropOwnStep(maxSize, s);
    case Release => ReleaseStep(maxSize, s);
    case Malloc => MallocStep(maxSize, s);
    case Reuse =>
      ReuseStep(maxSize, s);
      assert forall m :: m in s.contents && Some(s.contents[m].buf) == s.buf ==> m in Holders(s.contents, s.buf.value);
    case Skip(n) => SkipStep(maxSize, s, n);
    case NewMsg(m, size) => NewMsgStep(maxSize, s, m, size);
    case Share(m) => ShareStep(maxSize, s, a);
    case Unshare(m) => ShareStep(maxSize, s, a);
    case DecRef(m) => DecRefStep(maxSize, s, m);
    case Free(id) => FreeStep(maxSize, s, id);
    case Deallocate => DeallocateStep(maxSize, s);
  }

  // ---------------------------------------------------------------------
  // Whole runs

  ghost predicate IsRun(maxSize: nat, run: seq<Step>) {
    run != [] ==>
      && IsRun(maxSize, run[..|run| - 1])
      && Enabled(maxSize, After(run[..|run| - 1]), run[|run| - 1])
  }

  ghost function After(run: seq<Step>): State {
    if run == [] then START else Next(After(run[..|run| - 1]), run[|run| - 1])
  }

  lemma {:induction false} RunInv(maxSize: nat, run: seq<Step>)
    requires MaxCounters(maxSize) + 1 < WRAP && IsRun(maxSize, run)
    ensures Inv(maxSize, After(run))
  {
    if run != [] {
      RunInv(maxSize, run[..|run| - 1]);
      StepSafe(maxSize, After(run[..|run| - 1]), run[|run| - 1]);
    }
  }

  /** In every interleaving no buffer is used after it is freed, and none is freed twice. */
  lemma RunSafe(maxSize: nat, run: seq<Step>, a: Step)
    requires MaxCounters(maxSize) + 1 < WRAP && IsRun(maxSize, run) && Enabled(maxSize, After(run), a)
    ensures Touched(After(run), a) <= After(run).heap.Keys
    ensures forall i, j :: 0 <= i < j < |After(run).freed| ==> After(run).freed[i] != After(run).freed[j]
    ensures forall id :: id in After(run).freed ==> id !in After(run).heap
  {
    RunInv(maxSize, run);
    StepSafe(maxSize, After(run), a);
    hide Counted, Owned;
  }

  /** The copies of a message there are: one when it is made, one more for each share, one less for each close. */
  ghost function Copies(run: seq<Step>, m: MsgId): int {
    if run == [] then 0
    else
      var a, before := run[|run| - 1], Copies(run[..|run| - 1], m);
      if a.NewMsg? && a.m == m then 1
      else if a == Share(m) then before + 1
      else if a == Unshare(m) then before - 1
      else before
  }

  /** The buffer the decoder was filling when it made the message. */
  ghost function Home(run: seq<Step>, m: MsgId): Option<Id> {
    if run == [] then None
    else
      var a, init := run[|run| - 1], run[..|run| - 1];
      if a.NewMsg? && a.m == m then After(init).buf else Home(init, m)
  }

  /** The count in a message. */
  ghost function Refs(s: State, m: MsgId): nat {
    if m in s.contents then s.contents[m].refs else 0
  }

  lemma RefsNext(maxSize: nat, s: State, a: Step, m: MsgId)
    requires Enabled(maxSize, s, a)
    ensures Refs(Next(s, a), m) ==
            if a.NewMsg? && a.m == m then 1
            else if a == Share(m) then Refs(s, m) + 1
            else if a == Unshare(m) then Refs(s, m) - 1
            else Refs(s, m)
    ensures m in Next(s, a).contents ==>
              if a.NewMsg? && a.m == m then s.buf == Some(Next(s, a).contents[m].buf)
              else m in s.contents && Next(s, a).contents[m].buf == s.contents[m].buf
  {
  }

  /** In every run the count in a message is the number of its copies, and it stays on its buffer. */
  lemma {:induction false} RefsAreCopies(maxSize: nat, run: seq<Step>, m: MsgId)
    requires IsRun(maxSize, run)
    ensures var s := After(run);
            && Copies(run, m) == (if m in s.contents then s.contents[m].refs else 0)
            && (m in s.contents ==> Home(run, m) == Some(s.contents[m].buf))
  {
    if run != [] {
      RefsAreCopies(maxSize, run[..|run| - 1], m);
      RefsNext(maxSize, After(run[..|run| - 1]), run[|run| - 1], m);
      hide Next, Enabled;
    }
  }

  /** While a copy of a message is not closed, its buffer is allocated, not freed and not about to be. */
  lemma LiveCopy(maxSize: nat, run: seq<Step>, m: MsgId)
    requires MaxCounters(maxSize) + 1 < WRAP && IsRun(maxSize, run) && Copies(run, m) > 0
    ensures Home(run, m).Some?
    ensures var s, id := After(run), Home(run, m).value;
            && id in s.heap && s.heap[id] > 0 && id !in s.freed && id !in s.condemned
            && !(s.buf == Some(id) && s.pc == Dropped(false))
  {
    RefsAreCopies(maxSize, run, m);
    RunInv(maxSize, run);
    var s := After(run);
    assert m in Holders(s.contents, s.contents[m].buf);
    hide IsRun;
  }

  /** How much of the buffer is given away: all bytes skipped or made messages of since it was last empty. */
  ghost function Filled(run: seq<Step>): nat {
    if run == [] then 0
    else
      var before := Filled(run[..|run| - 1]);
      match run[|run| - 1]
      case Malloc => 0
      case Reuse => 0
      case Skip(n) => before + n
      case NewMsg(_, size) => before + size
      case _ => before
  }

  /** Where in its buffer the data of a message begin and end. */
  ghost function Place(run: seq<Step>, m: MsgId): (nat, nat) {
    if run == [] then (0, 0)
    else
      var a, init := run[|run| - 1], run[..|run| - 1];
      if a.NewMsg? && a.m == m then (Filled(init), Filled(init) + a.size) else Place(init, m)
  }

  /** Live messages lie inside their buffers and before what is still free. */
  ghost predicate Inside(maxSize: nat, run: seq<Step>) {
    var s := After(run);
    && s.used == Filled(run)
    && (forall m :: m in s.contents ==> Place(run, m).0 <= Place(run, m).1 <= maxSize)
    && (forall m :: m in s.contents && s.buf == Some(s.contents[m].buf) ==> Place(run, m).1 <= s.used)
  }

  /** Two live messages on one buffer lie one behind the other. */
  ghost predicate Apart(run: seq<Step>) {
    var c := After(run).contents;
    forall m, n :: m in c && n in c && m != n && c[m].buf == c[n].buf ==>
      Place(run, m).1 <= Place(run, n).0 || Place(run, n).1 <= Place(run, m).0
  }

  /** A buffer about to be filled from its start carries no message. */
  lemma StartsEmpty(maxSize: nat, s: State, a: Step)
    requires MaxCounters(maxSize) + 1 < WRAP && Inv(maxSize, s) && Enabled(maxSize, s, a) && (a.Malloc? || a.Reuse?)
    ensures forall m :: m in s.contents ==> Next(s, a).buf != Some(s.contents[m].buf)
  {
    forall m | m in s.contents ensures Next(s, a).buf != Some(s.contents[m].buf) {
      assert m in Holders(s.contents, s.contents[m].buf);
    }
  }

  /** What a step does to the messages' places and to the bytes used. */
  lemma Lays(maxSize: nat, s: State, a: Step)
    requires Enabled(maxSize, s, a) && (a.Reuse? ==> s.buf.Some?)
    ensures var t := Next(s, a);
            && (forall m :: m in t.contents ==>
                  if m in s.contents then t.contents[m].buf == s.contents[m].buf
                  else a.NewMsg? && a.m == m && s.buf == t.buf == Some(t.contents[m].buf))
            && t.used == (match a
                          case Malloc => 0
                          case Reuse => 0
                          case Skip(n) => s.used + n
                          case NewMsg(_, size) => s.used + size
                          case _ => s.used)
            && (t.buf.Some? && !a.Malloc? && !a.Reuse? ==> t.buf == s.buf)
            && (a.NewMsg? ==> a.m !in s.contents && t.used <= maxSize)
  {
  }

  lemma {:induction false} PlaceNext(run: seq<Step>, a: Step, m: MsgId)
    ensures Place(run + [a], m) == if a.NewMsg? && a.m == m then (Filled(run), Filled(run) + a.size) else Place(run, m)
    ensures After(run + [a]) == Next(After(run), a)
  {
    assert (run + [a])[..|run|] == run;
  }

  lemma {:induction false} InsideNext(maxSize: nat, run: seq<Step>, a: Step)
    requires Inside(maxSize, run) && Enabled(maxSize, After(run), a) && (a.Reuse? ==> After(run).buf.Some?)
    requires a.Malloc? || a.Reuse? ==>
               forall m :: m in After(run).contents ==> Next(After(run), a).buf != Some(After(run).contents[m].buf)
    ensures Inside(maxSize, run + [a])
  {
    assert (run + [a])[..|run|] == run;
    Lays(maxSize, After(run), a);
    forall m { PlaceNext(run, a, m); }
    hide Next, Enabled, Place;
  }

  lemma {:induction false} ApartNext(maxSize: nat, run: seq<Step>, a: Step)
    requires Inside(maxSize, run) && Apart(run) && Enabled(maxSize, After(run), a)
    requires a.Reuse? ==> After(run).buf.Some?
    ensures Apart(run + [a])
  {
    Lays(maxSize, After(run), a);
    forall m { PlaceNext(run, a, m); }
    hide Next, Enabled, Place, After, Filled;
  }

  lemma {:induction false} RunLaid(maxSize: nat, run: seq<Step>)
    requires MaxCounters(maxSize) + 1 < WRAP && IsRun(maxSize, run)
    ensures Inside(maxSize, run) && Apart(run)
  {
    if run != [] {
      var init, a := run[..|run| - 1], run[|run| - 1];
      RunLaid(maxSize, init);
      RunInv(maxSize, init);
      if a.Malloc? || a.Reuse? {
        StartsEmpty(maxSize, After(init), a);
      }
      hide Next, Inside, Apart, Counted, FreedOnce, SlotsSuffice, Enabled;
      InsideNext(maxSize, init, a);
      ApartNext(maxSize, init, a);
      assert run == init + [a];
    }
  }

  /** In every run no two live messages share a byte, and none reaches beyond its buffer. */
  lemma {:induction false} NoOverlap(maxSize: nat, run: seq<Step>, m: MsgId, n: MsgId)
    requires MaxCounters(maxSize) + 1 < WRAP && IsRun(maxSize, run)
    requires Copies(run, m) > 0 && Copies(run, n) > 0
    ensures Place(run, m).0 <= Place(run, m).1 <= maxSize
    ensures m != n && Home(run, m) == Home(run, n) ==>
              Place(run, m).1 <= Place(run, n).0 || Place(run, n).1 <= Place(run, m).0
  {
    RunLaid(maxSize, run);
    RefsAreCopies(maxSize, run, m);
    RefsAreCopies(maxSize, run, n);
    hide IsRun, After, Place, Home, Copies, Filled;
  }

  /** Once everything is closed, every buffer ever allocated was freed, exactly once. */
  lemma RunEnds(maxSize: nat, run: seq<Step>)
    requires MaxCounters(maxSize) + 1 < WRAP && IsRun(maxSize, run)
    requires var s := After(run); s.pc.Gone? && s.contents == map[] && s.condemned == {}
    ensures var s := After(run); s.heap == map[] && forall id: Id :: id < s.next <==> id in s.freed
  {
    RunInv(maxSize, run);
    var s := After(run);
    assert forall id :: Holders(s.contents, id) == {};
    assert s.heap.Keys <= s.condemned;
    assert s.heap == map[];
    hide Counted, Owned;
  }

  // ---------------------------------------------------------------------
  // The allocator's calls, with other threads running in between

  /** The steps message owners on any thread may take. */
  predicate OwnersStep(a: Step) {
    a.Share? || a.Unshare? || a.DecRef? || a.Free?
  }

  /** Message owners do not change where the allocator stands, and make no messages. */
  ghost predicate Elsewhere(s: State, t: State) {
    && t.buf == s.buf && t.pc == s.pc && t.next == s.next && t.used == s.used && t.slots == s.slots
    && forall m :: m in t.contents ==> m in s.contents && t.contents[m].buf == s.contents[m].buf
  }

  /** No slot of the allocator's buffer is in use, so no message is on it and its counter is 1. */
  lemma Alone(maxSize: nat, run: seq<Step>, s: State, buf: Id)
    requires MaxCounters(maxSize) + 1 < WRAP && IsRun(maxSize, run) && s == After(run)
    requires s.pc.Idle? && s.buf == Some(buf) && s.slots == 0
    ensures buf in s.heap && s.heap[buf] == 1 && Holders(s.contents, buf) == {}
  {
    RunInv(maxSize, run);
    hide IsRun, FreedOnce;
    assert |Holders(s.contents, buf)| == 0;
  }

  class Allocator {
    const maxSize: nat
    var s: State
    ghost var run: seq<Step>

    ghost predicate Valid()
      reads this
    {
      MaxCounters(maxSize) + 1 < WRAP && IsRun(maxSize, run) && s == After(run)
    }

    constructor (maxSize: nat)
      requires MaxCounters(maxSize) + 1 < WRAP
      ensures Valid() && this.maxSize == maxSize && s == START
    {
      this.maxSize, this.s, this.run := maxSize, START, [];
    }

    /** One atomic step of some thread. */
    method Do(a: Step)
      requires Valid() && Enabled(maxSize, s, a)
      modifies this
      ensures Valid() && s == Next(old(s), a)
    {
      s := Next(s, a);
      run := run + [a];
      assert run[..|run| - 1] == old(run);
    }

    /** Message owners run, whatever they do that is possible. */
    method Others(steps: seq<Step>)
      requires Valid()
      modifies this
      ensures Valid() && Elsewhere(old(s), s)
    {
      for i := 0 to |steps|
        invariant Valid() && Elsewhere(old(s), s)
      {
        if OwnersStep(steps[i]) && Enabled(maxSize, s, steps[i]) {
          Do(steps[i]);
        }
      }
    }

    /**
      Lines 60-99, other threads running before and after every access to the
      counter: whatever they do, the buffer returned carries no message.
     */
    method Allocate(between: nat -> seq<Step>) returns (buf: Id)
      requires Valid() && s.pc.Idle?
      modifies this
      ensures Valid() && s.pc.Idle? && s.buf == Some(buf)
      ensures buf in s.heap && s.heap[buf] == 1 && Holders(s.contents, buf) == {}
      ensures s.used == 0 && s.slots == 0
    {
      Others(between(0));
      if s.buf.Some? {
        Do(DropOwn);
        var inUse := s.pc.inUse;
        Others(between(1));
        if inUse {
          Do(Release);
          Others(between(2));
        }
      }
      if s.buf.None? {
        Do(Malloc);
      } else {
        Do(Reuse);
      }
      buf := s.buf.value;
      Alone(maxSize, run, s, buf);
      Others(between(3));
      Alone(maxSize, run, s, buf);
    }

    /** Lines 101-108; a second call finds no buffer and does nothing. */
    method Deallocate()
      requires Valid() && (s.pc.Idle? || s.pc.Gone?)
      modifies this
      ensures Valid() && s.pc.Gone? && s.buf.None? && (old(s.pc.Gone?) ==> s == old(s))
    {
      RunInv(maxSize, run);
      if s.pc.Idle? {
        Do(Step.Deallocate);
      }
    }
  }
}
