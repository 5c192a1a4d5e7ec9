/**
  The subscription multi-trie of generic_mtrie_impl.hpp.

  Nodes live in an explicit store `heap` from addresses to node records, with
  address 0 for NULL.  A record that is deleted leaves the store, so every
  access proves that the node is still allocated, and an empty remainder proves
  that nothing leaks.  The ghost map `at` names the node reached by each byte
  string.
 */
module MultiTrie {
  import opened Wrappers
  import opened Bytes
  type Key = seq<Byte>
  type Pipe = nat
  type Addr = nat
  const NULL: Addr := 0

  // The union `_next`: one child, or a table of `_count` children.
  datatype Next = Single(node: Addr) | Table(table: seq<Addr>)

  datatype Node = Node(pipes: Option<set<Pipe>>, min: int, count: nat, live: int, next: Next)

  type Heap = map<Addr, Node>

  // Which node each byte string reaches, and back.
  datatype Index = Index(at: map<Key, Addr>, name: map<Addr, Key>)

  const EMPTY_NODE := Node(None, 0, 0, 0, Single(NULL))

  /** The pipes stored at a node, absent or not. */
  function PipesOf(n: Node): set<Pipe> {
    if n.pipes.Some? then n.pipes.value else {}
  }

  predicate IsRedundant(n: Node) {
    n.pipes.None? && n.live == 0
  }

  /** The child reached by byte `c`, or NULL. */
  function Child(n: Node, c: int): Addr {
    if n.count == 0 || c < n.min || n.min + n.count <= c then NULL
    else if n.count == 1 then (if n.next.Single? then n.next.node else NULL)
    else if n.next.Table? && c - n.min < |n.next.table| then n.next.table[c - n.min]
    else NULL
  }

  ghost function Live(n: Node): set<int> {
    set c: Byte | Child(n, c) != NULL :: c
  }

  /** The layout is consistent, but the table may have NULL ends. */
  ghost predicate Sound(n: Node) {
    && (n.pipes.Some? ==> n.pipes.value != {})
    && n.live == |Live(n)|
    && (n.count > 0 ==> 0 <= n.min && n.min + n.count <= 256)
    && (n.count == 1 ==> n.next.Single?)
    && (n.count > 1 ==> n.next.Table? && |n.next.table| == n.count)
  }

  ghost predicate Tight(n: Node) {
    n.count > 0 ==> Child(n, n.min) != NULL && Child(n, n.min + n.count - 1) != NULL
  }

  ghost predicate NodeOk(n: Node) {
    Sound(n) && Tight(n)
  }

  function Snoc(k: Key, c: Byte): (r: Key)
    ensures |r| == |k| + 1 && r[..|k|] == k && r[|k|] == c
  {
    k + [c]
  }

  function Look(x: Index, k: Key): Addr {
    if k in x.at then x.at[k] else NULL
  }

  function Bind(x: Index, k: Key, a: Addr): Index {
    Index(x.at[k := a], x.name[a := k])
  }

  function Unbind(x: Index, k: Key): Index
    requires k in x.at
  {
    Index(x.at - {k}, x.name - {x.at[k]})
  }

  /** The index names exactly the allocated nodes and follows the child pointers. */
  ghost predicate Linked(h: Heap, x: Index) {
    && [] in x.at
    && x.name.Keys == h.Keys
    && (forall k :: k in x.at ==> x.at[k] != NULL && x.at[k] in h && x.name[x.at[k]] == k)
    && (forall a :: a in x.name ==> x.name[a] in x.at && x.at[x.name[a]] == a)
    && (forall k, c :: Snoc(k, c) in x.at ==> k in x.at)
    && (forall k, c: Byte {:trigger Snoc(k, c)} :: k in x.at ==> Child(h[x.at[k]], c) == Look(x, Snoc(k, c)))
  }

  /** The invariant every operation keeps. */
  ghost predicate Trie(h: Heap, x: Index) {
    && Linked(h, x)
    && (forall k :: k in x.at ==> NodeOk(h[x.at[k]]))
    && (forall k :: k in x.at && k != [] ==> !IsRedundant(h[x.at[k]]))
  }

  ghost function PipesAt(h: Heap, x: Index, k: Key): set<Pipe>
  {
    if k in x.at && x.at[k] in h then PipesOf(h[x.at[k]]) else {}
  }

  /** What the trie stands for: the (key, pipe) pairs. */
  ghost function Pairs(h: Heap, x: Index): set<(Key, Pipe)> {
    set k, p | k in x.at && p in PipesAt(h, x, k) :: (k, p)
  }

  // ---------------------------------------------------------------------
  // Node layout

  /** More than one child slot means at least two live children. */
  lemma LiveCount(n: Node)
    requires NodeOk(n)
    ensures n.count == 0 <==> n.live == 0
    ensures n.count == 1 <==> n.live == 1
    ensures n.count > 1 <==> n.live > 1
  {
    var lo, hi := n.min, n.min + n.count - 1;
    if n.count == 0 {
      assert Live(n) == {};
    } else if n.count == 1 {
      assert Live(n) == {lo};
    } else {
      assert {lo, hi} <= Live(n);
      SubsetSize({lo, hi}, Live(n));
    }
  }

  lemma SubsetSize<T>(a: set<T>, b: set<T>)
    requires a <= b
    ensures |a| <= |b|
    ensures |a| == |b| ==> a == b
  {
    assert b == a + (b - a);
    assert |b| == |a| + |b - a|;
  }

  /** Lines 78-118: widen the range of a node so that it covers byte `c`. */
  function Extend(n: Node, c: Byte): (r: Node)
    requires Sound(n)
    requires c < n.min || n.min + n.count <= c
    ensures r.count > 0 && r.min <= c < r.min + r.count
    ensures r.pipes == n.pipes && r.live == n.live && Sound(r)
    ensures forall b: Byte :: Child(r, b) == Child(n, b)
    ensures r.min == c || r.min + r.count - 1 == c
    ensures Tight(n) ==> forall b :: b in {r.min, r.min + r.count - 1} && b != c ==> Child(r, b) != NULL
  {
    var r :=
      if n.count == 0 then
        n.(min := c, count := 1, next := Single(NULL))
      else if n.count == 1 then
        var newMin := if n.min < c then n.min else c;
        var newCount := (if n.min < c then c - n.min else n.min - c) + 1;
        var cleared := seq(newCount, _ => NULL);
        n.(min := newMin, count := newCount, next := Table(cleared[n.min - newMin := n.next.node]))
      else if n.min < c then
        var newCount := c - n.min + 1;
        n.(count := newCount, next := Table(n.next.table + seq(newCount - n.count, _ => NULL)))
      else
        n.(min := c, count := n.min + n.count - c, next := Table(seq(n.min - c, _ => NULL) + n.next.table));
    assert forall b: Byte :: Child(r, b) == Child(n, b);
    assert Live(r) == Live(n);
    r
  }

  /** Store `a` as the child for `c`, a byte in the node's range. */
  function SetChild(n: Node, c: int, a: Addr): (r: Node)
    requires Sound(n) && n.count > 0 && n.min <= c < n.min + n.count
    ensures r.pipes == n.pipes && r.live == n.live && r.min == n.min && r.count == n.count
    ensures forall b: Byte :: Child(r, b) == if b == c then a else Child(n, b)
    ensures r.count == 1 ==> r.next.Single?
    ensures r.count > 1 ==> r.next.Table? && |r.next.table| == r.count
  {
    if n.count == 1 then n.(next := Single(a))
    else n.(next := Table(n.next.table[c - n.min := a]))
  }

  lemma AddChild(n: Node, c: Byte, a: Addr)
    requires Sound(n) && n.count > 0 && n.min <= c < n.min + n.count
    requires Child(n, c) == NULL && a != NULL
    ensures Sound(SetChild(n, c, a).(live := n.live + 1))
  {
    var r := SetChild(n, c, a).(live := n.live + 1);
    assert forall b: Byte :: Child(r, b) == if b == c then a else Child(n, b);
    assert Live(r) == Live(n) + {c};
  }

  lemma DropChild(n: Node, c: Byte)
    requires Sound(n) && n.count > 0 && n.min <= c < n.min + n.count
    requires Child(n, c) != NULL
    ensures var r := SetChild(n, c, NULL).(live := n.live - 1);
            Sound(r) && forall b: Byte :: Child(r, b) == if b == c then NULL else Child(n, b)
  {
    var r := SetChild(n, c, NULL).(live := n.live - 1);
    assert forall b: Byte :: Child(r, b) == if b == c then NULL else Child(n, b);
    assert Live(r) == Live(n) - {c};
  }

  // ---------------------------------------------------------------------
  // Fresh addresses

  lemma FreshExists(s: set<Addr>)
    ensures exists a: Addr :: a != NULL && a !in s
  {
    var b := UpperBound(s);
    assert b + 1 !in s;
  }

  lemma UpperBound(s: set<Addr>) returns (b: Addr)
    ensures forall a :: a in s ==> a <= b
  {
    if s == {} {
      b := 0;
    } else {
      var x :| x in s;
      var y := UpperBound(s - {x});
      b := if x < y then y else x;
      assert forall a :: a in s ==> a == x || a in s - {x};
    }
  }

  // ---------------------------------------------------------------------
  // Changing one node at a time

  /** Replacing a node by one with the same children. */
  lemma Relink(h: Heap, x: Index, k: Key, n: Node)
    requires Linked(h, x) && k in x.at
    requires forall b: Byte :: Child(n, b) == Child(h[x.at[k]], b)
    ensures Linked(h[x.at[k] := n], x)
  {
  }

  /** Hanging a fresh childless node under `k`. */
  lemma LinkNew(h: Heap, x: Index, k: Key, c: Byte, a: Addr, n: Node)
    requires Linked(h, x) && k in x.at && Snoc(k, c) !in x.at
    requires a != NULL && a !in h
    requires forall b: Byte :: Child(n, b) == if b == c then a else Child(h[x.at[k]], b)
    ensures Linked(h[x.at[k] := n][a := EMPTY_NODE], Bind(x, Snoc(k, c), a))
  {
  }

  /** Deleting the childless child `c` of `k`. */
  lemma Unlink(h: Heap, x: Index, k: Key, c: Byte, n: Node)
    requires Linked(h, x) && k in x.at && Snoc(k, c) in x.at
    requires forall b: Byte :: Child(h[x.at[Snoc(k, c)]], b) == NULL
    requires forall b: Byte :: Child(n, b) == if b == c then NULL else Child(h[x.at[k]], b)
    ensures Linked((h - {x.at[Snoc(k, c)]})[x.at[k] := n], Unbind(x, Snoc(k, c)))
  {
    var gone := Snoc(k, c);
    assert forall b: Byte :: Snoc(gone, b) !in x.at;
  }

  lemma PairsSame(h: Heap, x: Index, h': Heap, x': Index)
    requires forall k :: PipesAt(h', x', k) == PipesAt(h, x, k)
    ensures Pairs(h', x') == Pairs(h, x)
  {
  }

  lemma EmptyOk()
    ensures NodeOk(EMPTY_NODE)
  {
    assert Live(EMPTY_NODE) == {};
  }

  lemma SameChildren(n: Node, m: Node)
    requires n.pipes.Some? ==> n.pipes.value != {}
    requires NodeOk(m) && n == m.(pipes := n.pipes)
    ensures NodeOk(n)
    ensures forall b: Byte :: Child(n, b) == Child(m, b)
  {
    assert forall b: Byte :: Child(n, b) == Child(m, b);
    assert Live(n) == Live(m);
  }

  lemma PairsAdd(h: Heap, x: Index, k: Key, pipe: Pipe, n: Node)
    requires k in x.at && x.at[k] in h
    requires forall j :: j in x.at && x.at[j] == x.at[k] ==> j == k
    requires PipesOf(n) == PipesOf(h[x.at[k]]) + {pipe}
    ensures Pairs(h[x.at[k] := n], x) == Pairs(h, x) + {(k, pipe)}
  {
    var h' := h[x.at[k] := n];
    assert forall j :: PipesAt(h', x, j) == PipesAt(h, x, j) + if j == k then {pipe} else {};
  }

  lemma PairsErase(h: Heap, x: Index, k: Key, pipe: Pipe, n: Node)
    requires k in x.at && x.at[k] in h
    requires forall j :: j in x.at && x.at[j] == x.at[k] ==> j == k
    requires PipesOf(n) == PipesOf(h[x.at[k]]) - {pipe}
    ensures Pairs(h[x.at[k] := n], x) == Pairs(h, x) - {(k, pipe)}
  {
    var h' := h[x.at[k] := n];
    assert forall j :: PipesAt(h', x, j) == PipesAt(h, x, j) - if j == k then {pipe} else {};
  }

  lemma PairsAt(h: Heap, x: Index, k: Key, p: Pipe)
    ensures (k, p) in Pairs(h, x) <==> p in PipesAt(h, x, k)
  {
  }

  // ---------------------------------------------------------------------
  // One step of add: the node for `k` gets the child for `c`

  /** A trie, except that the node for `k` may be redundant. */
  ghost predicate TrieExcept(h: Heap, x: Index, k: Key) {
    && Linked(h, x)
    && k in x.at
    && (forall j :: j in x.at ==> NodeOk(h[x.at[j]]))
    && (forall j :: j in x.at && j != [] && j != k ==> !IsRedundant(h[x.at[j]]))
  }

  /** Lines 75-143: widen the range if needed and create the missing child. */
  method WithChild(n: Node, c: Byte, a: Addr) returns (r: Node)
    requires NodeOk(n) && Child(n, c) == NULL && a != NULL
    ensures NodeOk(r) && r.pipes == n.pipes && r.live > 0
    ensures forall b: Byte :: Child(r, b) == if b == c then a else Child(n, b)
  {
    var m := if c < n.min || n.min + n.count <= c then Extend(n, c) else n;
    AddChild(m, c, a);
    r := SetChild(m, c, a).(live := m.live + 1);
  }

  lemma GrowStep(h: Heap, x: Index, k: Key, c: Byte, a: Addr, n: Node)
    requires TrieExcept(h, x, k) && Snoc(k, c) !in x.at
    requires a != NULL && a !in h
    requires NodeOk(n) && n.pipes == h[x.at[k]].pipes && n.live > 0
    requires forall b: Byte :: Child(n, b) == if b == c then a else Child(h[x.at[k]], b)
    ensures TrieExcept(h[x.at[k] := n][a := EMPTY_NODE], Bind(x, Snoc(k, c), a), Snoc(k, c))
    ensures Pairs(h[x.at[k] := n][a := EMPTY_NODE], Bind(x, Snoc(k, c), a)) == Pairs(h, x)
  {
    hide NodeOk, Pairs;
    LinkNew(h, x, k, c, a, n);
    EmptyOk();
    GrowPairs(h, x, k, c, a, n);
    hide Child;
  }

  lemma GrowPairs(h: Heap, x: Index, k: Key, c: Byte, a: Addr, n: Node)
    requires Linked(h, x) && k in x.at && Snoc(k, c) !in x.at && a !in h && n.pipes == h[x.at[k]].pipes
    ensures Pairs(h[x.at[k] := n][a := EMPTY_NODE], Bind(x, Snoc(k, c), a)) == Pairs(h, x)
  {
    hide Pairs, Child;
    PairsSame(h, x, h[x.at[k] := n][a := EMPTY_NODE], Bind(x, Snoc(k, c), a));
  }

  lemma GrowSkip(h: Heap, x: Index, k: Key, c: Byte)
    requires TrieExcept(h, x, k) && Snoc(k, c) in x.at
    ensures TrieExcept(h, x, Snoc(k, c))
  {
    LiveCount(h[x.at[k]]);
    assert Child(h[x.at[k]], c) == x.at[Snoc(k, c)];
  }

  /** A node replaced by one with the same children. */
  lemma {:induction false} TrieExceptUpdate(h: Heap, x: Index, k: Key, n: Node)
    requires TrieExcept(h, x, k) && NodeOk(n) && forall b: Byte :: Child(n, b) == Child(h[x.at[k]], b)
    ensures TrieExcept(h[x.at[k] := n], x, k)
    ensures forall j :: j in x.at && x.at[j] == x.at[k] ==> j == k
  {
    hide NodeOk;
    Relink(h, x, k, n);
    assert forall j :: j in x.at && x.at[j] == x.at[k] ==> j == k;
    hide Child;
  }

  lemma {:induction false} GrowEnd(h: Heap, x: Index, k: Key, pipe: Pipe, n: Node)
    requires TrieExcept(h, x, k)
    requires n == h[x.at[k]].(pipes := Some(PipesOf(h[x.at[k]]) + {pipe}))
    ensures Trie(h[x.at[k] := n], x)
    ensures Pairs(h[x.at[k] := n], x) == Pairs(h, x) + {(k, pipe)}
    ensures h[x.at[k]].pipes.None? <==> forall p :: (k, p) !in Pairs(h, x)
  {
    SameChildren(n, h[x.at[k]]);
    assert h[x.at[k]].pipes.None? <==> PipesOf(h[x.at[k]]) == {};
    hide NodeOk, Pairs, Child;
    TrieExceptUpdate(h, x, k, n);
    PairsAdd(h, x, k, pipe, n);
    GrowPipes(h, x, k);
    hide Linked;
  }

  lemma {:induction false} GrowPipes(h: Heap, x: Index, k: Key)
    requires k in x.at && x.at[k] in h
    ensures PipesOf(h[x.at[k]]) == {} <==> forall p :: (k, p) !in Pairs(h, x)
  {
    forall p: Pipe ensures (k, p) in Pairs(h, x) <==> p in PipesOf(h[x.at[k]]) {
      PairsAt(h, x, k, p);
    }
  }

  // ---------------------------------------------------------------------
  // Removing a child and compacting the table

  method FirstLive(table: seq<Addr>, from: nat) returns (i: nat)
    requires exists j :: from <= j < |table| && table[j] != NULL
    ensures from <= i < |table| && table[i] != NULL
    ensures forall j :: from <= j < i ==> table[j] == NULL
  {
    i := from;
    while i < |table| && table[i] == NULL
      invariant from <= i
      invariant forall j :: from <= j < i && j < |table| ==> table[j] == NULL
    {
      i := i + 1;
    }
  }

  method LastLive(table: seq<Addr>) returns (i: nat)
    requires exists j :: 0 <= j < |table| - 1 && table[j] != NULL
    ensures 1 <= i < |table| && table[|table| - 1 - i] != NULL
    ensures forall j :: |table| - 1 - i < j < |table| - 1 ==> table[j] == NULL
  {
    i := 1;
    while i < |table| && table[|table| - 1 - i] == NULL
      invariant 1 <= i
      invariant forall j :: |table| - 1 - i < j < |table| - 1 && 0 <= j ==> table[j] == NULL
    {
      i := i + 1;
    }
  }

  /** A narrower range that keeps every live child. */
  lemma Narrow(n: Node, r: Node)
    requires Sound(n) && n.count > 1 && n.live > 0
    requires r.pipes == n.pipes && r.live == n.live && r.count > 0
    requires n.min <= r.min && r.min + r.count <= n.min + n.count
    requires r.count == 1 ==> r.next == Single(n.next.table[r.min - n.min])
    requires r.count > 1 ==> r.next == Table(n.next.table[r.min - n.min..r.min - n.min + r.count])
    requires forall b: Byte :: Child(n, b) != NULL ==> r.min <= b < r.min + r.count
    ensures Sound(r) && forall b: Byte :: Child(r, b) == Child(n, b)
  {
    assert forall b: Byte :: Child(r, b) == Child(n, b);
    assert Live(r) == Live(n);
  }

  lemma OnlyLive(n: Node, c: Byte)
    requires Sound(n) && n.live == 1 && Child(n, c) != NULL
    ensures forall b: Byte :: Child(n, b) != NULL ==> b == c
  {
    SubsetSize({c}, Live(n));
    forall b: Byte | Child(n, b) != NULL ensures b == c {
      assert b in Live(n);
    }
  }

  lemma TwoLive(n: Node, c: Byte)
    requires Sound(n) && n.live > 1
    ensures exists b: Byte :: b != c && Child(n, b) != NULL
  {
    if forall b: Byte :: Child(n, b) != NULL ==> b == c {
      assert Live(n) <= {c};
      SubsetSize(Live(n), {c});
    }
  }

  /** Lines 476-491: one live child is left, switch to the single-node form. */
  method CompactToSingle(m: Node) returns (r: Node)
    requires Sound(m) && m.count > 1 && m.live == 1
    ensures NodeOk(r) && r.pipes == m.pipes && r.live == m.live
    ensures forall b: Byte :: Child(r, b) == Child(m, b)
  {
    ghost var any :| any in Live(m);
    assert m.next.table[any - m.min] != NULL;
    var i := FirstLive(m.next.table, 0);
    r := m.(min := m.min + i, count := 1, next := Single(m.next.table[i]));
    assert Child(m, m.min + i) == m.next.table[i];
    OnlyLive(m, m.min + i);
    Narrow(m, r);
  }

  /** Lines 492-509: the leftmost child is gone. */
  method CompactLeft(m: Node) returns (r: Node)
    requires Sound(m) && m.count > 1 && m.live > 1
    requires m.next.table[0] == NULL && m.next.table[m.count - 1] != NULL
    ensures NodeOk(r) && r.pipes == m.pipes && r.live == m.live
    ensures forall b: Byte :: Child(r, b) == Child(m, b)
  {
    var i := FirstLive(m.next.table, 1);
    TwoLive(m, m.min + m.count - 1);
    forall b: Byte | Child(m, b) != NULL ensures m.min + i <= b {
      assert Child(m, b) == m.next.table[b - m.min];
    }
    r := m.(min := m.min + i, count := m.count - i, next := Table(m.next.table[i..]));
    Narrow(m, r);
  }

  /** Lines 510-528: the rightmost child is gone. */
  method CompactRight(m: Node) returns (r: Node)
    requires Sound(m) && m.count > 1 && m.live > 1
    requires m.next.table[0] != NULL && m.next.table[m.count - 1] == NULL
    ensures NodeOk(r) && r.pipes == m.pipes && r.live == m.live
    ensures forall b: Byte :: Child(r, b) == Child(m, b)
  {
    var i := LastLive(m.next.table);
    TwoLive(m, m.min);
    forall b: Byte | Child(m, b) != NULL ensures b < m.min + m.count - i {
      assert Child(m, b) == m.next.table[b - m.min];
    }
    r := m.(count := m.count - i, next := Table(m.next.table[..m.count - i]));
    Narrow(m, r);
  }

  /** Lines 461-530: forget the deleted child `c` and compact the table. */
  method RemoveChild(n: Node, c: Byte) returns (r: Node)
    requires NodeOk(n) && Child(n, c) != NULL
    ensures NodeOk(r) && r.pipes == n.pipes && r.live == n.live - 1
    ensures forall b: Byte :: Child(r, b) == if b == c then NULL else Child(n, b)
  {
    LiveCount(n);
    if n.count == 1 {
      r := n.(next := Single(NULL), count := 0, live := n.live - 1);
      assert r.live == 0;
      assert Live(r) == {};
    } else {
      assert n.live > 1;
      DropChild(n, c);
      r := SetChild(n, c, NULL).(live := n.live - 1);
      assert Child(r, n.min) == r.next.table[0];
      assert Child(r, n.min + n.count - 1) == r.next.table[n.count - 1];
      if r.live == 1 {
        r := CompactToSingle(r);
      } else if c == n.min {
        r := CompactLeft(r);
      } else if c == n.min + n.count - 1 {
        r := CompactRight(r);
      }
    }
  }

  // ---------------------------------------------------------------------
  // Removing one pair

  datatype RmResult = NotFound | LastValueRemoved | ValuesRemain

  // A stack entry of either rm routine.
  datatype Iter = Iter(node: Addr, next: Addr, rest: Key, size: nat, child: int,
                       newMin: int, newMax: int, processed: bool)

  lemma {:induction false} PrefixIn(h: Heap, x: Index, k: Key, i: nat)
    requires Linked(h, x) && k in x.at && i <= |k|
    ensures k[..i] in x.at
    decreases |k| - i
  {
    if i == |k| {
      assert k[..i] == k;
    } else {
      PrefixIn(h, x, k, i + 1);
      assert k[..i + 1] == Snoc(k[..i], k[i]);
    }
  }

  /** What std::set::erase leaves, the set being deleted once it is empty. */
  function Without(pipes: Option<set<Pipe>>, pipe: Pipe): Option<set<Pipe>> {
    if pipes.None? || pipes.value - {pipe} == {} then None else Some(pipes.value - {pipe})
  }

  lemma {:induction false} EraseAt(h: Heap, x: Index, k: Key, pipe: Pipe, n: Node)
    requires TrieExcept(h, x, k)
    requires n == h[x.at[k]].(pipes := Without(h[x.at[k]].pipes, pipe))
    ensures TrieExcept(h[x.at[k] := n], x, k)
    ensures Pairs(h[x.at[k] := n], x) == Pairs(h, x) - {(k, pipe)}
  {
    SameChildren(n, h[x.at[k]]);
    hide NodeOk, Pairs, Child;
    TrieExceptUpdate(h, x, k, n);
    PairsErase(h, x, k, pipe, n);
  }

  /** Deleting the redundant child `c` of `k`. */
  lemma PruneStep(h: Heap, x: Index, k: Key, c: Byte, n: Node)
    requires TrieExcept(h, x, Snoc(k, c)) && IsRedundant(h[x.at[Snoc(k, c)]])
    requires k in x.at && NodeOk(n) && n.pipes == h[x.at[k]].pipes
    requires forall b: Byte :: Child(n, b) == if b == c then NULL else Child(h[x.at[k]], b)
    ensures h[x.at[Snoc(k, c)]].count == 0
    ensures TrieExcept((h - {x.at[Snoc(k, c)]})[x.at[k] := n], Unbind(x, Snoc(k, c)), k)
    ensures Pairs((h - {x.at[Snoc(k, c)]})[x.at[k] := n], Unbind(x, Snoc(k, c))) == Pairs(h, x)
  {
    LiveCount(h[x.at[Snoc(k, c)]]);
    hide NodeOk, Pairs;
    Unlink(h, x, k, c, n);
    PrunePairs(h, x, k, c, n);
  }

  lemma {:induction false} PruneFacts(h: Heap, x: Index, k: Key, c: Byte)
    requires TrieExcept(h, x, Snoc(k, c)) && k in x.at
    ensures x.at[k] in h && NodeOk(h[x.at[k]]) && x.at[Snoc(k, c)] in h
    ensures Child(h[x.at[k]], c) == x.at[Snoc(k, c)] != NULL
  {
    hide NodeOk, Child;
  }

  lemma PrunePairs(h: Heap, x: Index, k: Key, c: Byte, n: Node)
    requires Linked(h, x) && k in x.at && Snoc(k, c) in x.at
    requires PipesOf(h[x.at[Snoc(k, c)]]) == {} && n.pipes == h[x.at[k]].pipes
    ensures Pairs((h - {x.at[Snoc(k, c)]})[x.at[k] := n], Unbind(x, Snoc(k, c))) == Pairs(h, x)
  {
    PairsSame(h, x, (h - {x.at[Snoc(k, c)]})[x.at[k] := n], Unbind(x, Snoc(k, c)));
  }

  /** The facts a descent needs, one node at a time. */
  lemma Descend(h: Heap, x: Index, k: Key, c: Byte)
    requires Trie(h, x) && k in x.at
    ensures x.at[k] in h && TrieExcept(h, x, k)
    ensures Child(h[x.at[k]], c) == Look(x, Snoc(k, c))
    ensures Child(h[x.at[k]], c) == NULL <==> Snoc(k, c) !in x.at
    ensures Snoc(k, c) in x.at ==> TrieExcept(h, x, Snoc(k, c))
  {
  }

  /** The root may be redundant. */
  lemma TrieEnd(h: Heap, x: Index)
    ensures Trie(h, x) <==> TrieExcept(h, x, [])
    ensures Trie(h, x) ==> [] in x.at && x.at[[]] in h
  {
  }

  /** The stack of rm(prefix): one processed entry for each proper prefix. */
  ghost predicate Trail(x: Index, prefix: Key, stack: seq<Iter>, d: nat) {
    && d <= |prefix| && d <= |stack|
    && (forall i :: 0 <= i <= d ==> prefix[..i] in x.at)
    && forall i :: 0 <= i < d ==>
         && stack[i].processed
         && stack[i].node == x.at[prefix[..i]]
         && stack[i].next == x.at[prefix[..i + 1]]
         && stack[i].child == prefix[i]
  }

  lemma TrailStart(x: Index, prefix: Key, stack: seq<Iter>)
    requires [] in x.at
    ensures Trail(x, prefix, stack, 0)
  {
    assert prefix[..0] == [];
  }

  lemma TrailTop(x: Index, prefix: Key, stack: seq<Iter>, d: nat)
    requires Trail(x, prefix, stack, d)
    ensures d <= |prefix| && prefix[..d] in x.at
    ensures d > 0 ==> var it := stack[d - 1]; var k := prefix[..d - 1];
              it.processed && k in x.at && it.node == x.at[k] && it.child == prefix[d - 1]
              && Snoc(k, prefix[d - 1]) == prefix[..d] && it.next == x.at[prefix[..d]]
  {
    if d > 0 {
      assert Snoc(prefix[..d - 1], prefix[d - 1]) == prefix[..d];
      assert stack[d - 1].next == x.at[prefix[..d]];
    }
  }

  lemma TrailCut(x: Index, prefix: Key, stack: seq<Iter>, d: nat)
    requires Trail(x, prefix, stack, d)
    ensures Trail(x, prefix, stack[..d], d)
  {
  }

  lemma TrailPush(x: Index, prefix: Key, stack: seq<Iter>, d: nat, it: Iter, top: Iter)
    requires Trail(x, prefix, stack, d) && |stack| == d < |prefix|
    requires it.processed && it.node == x.at[prefix[..d]] && it.child == prefix[d]
    requires Snoc(prefix[..d], prefix[d]) in x.at && it.next == x.at[Snoc(prefix[..d], prefix[d])]
    ensures Trail(x, prefix, stack + [it, top], d + 1)
  {
    assert Snoc(prefix[..d], prefix[d]) == prefix[..d + 1];
  }

  lemma TrailPop(x: Index, x': Index, prefix: Key, stack: seq<Iter>, d: nat)
    requires Trail(x, prefix, stack, d + 1) && d < |stack|
    requires forall j :: j in x.at && j != prefix[..d + 1] ==> j in x'.at && x'.at[j] == x.at[j]
    ensures Trail(x', prefix, stack[..d], d)
  {
    assert forall i :: 0 <= i <= d + 1 ==> |prefix[..i]| == i;
  }

  /** The promised effect of rm(prefix) on the set of pairs. */
  ghost predicate RmSpec(was: set<(Key, Pipe)>, now: set<(Key, Pipe)>, prefix: Key, pipe: Pipe, ret: RmResult) {
    && now == was - {(prefix, pipe)}
    && (ret.NotFound? <==> (prefix, pipe) !in was)
    && (ret.LastValueRemoved? <==> (prefix, pipe) in was && forall p :: (prefix, p) in was ==> p == pipe)
  }

  lemma RmMeans(was: set<(Key, Pipe)>, now: set<(Key, Pipe)>, prefix: Key, pipe: Pipe, ret: RmResult)
    requires RmSpec(was, now, prefix, pipe, ret)
    ensures now == was - {(prefix, pipe)}
    ensures ret.NotFound? <==> (prefix, pipe) !in was
    ensures ret.LastValueRemoved? <==> (prefix, pipe) in was && forall p :: (prefix, p) in was ==> p == pipe
  {
  }

  lemma FoundAt(h: Heap, x: Index, k: Key, pipe: Pipe)
    requires TrieExcept(h, x, k)
    ensures h[x.at[k]].pipes.Some? ==> h[x.at[k]].pipes.value != {}
    ensures RmSpec(Pairs(h, x), Pairs(h, x) - {(k, pipe)}, k, pipe,
                   if pipe !in PipesOf(h[x.at[k]]) then NotFound
                   else if Without(h[x.at[k]].pipes, pipe).None? then LastValueRemoved else ValuesRemain)
  {
    var here := PipesOf(h[x.at[k]]);
    forall p: Pipe ensures (k, p) in Pairs(h, x) <==> p in here {
      PairsAt(h, x, k, p);
    }
    if pipe in here && here != {pipe} {
      assert exists q :: q in here - {pipe} by {
        assert here == {pipe} + (here - {pipe});
      }
      var other :| other in here - {pipe};
      assert (k, other) in Pairs(h, x);
    }
  }

  lemma NotFoundAt(h: Heap, x: Index, k: Key, i: nat, pipe: Pipe)
    requires Linked(h, x) && i <= |k| && k[..i] !in x.at
    ensures RmSpec(Pairs(h, x), Pairs(h, x), k, pipe, NotFound)
  {
    if k in x.at {
      PrefixIn(h, x, k, i);
    }
  }

  // ---------------------------------------------------------------------
  // Matching

  // A callback of match: the length of the key reached, and the pipe.
  type Hit = (nat, Pipe)

  ghost predicate Increasing(hits: seq<Hit>) {
    forall i, j :: 0 <= i < j < |hits| ==>
      hits[i].0 < hits[j].0 || (hits[i].0 == hits[j].0 && hits[i].1 < hits[j].1)
  }

  /** `hits` lists the pairs whose key is a prefix of `data` shorter than `n`. */
  ghost predicate Matched(hits: seq<Hit>, pairs: set<(Key, Pipe)>, data: Key, n: nat) {
    && Increasing(hits)
    && forall j: nat, p: Pipe :: (j, p) in hits <==> j < n && j <= |data| && (data[..j], p) in pairs
  }

  lemma MatchedMeans(hits: seq<Hit>, pairs: set<(Key, Pipe)>, data: Key)
    requires Matched(hits, pairs, data, |data| + 1)
    ensures forall j: nat, p: Pipe :: (j, p) in hits <==> j <= |data| && (data[..j], p) in pairs
    ensures forall i, j :: 0 <= i < j < |hits| ==>
              hits[i].0 < hits[j].0 || (hits[i].0 == hits[j].0 && hits[i].1 < hits[j].1)
  {
  }

  ghost predicate Least(p: Pipe, s: set<Pipe>) {
    p in s && forall q :: q in s ==> p <= q
  }

  lemma {:induction false} LeastExists(s: set<Pipe>)
    requires s != {}
    ensures exists p :: Least(p, s)
  {
    var x :| x in s;
    if s == {x} {
      assert Least(x, s);
    } else {
      assert s - {x} != {};
      LeastExists(s - {x});
      var y :| Least(y, s - {x});
      forall q | q in s ensures x <= q || y <= q {
        assert q == x || q in s - {x};
      }
      assert Least(if x < y then x else y, s);
    }
  }

  /** `r` is `hits` followed by the pipes in `sent`, all of them at the key of length `i`. */
  ghost predicate Signalled(r: seq<Hit>, hits: seq<Hit>, i: nat, sent: set<Pipe>) {
    && Increasing(r)
    && forall j: nat, p: Pipe :: (j, p) in r <==> (j, p) in hits || (j == i && p in sent)
  }

  lemma SignalNext(r: seq<Hit>, hits: seq<Hit>, i: nat, sent: set<Pipe>, p: Pipe)
    requires Signalled(r, hits, i, sent) && forall h :: h in hits ==> h.0 < i
    requires forall q :: q in sent ==> q < p
    ensures Signalled(r + [(i, p)], hits, i, sent + {p})
  {
    forall k | 0 <= k < |r| ensures r[k].0 < i || (r[k].0 == i && r[k].1 < p) {
      assert (r[k].0, r[k].1) in r;
    }
  }

  /** Lines 546-552: call back for each pipe of a node, in the set's order. */
  method Signal(pipes: set<Pipe>, i: nat, hits: seq<Hit>) returns (r: seq<Hit>)
    requires Increasing(hits) && forall h :: h in hits ==> h.0 < i
    ensures Signalled(r, hits, i, pipes)
  {
    r := hits;
    var rest := pipes;
    while rest != {}
      invariant rest <= pipes && Signalled(r, hits, i, pipes - rest)
      invariant forall p, q :: p in pipes - rest && q in rest ==> p < q
    {
      hide Signalled;
      LeastExists(rest);
      var p :| p in rest && forall q :: q in rest ==> p <= q;
      SignalNext(r, hits, i, pipes - rest, p);
      assert pipes - (rest - {p}) == pipes - rest + {p};
      r := r + [(i, p)];
      rest := rest - {p};
    }
    assert pipes - rest == pipes;
  }

  lemma MatchedNone(pairs: set<(Key, Pipe)>, data: Key)
    ensures Matched([], pairs, data, 0)
  {
  }

  lemma MatchedShort(hits: seq<Hit>, pairs: set<(Key, Pipe)>, data: Key, n: nat)
    requires Matched(hits, pairs, data, n)
    ensures Increasing(hits) && forall h :: h in hits ==> h.0 < n
  {
    forall h | h in hits ensures h.0 < n {
      assert (h.0, h.1) in hits;
    }
  }

  lemma MatchedNext(r: seq<Hit>, hits: seq<Hit>, h: Heap, x: Index, data: Key, i: nat)
    requires Matched(hits, Pairs(h, x), data, i) && i <= |data| && data[..i] in x.at && x.at[data[..i]] in h
    requires Signalled(r, hits, i, PipesOf(h[x.at[data[..i]]]))
    ensures Matched(r, Pairs(h, x), data, i + 1)
  {
    forall p: Pipe ensures (data[..i], p) in Pairs(h, x) <==> p in PipesOf(h[x.at[data[..i]]]) {
      PairsAt(h, x, data[..i], p);
    }
  }

  lemma MatchedAll(hits: seq<Hit>, h: Heap, x: Index, data: Key, i: nat)
    requires Matched(hits, Pairs(h, x), data, i + 1) && Linked(h, x) && i <= |data|
    requires i < |data| ==> data[..i + 1] !in x.at
    ensures Matched(hits, Pairs(h, x), data, |data| + 1)
  {
    forall j: nat, p: Pipe | i < j <= |data| ensures (data[..j], p) !in Pairs(h, x) {
      assert data[..j][..i + 1] == data[..i + 1];
      if data[..j] in x.at {
        PrefixIn(h, x, data[..j], i + 1);
      }
    }
  }
}
