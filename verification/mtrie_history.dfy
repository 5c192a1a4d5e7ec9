/** Whole runs of the trie, and the shape being a function of the pairs stored. */
module MtrieHistory {
  import opened Bytes
  import opened MultiTrie
  import opened MtrieWalk
  import opened SubscriptionTrie

  // ---------------------------------------------------------------------
  // Any sequence of operations

  datatype Op = AddOp(key: Key, pipe: Pipe) | RmPrefixOp(key: Key, pipe: Pipe) | RmValueOp(pipe: Pipe, uniq: bool)

  /** The intended effect of one operation on the set of pairs. */
  function Apply(pairs: set<(Key, Pipe)>, op: Op): set<(Key, Pipe)> {
    match op
    case AddOp(k, p) => pairs + {(k, p)}
    case RmPrefixOp(k, p) => pairs - {(k, p)}
    case RmValueOp(p, _) => set kp | kp in pairs && kp.1 != p
  }

  function ApplyAll(ops: seq<Op>): set<(Key, Pipe)> {
    if ops == [] then {} else Apply(ApplyAll(ops[..|ops| - 1]), ops[|ops| - 1])
  }

  /** From empty, every run keeps the invariant and stands for the intended set. */
  method Run(ops: seq<Op>) returns (t: Mtrie)
    ensures t.Valid()
    ensures t.Subscriptions() == ApplyAll(ops)
  {
    hide Trie, Pairs;
    t := new Mtrie();
    assert ops[..0] == [];
    for i := 0 to |ops|
      invariant t.Valid() && fresh(t)
      invariant t.Subscriptions() == ApplyAll(ops[..i])
    {
      assert ops[..i + 1][..i] == ops[..i];
      match ops[i]
      case AddOp(k, p) =>
        var _ := t.Add(k, p);
      case RmPrefixOp(k, p) =>
        var _ := t.RmPrefix(k, p);
      case RmValueOp(p, uniq) =>
        var _ := t.RmValue(p, uniq);
    }
    assert ops[..|ops|] == ops;
  }

  // ---------------------------------------------------------------------
  // History independence

  /** Equal up to addresses and up to `_min` of a childless node. */
  ghost predicate Alike(n: Node, m: Node) {
    && n.pipes == m.pipes && n.count == m.count && n.live == m.live
    && (n.count > 0 ==> n.min == m.min)
    && forall b: Byte :: Child(n, b) == NULL <==> Child(m, b) == NULL
  }

  ghost predicate SameShape(h: Heap, x: Index, h': Heap, x': Index)
    requires Linked(h, x) && Linked(h', x')
  {
    && x.at.Keys == x'.at.Keys
    && forall k :: k in x.at ==> Alike(h[x.at[k]], h'[x'.at[k]])
  }

  ghost function Below(x: Index, k: Key): set<Key> {
    set j | j in x.at && k <= j
  }

  /** Every node but the root has a pipe at or below it. */
  lemma {:induction false} PipeBelow(h: Heap, x: Index, k: Key) returns (j: Key, p: Pipe)
    requires Trie(h, x) && k in x.at && k != []
    ensures k <= j && (j, p) in Pairs(h, x)
    decreases |Below(x, k)|
  {
    var n := h[x.at[k]];
    if n.pipes.Some? {
      j := k;
      p :| p in n.pipes.value;
    } else {
      assert Live(n) != {} by {
        assert n.live == |Live(n)| && n.live != 0;
      }
      var c :| c in Live(n);
      var down := Snoc(k, c);
      assert down in x.at;
      assert Below(x, down) < Below(x, k) by {
        assert k in Below(x, k) && k !in Below(x, down);
        assert k <= down;
      }
      SubsetSize(Below(x, down), Below(x, k));
      j, p := PipeBelow(h, x, down);
    }
  }

  lemma KeysInclude(h: Heap, x: Index, h': Heap, x': Index)
    requires Trie(h, x) && Trie(h', x') && Pairs(h, x) == Pairs(h', x')
    ensures x.at.Keys <= x'.at.Keys
  {
    forall k | k in x.at ensures k in x'.at {
      if k != [] {
        var j, p := PipeBelow(h, x, k);
        PrefixIn(h', x', j, |k|);
        assert j[..|k|] == k;
      }
    }
  }

  /** The range of a node is the span of its live children. */
  lemma RangeLe(n: Node, m: Node)
    requires NodeOk(n) && NodeOk(m) && n.count > 0 && m.count > 0
    requires forall b: Byte :: Child(n, b) == NULL <==> Child(m, b) == NULL
    ensures m.min <= n.min && n.min + n.count <= m.min + m.count
  {
    assert Child(m, n.min) != NULL && Child(m, n.min + n.count - 1) != NULL;
  }

  lemma AlikeNodes(n: Node, m: Node)
    requires NodeOk(n) && NodeOk(m) && PipesOf(n) == PipesOf(m)
    requires forall b: Byte :: Child(n, b) == NULL <==> Child(m, b) == NULL
    ensures Alike(n, m)
  {
    assert Live(n) == Live(m);
    LiveCount(n);
    LiveCount(m);
    if n.count > 0 {
      RangeLe(n, m);
      RangeLe(m, n);
    }
  }

  /** Two tries for the same pairs have the same shape, whatever their histories. */
  lemma ShapeIsCanonical(h: Heap, x: Index, h': Heap, x': Index)
    requires Trie(h, x) && Trie(h', x') && Pairs(h, x) == Pairs(h', x')
    ensures SameShape(h, x, h', x')
  {
    KeysInclude(h, x, h', x');
    KeysInclude(h', x', h, x);
    forall k | k in x.at ensures Alike(h[x.at[k]], h'[x'.at[k]]) {
      AlikeAt(h, x, h', x', k);
    }
  }

  lemma SamePipes(h: Heap, x: Index, h': Heap, x': Index, k: Key)
    requires Pairs(h, x) == Pairs(h', x')
    ensures PipesAt(h, x, k) == PipesAt(h', x', k)
  {
    PairsByKey(h, x);
    PairsByKey(h', x');
    hide Pairs, PipesAt;
    assert forall p :: p in PipesAt(h, x, k) <==> p in PipesAt(h', x', k) by {
      assert forall p :: (k, p) in Pairs(h, x) <==> (k, p) in Pairs(h', x');
    }
  }

  lemma AlikeAt(h: Heap, x: Index, h': Heap, x': Index, k: Key)
    requires Trie(h, x) && Trie(h', x') && Pairs(h, x) == Pairs(h', x') && x.at.Keys == x'.at.Keys && k in x.at
    ensures Alike(h[x.at[k]], h'[x'.at[k]])
  {
    var n, m := h[x.at[k]], h'[x'.at[k]];
    SamePipes(h, x, h', x', k);
    forall b: Byte ensures Child(n, b) == NULL <==> Child(m, b) == NULL {
      assert Child(n, b) == Look(x, Snoc(k, b)) && Child(m, b) == Look(x', Snoc(k, b));
    }
    hide Trie, Pairs, Alike;
    AlikeNodes(n, m);
  }

  /** Adding a new pair and taking it out again restores the structure. */
  method AddThenRemove(t: Mtrie, key: Key, pipe: Pipe)
    requires t.Valid() && (key, pipe) !in t.Subscriptions()
    modifies t
    ensures t.Valid()
    ensures SameShape(old(t.heap), old(t.index), t.heap, t.index)
  {
    hide Pairs, NodeOk, SameShape;
    ghost var h, x := t.heap, t.index;
    var _ := t.Add(key, pipe);
    var _ := t.RmPrefix(key, pipe);
    ShapeIsCanonical(h, x, t.heap, t.index);
  }
}
