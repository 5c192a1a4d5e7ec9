/**
  The state of rm(value) between two iterations of its loop, lines 181-391 of
  generic_mtrie_impl.hpp: which pairs are gone, which callbacks were made, and
  how the nodes on the stack may break the node invariant.
 */
module MtrieWalk {
  import opened Lexicographic
  import opened Bytes
  import opened MultiTrie

  /** The record reached by `k`. */
  ghost function NodeAt(h: Heap, x: Index, k: Key): Node {
    if k in x.at && x.at[k] in h then h[x.at[k]] else EMPTY_NODE
  }

  /** The boundary after `path` and its extensions by bytes below `c`. */
  function Cut(path: seq<int>, c: int): seq<int> {
    path + [c]
  }

  // What the traversal started from.
  datatype Origin = Origin(h: Heap, x: Index, pipe: Pipe, uniq: bool)

  /** The key gets a callback. */
  ghost predicate Fires(o: Origin, k: Key) {
    && o.pipe in PipesAt(o.h, o.x, k)
    && (o.uniq ==> PipesAt(o.h, o.x, k) == {o.pipe})
  }

  /** The pipe is gone from the keys before `cut`, and nothing else changed. */
  ghost predicate Visited(o: Origin, h: Heap, x: Index, cut: seq<int>) {
    && (forall k :: k in x.at ==> k in o.x.at && x.at[k] == o.x.at[k])
    && (forall k :: k in o.x.at ==>
         PipesAt(h, x, k) == if Lex(k, cut) then PipesAt(o.h, o.x, k) - {o.pipe} else PipesAt(o.h, o.x, k))
    && (forall k :: k in o.x.at && !Lex(k, cut) ==> k in x.at && NodeAt(h, x, k) == NodeAt(o.h, o.x, k))
  }

  /** The callbacks so far: the firing keys before `cut`, in order. */
  ghost predicate Called(o: Origin, cut: seq<int>, calls: seq<Key>) {
    && Sorted(calls)
    && forall k :: k in calls <==> k in o.x.at && Lex(k, cut) && Fires(o, k)
  }

  /** Nodes on the path may be loose or redundant; the node for `spare` may be redundant. */
  ghost predicate Shape(h: Heap, x: Index, path: Key, spare: Key) {
    && Linked(h, x)
    && path in x.at
    && (forall k :: k in x.at ==> Sound(h[x.at[k]]))
    && (forall k :: k in x.at && !(k <= path) ==> Tight(h[x.at[k]]))
    && (forall k :: k in x.at && k != [] && !(k <= path) && k != spare ==> !IsRedundant(h[x.at[k]]))
  }

  /** new_min and new_max after the first `upto` slots of the table. */
  ghost predicate MinMax(n: Node, it: Iter, upto: int) {
    && n.min <= it.newMin < n.min + n.count
    && n.min <= it.newMax < n.min + n.count
    && (forall b: Byte :: n.min <= b < n.min + upto && Child(n, b) != NULL ==> it.newMin <= b <= it.newMax)
    && (it.newMin == n.min + n.count - 1 || (it.newMin < n.min + upto && Child(n, it.newMin) != NULL))
    && (it.newMax == n.min || (it.newMax < n.min + upto && Child(n, it.newMax) != NULL))
  }

  /** The node for `k` is being worked on: its range is still the original one. */
  ghost predicate InProgress(o: Origin, h: Heap, x: Index, k: Key, it: Iter) {
    && k in x.at && k in o.x.at && x.at[k] in h && o.x.at[k] in o.h
    && it.node == x.at[k] && it.size == |k|
    && var n := h[x.at[k]]; var m := o.h[o.x.at[k]];
       && n.min == m.min && n.count == m.count
       && 0 <= it.child < n.count && 0 <= n.min && n.min + n.count <= 256
       && (n.count == 1 ==> Tight(n))
       && (n.count > 1 ==> MinMax(n, it, it.child))
  }

  ghost predicate Ancestors(o: Origin, h: Heap, x: Index, path: Key, stack: seq<Iter>) {
    && |path| <= |stack|
    && forall i :: 0 <= i < |path| ==>
         && InProgress(o, h, x, path[..i], stack[i])
         && stack[i].processed
         && path[i] == h[stack[i].node].min + stack[i].child
  }

  /** The byte whose subtree the entry is at. */
  function At(h: Heap, it: Iter): int {
    if it.node in h then h[it.node].min + it.child else 0
  }

  /** Everything but the top entry. */
  ghost predicate Base(o: Origin, h: Heap, x: Index, path: Key, spare: Key, stack: seq<Iter>,
                       cut: seq<int>, calls: seq<Key>)
  {
    && Trie(o.h, o.x)
    && Visited(o, h, x, cut)
    && Called(o, cut, calls)
    && Shape(h, x, path, spare)
    && Ancestors(o, h, x, path, stack)
  }

  // The top entry is about to be visited for the first time.
  ghost predicate AtFirst(o: Origin, h: Heap, x: Index, path: Key, stack: seq<Iter>, calls: seq<Key>) {
    && Base(o, h, x, path, path, stack, path, calls)
    && |stack| == |path| + 1
    && var it := stack[|path|]; !it.processed && it.child == 0 && it.node == x.at[path] && it.size == |path|
  }

  // The top entry is a table about to go to slot `child` > 0.
  ghost predicate AtNext(o: Origin, h: Heap, x: Index, path: Key, stack: seq<Iter>, calls: seq<Key>) {
    && |stack| == |path| + 1
    && var it := stack[|path|];
       && InProgress(o, h, x, path, it)
       && !it.processed && it.child > 0 && h[it.node].count > 1
       && Base(o, h, x, path, path, stack, Cut(path, At(h, it)), calls)
  }

  // The top entry's slot `child` has been traversed.
  ghost predicate AtPost(o: Origin, h: Heap, x: Index, path: Key, stack: seq<Iter>, calls: seq<Key>) {
    && |stack| == |path| + 1
    && var it := stack[|path|];
       && InProgress(o, h, x, path, it) && 0 <= At(h, it) < 256
       && it.processed
       && Base(o, h, x, path, Snoc(path, At(h, it)), stack, Cut(path, At(h, it) + 1), calls)
  }

  // The node for `path` and all below it are done; `stack` holds its ancestors.
  ghost predicate Closed(o: Origin, h: Heap, x: Index, path: Key, stack: seq<Iter>, calls: seq<Key>, hi: int) {
    && |stack| == |path|
    && Base(o, h, x, path, path, stack, Cut(path, hi), calls)
    && NodeOk(h[x.at[path]])
    && forall b: Byte :: hi <= b ==> Snoc(path, b) !in o.x.at
  }

  // The stack is empty.
  ghost predicate Finished(o: Origin, h: Heap, x: Index, calls: seq<Key>) {
    && Trie(o.h, o.x) && Trie(h, x) && x.at[[]] == o.x.at[[]]
    && Visited(o, h, x, [256])
    && Called(o, [256], calls)
  }

  ghost predicate Walking(o: Origin, h: Heap, x: Index, path: Key, stack: seq<Iter>, calls: seq<Key>) {
    || AtFirst(o, h, x, path, stack, calls)
    || AtNext(o, h, x, path, stack, calls)
    || AtPost(o, h, x, path, stack, calls)
  }

  // ---------------------------------------------------------------------
  // Moving the cut over keys that do not exist

  lemma NextIn(h: Heap, x: Index, k: Key, path: Key)
    requires Linked(h, x) && k in x.at && path <= k && k != path
    ensures Snoc(path, k[|path|]) in x.at
  {
    PrefixIn(h, x, k, |path| + 1);
    assert k[..|path| + 1] == Snoc(path, k[|path|]);
  }

  ghost predicate SameCut(o: Origin, cut: seq<int>, cut': seq<int>) {
    forall k :: k in o.x.at ==> (Lex(k, cut) <==> Lex(k, cut'))
  }

  lemma CutSkip(o: Origin, path: Key, c: int)
    requires Trie(o.h, o.x)
    requires 0 <= c < 256 ==> Snoc(path, c) !in o.x.at
    ensures SameCut(o, Cut(path, c), Cut(path, c + 1))
  {
    forall k | k in o.x.at ensures Lex(k, Cut(path, c)) <==> Lex(k, Cut(path, c + 1)) {
      LexSnoc(k, path, c);
      LexSnoc(k, path, c + 1);
      if path <= k && k != path {
        NextIn(o.h, o.x, k, path);
      }
    }
  }

  lemma CutUp(o: Origin, path: Key, c: Byte, hi: int)
    requires Trie(o.h, o.x)
    requires forall b: Byte :: hi <= b ==> Snoc(Snoc(path, c), b) !in o.x.at
    ensures SameCut(o, Cut(Snoc(path, c), hi), Cut(path, c + 1))
  {
    var below := Snoc(path, c);
    forall k | k in o.x.at ensures Lex(k, Cut(below, hi)) <==> Lex(k, Cut(path, c + 1)) {
      LexSnoc(k, below, hi);
      LexSnoc(k, path, c);
      LexSnoc(k, path, c + 1);
      assert below == path + [c];
      if below <= k && k != below {
        NextIn(o.h, o.x, k, below);
      }
      assert below <= k <==> path <= k && |k| > |path| && k[|path|] == c;
    }
  }

  lemma CutAll(o: Origin, hi: int)
    requires Trie(o.h, o.x)
    requires forall b: Byte :: hi <= b ==> Snoc([], b) !in o.x.at
    ensures SameCut(o, [hi], [256])
  {
    forall k | k in o.x.at ensures Lex(k, [hi]) <==> Lex(k, [256]) {
      LexSnoc(k, [], hi);
      LexSnoc(k, [], 256);
      assert [] + [hi] == [hi] && [] + [256] == [256];
      if k != [] {
        NextIn(o.h, o.x, k, []);
      }
    }
  }

  lemma Recut(o: Origin, h: Heap, x: Index, path: Key, spare: Key, stack: seq<Iter>,
              cut: seq<int>, calls: seq<Key>, cut': seq<int>)
    requires Base(o, h, x, path, spare, stack, cut, calls) && SameCut(o, cut, cut')
    ensures Base(o, h, x, path, spare, stack, cut', calls)
  {
    hide Shape, Ancestors, Trie;
  }

  // ---------------------------------------------------------------------
  // First visit: lines 186-203

  /** No key lies between `path` and its first child. */
  lemma CutOver(o: Origin, path: Key, lo: int, k: Key)
    requires Trie(o.h, o.x) && k in o.x.at
    requires forall b: Byte :: b < lo ==> Snoc(path, b) !in o.x.at
    ensures Lex(k, Cut(path, lo)) <==> Lex(k, path) || k == path
    ensures !Lex(path, path)
  {
    LexSnoc(k, path, lo);
    LexIrreflexive(path);
    if path <= k && k != path {
      NextIn(o.h, o.x, k, path);
    }
  }

  lemma VisitedErase(o: Origin, h: Heap, x: Index, path: Key, lo: int, n: Node)
    requires Trie(o.h, o.x) && Visited(o, h, x, path) && Linked(h, x) && path in x.at
    requires n == h[x.at[path]].(pipes := Without(h[x.at[path]].pipes, o.pipe))
    requires forall b: Byte :: b < lo ==> Snoc(path, b) !in o.x.at
    ensures Visited(o, h[x.at[path] := n], x, Cut(path, lo))
  {
    hide *;
    forall k | k in o.x.at ensures VisitedAt(o, h[x.at[path] := n], x, Cut(path, lo), k) {
      VisitedEraseAt(o, h, x, path, lo, n, k);
    }
    VisitedBy(o, h, x, path, h[x.at[path] := n], Cut(path, lo));
  }

  lemma VisitedBy(o: Origin, h: Heap, x: Index, was: seq<int>, h': Heap, cut: seq<int>)
    requires Visited(o, h, x, was)
    requires forall k :: k in o.x.at ==> VisitedAt(o, h', x, cut, k)
    ensures Visited(o, h', x, cut)
  {
    hide Lex;
    forall k | k in o.x.at
      ensures PipesAt(h', x, k) == if Lex(k, cut) then PipesAt(o.h, o.x, k) - {o.pipe} else PipesAt(o.h, o.x, k)
      ensures !Lex(k, cut) ==> k in x.at && NodeAt(h', x, k) == NodeAt(o.h, o.x, k)
    {
      assert VisitedAt(o, h', x, cut, k);
    }
  }

  /** What `Visited` says of one key. */
  ghost predicate VisitedAt(o: Origin, h: Heap, x: Index, cut: seq<int>, k: Key) {
    if Lex(k, cut) then PipesAt(h, x, k) == PipesAt(o.h, o.x, k) - {o.pipe}
    else PipesAt(h, x, k) == PipesAt(o.h, o.x, k) && k in x.at && NodeAt(h, x, k) == NodeAt(o.h, o.x, k)
  }

  lemma VisitedEraseAt(o: Origin, h: Heap, x: Index, path: Key, lo: int, n: Node, k: Key)
    requires Trie(o.h, o.x) && Visited(o, h, x, path) && Linked(h, x) && path in x.at && k in o.x.at
    requires n == h[x.at[path]].(pipes := Without(h[x.at[path]].pipes, o.pipe))
    requires forall b: Byte :: b < lo ==> Snoc(path, b) !in o.x.at
    ensures VisitedAt(o, h[x.at[path] := n], x, Cut(path, lo), k)
  {
    hide Trie, Lex, Child;
    CutOver(o, path, lo, k);
    assert k in x.at && k != path ==> x.at[k] != x.at[path];
    assert x.at[path] in h;
    hide Linked;
    if k == path {
      assert PipesAt(h, x, k) == PipesAt(o.h, o.x, k);
    }
  }

  lemma CalledErase(o: Origin, path: Key, lo: int, calls: seq<Key>, calls': seq<Key>)
    requires Trie(o.h, o.x) && Called(o, path, calls) && path in o.x.at
    requires forall b: Byte :: b < lo ==> Snoc(path, b) !in o.x.at
    requires calls' == if Fires(o, path) then calls + [path] else calls
    ensures Called(o, Cut(path, lo), calls')
  {
    hide Trie, Fires;
    forall k ensures k in calls' <==> k in o.x.at && Lex(k, Cut(path, lo)) && Fires(o, k) {
      if k in o.x.at {
        CutOver(o, path, lo, k);
      }
    }
    assert forall i :: 0 <= i < |calls| ==> calls[i] in calls;
  }

  lemma ShapeErase(h: Heap, x: Index, path: Key, n: Node)
    requires Shape(h, x, path, path)
    requires n.pipes.Some? ==> n.pipes.value != {}
    requires n == h[x.at[path]].(pipes := n.pipes)
    ensures Shape(h[x.at[path] := n], x, path, path)
  {
    var m := h[x.at[path]];
    assert forall b: Byte :: Child(n, b) == Child(m, b);
    assert Live(n) == Live(m);
    assert Sound(n);
    hide Sound, Child;
    Relink(h, x, path, n);
  }

  /** Nothing on the path above `path` is touched. */
  lemma AncestorsKeep(o: Origin, h: Heap, x: Index, path: Key, stack: seq<Iter>, h': Heap, x': Index, stack': seq<Iter>)
    requires Ancestors(o, h, x, path, stack)
    requires |path| <= |stack'| && forall i :: 0 <= i < |path| ==> stack'[i] == stack[i]
    requires forall k :: k in x.at && |k| < |path| ==> k in x'.at && x'.at[k] == x.at[k]
    requires forall k :: k in x.at && |k| < |path| && x.at[k] in h ==> x.at[k] in h' && h'[x.at[k]] == h[x.at[k]]
    ensures Ancestors(o, h', x', path, stack')
  {
    hide Child, Tight, MinMax;
    forall i | 0 <= i < |path|
      ensures InProgress(o, h', x', path[..i], stack'[i]) && stack'[i].processed
      ensures path[i] == h'[stack'[i].node].min + stack'[i].child
    {
      assert |path[..i]| == i;
      assert InProgress(o, h, x, path[..i], stack[i]);
    }
  }

  lemma AncestorsUpdate(o: Origin, h: Heap, x: Index, path: Key, stack: seq<Iter>, n: Node, stack': seq<Iter>)
    requires Ancestors(o, h, x, path, stack) && Linked(h, x) && path in x.at
    requires |path| <= |stack'| && forall i :: 0 <= i < |path| ==> stack'[i] == stack[i]
    ensures Ancestors(o, h[x.at[path] := n], x, path, stack')
  {
    hide Ancestors, Child;
    AncestorsKeep(o, h, x, path, stack, h[x.at[path] := n], x, stack');
  }

  lemma {:induction false} MakeBase(o: Origin, h: Heap, x: Index, path: Key, spare: Key, stack: seq<Iter>,
                                    cut: seq<int>, calls: seq<Key>)
    requires Trie(o.h, o.x) && Visited(o, h, x, cut) && Called(o, cut, calls)
    requires Shape(h, x, path, spare) && Ancestors(o, h, x, path, stack)
    ensures Base(o, h, x, path, spare, stack, cut, calls)
  {
    hide Trie, Visited, Called, Shape, Ancestors;
  }

  lemma {:induction false} BaseParts(o: Origin, h: Heap, x: Index, path: Key, spare: Key, stack: seq<Iter>,
                                     cut: seq<int>, calls: seq<Key>)
    requires Base(o, h, x, path, spare, stack, cut, calls)
    ensures Trie(o.h, o.x) && Visited(o, h, x, cut) && Called(o, cut, calls)
    ensures Shape(h, x, path, spare) && Ancestors(o, h, x, path, stack) && |path| <= |stack|
    ensures Linked(h, x) && path in x.at && x.at[path] in h
  {
    ShapeFacts(h, x, path, spare);
    hide Trie, Visited, Called, InProgress, Child;
  }

  /** What is known of a node reached for the first time. */
  lemma {:induction false} Reaching(o: Origin, h: Heap, x: Index, path: Key, stack: seq<Iter>, calls: seq<Key>)
    requires AtFirst(o, h, x, path, stack, calls)
    ensures Trie(o.h, o.x) && Visited(o, h, x, path) && Called(o, path, calls)
    ensures Shape(h, x, path, path) && Ancestors(o, h, x, path, stack) && Linked(h, x) && |path| <= |stack|
    ensures path in x.at && x.at[path] in h && path in o.x.at && o.x.at[path] in o.h
    ensures h[x.at[path]] == NodeAt(o.h, o.x, path) && NodeOk(h[x.at[path]])
    ensures forall b: Byte :: Child(h[x.at[path]], b) == NULL ==> Snoc(path, b) !in o.x.at
  {
    hide Called, Ancestors, NodeOk;
    LexIrreflexive(path);
    ShapeFacts(h, x, path, path);
    assert h[x.at[path]] == NodeAt(o.h, o.x, path);
    assert forall b: Byte :: Child(h[x.at[path]], b) == Look(o.x, Snoc(path, b));
  }

  lemma {:induction false} WithoutOk(n: Node, m: Node, pipe: Pipe)
    requires NodeOk(m) && n == m.(pipes := Without(m.pipes, pipe))
    ensures NodeOk(n) && (n.pipes.Some? ==> n.pipes.value != {}) && n == m.(pipes := n.pipes)
    ensures forall b: Byte :: Child(n, b) == Child(m, b)
    ensures forall b: Byte :: b < (if n.count == 0 then 256 else n.min) ==> Child(n, b) == NULL
  {
    SameChildren(n, m);
  }

  lemma {:induction false} EraseStep(o: Origin, h: Heap, x: Index, path: Key, stack: seq<Iter>, calls: seq<Key>,
                                     n: Node, calls': seq<Key>)
    requires AtFirst(o, h, x, path, stack, calls)
    requires x.at[path] in h && n == h[x.at[path]].(pipes := Without(h[x.at[path]].pipes, o.pipe))
    requires calls' == if Fires(o, path) then calls + [path] else calls
    ensures NodeOk(n) && path in o.x.at && h[x.at[path]] == NodeAt(o.h, o.x, path)
    ensures var lo := if n.count == 0 then 256 else n.min;
            Base(o, h[x.at[path] := n], x, path, path, stack, Cut(path, lo), calls')
    ensures forall b: Byte :: Child(n, b) == NULL ==> Snoc(path, b) !in o.x.at
  {
    hide *;
    Reaching(o, h, x, path, stack, calls);
    WithoutOk(n, h[x.at[path]], o.pipe);
    var lo := if n.count == 0 then 256 else n.min;
    VisitedErase(o, h, x, path, lo, n);
    CalledErase(o, path, lo, calls, calls');
    ShapeErase(h, x, path, n);
    AncestorsUpdate(o, h, x, path, stack, n, stack);
    MakeBase(o, h[x.at[path] := n], x, path, path, stack, Cut(path, lo), calls');
  }

  lemma ShapeFacts(h: Heap, x: Index, path: Key, spare: Key)
    requires Shape(h, x, path, spare)
    ensures Linked(h, x) && path in x.at && x.at[path] in h && Sound(h[x.at[path]])
  {
  }

  // ---------------------------------------------------------------------
  // Going down: lines 205-251

  lemma AncestorsCut(o: Origin, h: Heap, x: Index, path: Key, stack: seq<Iter>)
    requires Ancestors(o, h, x, path, stack)
    ensures Ancestors(o, h, x, path, stack[..|path|])
  {
    hide InProgress;
  }

  /** Lines 206-209: a node without children is done at once. */
  lemma LeafDone(o: Origin, h: Heap, x: Index, path: Key, stack: seq<Iter>, calls: seq<Key>)
    requires Base(o, h, x, path, path, stack, Cut(path, 256), calls) && NodeOk(NodeAt(h, x, path))
    requires path in x.at && x.at[path] in h
    ensures Closed(o, h, x, path, stack[..|path|], calls, 256)
  {
    assert |path| <= |stack|;
    hide Ancestors, Visited, Called, Shape, NodeOk;
    AncestorsCut(o, h, x, path, stack);
  }

  lemma ShapeDown(h: Heap, x: Index, path: Key, c: Byte)
    requires Shape(h, x, path, path) && Snoc(path, c) in x.at
    ensures Shape(h, x, Snoc(path, c), Snoc(path, c))
  {
    hide Sound, Tight, Linked;
    forall k | k in x.at && k <= path ensures k <= Snoc(path, c) {
      assert path <= Snoc(path, c);
    }
  }

  lemma AncestorsDown(o: Origin, h: Heap, x: Index, path: Key, stack: seq<Iter>, it: Iter, c: Byte)
    requires Ancestors(o, h, x, path, stack)
    requires InProgress(o, h, x, path, it) && it.processed && c == At(h, it)
    requires |path| < |stack| && stack[|path|] == it
    ensures Ancestors(o, h, x, Snoc(path, c), stack)
  {
    var p := Snoc(path, c);
    forall i | 0 <= i < |p|
      ensures InProgress(o, h, x, p[..i], stack[i]) && stack[i].processed
      ensures p[i] == h[stack[i].node].min + stack[i].child
    {
      if i < |path| {
        assert p[..i] == path[..i];
        assert InProgress(o, h, x, path[..i], stack[i]);
      } else {
        assert p[..i] == path;
      }
    }
  }

  /** Lines 213-221 and 237-249: the entry is pushed back, its child on top. */
  lemma {:induction false} PushChild(o: Origin, h: Heap, x: Index, path: Key, stack: seq<Iter>, calls: seq<Key>,
                                     it: Iter, c: Byte, top: Iter)
    requires Base(o, h, x, path, path, stack, Cut(path, c), calls)
    requires InProgress(o, h, x, path, it) && it.processed && c == At(h, it)
    requires Child(h[it.node], c) != NULL
    requires top.node == Child(h[it.node], c) && top.size == |path| + 1 && !top.processed && top.child == 0
    ensures AtFirst(o, h, x, Snoc(path, c), stack[..|path|] + [it, top], calls)
  {
    hide Base, Visited, Called, Trie, Linked, Shape, Ancestors, Child;
    BaseParts(o, h, x, path, path, stack, Cut(path, c), calls);
    assert it.node == x.at[path];
    hide InProgress;
    ChildIn(h, x, path, c);
    var stack' := stack[..|path|] + [it, top];
    AncestorsSame(o, h, x, path, stack, stack');
    ShapeDown(h, x, path, c);
    AncestorsDown(o, h, x, path, stack', it, c);
    assert Snoc(path, c) == Cut(path, c);
    MakeBase(o, h, x, Snoc(path, c), Snoc(path, c), stack', Snoc(path, c), calls);
  }

  lemma {:induction false} ChildIn(h: Heap, x: Index, path: Key, c: Byte)
    requires Shape(h, x, path, path)
    ensures x.at[path] in h
    ensures Child(h[x.at[path]], c) != NULL ==>
              Snoc(path, c) in x.at && x.at[Snoc(path, c)] == Child(h[x.at[path]], c)
  {
    hide Sound, Tight, Child;
  }

  lemma {:induction false} AncestorsSame(o: Origin, h: Heap, x: Index, path: Key, stack: seq<Iter>, stack': seq<Iter>)
    requires Ancestors(o, h, x, path, stack) && |path| <= |stack'|
    requires forall i :: 0 <= i < |path| ==> stack'[i] == stack[i]
    ensures Ancestors(o, h, x, path, stack')
  {
    hide InProgress;
  }

  lemma AncestorsPush(o: Origin, h: Heap, x: Index, path: Key, stack: seq<Iter>, it: Iter)
    requires Ancestors(o, h, x, path, stack)
    ensures Ancestors(o, h, x, path, stack[..|path|] + [it])
  {
    hide InProgress;
  }

  lemma NullChild(o: Origin, h: Heap, x: Index, path: Key, c: Byte)
    requires Visited(o, h, x, Cut(path, c)) && Linked(h, x) && path in x.at && Child(h[x.at[path]], c) == NULL
    ensures Snoc(path, c) !in o.x.at
  {
    assert Snoc(path, c) == Cut(path, c);
    LexIrreflexive(Snoc(path, c));
  }

  lemma ShapeSpare(h: Heap, x: Index, path: Key, spare: Key)
    requires Shape(h, x, path, path)
    ensures Shape(h, x, path, spare)
  {
    hide Sound, Tight, Linked;
  }

  /** Lines 239-240 with an empty slot. */
  lemma NullSlot(o: Origin, h: Heap, x: Index, path: Key, stack: seq<Iter>, calls: seq<Key>, it: Iter, c: Byte)
    requires Base(o, h, x, path, path, stack, Cut(path, c), calls)
    requires InProgress(o, h, x, path, it) && it.processed && c == At(h, it)
    requires Child(h[it.node], c) == NULL
    ensures AtPost(o, h, x, path, stack[..|path|] + [it], calls)
    ensures SameCut(o, Cut(path, c), Cut(path, c + 1))
  {
    ShapeFacts(h, x, path, path);
    hide Visited, Called, Linked, Shape, Ancestors;
    NullChild(o, h, x, path, c);
    CutSkip(o, path, c);
    Recut(o, h, x, path, path, stack, Cut(path, c), calls, Cut(path, c + 1));
    AncestorsPush(o, h, x, path, stack, it);
    ShapeSpare(h, x, path, Snoc(path, c));
    hide InProgress;
  }

  // ---------------------------------------------------------------------
  // Going up: the loop takes the parent's entry next

  lemma ShapeUp(h: Heap, x: Index, path: Key, c: Byte)
    requires Shape(h, x, Snoc(path, c), Snoc(path, c)) && NodeOk(NodeAt(h, x, Snoc(path, c)))
    requires path in x.at
    ensures Shape(h, x, path, Snoc(path, c))
  {
    var p := Snoc(path, c);
    forall k | k in x.at && k <= p && k != p ensures k <= path {
      assert k == p[..|k|] == path[..|k|];
    }
    assert x.at[p] in h by { ShapeFacts(h, x, p, p); }
    assert Tight(h[x.at[p]]);
    hide Sound, Tight, Linked;
  }

  lemma AncestorsUp(o: Origin, h: Heap, x: Index, path: Key, c: Byte, stack: seq<Iter>)
    requires Ancestors(o, h, x, Snoc(path, c), stack)
    ensures Ancestors(o, h, x, path, stack) && |path| < |stack|
    ensures InProgress(o, h, x, path, stack[|path|]) && stack[|path|].processed && c == At(h, stack[|path|])
  {
    var p := Snoc(path, c);
    assert InProgress(o, h, x, p[..|path|], stack[|path|]) && p[..|path|] == path;
    forall i | 0 <= i < |path|
      ensures InProgress(o, h, x, path[..i], stack[i]) && stack[i].processed
      ensures path[i] == h[stack[i].node].min + stack[i].child
    {
      assert path[..i] == p[..i];
      assert InProgress(o, h, x, p[..i], stack[i]);
    }
  }

  lemma Up(o: Origin, h: Heap, x: Index, path: Key, c: Byte, stack: seq<Iter>, calls: seq<Key>, hi: int)
    requires Closed(o, h, x, Snoc(path, c), stack, calls, hi)
    ensures AtPost(o, h, x, path, stack, calls)
    ensures SameCut(o, Cut(Snoc(path, c), hi), Cut(path, c + 1))
    ensures |stack| == |path| + 1 && stack[|path|].processed && c == At(h, stack[|path|])
  {
    var p := Snoc(path, c);
    hide Visited, Called, Shape, Linked, NodeOk, Ancestors;
    assert x.at[p] in h by { ShapeFacts(h, x, p, p); }
    CutUp(o, path, c, hi);
    Recut(o, h, x, p, p, stack, Cut(p, hi), calls, Cut(path, c + 1));
    AncestorsUp(o, h, x, path, c, stack);
    ShapeUp(h, x, path, c);
    hide InProgress;
  }

  lemma ShapeWhole(h: Heap, x: Index)
    requires Shape(h, x, [], []) && x.at[[]] in h && NodeOk(h[x.at[[]]])
    ensures Trie(h, x)
  {
    hide Sound, Tight, Child;
    forall k | k in x.at ensures NodeOk(h[x.at[k]]) {
      assert k == [] || !(k <= []);
    }
  }

  lemma Finish(o: Origin, h: Heap, x: Index, stack: seq<Iter>, calls: seq<Key>, hi: int)
    requires Closed(o, h, x, [], stack, calls, hi)
    ensures Finished(o, h, x, calls)
  {
    assert [] + [hi] == [hi];
    hide Called, Linked, NodeOk;
    CutAll(o, hi);
    Recut(o, h, x, [], [], stack, [hi], calls, [256]);
    ShapeWhole(h, x);
    assert x.at[[]] == o.x.at[[]];
    hide Visited, Shape, Ancestors;
  }

  // ---------------------------------------------------------------------
  // After a child: lines 258-389

  /** Only nodes before the cut change, and they keep their pipes. */
  lemma VisitedSame(o: Origin, h: Heap, x: Index, cut: seq<int>, h': Heap, x': Index)
    requires Visited(o, h, x, cut)
    requires forall k :: k in x'.at ==> k in x.at && x'.at[k] == x.at[k]
    requires forall k :: PipesAt(h', x', k) == PipesAt(h, x, k)
    requires forall k :: k in x.at && !Lex(k, cut) ==> k in x'.at && NodeAt(h', x', k) == NodeAt(h, x, k)
    ensures Visited(o, h', x', cut)
  {
    hide PipesAt, NodeAt;
  }

  lemma VisitedKeep(o: Origin, h: Heap, x: Index, path: Key, c: int, n: Node)
    requires Visited(o, h, x, Cut(path, c)) && Linked(h, x) && path in x.at
    requires PipesOf(n) == PipesOf(h[x.at[path]])
    ensures Visited(o, h[x.at[path] := n], x, Cut(path, c))
  {
    hide Child, Visited;
    LexSnoc(path, path, c);
    VisitedSame(o, h, x, Cut(path, c), h[x.at[path] := n], x);
  }

  lemma ShapeRelayout(h: Heap, x: Index, path: Key, n: Node)
    requires Shape(h, x, path, path) && Sound(n)
    requires forall b: Byte :: Child(n, b) == Child(h[x.at[path]], b)
    ensures Shape(h[x.at[path] := n], x, path, path)
  {
    hide Sound, Child;
    Relink(h, x, path, n);
  }

  /** The node for `path` gets a new layout with the same children. */
  lemma {:induction false} Relayout(o: Origin, h: Heap, x: Index, path: Key, stack: seq<Iter>, c: int,
                                    calls: seq<Key>, n: Node)
    requires Base(o, h, x, path, path, stack, Cut(path, c), calls)
    requires Sound(n) && x.at[path] in h && n.pipes == h[x.at[path]].pipes
    requires forall b: Byte :: Child(n, b) == Child(h[x.at[path]], b)
    ensures Base(o, h[x.at[path] := n], x, path, path, stack, Cut(path, c), calls)
  {
    hide Base, Visited, Called, Trie, Linked, Shape, Ancestors, Child, Sound;
    BaseParts(o, h, x, path, path, stack, Cut(path, c), calls);
    VisitedKeep(o, h, x, path, c, n);
    AncestorsUpdate(o, h, x, path, stack, n, stack);
    ShapeRelayout(h, x, path, n);
    MakeBase(o, h[x.at[path] := n], x, path, path, stack, Cut(path, c), calls);
  }

  /** The traversed child is not redundant, so it stays. */
  lemma KeepChild(o: Origin, h: Heap, x: Index, path: Key, c: Byte, stack: seq<Iter>, cut: seq<int>, calls: seq<Key>)
    requires Base(o, h, x, path, Snoc(path, c), stack, cut, calls)
    requires Snoc(path, c) in x.at ==> !IsRedundant(NodeAt(h, x, Snoc(path, c)))
    ensures Base(o, h, x, path, path, stack, cut, calls)
  {
    hide Visited, Called, Ancestors, Sound, Tight, Linked;
  }

  lemma VisitedPrune(o: Origin, h: Heap, x: Index, path: Key, c: Byte, n: Node)
    requires Visited(o, h, x, Cut(path, c + 1)) && Linked(h, x) && path in x.at && Snoc(path, c) in x.at
    requires PipesOf(n) == PipesOf(h[x.at[path]]) && PipesAt(h, x, Snoc(path, c)) == {}
    ensures Visited(o, (h - {x.at[Snoc(path, c)]})[x.at[path] := n], Unbind(x, Snoc(path, c)), Cut(path, c + 1))
  {
    hide Child, Visited;
    var gone := Snoc(path, c);
    LexSnoc(path, path, c + 1);
    LexSnoc(gone, path, c + 1);
    VisitedSame(o, h, x, Cut(path, c + 1), (h - {x.at[gone]})[x.at[path] := n], Unbind(x, gone));
  }

  lemma {:induction false} ShapePrune(h: Heap, x: Index, path: Key, c: Byte, n: Node)
    requires Shape(h, x, path, Snoc(path, c)) && Snoc(path, c) in x.at
    requires IsRedundant(NodeAt(h, x, Snoc(path, c)))
    requires Sound(n)
    requires forall b: Byte :: Child(n, b) == if b == c then NULL else Child(h[x.at[path]], b)
    ensures Shape((h - {x.at[Snoc(path, c)]})[x.at[path] := n], Unbind(x, Snoc(path, c)), path, path)
  {
    var gone := Snoc(path, c);
    LiveCount(h[x.at[gone]]);
    hide Sound, Tight;
    assert forall b: Byte :: Child(h[x.at[gone]], b) == NULL;
    assert x.at[path] != x.at[gone];
    Unlink(h, x, path, c, n);
    ShapeUnbind(h, x, path, gone, n);
  }

  lemma {:induction false} ShapeUnbind(h: Heap, x: Index, path: Key, gone: Key, n: Node)
    requires Shape(h, x, path, gone) && gone in x.at && gone != path && Sound(n)
    requires Linked((h - {x.at[gone]})[x.at[path] := n], Unbind(x, gone))
    ensures Shape((h - {x.at[gone]})[x.at[path] := n], Unbind(x, gone), path, path)
  {
    hide Sound, Tight, Child;
    var h', x' := (h - {x.at[gone]})[x.at[path] := n], Unbind(x, gone);
    assert forall k :: k in x'.at ==> k in x.at && k != gone && x'.at[k] == x.at[k];
    assert forall k :: k in x'.at && k != path ==> h'[x'.at[k]] == h[x.at[k]];
    hide Linked;
  }

  /** Lines 266-272 and 279-285: the traversed child is redundant and is deleted. */
  lemma {:induction false} DeleteChild(o: Origin, h: Heap, x: Index, path: Key, c: Byte, stack: seq<Iter>,
                                       calls: seq<Key>, n: Node)
    requires Base(o, h, x, path, Snoc(path, c), stack, Cut(path, c + 1), calls)
    requires Snoc(path, c) in x.at && IsRedundant(NodeAt(h, x, Snoc(path, c)))
    requires Sound(n) && x.at[path] in h && n.pipes == h[x.at[path]].pipes
    requires forall b: Byte :: Child(n, b) == if b == c then NULL else Child(h[x.at[path]], b)
    ensures Base(o, (h - {x.at[Snoc(path, c)]})[x.at[path] := n], Unbind(x, Snoc(path, c)), path, path,
                 stack, Cut(path, c + 1), calls)
  {
    hide Base, Visited, Called, Trie, Linked, Shape, Ancestors, Child, Sound;
    var gone := Snoc(path, c);
    BaseParts(o, h, x, path, gone, stack, Cut(path, c + 1), calls);
    VisitedPrune(o, h, x, path, c, n);
    ShapePrune(h, x, path, c, n);
    AncestorsPrune(o, h, x, path, c, stack, n);
    MakeBase(o, (h - {x.at[gone]})[x.at[path] := n], Unbind(x, gone), path, path, stack, Cut(path, c + 1), calls);
  }

  lemma AncestorsPrune(o: Origin, h: Heap, x: Index, path: Key, c: Byte, stack: seq<Iter>, n: Node)
    requires Ancestors(o, h, x, path, stack) && Linked(h, x) && path in x.at && Snoc(path, c) in x.at
    ensures Ancestors(o, (h - {x.at[Snoc(path, c)]})[x.at[path] := n], Unbind(x, Snoc(path, c)), path, stack)
  {
    assert |path| <= |stack|;
    hide Ancestors, Child;
    AncestorsKeep(o, h, x, path, stack, (h - {x.at[Snoc(path, c)]})[x.at[path] := n], Unbind(x, Snoc(path, c)), stack);
  }

  lemma BeyondRange(o: Origin, h: Heap, x: Index, path: Key, it: Iter)
    requires Trie(o.h, o.x) && InProgress(o, h, x, path, it)
    ensures forall b: Byte :: h[it.node].min + h[it.node].count <= b ==> Snoc(path, b) !in o.x.at
  {
    forall b: Byte | h[it.node].min + h[it.node].count <= b ensures Snoc(path, b) !in o.x.at {
      assert Child(o.h[o.x.at[path]], b) == Look(o.x, Snoc(path, b));
    }
  }

  /** Lines 263-273: the only child was traversed. */
  lemma SingleDone(o: Origin, h: Heap, x: Index, path: Key, stack: seq<Iter>, calls: seq<Key>, c: int)
    requires Base(o, h, x, path, path, stack, Cut(path, c), calls)
    requires x.at[path] in h && NodeOk(h[x.at[path]])
    requires forall b: Byte :: c <= b ==> Snoc(path, b) !in o.x.at
    ensures Closed(o, h, x, path, stack[..|path|], calls, c)
  {
    assert |path| <= |stack|;
    hide Ancestors, Visited, Called, Shape, NodeOk;
    AncestorsCut(o, h, x, path, stack);
  }

  lemma MinMaxDrop(n: Node, m: Node, it: Iter, it': Iter, c: Byte)
    requires n.count > 1 && MinMax(n, it, it.child) && c == n.min + it.child
    requires m.min == n.min && m.count == n.count
    requires forall b: Byte :: Child(m, b) == if b == c then NULL else Child(n, b)
    requires it'.newMin == it.newMin && it'.newMax == it.newMax
    requires 0 <= n.min && n.min + n.count <= 256
    ensures MinMax(m, it', it.child + 1)
  {
    assert Child(m, it.newMin) == Child(n, it.newMin) || it.newMin == c;
    assert Child(m, it.newMax) == Child(n, it.newMax) || it.newMax == c;
  }

  lemma MinMaxLive(n: Node, it: Iter, it': Iter, c: Byte)
    requires n.count > 1 && MinMax(n, it, it.child) && c == n.min + it.child < n.min + n.count
    requires Child(n, c) != NULL
    requires it'.newMin == (if c < it.newMin then c else it.newMin)
    requires it'.newMax == (if c > it.newMax then c else it.newMax)
    ensures MinMax(n, it', it.child + 1)
  {
  }

  /** Lines 317-387: every slot was traversed, so shrink the table to its live children. */
  method CompactTable(n: Node, it: Iter) returns (r: Node)
    requires Sound(n) && n.count > 1 && MinMax(n, it, n.count)
    ensures NodeOk(r) && r.pipes == n.pipes && r.live == n.live
    ensures forall b: Byte :: Child(r, b) == Child(n, b)
  {
    assert n.next.Table? && |n.next.table| == n.count && 0 <= n.min && n.min + n.count <= 256;
    hide Sound, Live;
    if n.live == 0 {
      r := n.(next := Single(NULL), count := 0);
      NoneLive(n, r);
    } else {
      EndsLive(n, it);
      if n.live == 1 {
        OnlyLive(n, it.newMin);
        assert it.newMin == it.newMax;
        r := n.(count := 1, min := it.newMin, next := Single(n.next.table[it.newMin - n.min]));
        Narrow(n, r);
      } else if it.newMin > n.min || it.newMax < n.min + n.count - 1 {
        TwoLive(n, it.newMin);
        assert it.newMax - it.newMin + 1 > 1;
        assert it.newMax - it.newMin + 1 < n.count;
        r := n.(count := it.newMax - it.newMin + 1, min := it.newMin,
                next := Table(n.next.table[it.newMin - n.min..it.newMax - n.min + 1]));
        Narrow(n, r);
      } else {
        r := n;
      }
    }
  }

  lemma {:induction false} NoneLive(n: Node, r: Node)
    requires Sound(n) && n.live == 0 && r == n.(next := Single(NULL), count := 0)
    ensures NodeOk(r) && forall b: Byte :: Child(r, b) == Child(n, b)
  {
    assert Live(n) == {};
    assert forall b: Byte :: Child(n, b) != NULL ==> b in Live(n);
    assert Live(r) == {};
  }

  lemma EndsLive(n: Node, it: Iter)
    requires Sound(n) && n.count > 1 && n.live > 0 && MinMax(n, it, n.count)
    ensures Child(n, it.newMin) != NULL && Child(n, it.newMax) != NULL
    ensures it.newMin <= it.newMax
  {
    var b :| b in Live(n);
    assert Child(n, b) != NULL;
  }

  // ---------------------------------------------------------------------
  // The measure

  /** The keys not yet visited. */
  ghost function Pending(o: Origin, cut: seq<int>): set<Key> {
    set k | k in o.x.at && !Lex(k, cut)
  }

  function Weight(it: Iter): nat {
    if it.processed then 2 * Byteful(it.child)
    else if it.child > 0 then 2 * Byteful(it.child) + 1 else 0
  }

  function Byteful(child: int): nat {
    if child < 256 then 256 - child else 0
  }

  ghost function Weights(stack: seq<Iter>): nat {
    if stack == [] then 0 else Weights(stack[..|stack| - 1]) + Weight(stack[|stack| - 1])
  }

  lemma WeightsPush(stack: seq<Iter>, it: Iter)
    ensures Weights(stack + [it]) == Weights(stack) + Weight(it)
  {
    assert (stack + [it])[..|stack|] == stack;
  }

  lemma PendingSame(o: Origin, cut: seq<int>, cut': seq<int>)
    requires SameCut(o, cut, cut')
    ensures Pending(o, cut) == Pending(o, cut')
  {
  }

  lemma PendingErase(o: Origin, path: Key, lo: int)
    requires Trie(o.h, o.x) && path in o.x.at
    requires forall b: Byte :: b < lo ==> Snoc(path, b) !in o.x.at
    ensures |Pending(o, Cut(path, lo))| < |Pending(o, path)|
  {
    hide Trie;
    forall k | k in o.x.at ensures Lex(k, Cut(path, lo)) <==> Lex(k, path) || k == path {
      CutOver(o, path, lo, k);
    }
    CutOver(o, path, lo, path);
    assert Pending(o, Cut(path, lo)) == Pending(o, path) - {path};
  }

  // ---------------------------------------------------------------------
  // Steps of the loop

  /** The boundary reached when the loop takes the top entry. */
  ghost function Reached(h: Heap, path: Key, stack: seq<Iter>): seq<int> {
    if stack == [] then [256]
    else
      var it := stack[|stack| - 1];
      if it.processed then Cut(path, At(h, it) + 1)
      else if it.child > 0 then Cut(path, At(h, it))
      else path
  }

  ghost predicate State(o: Origin, h: Heap, x: Index, path: Key, stack: seq<Iter>, calls: seq<Key>) {
    if stack == [] then Finished(o, h, x, calls) else Walking(o, h, x, path, stack, calls)
  }

  lemma {:induction false} PopRoot(o: Origin, h: Heap, x: Index, rest: seq<Iter>, calls: seq<Key>, hi: int)
    requires Closed(o, h, x, [], rest, calls, hi)
    ensures rest == [] && Finished(o, h, x, calls)
    ensures Pending(o, Cut([], hi)) == Pending(o, [256])
  {
    assert Cut([], hi) == [hi];
    assert Trie(o.h, o.x) && forall b: Byte :: hi <= b ==> Snoc([], b) !in o.x.at;
    hide Base, Trie, Finished, NodeOk;
    Finish(o, h, x, rest, calls, hi);
    CutAll(o, hi);
  }

  lemma PopInner(o: Origin, h: Heap, x: Index, path: Key, c: Byte, rest: seq<Iter>, calls: seq<Key>, hi: int)
    requires Closed(o, h, x, Snoc(path, c), rest, calls, hi)
    ensures |rest| == |path| + 1 && AtPost(o, h, x, path, rest, calls)
    ensures Pending(o, Cut(Snoc(path, c), hi)) == Pending(o, Reached(h, path, rest))
  {
    hide Base, NodeOk, InProgress, AtPost;
    Up(o, h, x, path, c, rest, calls, hi);
    hide Closed;
    PendingSame(o, Cut(Snoc(path, c), hi), Cut(path, c + 1));
  }

  lemma PopDone(o: Origin, h: Heap, x: Index, path: Key, rest: seq<Iter>, calls: seq<Key>, hi: int) returns (up: Key)
    requires Closed(o, h, x, path, rest, calls, hi)
    ensures State(o, h, x, up, rest, calls) && up <= path
    ensures |Pending(o, Cut(path, hi))| == |Pending(o, Reached(h, up, rest))|
  {
    hide Closed, Finished, AtPost, AtFirst, AtNext;
    if path == [] {
      up := [];
      PopRoot(o, h, x, rest, calls, hi);
    } else {
      up := path[..|path| - 1];
      assert path == Snoc(up, path[|path| - 1]);
      PopInner(o, h, x, up, path[|path| - 1], rest, calls, hi);
    }
  }

  /** The entry with new_min and new_max set on the first visit, lines 228-233. */
  function Opening(n: Node, it: Iter): Iter {
    if n.count > 1 && it.child == 0 then it.(newMin := n.min + n.count - 1, newMax := n.min) else it
  }

  ghost function OpenCut(h: Heap, path: Key, it: Iter): seq<int> {
    if it.node in h && h[it.node].count == 0 then Cut(path, 256) else Cut(path, At(h, it))
  }

  /** The pipe is erased from the top entry's node and its next slot is due. */
  ghost predicate Opened(o: Origin, h: Heap, x: Index, path: Key, rest: seq<Iter>, it: Iter, calls: seq<Key>) {
    && |rest| == |path|
    && path in x.at && x.at[path] in h && it.node == x.at[path] && it.size == |path| && !it.processed
    && Base(o, h, x, path, path, rest, OpenCut(h, path, it), calls)
    && var n := h[it.node];
       && (n.count == 0 ==> NodeOk(n))
       && (n.count > 0 ==> InProgress(o, h, x, path, Opening(n, it)))
       && (n.count == 1 ==> it.child == 0)
  }

  lemma BaseRest(o: Origin, h: Heap, x: Index, path: Key, spare: Key, stack: seq<Iter>, cut: seq<int>, calls: seq<Key>)
    requires Base(o, h, x, path, spare, stack, cut, calls)
    ensures |path| <= |stack| && Base(o, h, x, path, spare, stack[..|path|], cut, calls)
  {
    hide Visited, Called, Shape, InProgress;
  }

  lemma NodeIn(h: Heap, x: Index, k: Key)
    requires Trie(h, x) && k in x.at
    ensures x.at[k] in h && NodeOk(h[x.at[k]])
  {
    hide NodeOk;
  }

  /** A node just erased and not yet opened. */
  lemma OpenedFresh(o: Origin, h: Heap, x: Index, path: Key, rest: seq<Iter>, it: Iter, calls: seq<Key>)
    requires |rest| == |path| && path in x.at && x.at[path] in h && path in o.x.at && o.x.at[path] in o.h
    requires it.node == x.at[path] && it.size == |path| && !it.processed && it.child == 0
    requires Base(o, h, x, path, path, rest, OpenCut(h, path, it), calls)
    requires NodeOk(h[it.node]) && h[it.node].min == NodeAt(o.h, o.x, path).min
    requires h[it.node].count == NodeAt(o.h, o.x, path).count
    ensures Opened(o, h, x, path, rest, it, calls)
  {
    hide Base, OpenCut;
  }

  lemma OpenFirst(o: Origin, h: Heap, x: Index, path: Key, rest: seq<Iter>, it: Iter, calls: seq<Key>, n: Node,
                  calls': seq<Key>)
    requires AtFirst(o, h, x, path, rest + [it], calls) && |rest| == |path|
    requires x.at[path] in h && n == h[x.at[path]].(pipes := Without(h[x.at[path]].pipes, o.pipe))
    requires calls' == if Fires(o, path) then calls + [path] else calls
    ensures Opened(o, h[it.node := n], x, path, rest, it, calls')
    ensures |Pending(o, OpenCut(h[it.node := n], path, it))| < |Pending(o, path)|
  {
    assert Trie(o.h, o.x) && path in x.at;
    hide Base, Fires, Trie, Linked, Opened;
    var h' := h[x.at[path] := n];
    assert (rest + [it])[..|path|] == rest;
    EraseStep(o, h, x, path, rest + [it], calls, n, calls');
    var lo := if n.count == 0 then 256 else n.min;
    assert OpenCut(h', path, it) == Cut(path, lo);
    NodeIn(o.h, o.x, path);
    assert forall b: Byte :: b < lo ==> Child(n, b) == NULL;
    hide NodeOk, Child, OpenCut, Pending;
    BaseRest(o, h', x, path, path, rest + [it], Cut(path, lo), calls');
    OpenedFresh(o, h', x, path, rest, it, calls');
    PendingErase(o, path, lo);
  }

  lemma OpenNext(o: Origin, h: Heap, x: Index, path: Key, rest: seq<Iter>, it: Iter, calls: seq<Key>)
    requires AtNext(o, h, x, path, rest + [it], calls) && |rest| == |path|
    ensures Opened(o, h, x, path, rest, it, calls)
    ensures o.pipe !in PipesOf(h[it.node])
  {
    assert (rest + [it])[..|path|] == rest;
    assert (rest + [it])[|path|] == it;
    LexSnoc(path, path, At(h, it));
    assert o.pipe !in PipesAt(h, x, path);
    assert path in x.at && x.at[path] in h by { ShapeFacts(h, x, path, path); }
    hide Visited, Called, Shape;
    BaseRest(o, h, x, path, path, rest + [it], Cut(path, At(h, it)), calls);
  }

  predicate FiresHere(pipes: set<Pipe>, pipe: Pipe, uniq: bool) {
    pipe in pipes && (uniq ==> pipes == {pipe})
  }

  lemma EraseFacts(o: Origin, h: Heap, x: Index, path: Key, rest: seq<Iter>, it: Iter, calls: seq<Key>)
    requires |rest| == |path| && Walking(o, h, x, path, rest + [it], calls) && !it.processed
    ensures path in x.at && x.at[path] in h && it.node == x.at[path] && it.size == |path|
    ensures it.child >= 0 && (it.child == 0 <==> AtFirst(o, h, x, path, rest + [it], calls))
    ensures it.child > 0 ==> AtNext(o, h, x, path, rest + [it], calls)
    ensures h[it.node].pipes.Some? ==> h[it.node].pipes.value != {}
    ensures it.child == 0 ==> Fires(o, path) == FiresHere(PipesOf(h[it.node]), o.pipe, o.uniq)
  {
    assert (rest + [it])[|path|] == it;
    ShapeFacts(h, x, path, path);
    if it.child == 0 {
      LexIrreflexive(path);
      assert PipesAt(h, x, path) == PipesAt(o.h, o.x, path);
    }
  }

  lemma Mark(o: Origin, h: Heap, x: Index, path: Key, it: Iter)
    requires InProgress(o, h, x, path, it)
    ensures InProgress(o, h, x, path, it.(processed := true))
  {
  }

  lemma WeightsTop(stack: seq<Iter>, a: Iter, b: Iter)
    ensures Weights(stack + [a]) == Weights(stack) + Weight(a)
    ensures Weights(stack + [a, b]) == Weights(stack) + Weight(a) + Weight(b)
  {
    WeightsPush(stack, a);
    WeightsPush(stack + [a], b);
    assert stack + [a] + [b] == stack + [a, b];
  }

  // ---------------------------------------------------------------------
  // Steps after a child

  /** The facts line 253 onwards may use, the top entry aside. */
  ghost predicate Post(o: Origin, h: Heap, x: Index, path: Key, rest: seq<Iter>, it: Iter, calls: seq<Key>) {
    && |rest| == |path|
    && InProgress(o, h, x, path, it) && 0 <= At(h, it) < 256
    && Sound(h[it.node])
    && Child(h[it.node], At(h, it)) == Look(x, Snoc(path, At(h, it)))
    && (Child(h[it.node], At(h, it)) != NULL ==> Child(h[it.node], At(h, it)) in h)
    && (Child(h[it.node], At(h, it)) == NULL ==> Snoc(path, At(h, it)) !in x.at)
    && Base(o, h, x, path, Snoc(path, At(h, it)), rest, Cut(path, At(h, it) + 1), calls)
    && forall b: Byte :: h[it.node].min + h[it.node].count <= b ==> Snoc(path, b) !in o.x.at
  }

  lemma PostFacts(o: Origin, h: Heap, x: Index, path: Key, rest: seq<Iter>, it: Iter, calls: seq<Key>)
    requires |rest| == |path| && AtPost(o, h, x, path, rest + [it], calls)
    ensures Post(o, h, x, path, rest, it, calls) && it.processed
  {
    hide Sound, Linked, MinMax, Shape, Visited, Called, Ancestors, Trie;
    assert (rest + [it])[|path|] == it && (rest + [it])[..|path|] == rest;
    var c := At(h, it);
    ShapeChild(h, x, path, Snoc(path, c), c);
    BeyondRange(o, h, x, path, it);
    BaseRest(o, h, x, path, Snoc(path, c), rest + [it], Cut(path, c + 1), calls);
    hide Base, InProgress;
  }

  lemma ShapeChild(h: Heap, x: Index, path: Key, spare: Key, c: Byte)
    requires Shape(h, x, path, spare)
    ensures path in x.at && x.at[path] in h && Sound(h[x.at[path]])
    ensures Child(h[x.at[path]], c) == Look(x, Snoc(path, c))
    ensures Child(h[x.at[path]], c) != NULL ==> Snoc(path, c) in x.at && Child(h[x.at[path]], c) in h
    ensures Child(h[x.at[path]], c) == NULL ==> Snoc(path, c) !in x.at
  {
    hide Sound, Tight, Child;
  }

  /** Every slot of the table was traversed. */
  ghost predicate Swept(o: Origin, h: Heap, x: Index, path: Key, rest: seq<Iter>, it: Iter, calls: seq<Key>, hi: int) {
    && |rest| == |path|
    && path in x.at && x.at[path] in h && it.node == x.at[path]
    && var n := h[it.node];
       && n.count > 1 && hi == n.min + n.count
       && Sound(n) && MinMax(n, it, n.count)
       && Base(o, h, x, path, path, rest, Cut(path, hi), calls)
       && forall b: Byte :: hi <= b ==> Snoc(path, b) !in o.x.at
  }

  lemma {:induction false} CloseTable(o: Origin, h: Heap, x: Index, path: Key, rest: seq<Iter>, it: Iter,
                                      calls: seq<Key>, hi: int, r: Node)
    requires Swept(o, h, x, path, rest, it, calls, hi)
    requires NodeOk(r) && r.pipes == h[it.node].pipes
    requires forall b: Byte :: Child(r, b) == Child(h[it.node], b)
    ensures Closed(o, h[it.node := r], x, path, rest, calls, hi)
  {
    assert Sound(r);
    hide Base, NodeOk, Sound, MinMax;
    Relayout(o, h, x, path, rest, hi, calls, r);
    assert rest[..|path|] == rest;
    SingleDone(o, h[it.node := r], x, path, rest, calls, hi);
  }

  /** The slot is dealt with: go on to the next one or to the compaction. */
  lemma SlotDone(o: Origin, h: Heap, x: Index, path: Key, rest: seq<Iter>, it: Iter, it': Iter, calls: seq<Key>,
                 c: Byte, m: Node)
    requires |rest| == |path| && Base(o, h, x, path, path, rest, Cut(path, c + 1), calls)
    requires path in x.at && path in o.x.at && x.at[path] in h && o.x.at[path] in o.h
    requires m == o.h[o.x.at[path]] && m.count > 1 && 0 <= m.min && m.min + m.count <= 256
    requires h[x.at[path]].min == m.min && h[x.at[path]].count == m.count && Sound(h[x.at[path]])
    requires 0 <= it.child < m.count && c == m.min + it.child
    requires it'.node == x.at[path] && it'.size == |path| && it'.child == it.child + 1 && !it'.processed
    requires MinMax(h[x.at[path]], it', it'.child)
    requires forall b: Byte :: m.min + m.count <= b ==> Snoc(path, b) !in o.x.at
    ensures it'.child < m.count ==> AtNext(o, h, x, path, rest + [it'], calls)
    ensures it'.child == m.count ==> Swept(o, h, x, path, rest, it', calls, c + 1)
  {
    hide MinMax, Sound, Base;
    assert (rest + [it'])[|path|] == it';
    BaseAppend(o, h, x, path, path, rest, Cut(path, c + 1), calls, it');
  }

  lemma BaseAppend(o: Origin, h: Heap, x: Index, path: Key, spare: Key, rest: seq<Iter>, cut: seq<int>,
                   calls: seq<Key>, it: Iter)
    requires Base(o, h, x, path, spare, rest, cut, calls)
    ensures Base(o, h, x, path, spare, rest + [it], cut, calls)
  {
    hide Visited, Called, Shape, InProgress;
  }

  // ---------------------------------------------------------------------
  // Start and end of the loop

  lemma Start(h: Heap, x: Index, pipe: Pipe, uniq: bool, it: Iter)
    requires Trie(h, x)
    requires it.node == x.at[[]] && it.size == 0 && !it.processed && it.child == 0
    ensures State(Origin(h, x, pipe, uniq), h, x, [], [it], [])
  {
    var o := Origin(h, x, pipe, uniq);
    assert Visited(o, h, x, []) && Called(o, [], []);
    hide Visited, Called, NodeOk;
    assert Shape(h, x, [], []) by {
      ShapeStart(h, x);
    }
    hide Shape, Trie;
  }

  lemma ShapeStart(h: Heap, x: Index)
    requires Trie(h, x)
    ensures Shape(h, x, [], [])
  {
    hide Sound, Tight;
  }

  /** The promised callbacks of rm(value). */
  ghost predicate Notified(was: set<(Key, Pipe)>, pipe: Pipe, uniq: bool, calls: seq<Key>) {
    && Sorted(calls)
    && forall k :: k in calls <==> (k, pipe) in was && (uniq ==> forall q :: (k, q) in was ==> q == pipe)
  }

  lemma {:induction false} NotifiedMeans(was: set<(Key, Pipe)>, pipe: Pipe, uniq: bool, calls: seq<Key>)
    requires Notified(was, pipe, uniq, calls)
    ensures forall k :: k in calls <==> (k, pipe) in was && (uniq ==> forall q :: (k, q) in was ==> q == pipe)
    ensures forall i, j :: 0 <= i < j < |calls| ==> Lex(calls[i], calls[j])
  {
  }

  lemma {:induction false} AllBefore(k: Key)
    ensures Lex(k, [256])
  {
  }

  lemma PairsByKey(h: Heap, x: Index)
    ensures forall k, p :: (k, p) in Pairs(h, x) <==> p in PipesAt(h, x, k)
  {
  }

  lemma FinishedAt(o: Origin, h: Heap, x: Index, calls: seq<Key>, k: Key)
    requires Finished(o, h, x, calls)
    ensures PipesAt(h, x, k) == PipesAt(o.h, o.x, k) - {o.pipe}
    ensures k in calls <==> Fires(o, k)
  {
    hide Trie;
    AllBefore(k);
  }

  lemma FiresPairs(o: Origin, k: Key)
    ensures var was := Pairs(o.h, o.x);
            Fires(o, k) <==> (k, o.pipe) in was && (o.uniq ==> forall q :: (k, q) in was ==> q == o.pipe)
  {
    var here := PipesAt(o.h, o.x, k);
    forall p: Pipe ensures (k, p) in Pairs(o.h, o.x) <==> p in here {
      PairsAt(o.h, o.x, k, p);
    }
    hide Pairs, PipesAt;
    assert o.pipe in here ==> (here == {o.pipe} <==> forall q :: q in here ==> q == o.pipe);
  }

  lemma PairsGone(h: Heap, x: Index, h': Heap, x': Index, pipe: Pipe)
    requires forall k :: PipesAt(h', x', k) == PipesAt(h, x, k) - {pipe}
    ensures Pairs(h', x') == set kp | kp in Pairs(h, x) && kp.1 != pipe
  {
    PairsByKey(h, x);
    PairsByKey(h', x');
    hide Pairs, PipesAt;
    forall kp ensures kp in Pairs(h', x') <==> kp in Pairs(h, x) && kp.1 != pipe {
      assert kp == (kp.0, kp.1);
      assert kp.1 in PipesAt(h', x', kp.0) <==> kp.1 in PipesAt(h, x, kp.0) - {pipe};
    }
  }

  lemma FinishedPairs(o: Origin, h: Heap, x: Index, calls: seq<Key>)
    requires Finished(o, h, x, calls)
    ensures Pairs(h, x) == set kp | kp in Pairs(o.h, o.x) && kp.1 != o.pipe
    ensures Notified(Pairs(o.h, o.x), o.pipe, o.uniq, calls)
  {
    hide *;
    FinishedGone(o, h, x, calls);
    FinishedCalls(o, h, x, calls);
  }

  lemma FinishedGone(o: Origin, h: Heap, x: Index, calls: seq<Key>)
    requires Finished(o, h, x, calls)
    ensures Pairs(h, x) == set kp | kp in Pairs(o.h, o.x) && kp.1 != o.pipe
  {
    hide *;
    forall k: Key ensures PipesAt(h, x, k) == PipesAt(o.h, o.x, k) - {o.pipe} {
      FinishedAt(o, h, x, calls, k);
    }
    PairsGone(o.h, o.x, h, x, o.pipe);
  }

  lemma FinishedCalls(o: Origin, h: Heap, x: Index, calls: seq<Key>)
    requires Finished(o, h, x, calls)
    ensures Notified(Pairs(o.h, o.x), o.pipe, o.uniq, calls)
  {
    assert Sorted(calls);
    hide Finished, Pairs, PipesAt, Sorted, Fires;
    forall k: Key
      ensures var was := Pairs(o.h, o.x);
              k in calls <==> (k, o.pipe) in was && (o.uniq ==> forall q :: (k, q) in was ==> q == o.pipe)
    {
      FinishedAt(o, h, x, calls, k);
      FiresPairs(o, k);
    }
  }

  lemma StackTop(o: Origin, h: Heap, x: Index, path: Key, stack: seq<Iter>, calls: seq<Key>)
    requires stack != [] && State(o, h, x, path, stack, calls)
    ensures |stack| == |path| + 1
    ensures var it := stack[|path|];
            it.size == |path| && it.child >= 0 && (it.processed ==> AtPost(o, h, x, path, stack, calls))
  {
    hide Base;
  }

  lemma RootKept(o: Origin, h: Heap, x: Index, calls: seq<Key>)
    requires Finished(o, h, x, calls)
    ensures Trie(h, x) && [] in x.at && [] in o.x.at && x.at[[]] == o.x.at[[]]
  {
    hide Visited, Called, NodeOk;
  }
}
