/** generic_mtrie_t: the class, its operations changing the nodes in place. */
module SubscriptionTrie {
  import opened Bytes
  import opened Wrappers
  import opened Lexicographic
  import opened MultiTrie
  import opened MtrieWalk

  class Mtrie {
    var heap: Heap
    var root: Addr
    ghost var index: Index

    ghost predicate Valid()
      reads this
    {
      Trie(heap, index) && index.at[[]] == root
    }

    ghost function Subscriptions(): set<(Key, Pipe)>
      reads this
    {
      Pairs(heap, index)
    }

    constructor ()
      ensures Valid() && Subscriptions() == {}
    {
      root := 1;
      heap := map[1 := EMPTY_NODE];
      index := Index(map[[] := 1], map[1 := []]);
      new;
      assert Live(EMPTY_NODE) == {};
    }

    method Add(prefix: Key, pipe: Pipe) returns (result: bool)
      requires Valid()
      modifies this
      ensures Valid()
      ensures Subscriptions() == old(Subscriptions()) + {(prefix, pipe)}
      ensures result <==> forall p :: (prefix, p) !in old(Subscriptions())
    {
      hide NodeOk, Pairs;
      var it, i := root, 0;
      assert prefix[..0] == [];
      while i < |prefix|
        invariant 0 <= i <= |prefix|
        invariant TrieExcept(heap, index, prefix[..i]) && index.at[[]] == root && it == index.at[prefix[..i]]
        invariant Subscriptions() == old(Subscriptions())
      {
        var c := prefix[i];
        ghost var k := prefix[..i];
        assert prefix[..i + 1] == Snoc(k, c);
        if Child(heap[it], c) == NULL {
          FreshExists(heap.Keys);
          var a :| a != NULL && a !in heap;
          var n := WithChild(heap[it], c, a);
          GrowStep(heap, index, k, c, a, n);
          heap := heap[it := n][a := EMPTY_NODE];
          index := Bind(index, Snoc(k, c), a);
        } else {
          GrowSkip(heap, index, k, c);
        }
        it := Child(heap[it], c);
        i := i + 1;
      }
      assert prefix[..i] == prefix;
      result := heap[it].pipes.None?;
      var n := heap[it].(pipes := Some(PipesOf(heap[it]) + {pipe}));
      GrowEnd(heap, index, prefix, pipe, n);
      heap := heap[it := n];
    }

    /** Lines 418-435: the node for the whole key is reached. */
    method EraseHere(node: Addr, ghost k: Key, pipe: Pipe) returns (ret: RmResult)
      requires Valid() && k in index.at && node == index.at[k]
      modifies this`heap
      ensures TrieExcept(heap, index, k)
      ensures RmSpec(old(Subscriptions()), Subscriptions(), k, pipe, ret)
    {
      FoundAt(heap, index, k, pipe);
      var n := heap[node];
      if n.pipes.None? {
        return NotFound;
      }
      hide NodeOk, Pairs, RmSpec;
      var erased := pipe in n.pipes.value;
      n := n.(pipes := Without(n.pipes, pipe));
      EraseAt(heap, index, k, pipe, n);
      heap := heap[node := n];
      if n.pipes.None? {
        assert erased;
        return LastValueRemoved;
      }
      ret := if erased then ValuesRemain else NotFound;
    }

    /** Lines 461-530: back at the node for `k`, after its child `c`. */
    method PruneChild(node: Addr, next: Addr, ghost k: Key, c: Byte)
      requires TrieExcept(heap, index, Snoc(k, c)) && k in index.at
      requires node == index.at[k] && next == index.at[Snoc(k, c)]
      modifies this`heap, this`index
      ensures TrieExcept(heap, index, k) && Subscriptions() == old(Subscriptions())
      ensures forall j :: j in old(index.at) && j != Snoc(k, c) ==> j in index.at && index.at[j] == old(index.at[j])
    {
      hide NodeOk, Pairs, Child;
      PruneFacts(heap, index, k, c);
      hide Linked;
      if IsRedundant(heap[next]) {
        var r := RemoveChild(heap[node], c);
        PruneStep(heap, index, k, c, r);
        heap := (heap - {next})[node := r];
        index := Unbind(index, Snoc(k, c));
      }
    }

    /** Lines 396-535. */
    method RmPrefix(prefix: Key, pipe: Pipe) returns (ret: RmResult)
      requires Valid()
      modifies this
      ensures Valid()
      ensures Subscriptions() == old(Subscriptions()) - {(prefix, pipe)}
      ensures ret.NotFound? <==> (prefix, pipe) !in old(Subscriptions())
      ensures ret.LastValueRemoved? <==>
              && (prefix, pipe) in old(Subscriptions())
              && forall p :: (prefix, p) in old(Subscriptions()) ==> p == pipe
    {
      hide NodeOk, Pairs, RmSpec, TrieExcept, Trie, Linked, Trail;
      TrieEnd(heap, index);
      ret := NotFound;
      assert prefix[..0] == [];
      var stack := [Iter(root, NULL, prefix, |prefix|, 0, 0, 0, false)];
      TrailStart(index, prefix, stack);
      ghost var d, down := 0, true;
      while stack != []
        invariant d <= |prefix| && Trail(index, prefix, stack, d) && Look(index, []) == root
        invariant down ==> Trie(heap, index) && heap == old(heap) && index == old(index)
        invariant down ==> |stack| == d + 1 && !stack[d].processed
        invariant down ==> stack[d].node == Look(index, prefix[..d]) && stack[d].rest == prefix[d..]
        invariant down ==> stack[d].size == |prefix| - d
        invariant !down ==> |stack| == d
        invariant TrieExcept(heap, index, prefix[..d])
        invariant !down ==> RmSpec(old(Subscriptions()), Subscriptions(), prefix, pipe, ret)
        decreases down, if down then |prefix| - d else |stack|
      {
        TrailTop(index, prefix, stack, d);
        ghost var x, entries := index, stack;
        var it := stack[|stack| - 1];
        stack := stack[..|stack| - 1];
        ghost var k := prefix[..d];
        TrailCut(index, prefix, entries, d);
        if !it.processed {
          if it.size == 0 {
            assert k == prefix;
            down := false;
            ret := EraseHere(it.node, prefix, pipe);
            continue;
          }
          it := it.(child := it.rest[0]);
          assert Snoc(k, prefix[d]) == prefix[..d + 1];
          Descend(heap, index, k, prefix[d]);
          it := it.(next := Child(heap[it.node], it.child));
          if it.next == NULL {
            ret := NotFound;
            NotFoundAt(heap, index, prefix, d + 1, pipe);
            down := false;
            continue;
          }
          it := it.(processed := true);
          var next := Iter(it.next, NULL, it.rest[1..], it.size - 1, 0, 0, 0, false);
          TrailPush(index, prefix, stack, d, it, next);
          stack := stack + [it, next];
          d := d + 1;
        } else {
          d := d - 1;
          k := prefix[..d];
          PruneChild(it.node, it.next, k, it.child);
          TrailPop(x, index, prefix, entries, d);
        }
      }
      TrieEnd(heap, index);
      RmMeans(old(Subscriptions()), Subscriptions(), prefix, pipe, ret);
    }

    /** Lines 537-577. */
    method Match(data: Key) returns (hits: seq<Hit>)
      requires Valid()
      ensures forall j: nat, p: Pipe :: (j, p) in hits <==> j <= |data| && (data[..j], p) in Subscriptions()
      ensures forall i, j :: 0 <= i < j < |hits| ==>
                hits[i].0 < hits[j].0 || (hits[i].0 == hits[j].0 && hits[i].1 < hits[j].1)
    {
      hide NodeOk, Pairs, Matched, Increasing;
      MatchedNone(Subscriptions(), data);
      var current, i := root, 0;
      hits := [];
      assert data[..0] == [];
      while true
        invariant 0 <= i <= |data| && data[..i] in index.at && current == index.at[data[..i]]
        invariant Matched(hits, Subscriptions(), data, i)
        decreases |data| - i
      {
        var n := heap[current];
        MatchedShort(hits, Subscriptions(), data, i);
        var r := Signal(PipesOf(n), i, hits);
        MatchedNext(r, hits, heap, index, data, i);
        hits := r;
        if i == |data| {
          break;
        }
        var c := data[i];
        assert Snoc(data[..i], c) == data[..i + 1];
        assert Child(n, c) == Look(index, Snoc(data[..i], c));
        if n.count == 0 || c < n.min || n.min + n.count <= c {
          break;
        }
        var next := Child(n, c);
        if next == NULL {
          break;
        }
        current := next;
        i := i + 1;
      }
      MatchedAll(hits, heap, index, data, i);
      MatchedMeans(hits, Subscriptions(), data);
    }

    /** Lines 186-195: erase the pipe from the node and call back if asked to. */
    method Erase(pipe: Pipe, uniq: bool, it: Iter, buff: Key, calls: seq<Key>, ghost o: Origin, ghost path: Key,
                 ghost rest: seq<Iter>)
      returns (calls': seq<Key>)
      requires |rest| == |path| && Walking(o, heap, index, path, rest + [it], calls) && !it.processed
      requires |path| <= |buff| && buff[..|path|] == path && o.pipe == pipe && o.uniq == uniq
      modifies this`heap
      ensures Opened(o, heap, index, path, rest, it, calls')
      ensures it.child > 0 ==> OpenCut(heap, path, it) == Reached(old(heap), path, rest + [it])
      ensures it.child == 0 ==> |Pending(o, OpenCut(heap, path, it))| < |Pending(o, path)|
    {
      hide Walking, Base, Opened, InProgress, AtPost, AtFirst, AtNext, Pending, Fires;
      assert (rest + [it])[|path|] == it;
      EraseFacts(o, heap, index, path, rest, it, calls);
      calls' := calls;
      var n := heap[it.node];
      if n.pipes.Some? && pipe in n.pipes.value {
        var left := n.pipes.value - {pipe};
        if !uniq || left == {} {
          calls' := calls + [buff[..it.size]];
        }
        n := n.(pipes := Without(n.pipes, pipe));
      } else {
        assert n.pipes.Some? ==> n.pipes.value - {pipe} == n.pipes.value;
      }
      assert n == heap[it.node].(pipes := Without(heap[it.node].pipes, pipe));
      if it.child == 0 {
        OpenFirst(o, heap, index, path, rest, it, calls, n, calls');
      } else {
        OpenNext(o, heap, index, path, rest, it, calls);
        assert heap[it.node := n] == heap;
      }
      heap := heap[it.node := n];
    }

    /** Lines 205-251: after the erasure, go to the next slot of the node. */
    method Down(it: Iter, rest: seq<Iter>, buff: Key, calls: seq<Key>, ghost o: Origin, ghost path: Key)
      returns (stack: seq<Iter>, buff': Key, ghost path': Key)
      requires Opened(o, heap, index, path, rest, it, calls)
      requires |path| < |buff| && buff[..|path|] == path
      ensures State(o, heap, index, path', stack, calls)
      ensures stack != [] ==> |path'| <= |buff'| && buff'[..|path'|] == path'
      ensures |Pending(o, Reached(heap, path', stack))| == |Pending(o, OpenCut(heap, path, it))|
      ensures it.child > 0 ==> Weights(stack) < Weights(rest + [it])
    {
      hide Closed, Base, AtPost, AtFirst, AtNext, Pending, NodeOk, SameCut, MinMax, Finished, Weights;
      stack, buff', path' := rest, buff, path;
      var n := heap[it.node];
      WeightsPush(rest, it);
      assert rest[..|path|] == rest;
      if n.count == 0 {
        LeafDone(o, heap, index, path, rest, calls);
        path' := PopDone(o, heap, index, path, rest, calls, 256);
      } else {
        var pushed := Opening(n, it).(processed := true);
        var c := n.min + it.child;
        buff' := buff[it.size := c];
        assert buff'[..|path|] == path;
        var next := Child(n, c);
        Mark(o, heap, index, path, Opening(n, it));
        if next != NULL {
          var top := Iter(next, NULL, [], it.size + 1, 0, 0, 0, false);
          WeightsTop(rest, pushed, top);
          PushChild(o, heap, index, path, rest, calls, pushed, c, top);
          stack := rest + [pushed, top];
          path' := Snoc(path, c);
        } else {
          WeightsPush(rest, pushed);
          NullSlot(o, heap, index, path, rest, calls, pushed, c);
          PendingSame(o, Cut(path, c), Cut(path, c + 1));
          stack := rest + [pushed];
        }
      }
    }

    /** Lines 263-273: prune the only child if it became redundant. */
    method PruneSingle(it: Iter, rest: seq<Iter>, calls: seq<Key>, ghost o: Origin, ghost path: Key)
      requires Post(o, heap, index, path, rest, it, calls) && heap[it.node].count == 1
      modifies this`heap, this`index
      ensures Closed(o, heap, index, path, rest, calls, old(At(heap, it)) + 1)
    {
      hide Base, MinMax, Closed, Linked;
      var n := heap[it.node];
      var child := Child(n, n.min);
      assert child != NULL && Snoc(path, n.min) in index.at && child == index.at[Snoc(path, n.min)];
      assert rest[..|path|] == rest;
      if IsRedundant(heap[child]) {
        LiveCount(n);
        var m := n.(next := Single(NULL), count := 0, live := n.live - 1);
        assert m.live == 0;
        assert Live(m) == {};
        DeleteChild(o, heap, index, path, n.min, rest, calls, m);
        heap := (heap - {child})[it.node := m];
        index := Unbind(index, Snoc(path, n.min));
      } else {
        KeepChild(o, heap, index, path, n.min, rest, Cut(path, n.min + 1), calls);
      }
      SingleDone(o, heap, index, path, rest, calls, n.min + 1);
    }

    /** Lines 277-309: prune the child in the current slot, or take its byte into account. */
    method PruneSlot(it: Iter, rest: seq<Iter>, calls: seq<Key>, ghost o: Origin, ghost path: Key) returns (it': Iter)
      requires Post(o, heap, index, path, rest, it, calls) && heap[it.node].count > 1
      modifies this`heap, this`index
      ensures it'.child == it.child + 1 && it'.node == it.node && !it'.processed
      ensures it.node in heap && heap[it.node].count == old(heap[it.node].count)
      ensures it'.child <= heap[it.node].count
      ensures At(heap, it') == old(At(heap, it)) + 1
      ensures it'.child < heap[it.node].count ==> AtNext(o, heap, index, path, rest + [it'], calls)
      ensures it'.child == heap[it.node].count ==> Swept(o, heap, index, path, rest, it', calls, old(At(heap, it)) + 1)
    {
      hide Base, MinMax, AtNext, Swept, IsRedundant, Sound, Child, SetChild;
      var n := heap[it.node];
      var c := n.min + it.child;
      var child := Child(n, c);
      it' := it.(processed := false, child := it.child + 1);
      if child != NULL && IsRedundant(heap[child]) {
        DropChild(n, c);
        var m := SetChild(n, c, NULL).(live := n.live - 1);
        DeleteChild(o, heap, index, path, c, rest, calls, m);
        MinMaxDrop(n, m, it, it', c);
        heap := (heap - {child})[it.node := m];
        index := Unbind(index, Snoc(path, c));
      } else {
        KeepChild(o, heap, index, path, c, rest, Cut(path, c + 1), calls);
        if child != NULL {
          it' := it'.(newMin := if c < it.newMin then c else it.newMin,
                      newMax := if c > it.newMax then c else it.newMax);
          MinMaxLive(n, it, it', c);
        } else {
          MinMaxDrop(n, n, it, it', c);
        }
      }
      SlotDone(o, heap, index, path, rest, it, it', calls, c, o.h[o.x.at[path]]);
    }

    /** Lines 258-389: back at a node whose slot `child` was traversed. */
    method AfterChild(it: Iter, rest: seq<Iter>, calls: seq<Key>, ghost o: Origin, ghost path: Key)
      returns (stack: seq<Iter>, ghost path': Key)
      requires Post(o, heap, index, path, rest, it, calls) && it.processed
      modifies this`heap, this`index
      ensures State(o, heap, index, path', stack, calls) && path' <= path
      ensures |Pending(o, Reached(heap, path', stack))| == |Pending(o, Cut(path, old(At(heap, it)) + 1))|
      ensures Weights(stack) < Weights(rest + [it])
    {
      hide Closed, Base, AtFirst, AtNext, AtPost, Pending, NodeOk, Sound, SameCut, Finished, Weights, MinMax;
      ghost var hi := At(heap, it) + 1;
      WeightsPush(rest, it);
      if heap[it.node].count == 1 {
        PruneSingle(it, rest, calls, o, path);
        stack := rest;
        path' := PopDone(o, heap, index, path, rest, calls, hi);
      } else {
        var it' := PruneSlot(it, rest, calls, o, path);
        if it'.child < heap[it.node].count {
          stack, path' := rest + [it'], path;
          WeightsPush(rest, it');
        } else {
          var r := CompactTable(heap[it.node], it');
          CloseTable(o, heap, index, path, rest, it', calls, hi, r);
          heap := heap[it.node := r];
          stack := rest;
          path' := PopDone(o, heap, index, path, rest, calls, hi);
        }
      }
    }

    /** Lines 156-394. */
    method RmValue(pipe: Pipe, uniq: bool) returns (calls: seq<Key>)
      requires Valid()
      modifies this
      ensures Valid()
      ensures Subscriptions() == set kp | kp in old(Subscriptions()) && kp.1 != pipe
      ensures forall k :: k in calls <==>
                && (k, pipe) in old(Subscriptions())
                && (uniq ==> forall q :: (k, q) in old(Subscriptions()) ==> q == pipe)
      ensures forall i, j :: 0 <= i < j < |calls| ==> Lex(calls[i], calls[j])
    {
      hide NodeOk, Pairs, Linked, Base, AtFirst, AtNext, Post, Finished, Pending, Weights, Notified, InProgress;
      var first := Iter(root, NULL, [], 0, 0, 0, 0, false);
      var stack, buff := [first], [];
      calls := [];
      ghost var o, path := Origin(heap, index, pipe, uniq), [];
      Start(heap, index, pipe, uniq, first);
      hide Trie;
      while stack != []
        invariant State(o, heap, index, path, stack, calls)
        invariant stack != [] ==> |path| <= |buff| && buff[..|path|] == path
        invariant root == old(root)
        decreases |Pending(o, Reached(heap, path, stack))|, Weights(stack)
      {
        ghost var entries := stack;
        StackTop(o, heap, index, path, stack, calls);
        var it, rest := stack[|stack| - 1], stack[..|stack| - 1];
        assert rest + [it] == stack;
        if !it.processed {
          calls := Erase(pipe, uniq, it, buff, calls, o, path, rest);
          if it.size >= |buff| {
            buff := buff + seq(it.size + 256 - |buff|, _ => 0);
          }
          stack, buff, path := Down(it, rest, buff, calls, o, path);
        } else {
          PostFacts(o, heap, index, path, rest, it, calls);
          stack, path := AfterChild(it, rest, calls, o, path);
        }
      }
      FinishedPairs(o, heap, index, calls);
      NotifiedMeans(old(Subscriptions()), pipe, uniq, calls);
      assert Valid() by { RootKept(o, heap, index, calls); }
    }
  }
}
