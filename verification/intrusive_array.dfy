/**
  array_t of array.hpp: a vector of items, each of which stores its own
  position.
 */
module IntrusiveArray {
  type Pipe = nat

  ghost predicate Indexed(items: seq<Pipe>, index: map<Pipe, nat>) {
    forall i :: 0 <= i < |items| ==> items[i] in index && index[items[i]] == i
  }

  /** The items at positions below `n`. */
  ghost function Region(items: seq<Pipe>, index: map<Pipe, nat>, n: nat): set<Pipe>
    requires Indexed(items, index)
  {
    set p | p in items && index[p] < n
  }

  lemma {:induction false} RegionSize(items: seq<Pipe>, index: map<Pipe, nat>, n: nat)
    requires Indexed(items, index) && n <= |items|
    ensures |Region(items, index, n)| == n
  {
    if n == 0 {
      assert Region(items, index, 0) == {};
    } else {
      RegionSize(items, index, n - 1);
      var p := items[n - 1];
      assert Region(items, index, n) == Region(items, index, n - 1) + {p};
    }
  }

  class PipeArray {
    var items: seq<Pipe>
    var index: map<Pipe, nat>   // the position stored in each item, stale once it is erased

    ghost predicate Valid()
      reads this
    {
      Indexed(items, index)
    }

    constructor ()
      ensures Valid() && items == []
    {
      items, index := [], map[];
    }

    /** Lines 89-95. */
    method PushBack(p: Pipe)
      requires Valid() && p !in items
      modifies this
      ensures Valid() && items == old(items) + [p]
      ensures forall q :: q in items ==> index[q] == if q == p then |items| - 1 else old(index[q])
    {
      index := index[p := |items|];
      items := items + [p];
    }

    /** Lines 97-111: the last item moves into the gap. */
    method Erase(p: Pipe)
      requires Valid() && p in items
      modifies this
      ensures Valid() && |items| == |old(items)| - 1
      ensures forall q :: q in items <==> q in old(items) && q != p
      ensures forall q :: q in items ==>
                index[q] == if old(index[q]) == |items| then old(index[p]) else old(index[q])
    {
      var i, last := index[p], |items| - 1;
      var back := items[last];
      index := index[back := i];
      items := items[i := back][..last];
      assert old(items)[i] == p;
      forall q ensures q in items <==> q in old(items) && q != p {
        if q in old(items) && q != p {
          var j :| 0 <= j <= last && old(items)[j] == q;
          assert items[if j == last then i else j] == q;
        }
      }
    }

    /** Lines 113-122. */
    method Swap(i: nat, j: nat)
      requires Valid() && i < |items| && j < |items|
      modifies this
      ensures Valid() && |items| == |old(items)|
      ensures forall q :: q in items <==> q in old(items)
      ensures forall q :: q in items ==>
                index[q] == if old(index[q]) == i then j else if old(index[q]) == j then i else old(index[q])
      ensures items == old(items)[i := old(items[j])][j := old(items[i])]
    {
      var a, b := items[i], items[j];
      index := index[a := j][b := i];
      items := items[i := b][j := a];
      forall q ensures q in items <==> q in old(items) {
        if q in old(items) {
          var k :| 0 <= k < |items| && old(items)[k] == q;
          assert items[if k == i then j else if k == j then i else k] == q;
        }
      }
    }

    /** push_back, then swap: the item takes position `n`, whose item moves to the end. */
    method PushAt(p: Pipe, n: nat)
      requires Valid() && p !in items && n <= |items|
      modifies this
      ensures Valid() && |items| == |old(items)| + 1 && items[n] == p
      ensures forall q :: q in items <==> q in old(items) || q == p
      ensures forall q :: q in items ==>
                index[q] == if q == p then n else if old(index)[q] == n then |items| - 1 else old(index)[q]
      ensures forall i :: 0 <= i < |old(items)| && i != n ==> items[i] == old(items)[i]
    {
      PushBack(p);
      Swap(n, |items| - 1);
    }
  }
}
