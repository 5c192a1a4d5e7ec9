/** Lexicographic order on byte strings, a prefix coming first. */
module Lexicographic {

  predicate Lex(a: seq<int>, b: seq<int>) {
    b != [] && (a == [] || a[0] < b[0] || (a[0] == b[0] && Lex(a[1..], b[1..])))
  }

  lemma {:induction false} LexIrreflexive(a: seq<int>)
    ensures !Lex(a, a)
  {
    if a != [] {
      LexIrreflexive(a[1..]);
    }
  }

  /** What lies before `p + [c]`: what lies before `p`, `p` itself, and its extensions by a smaller byte. */
  lemma {:induction false} LexSnoc(k: seq<int>, p: seq<int>, c: int)
    ensures Lex(k, p + [c]) <==> Lex(k, p) || (p <= k && (|k| == |p| || k[|p|] < c))
  {
    if p == [] {
      assert p + [c] == [c];
      assert forall a: seq<int> :: !Lex(a, []);
    } else {
      assert (p + [c])[1..] == p[1..] + [c];
      if k != [] && k[0] == p[0] {
        LexSnoc(k[1..], p[1..], c);
        assert p <= k <==> p[1..] <= k[1..] by {
          assert p == [p[0]] + p[1..] && k == [k[0]] + k[1..];
        }
      }
    }
  }

  /** Strictly increasing. */
  ghost predicate Sorted(s: seq<seq<int>>) {
    forall i, j :: 0 <= i < j < |s| ==> Lex(s[i], s[j])
  }
}
