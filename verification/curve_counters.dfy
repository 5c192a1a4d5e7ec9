/** A 64-bit nonce counter that starts at 1 and goes up with every command sent. */
module CurveCounters {
  import opened CurveMessages

  /** `counters` are the values before each call and after the last; `sends` says which calls use one up. */
  ghost predicate Counting(counters: seq<nat>, sends: seq<bool>) {
    && |counters| == |sends| + 1 && counters[0] == 1
    && forall i :: 0 <= i < |sends| ==>
      counters[i + 1] == if sends[i] then (counters[i] + 1) % NONCE_LIMIT else counters[i]
  }

  /** The nonces used in the first `n` calls. */
  ghost function Used(counters: seq<nat>, sends: seq<bool>, n: nat): seq<nat>
    requires n <= |sends| < |counters|
  {
    if n == 0 then []
    else Used(counters, sends, n - 1) + if sends[n - 1] then [counters[n - 1]] else []
  }

  lemma {:induction false} UsedAre(counters: seq<nat>, sends: seq<bool>, n: nat)
    requires Counting(counters, sends) && n <= |sends|
    ensures var u := Used(counters, sends, n);
            && counters[n] == (1 + |u|) % NONCE_LIMIT
            && forall j :: 0 <= j < |u| ==> u[j] == (1 + j) % NONCE_LIMIT
  {
    if n > 0 {
      UsedAre(counters, sends, n - 1);
      ModNext(1 + |Used(counters, sends, n - 1)|);
    }
  }

  lemma {:induction false} ModNext(m: nat)
    ensures (m % NONCE_LIMIT + 1) % NONCE_LIMIT == (m + 1) % NONCE_LIMIT
  {
  }

  /**
    No nonce is used twice before the counter wraps: two of them are equal iff
    they are a multiple of 2^64 apart, and before that they go up.
   */
  lemma {:induction false} NoneTwice(counters: seq<nat>, sends: seq<bool>, n: nat, i: nat, j: nat)
    requires Counting(counters, sends) && n <= |sends| && i < j < |Used(counters, sends, n)|
    ensures var u := Used(counters, sends, n);
            && (u[i] == u[j] <==> (j - i) % NONCE_LIMIT == 0)
            && (j + 1 < NONCE_LIMIT ==> u[i] < u[j])
  {
    UsedAre(counters, sends, n);
    var u := Used(counters, sends, n);
    assert u[i] == (1 + i) % NONCE_LIMIT && u[j] == (1 + j) % NONCE_LIMIT;
    hide Used, Counting;
    ModEqual(i + 1, j + 1);
  }

  lemma {:induction false} ModEqual(i: nat, j: nat)
    requires i <= j
    ensures i % NONCE_LIMIT == j % NONCE_LIMIT <==> (j - i) % NONCE_LIMIT == 0
  {
    var q := (j - i) / NONCE_LIMIT;
    assert j - i == q * NONCE_LIMIT + (j - i) % NONCE_LIMIT;
  }

  lemma {:induction false} Bounded(counters: seq<nat>, sends: seq<bool>, i: nat, j: nat)
    requires Counting(counters, sends) && |sends| + 1 < NONCE_LIMIT && i <= j <= |sends|
    ensures counters[i] <= counters[j] <= 1 + j
    ensures i < j && sends[i] ==> counters[i] < counters[j]
  {
    if j > 0 {
      if i < j {
        Bounded(counters, sends, i, j - 1);
      } else {
        Bounded(counters, sends, j - 1, j - 1);
      }
    }
  }
}
