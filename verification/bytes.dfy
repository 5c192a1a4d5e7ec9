/** Byte strings, and the 64-bit numbers of wire.hpp. */
module Bytes {
  type Byte = b: int | 0 <= b < 256

  /** The bytes of a name. */
  function Ascii(s: string): (r: seq<Byte>)
    requires forall i :: 0 <= i < |s| ==> s[i] < 128 as char
    ensures |r| == |s| && forall i :: 0 <= i < |s| ==> r[i] == s[i] as int
  {
    if s == [] then [] else Ascii(s[..|s| - 1]) + [s[|s| - 1] as int]
  }

  /** put_uint64 of wire.hpp: most significant byte first. */
  function PutUint64(n: nat): (r: seq<Byte>)
    requires n < 0x1_0000_0000_0000_0000
    ensures |r| == 8
  {
    BigEndian(n, 8)
  }

  function BigEndian(n: nat, k: nat): (r: seq<Byte>)
    ensures |r| == k
  {
    if k == 0 then [] else BigEndian(n / 256, k - 1) + [n % 256]
  }

  /** get_uint64. */
  function GetUint(b: seq<Byte>): nat {
    if b == [] then 0 else GetUint(b[..|b| - 1]) * 256 + b[|b| - 1]
  }

  function Pow256(k: nat): (r: nat)
    ensures r > 0
  {
    if k == 0 then 1 else 256 * Pow256(k - 1)
  }

  lemma {:induction false} UintRoundTrip(n: nat, k: nat)
    requires n < Pow256(k)
    ensures GetUint(BigEndian(n, k)) == n
  {
    if k > 0 {
      assert n / 256 < Pow256(k - 1);
      UintRoundTrip(n / 256, k - 1);
      var r := BigEndian(n / 256, k - 1) + [n % 256];
      assert r[..|r| - 1] == BigEndian(n / 256, k - 1);
    }
  }

  lemma SizeBytes(n: nat)
    requires n < 0x1_0000_0000_0000_0000
    ensures GetUint(PutUint64(n)) == n
    ensures n < 0x1_0000 ==> PutUint64(n)[0] == 0
  {
    assert Pow256(8) == 0x1_0000_0000_0000_0000 by {
      assert Pow256(4) == 0x1_0000_0000;
    }
    UintRoundTrip(n, 8);
    if n < 0x1_0000 {
      FirstByte(n, 8);
    }
  }

  /** Most significant byte first, each byte on its own. */
  lemma {:induction false} ByteAt(n: nat, k: nat, i: nat)
    requires i < k
    ensures BigEndian(n, k)[i] == n / Pow256(k - 1 - i) % 256
  {
    if i < k - 1 {
      ByteAt(n / 256, k - 1, i);
      DivideTwice(n, Pow256(k - 2 - i));
    }
  }

  lemma {:induction false} DivideTwice(n: nat, p: nat)
    requires p > 0
    ensures n / 256 / p == n / (256 * p)
  {
    var q := n / 256 / p;
    assert 256 * p * q <= n < 256 * p * q + 256 * p by {
      assert p * q <= n / 256 < p * q + p;
    }
    Quotient(n, 256 * p, q);
  }

  lemma {:induction false} Quotient(n: nat, d: nat, q: nat)
    requires d * q <= n < d * q + d
    ensures n / d == q
  {
    var e := n / d;
    assert d * e <= n < d * e + d;
    assert e < q ==> d * (e + 1) <= d * q;
    assert q < e ==> d * (q + 1) <= d * e;
  }

  lemma {:induction false} FirstByte(n: nat, k: nat)
    requires n < 0x1_0000 && k > 2
    ensures BigEndian(n, k)[0] == 0
  {
    if k == 3 {
      assert n / 256 / 256 == 0;
      assert BigEndian(n, 3)[0] == BigEndian(n / 256, 2)[0] == BigEndian(n / 256 / 256, 1)[0];
    } else {
      FirstByte(n / 256, k - 1);
    }
  }
}
