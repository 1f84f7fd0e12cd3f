/** Bytes and the little-endian integers the agent's wire formats are made of
    (guest/minimal-initrd/util.c). */
module Bytes {
  type byte = x: int | 0 <= x < 256

  function Pow256(n: nat): (r: nat)
    ensures r > 0
  {
    if n == 0 then 1 else 256 * Pow256(n - 1)
  }

  /** The `n`-byte little-endian form of `v`, higher bits dropped. */
  function WriteLe(v: nat, n: nat): (s: seq<byte>)
    ensures |s| == n
  {
    if n == 0 then [] else [v % 256] + WriteLe(v / 256, n - 1)
  }

  function ReadLe(s: seq<byte>): (v: nat) {
    if s == [] then 0 else s[0] + 256 * ReadLe(s[1..])
  }

  lemma {:induction false} ReadWriteLe(v: nat, n: nat)
    requires v < Pow256(n)
    ensures ReadLe(WriteLe(v, n)) == v
  {
    if n > 0 {
      ReadWriteLe(v / 256, n - 1);
      assert WriteLe(v, n)[1..] == WriteLe(v / 256, n - 1);
    }
  }

  lemma {:induction false} WriteReadLe(s: seq<byte>)
    ensures ReadLe(s) < Pow256(|s|)
    ensures WriteLe(ReadLe(s), |s|) == s
  {
    if s != [] {
      WriteReadLe(s[1..]);
      assert s == [s[0]] + s[1..];
    }
  }

  /** The lowest byte comes first. */
  lemma {:induction false} LeBytes(v: nat, n: nat, i: nat)
    requires i < n
    ensures WriteLe(v, n)[i] == v / Pow256(i) % 256
  {
    if i > 0 {
      LeBytes(v / 256, n - 1, i - 1);
      DividedTwice(v, Pow256(i - 1));
    }
  }

  lemma DividedTwice(v: nat, m: nat)
    requires m > 0
    ensures v / 256 / m == v / (256 * m)
  {
    var q, r := v / (256 * m), v % (256 * m);
    assert v == 256 * (m * q) + r;
    assert v / 256 == m * q + r / 256;
    assert r / 256 < m;
    Quotient(v / 256, m, q, r / 256);
  }

  lemma Quotient(x: nat, m: nat, q: nat, r: nat)
    requires m > 0 && x == m * q + r && r < m
    ensures x / m == q
  {
    var k := x / m - q;
    assert m * k == r - x % m;
    assert k >= 1 ==> m * k >= m;
    assert k <= -1 ==> m * k + m <= 0;
  }
}
