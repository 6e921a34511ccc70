/** Powers of two, logarithms and modular arithmetic shared by the models. */
module Arith {

  const UINT32: nat := 0x1_0000_0000
  const UINT64: nat := 0x1_0000_0000_0000_0000

  function Pow2(n: nat): (r: nat)
    ensures r >= 1
  {
    if n == 0 then 1 else 2 * Pow2(n - 1)
  }

  lemma {:induction false} Pow2Monotone(a: nat, b: nat)
    requires a <= b
    ensures Pow2(a) <= Pow2(b)
    decreases b
  {
    if a < b { Pow2Monotone(a, b - 1); }
  }

  /** The position of the most significant one bit. */
  function Log2(x: nat): (r: nat)
    requires x >= 1
    ensures Pow2(r) <= x < 2 * Pow2(r)
  {
    if x == 1 then 0 else Log2(x / 2) + 1
  }

  lemma {:induction false} ModUnique(a: int, p: int, q: int, r: int)
    requires p > 0 && 0 <= r < p && a == p * q + r
    ensures a % p == r
  {
    var d := a / p - q;
    assert p * d == p * (a / p) - p * q;
    assert -p < p * d < p;
    assert d == 0 by { MulBounds(p, d); }
  }

  lemma {:induction false} MulBounds(p: int, d: int)
    requires p > 0
    ensures d > 0 ==> p * d >= p
    ensures d < 0 ==> p * d <= -p
  {
  }

  /** n * w by repeated addition, which keeps proofs linear. */
  function Mul(n: nat, w: nat): (r: nat)
  {
    if n == 0 then 0 else Mul(n - 1, w) + w
  }

  lemma {:induction false} MulIsProduct(n: nat, w: nat)
    ensures Mul(n, w) == n * w
  {
    if n > 0 {
      MulIsProduct(n - 1, w);
      assert n * w == (n - 1) * w + w;
    }
  }

  lemma {:induction false} MulAdd(a: nat, b: nat, w: nat)
    ensures Mul(a + b, w) == Mul(a, w) + Mul(b, w)
  {
    if b > 0 { MulAdd(a, b - 1, w); }
  }

  lemma {:induction false} MulMonotone(a: nat, b: nat, w: nat)
    requires a <= b
    ensures Mul(a, w) <= Mul(b, w)
    decreases b
  {
    if a < b { MulMonotone(a, b - 1, w); }
  }

  ghost function Sum(s: seq<nat>): (n: nat)
  {
    if s == [] then 0 else s[0] + Sum(s[1..])
  }

  lemma {:induction false} SumUpdate(s: seq<nat>, i: nat, x: nat)
    requires i < |s|
    ensures Sum(s[i := x]) == Sum(s) - s[i] + x
    decreases |s|
  {
    if i > 0 {
      SumUpdate(s[1..], i - 1, x);
      assert s[i := x][1..] == s[1..][i - 1 := x];
    } else {
      assert s[i := x][1..] == s[1..];
    }
  }

  lemma {:induction false} SumBound(s: seq<nat>, t: seq<nat>)
    requires |s| == |t| && forall i :: 0 <= i < |s| ==> s[i] <= t[i]
    ensures Sum(s) <= Sum(t)
  {
    if s != [] { SumBound(s[1..], t[1..]); }
  }

  lemma {:induction false} SumOfSame(p: nat, c: nat)
    ensures Sum(seq(p, _ => c)) == Mul(p, c)
  {
    if p > 0 {
      SumOfSame(p - 1, c);
      assert seq(p, _ => c)[1..] == seq(p - 1, _ => c);
    }
  }
}
