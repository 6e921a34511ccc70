/** The Z-order comparator that lays out the torus: it compares two points in the dimension whose
    coordinates differ in the highest bit, without building the interleaved code. */
module ZOrder {
  import opened Arith

  function Xor(a: nat, b: nat): (r: nat)
    ensures r == 0 <==> a == b
    ensures r <= a + b
    decreases a + b
  {
    if a == 0 && b == 0 then 0 else 2 * Xor(a / 2, b / 2) + (if a % 2 == b % 2 then 0 else 1)
  }

  /** How many bits a number has. */
  function Bits(n: nat): (r: nat)
    ensures r == 0 <==> n == 0
  {
    if n == 0 then 0 else Bits(n / 2) + 1
  }

  lemma {:induction false} XorHalf(a: nat, b: nat)
    ensures Xor(a, b) / 2 == Xor(a / 2, b / 2)
    ensures Bits(Xor(a, b)) == if a == b then 0 else Bits(Xor(a / 2, b / 2)) + 1
    ensures Xor(a, b) == Xor(b, a)
    decreases a
  {
    XorCommutes(a, b);
  }

  lemma {:induction false} XorCommutes(a: nat, b: nat)
    ensures Xor(a, b) == Xor(b, a)
    decreases a + b
  {
    if a != 0 || b != 0 { XorCommutes(a / 2, b / 2); }
  }

  lemma {:induction false} BitsMonotone(a: nat, b: nat)
    requires a <= b
    ensures Bits(a) <= Bits(b)
  {
    if a > 0 { BitsMonotone(a / 2, b / 2); }
  }

  /** The test for a lower most significant bit says what it is for. */
  lemma {:induction false} LessMsb(x: nat, y: nat)
    ensures x < y && x < Xor(x, y) <==> Bits(x) < Bits(y)
  {
    if x < y {
      BitsMonotone(x, y);
      if x > 0 {
        LessMsb(x / 2, y / 2);
        XorSmaller(x, y);
      }
    } else {
      BitsMonotone(y, x);
    }
  }

  /** Numbers of the same number of bits cancel their top bit; else the longer one keeps its own. */
  lemma {:induction false} XorSmaller(x: nat, y: nat)
    requires x > 0 && y > 0
    ensures Bits(x) == Bits(y) ==> Xor(x, y) < x
    ensures Bits(x) < Bits(y) ==> Bits(Xor(x, y)) == Bits(y) && x < Xor(x, y)
  {
    if x > 1 && y > 1 {
      XorSmaller(x / 2, y / 2);
      XorHalf(x, y);
    } else {
      XorHalf(x, y);
      assert Bits(1) == 1;
      if x == 1 && y > 1 { XorZero(y / 2); assert Bits(y / 2) >= 1; }
      else if y == 1 && x > 1 { assert Bits(x) >= 2; }
    }
  }

  lemma {:induction false} XorZero(y: nat)
    ensures Xor(0, y) == y
  {
    if y > 0 { XorZero(y / 2); }
  }

  // ----- the interleaved code

  function Halve(p: seq<nat>): (h: seq<nat>)
    ensures |h| == |p|
  {
    seq(|p|, k requires 0 <= k < |p| => p[k] / 2)
  }

  /** The lowest bits of the first k coordinates, the first one most significant. */
  function Low(p: seq<nat>, k: nat): (r: nat)
    requires k <= |p|
    ensures r < Pow2(k)
  {
    if k == 0 then 0 else 2 * Low(p, k - 1) + p[k - 1] % 2
  }

  ghost predicate Below(p: seq<nat>, n: nat) { forall k :: 0 <= k < |p| ==> p[k] < Pow2(n) }

  /** The code of n bit levels: at each level one bit of every coordinate, high levels first. */
  function Morton(p: seq<nat>, n: nat): (r: nat)
    decreases n
  {
    if n == 0 then 0 else Pow2(|p|) * Morton(Halve(p), n - 1) + Low(p, |p|)
  }

  lemma {:induction false} LowDecides(p: seq<nat>, q: seq<nat>, i: nat, k: nat)
    requires i < k <= |p| == |q| && p[i] % 2 != q[i] % 2
    requires forall j :: 0 <= j < i ==> p[j] % 2 == q[j] % 2
    ensures Low(p, k) < Low(q, k) <==> p[i] % 2 < q[i] % 2
    ensures Low(p, k) != Low(q, k)
  {
    if k - 1 > i { LowDecides(p, q, i, k - 1); } else { LowSame(p, q, i); }
  }

  lemma {:induction false} LowSame(p: seq<nat>, q: seq<nat>, k: nat)
    requires k <= |p| == |q| && forall j :: 0 <= j < k ==> p[j] % 2 == q[j] % 2
    ensures Low(p, k) == Low(q, k)
  {
    if k > 0 { LowSame(p, q, k - 1); }
  }

  lemma {:induction false} LexLess(w: nat, a: nat, b: nat, c: nat, d: nat)
    requires a < b && c < w && d < w
    ensures w * a + c < w * b + d
  {
    assert w * b == w * a + w * (b - a);
    MulBounds(w, b - a);
  }

  // ----- the deciding dimension

  function Differ(p: seq<nat>, q: seq<nat>, k: nat): (b: nat)
    requires k < |p| == |q|
  {
    Bits(Xor(p[k], q[k]))
  }

  /** The first dimension in which the coordinates differ at the highest bit. */
  ghost predicate Top(p: seq<nat>, q: seq<nat>, i: nat)
    requires |p| == |q|
  {
    && i < |p|
    && (forall k: nat :: k < |p| ==> Differ(p, q, k) <= Differ(p, q, i))
    && (forall k: nat :: k < i ==> Differ(p, q, k) < Differ(p, q, i))
  }

  lemma {:induction false} DifferHalf(p: seq<nat>, q: seq<nat>, k: nat)
    requires k < |p| == |q|
    ensures Differ(p, q, k) == if p[k] == q[k] then 0 else Differ(Halve(p), Halve(q), k) + 1
    ensures Differ(p, q, k) == Differ(q, p, k)
  {
    XorHalf(p[k], q[k]);
  }

  /** Points that agree above the lowest bit. */
  lemma {:induction false} TopDecidesLow(p: seq<nat>, q: seq<nat>, i: nat)
    requires |p| == |q| && Top(p, q, i) && Halve(p) == Halve(q)
    ensures p[i] < q[i] <==> Low(p, |p|) < Low(q, |q|)
  {
    forall k: nat | k < |p| ensures p[k] / 2 == q[k] / 2 && (Differ(p, q, k) == 0 <==> p[k] == q[k]) && Differ(p, q, k) <= 1 {
      assert Halve(p)[k] == Halve(q)[k];
      DifferHalf(p, q, k);
    }
    if Differ(p, q, i) == 0 {
      forall k: nat | k < |p| ensures p[k] == q[k] { assert Differ(p, q, k) <= Differ(p, q, i); }
      LowSame(p, q, |p|);
    } else {
      forall k: nat | k < i ensures p[k] == q[k] { assert Differ(p, q, k) < Differ(p, q, i); }
      LowDecides(p, q, i, |p|);
    }
  }

  lemma {:induction false} TopOfHalves(p: seq<nat>, q: seq<nat>, i: nat)
    requires |p| == |q| && Top(p, q, i) && Halve(p) != Halve(q)
    ensures Top(Halve(p), Halve(q), i) && Halve(p)[i] != Halve(q)[i]
  {
    var hp, hq := Halve(p), Halve(q);
    var m: nat :| m < |p| && hp[m] != hq[m];
    assert Differ(p, q, m) <= Differ(p, q, i);
    DifferHalf(p, q, m);
    DifferHalf(p, q, i);
    forall k: nat | k < |p| ensures Differ(hp, hq, k) <= Differ(hp, hq, i) && (k < i ==> Differ(hp, hq, k) < Differ(hp, hq, i)) {
      assert Differ(p, q, k) <= Differ(p, q, i);
      assert k < i ==> Differ(p, q, k) < Differ(p, q, i);
      DifferHalf(p, q, k);
    }
  }

  lemma {:induction false} TopSwaps(p: seq<nat>, q: seq<nat>, i: nat)
    requires |p| == |q| && Top(p, q, i)
    ensures Top(q, p, i)
  {
    forall k: nat | k < |p| ensures Differ(q, p, k) == Differ(p, q, k) { DifferHalf(p, q, k); }
    forall k: nat | k < |p| ensures Differ(q, p, k) <= Differ(q, p, i) { assert Differ(p, q, k) <= Differ(p, q, i); }
    forall k: nat | k < i ensures Differ(q, p, k) < Differ(q, p, i) { assert Differ(p, q, k) < Differ(p, q, i); }
  }

  /** The deciding dimension orders the points as their codes are ordered. */
  lemma {:induction false} TopDecides(p: seq<nat>, q: seq<nat>, n: nat, i: nat)
    requires |p| == |q| && Below(p, n) && Below(q, n) && Top(p, q, i)
    ensures p[i] < q[i] <==> Morton(p, n) < Morton(q, n)
    decreases n
  {
    if n > 0 {
      var hp, hq, w := Halve(p), Halve(q), Pow2(|p|);
      if hp == hq {
        TopDecidesLow(p, q, i);
      } else {
        TopOfHalves(p, q, i);
        TopSwaps(hp, hq, i);
        TopDecides(hp, hq, n - 1, i);
        TopDecides(hq, hp, n - 1, i);
        if Morton(hp, n - 1) < Morton(hq, n - 1) {
          LexLess(w, Morton(hp, n - 1), Morton(hq, n - 1), Low(p, |p|), Low(q, |q|));
        } else {
          LexLess(w, Morton(hq, n - 1), Morton(hp, n - 1), Low(q, |q|), Low(p, |p|));
        }
      }
    }
  }

  // ----- the comparator

  /** The deciding dimension among the first k. */
  function Deciding(p: seq<nat>, q: seq<nat>, k: nat): (i: nat)
    requires |p| == |q| && 0 < k <= |p|
    ensures i < k && (forall j: nat :: j < k ==> Differ(p, q, j) <= Differ(p, q, i))
    ensures forall j: nat :: j < i ==> Differ(p, q, j) < Differ(p, q, i)
  {
    if k == 1 then 0 else
    var i := Deciding(p, q, k - 1);
    if Differ(p, q, k - 1) > Differ(p, q, i) then k - 1 else i
  }

  /** The comparator as a relation. */
  predicate Less(p: seq<nat>, q: seq<nat>)
    requires |p| == |q| > 0
  {
    p[Deciding(p, q, |p|)] < q[Deciding(p, q, |p|)]
  }

  lemma {:induction false} TopUnique(p: seq<nat>, q: seq<nat>, i: nat)
    requires |p| == |q| > 0 && Top(p, q, i)
    ensures i == Deciding(p, q, |p|)
  {
    var d := Deciding(p, q, |p|);
    assert Differ(p, q, i) == Differ(p, q, d);
  }

  /** The loop of the comparator computes the relation, and that is less exactly when the
      interleaved code is, for any number of bits that holds the points. */
  method ZLess(p1: seq<nat>, p2: seq<nat>) returns (less: bool)
    requires |p1| == |p2| > 0
    ensures less == Less(p1, p2)
    ensures forall n: nat :: Below(p1, n) && Below(p2, n) ==> (less <==> Morton(p1, n) < Morton(p2, n))
  {
    var index: nat, x: nat := 0, 0;
    for k := 0 to |p1|
      invariant index < |p1| && (k > 0 ==> index < k)
      invariant Bits(x) == if k == 0 then 0 else Differ(p1, p2, index)
      invariant forall j: nat :: j < k ==> Differ(p1, p2, j) <= Bits(x)
      invariant forall j: nat :: j < index ==> Differ(p1, p2, j) < Bits(x)
      invariant k == 0 ==> index == 0
      invariant x == 0 ==> index == 0
    {
      var y := Xor(p1[k], p2[k]);
      LessMsb(x, y);
      var lessMsb := x < y && x < Xor(x, y);
      if lessMsb {
        index := k;
        x := y;
      }
    }
    less := p1[index] as int - p2[index] < 0;
    assert Top(p1, p2, index);
    TopUnique(p1, p2, index);
    forall n: nat | Below(p1, n) && Below(p2, n) ensures less <==> Morton(p1, n) < Morton(p2, n) {
      TopDecides(p1, p2, n, index);
    }
  }

  lemma {:induction false} LessIsCode(p: seq<nat>, q: seq<nat>, n: nat)
    requires |p| == |q| > 0 && Below(p, n) && Below(q, n)
    ensures Less(p, q) <==> Morton(p, n) < Morton(q, n)
  {
    assert Top(p, q, Deciding(p, q, |p|));
    TopDecides(p, q, n, Deciding(p, q, |p|));
  }

  /** Codes tell points apart. */
  lemma {:induction false} CodesDistinct(p: seq<nat>, q: seq<nat>, n: nat)
    requires |p| == |q| && Below(p, n) && Below(q, n)
    ensures Morton(p, n) == Morton(q, n) <==> p == q
  {
    if p != q {
      var i := Deciding(p, q, |p|);
      assert Top(p, q, i);
      TopSwaps(p, q, i);
      TopDecides(p, q, n, i);
      TopDecides(q, p, n, i);
      var m: nat :| m < |p| && p[m] != q[m];
      assert Differ(p, q, m) <= Differ(p, q, i);
      XorHalf(p[m], q[m]);
    }
  }

  lemma {:induction false} Pow2Above(x: nat)
    ensures x < Pow2(x)
  {
    if x > 0 { Pow2Above(x - 1); }
  }

  /** Every point fits some number of bit levels, and any higher one. */
  lemma {:induction false} Levels(p: seq<nat>, atLeast: nat) returns (n: nat)
    ensures n >= atLeast && forall k :: 0 <= k < |p| ==> p[k] <= n
  {
    n := atLeast;
    for k := 0 to |p|
      invariant n >= atLeast && forall j :: 0 <= j < k ==> p[j] <= n
    {
      if p[k] > n { n := p[k]; }
    }
  }

  lemma {:induction false} FitsLevels(p: seq<nat>, n: nat)
    requires forall k :: 0 <= k < |p| ==> p[k] <= n
    ensures Below(p, n)
  {
    Pow2Above(n);
  }

  /** The comparator is a strict total order on the points of one dimension, as sorting needs:
      no point is below itself, the order is transitive, and of two points exactly one is below
      the other unless they are equal. */
  lemma {:induction false} StrictTotalOrder(p: seq<nat>, q: seq<nat>, r: seq<nat>)
    requires |p| == |q| == |r| > 0
    ensures !Less(p, p)
    ensures Less(p, q) && Less(q, r) ==> Less(p, r)
    ensures Less(p, q) ==> !Less(q, p)
    ensures Less(p, q) || Less(q, p) <==> p != q
  {
    var n := Levels(p, 0);
    n := Levels(q, n);
    n := Levels(r, n);
    FitsLevels(p, n);
    FitsLevels(q, n);
    FitsLevels(r, n);
    LessIsCode(p, q, n);
    LessIsCode(q, p, n);
    LessIsCode(q, r, n);
    LessIsCode(p, r, n);
    LessIsCode(p, p, n);
    CodesDistinct(p, q, n);
  }
}
