/** Little-endian words and tagged byte streams. */
module Bytes {
  import opened Arith

  type byte = b: int | 0 <= b < 256

  /** The w low bytes of n, least significant first. */
  function Le(n: nat, w: nat): (s: seq<byte>)
    ensures |s| == w
  {
    if w == 0 then [] else [n % 256] + Le(n / 256, w - 1)
  }

  function FromLe(s: seq<byte>): (n: nat)
  {
    if s == [] then 0 else s[0] + 256 * FromLe(s[1..])
  }

  function Pow256(w: nat): (r: nat)
    ensures r >= 1
  {
    if w == 0 then 1 else 256 * Pow256(w - 1)
  }

  /** Reading back a word that fits gives the word. */
  lemma {:induction false} LeRoundTrip(n: nat, w: nat)
    requires n < Pow256(w)
    ensures FromLe(Le(n, w)) == n
  {
    if w > 0 {
      LeRoundTrip(n / 256, w - 1);
      assert Le(n, w)[1..] == Le(n / 256, w - 1);
    }
  }

  lemma {:induction false} Word32(n: nat)
    requires n < UINT32
    ensures FromLe(Le(n, 4)) == n
  {
    assert Pow256(4) == UINT32 by { assert Pow256(2) == 65536; }
    LeRoundTrip(n, 4);
  }

  lemma {:induction false} Word64(n: nat)
    requires n < UINT64
    ensures FromLe(Le(n, 8)) == n
  {
    assert Pow256(8) == UINT64 by { assert Pow256(2) == 65536; assert Pow256(4) == UINT32; assert Pow256(6) == 65536 * UINT32; }
    LeRoundTrip(n, 8);
  }
}
