/** Byte strings and the big-endian integers that pgoutput messages are made of. */
module Bytes {

  type Byte = x: int | 0 <= x < 256
  type ByteString = seq<Byte>

  function Pow256(n: nat): (p: nat)
    ensures p > 0
  {
    if n == 0 then 1 else 256 * Pow256(n - 1)
  }

  /** The unsigned big-endian value of the `n` bytes at offset `o` (binary.BigEndian.UintNN). */
  function Be(d: ByteString, o: nat, n: nat): nat
    requires o + n <= |d|

  {
    if n == 0 then 0 else 256 * Be(d, o, n - 1) + d[o + n - 1]
  }

  /** The `n` low-order bytes of `v`, most significant first. */
  function ToBe(v: nat, n: nat): (s: ByteString)
    ensures |s| == n

  {
    if n == 0 then [] else ToBe(v / 256, n - 1) + [v % 256]
  }

  /** `s` is what `d` holds from offset `o` on. */
  predicate At(d: ByteString, o: nat, s: ByteString) {
    o + |s| <= |d| && forall i | 0 <= i < |s| :: d[o + i] == s[i]
  }

  lemma AtEvery(d: ByteString, o: nat, s: ByteString)
    ensures At(d, o, s) <==> o + |s| <= |d| && d[o..o + |s|] == s
  {
    if o + |s| <= |d| && d[o..o + |s|] == s {
      forall i | 0 <= i < |s| ensures d[o + i] == s[i] {
        assert d[o..o + |s|][i] == s[i];
      }
    }
  }

  lemma AtBoth(d: ByteString, o: nat, a: ByteString, b: ByteString)
    requires At(d, o, a + b)
    ensures At(d, o, a) && At(d, o + |a|, b)
  {
    forall i | 0 <= i < |a| ensures d[o + i] == a[i] {
      assert (a + b)[i] == a[i];
    }
    forall i | 0 <= i < |b| ensures d[o + |a| + i] == b[i] {
      assert (a + b)[|a| + i] == b[i] == d[o + (|a| + i)];
    }
  }

  /** What lies in a prefix of `d` lies in `d`. */
  lemma AtExtends(d: ByteString, later: ByteString, o: nat, s: ByteString)
    requires d <= later
    ensures o + |s| <= |d| ==> (At(d, o, s) <==> At(later, o, s))
  {
    if o + |s| <= |d| {
      AtEvery(d, o, s);
      AtEvery(later, o, s);
      assert d[o..o + |s|] == later[o..o + |s|];
    }
  }

  lemma AtFront(s: ByteString, rest: ByteString)
    ensures At(s, 0, s) && At(s + rest, 0, s)
  {
  }

  /** Where something lies, there are bytes for it. */
  lemma AtFits(d: ByteString, o: nat, s: ByteString)
    requires At(d, o, s)
    ensures o + |s| <= |d|
  {
  }

  lemma {:induction false} BeAt(d: ByteString, o: nat, v: nat, n: nat)
    requires At(d, o, ToBe(v, n)) && v < Pow256(n)
    ensures Be(d, o, n) == v

  {
    if n != 0 {
      var low: ByteString := [v % 256];
      AtBoth(d, o, ToBe(v / 256, n - 1), low);
      BeAt(d, o, v / 256, n - 1);
      assert d[o + (n - 1) + 0] == low[0];
    }
  }

  lemma Pow256Values()
    ensures Pow256(1) == 0x100 && Pow256(2) == 0x1_0000 && Pow256(4) == 0x1_0000_0000
    ensures Pow256(8) == 0x1_0000_0000_0000_0000
  {
    assert Pow256(3) == 256 * Pow256(2) && Pow256(2) == 256 * Pow256(1);
    assert Pow256(5) == 256 * Pow256(4) && Pow256(7) == 256 * Pow256(6);
  }

  /** int32(uint32) and int64(uint64): the same bits read as two's complement. */
  function Signed(v: nat, bits: nat): int {
    var half := Pow256(bits / 8) / 2;
    if v < half then v else v - 2 * half
  }
}
