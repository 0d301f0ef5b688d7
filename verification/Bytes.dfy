/** Big-endian fixed-width integers over bytes. */
module Bytes {
  type Byte = b: int | 0 <= b < 256

  function Pow256(width: nat): (p: nat)
    ensures p > 0
  {
    if width == 0 then 1 else 256 * Pow256(width - 1)
  }

  lemma {:induction false} Widths()
    ensures Pow256(1) == 0x100 && Pow256(2) == 0x1_0000 && Pow256(4) == 0x1_0000_0000
    ensures Pow256(8) == 0x1_0000_0000_0000_0000
  {
    assert Pow256(0) == 1;
    assert Pow256(1) == 0x100;
    assert Pow256(2) == 0x1_0000;
    assert Pow256(3) == 0x100_0000;
    assert Pow256(4) == 0x1_0000_0000;
    assert Pow256(5) == 0x100_0000_0000;
    assert Pow256(6) == 0x1_0000_0000_0000;
    assert Pow256(7) == 0x100_0000_0000_0000;
  }

  const TWO64 := 0x1_0000_0000_0000_0000

  /** A signed 64-bit value as its unsigned bit pattern, and back. */
  function Bits64(n: int): nat {
    n % TWO64
  }

  function Signed64(bits: nat): int {
    if bits < 0x8000_0000_0000_0000 then bits else bits - TWO64
  }

  predicate IsInt64(n: int) {
    -0x8000_0000_0000_0000 <= n < 0x8000_0000_0000_0000
  }

  /** `store_be`: the low `width` bytes of `n`, most significant first. */
  function Store(n: nat, width: nat): (s: seq<Byte>)
    ensures |s| == width
  {
    if width == 0 then [] else Store(n / 256, width - 1) + [n % 256]
  }

  function Load(s: seq<Byte>): nat {
    if s == [] then 0 else 256 * Load(s[..|s| - 1]) + s[|s| - 1]
  }

  lemma {:induction false} LoadStore(n: nat, width: nat)
    requires n < Pow256(width)
    ensures Load(Store(n, width)) == n
  {
    if width > 0 {
      var s := Store(n, width);
      LoadStore(n / 256, width - 1);
      assert s[..|s| - 1] == Store(n / 256, width - 1);
    }
  }

  lemma {:induction false} SignedRoundTrip(n: int)
    requires IsInt64(n)
    ensures Signed64(Load(Store(Bits64(n), 8))) == n
  {
    Widths();
    LoadStore(Bits64(n), 8);
  }

  lemma {:induction false} DivideBack(p: nat, b: Byte)
    ensures (256 * p + b) / 256 == p && (256 * p + b) % 256 == b
  {
  }

  lemma {:induction false} LastByte(s: seq<Byte>, n: nat)
    requires s != []
    ensures Load(s) == 256 * Load(s[..|s| - 1]) + s[|s| - 1]
    ensures Store(n, |s|) == Store(n / 256, |s| - 1) + [n % 256]
    ensures Pow256(|s|) == 256 * Pow256(|s| - 1)
  {
  }

  lemma {:induction false} StoreLoad(s: seq<Byte>)
    ensures Load(s) < Pow256(|s|) && Store(Load(s), |s|) == s
    decreases |s|
  {
    if s != [] {
      hide Load, Store, Pow256;
      var p, b := s[..|s| - 1], s[|s| - 1];
      StoreLoad(p);
      LastByte(s, Load(s));
      DivideBack(Load(p), b);
      assert p + [b] == s;
    }
  }
}
