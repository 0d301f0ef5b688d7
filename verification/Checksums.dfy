/** The log's FNV-1a checksum. Each bit operation has a name, so that proofs can reason without its bits. */
module Checksums {
  import opened Bytes

  /** A byte as a word, bit by bit. */
  function Word(b: Byte): bv32 {
    if b == 0 then 0 else Doubled(Word(b / 2), b % 2 == 1)
  }

  function Doubled(w: bv32, odd: bool): bv32 {
    w + w + (if odd then 1 else 0)
  }

  function Xored(a: bv32, b: bv32): bv32 {
    a ^ b
  }

  function Mixed(h: bv32): bv32 {
    h * 16777619
  }

  function FnvStep(h: bv32, b: Byte): bv32 {
    Mixed(Xored(h, Word(b)))
  }

  function Fnv(data: seq<Byte>, h: bv32): bv32
    decreases |data|
  {
    if data == [] then h else Fnv(data[1..], FnvStep(h, data[0]))
  }

  function Value(h: bv32): (n: nat)
    ensures n < 0x1_0000_0000
  {
    h as nat
  }

  /** FNV-1a over header and payload. */
  function Checksum(data: seq<Byte>): (c: nat)
    ensures c < 0x1_0000_0000
  {
    Value(Fnv(data, 2166136261))
  }

  // ---- Hashing keeps different states apart --------------------------------------------------

  function Unmixed(h: bv32): bv32 {
    h * 899433627
  }

  lemma {:induction false} Inverse(h: bv32)
    ensures Unmixed(h * 16777619) == h
  {
  }

  lemma {:induction false} MixUndone(h: bv32)
    ensures Unmixed(Mixed(h)) == h
  {
    hide Unmixed;
    Inverse(h);
  }

  /** Multiplying by an odd number loses nothing. */
  lemma {:induction false} MixKeepsApart(a: bv32, b: bv32)
    requires a != b
    ensures Mixed(a) != Mixed(b)
  {
    hide Mixed, Unmixed;
    MixUndone(a);
    MixUndone(b);
  }

  lemma {:induction false} XorKeepsApart(a: bv32, b: bv32, m: bv32)
    requires a != b
    ensures Xored(a, m) != Xored(b, m) && Xored(m, a) != Xored(m, b)
  {
  }

  lemma {:induction false} StepKeepsApart(a: bv32, b: bv32, d: Byte)
    requires a != b
    ensures FnvStep(a, d) != FnvStep(b, d)
  {
    hide Word, Xored, Mixed;
    XorKeepsApart(a, b, Word(d));
    MixKeepsApart(Xored(a, Word(d)), Xored(b, Word(d)));
  }

  /** The same bytes hashed on from different states end in different states. */
  lemma {:induction false} FnvKeepsApart(data: seq<Byte>, a: bv32, b: bv32)
    requires a != b
    ensures Fnv(data, a) != Fnv(data, b)
    decreases |data|
  {
    hide FnvStep;
    if data != [] {
      StepKeepsApart(a, b, data[0]);
      FnvKeepsApart(data[1..], FnvStep(a, data[0]), FnvStep(b, data[0]));
    }
  }

  function FromValue(n: nat): bv32
    requires n < 0x1_0000_0000
  {
    n as bv32
  }

  lemma {:induction false} ValueUndone(h: bv32)
    ensures FromValue(Value(h)) == h
  {
  }

  lemma {:induction false} DoubledApart(a: bv32, b: bv32, x: bool, y: bool)
    requires a < 0x8000_0000 && b < 0x8000_0000 && Doubled(a, x) == Doubled(b, y)
    ensures a == b && x == y
  {
  }

  lemma {:induction false} DoubledSmall(w: bv32, odd: bool)
    ensures w == 0 ==> Doubled(w, odd) <= 1
    ensures w <= 1 ==> Doubled(w, odd) <= 3
    ensures w <= 3 ==> Doubled(w, odd) <= 7
    ensures w <= 7 ==> Doubled(w, odd) <= 15
    ensures w <= 15 ==> Doubled(w, odd) <= 31
    ensures w <= 31 ==> Doubled(w, odd) <= 63
    ensures w <= 63 ==> Doubled(w, odd) <= 127
    ensures w <= 127 ==> Doubled(w, odd) <= 255
  {
  }

  lemma {:induction false} WordSmall(b: Byte)
    ensures b == 0 ==> Word(b) == 0
    ensures b < 2 ==> Word(b) <= 1
    ensures b < 4 ==> Word(b) <= 3
    ensures b < 8 ==> Word(b) <= 7
    ensures b < 16 ==> Word(b) <= 15
    ensures b < 32 ==> Word(b) <= 31
    ensures b < 64 ==> Word(b) <= 63
    ensures b < 128 ==> Word(b) <= 127
    ensures Word(b) <= 255
  {
    hide Doubled;
    if b > 0 {
      WordSmall(b / 2);
      DoubledSmall(Word(b / 2), b % 2 == 1);
    }
  }

  lemma {:induction false} WordZero(b: Byte)
    requires b > 0
    ensures Word(b) == Doubled(Word(b / 2), b % 2 == 1) && Word(0) == Doubled(0, false) && Word(b / 2) < 0x8000_0000
  {
    WordSmall(b / 2);
  }

  /** Different bytes are different words. */
  lemma {:induction false} WordsApart(x: Byte, y: Byte)
    requires Word(x) == Word(y)
    ensures x == y
    decreases x + y
  {
    hide Doubled, Word;
    if x > 0 && y > 0 {
      WordZero(x);
      WordZero(y);
      DoubledApart(Word(x / 2), Word(y / 2), x % 2 == 1, y % 2 == 1);
      WordsApart(x / 2, y / 2);
    } else if x > 0 {
      NonzeroWord(x);
    } else if y > 0 {
      NonzeroWord(y);
    }
  }

  lemma {:induction false} NonzeroWord(b: Byte)
    requires b > 0
    ensures Word(b) != Word(0)
  {
    hide Doubled;
    WordZero(b);
    if Word(b) == Word(0) {
      DoubledApart(Word(b / 2), 0, b % 2 == 1, false);
      if b / 2 > 0 { NonzeroWord(b / 2); }
    }
  }

  lemma {:induction false} StepsApart(h: bv32, x: Byte, y: Byte)
    requires x != y
    ensures FnvStep(h, x) != FnvStep(h, y)
  {
    hide Word, Xored, Mixed;
    if Word(x) == Word(y) {
      WordsApart(x, y);
    }
    XorKeepsApart(Word(x), Word(y), h);
    MixKeepsApart(Xored(h, Word(x)), Xored(h, Word(y)));
  }

  lemma {:induction false} FnvJoins(a: seq<Byte>, b: seq<Byte>, h: bv32)
    ensures Fnv(a + b, h) == Fnv(b, Fnv(a, h))
    decreases |a|
  {
    hide FnvStep;
    if a == [] {
      assert a + b == b;
    } else {
      assert (a + b)[0] == a[0] && (a + b)[1..] == a[1..] + b;
      FnvJoins(a[1..], b, FnvStep(h, a[0]));
    }
  }

  lemma {:induction false} FnvFrom(x: Byte, rest: seq<Byte>, h: bv32)
    ensures Fnv([x] + rest, h) == Fnv(rest, FnvStep(h, x))
  {
    hide FnvStep;
    assert ([x] + rest)[1..] == rest;
  }

  /** Any one byte changed, anywhere, changes the checksum. */
  lemma {:induction false} OneByteShows(data: seq<Byte>, i: nat, c: Byte)
    requires i < |data| && data[i] != c
    ensures Checksum(data[i := c]) != Checksum(data)
  {
    hide FnvStep, FromValue, Value, Fnv;
    var start: bv32 := 2166136261;
    var a, b, h := data[..i], data[i + 1..], Fnv(data[..i], start);
    assert data == a + ([data[i]] + b) && data[i := c] == a + ([c] + b);
    FnvJoins(a, [data[i]] + b, start);
    FnvJoins(a, [c] + b, start);
    FnvFrom(data[i], b, h);
    FnvFrom(c, b, h);
    StepsApart(h, data[i], c);
    FnvKeepsApart(b, FnvStep(h, data[i]), FnvStep(h, c));
    ValueUndone(Fnv(data, start));
    ValueUndone(Fnv(data[i := c], start));
  }
}
