/** A clash of real ring positions: two node IDs that share one, so the order of their insertion matters. */
module Clash {
  import opened Fnv
  import opened Text
  import R = RingSpec

  lemma {:induction false} XorHigh(high: nat, low: nat, b: nat, k: nat)
    requires low < Pow2(k) && b < Pow2(k)
    ensures Xor(Pow2(k) * high + low, b) == Pow2(k) * high + Xor(low, b)
  {
    hide Xor;
    if k == 0 {
      XorBit(0, 0);
      XorZero(high);
    } else {
      XorHigh(high, low / 2, b / 2, k - 1);
      var a, rest := Pow2(k) * high + low, Pow2(k - 1) * high;
      assert Pow2(k) * high == 2 * rest by { Doubled(Pow2(k - 1), high); }
      XorBit(a, b);
      XorBit(low, b);
      assert a / 2 == rest + low / 2 && a % 2 == low % 2;
    }
  }

  lemma Doubled(p: nat, high: nat)
    ensures (2 * p) * high == 2 * (p * high)
  {}

  lemma XorBit(a: nat, b: nat)
    ensures Xor(a, b) == 2 * Xor(a / 2, b / 2) + (if a % 2 == b % 2 then 0 else 1)
  {}

  lemma {:induction false} XorZero(a: nat)
    ensures Xor(a, 0) == a
  {
    if a != 0 {
      XorZero(a / 2);
    }
  }

  predicate SumBit(a: nat, b: nat, x: nat) {
    x % 2 == (a + b) % 2
  }

  // x is the exclusive or of two bytes, bit by bit.
  predicate ByteXor(a: nat, b: nat, x: nat) {
    && a < 256 && b < 256 && x < 256
    && SumBit(a, b, x) && SumBit(a / 2, b / 2, x / 2) && SumBit(a / 4, b / 4, x / 4) && SumBit(a / 8, b / 8, x / 8)
    && SumBit(a / 16, b / 16, x / 16) && SumBit(a / 32, b / 32, x / 32)
    && SumBit(a / 64, b / 64, x / 64) && SumBit(a / 128, b / 128, x / 128)
  }

  lemma XorFromHalf(a: nat, b: nat, x: nat, a': nat, b': nat, x': nat)
    requires SumBit(a, b, x) && a' == a / 2 && b' == b / 2 && x' == x / 2 && Xor(a', b') == x'
    ensures Xor(a, b) == x
  {
    XorBit(a, b);
  }

  lemma ByteXorIsXor(a: nat, b: nat, x: nat)
    requires ByteXor(a, b, x)
    ensures Xor(a, b) == x
  {
    assert Xor(0, 0) == 0;
    hide Xor, SumBit;
    XorFromHalf(a / 128, b / 128, x / 128, 0, 0, 0);
    XorFromHalf(a / 64, b / 64, x / 64, a / 128, b / 128, x / 128);
    XorFromHalf(a / 32, b / 32, x / 32, a / 64, b / 64, x / 64);
    XorFromHalf(a / 16, b / 16, x / 16, a / 32, b / 32, x / 32);
    XorFromHalf(a / 8, b / 8, x / 8, a / 16, b / 16, x / 16);
    XorFromHalf(a / 4, b / 4, x / 4, a / 8, b / 8, x / 8);
    XorFromHalf(a / 2, b / 2, x / 2, a / 4, b / 4, x / 4);
    XorFromHalf(a, b, x, a / 2, b / 2, x / 2);
  }

  // One round on a state split into its low byte, the only one a byte touches, and the rest.
  lemma Round(high: nat, low: nat, b: char, x: nat, h: Pos, h': Pos)
    requires h == 256 * high + low && ByteXor(low, b as int, x) && (256 * high + x) * PRIME % WORD == h'
    ensures Step(h, b) == h'
  {
    ByteXorIsXor(low, b as int, x);
    hide Xor, ByteXor, Mix;
    XorByte(high, low, b as int);
    MixIs(256 * high + x, h');
    StepIs(h, b, 256 * high + x);
  }

  lemma StepIs(h: Pos, b: char, x: nat)
    requires b as int < 256 && Xor(h, b as int) == x
    ensures Step(h, b) == Mix(x)
  {
    hide Xor, Mix;
  }

  lemma XorByte(high: nat, low: nat, b: nat)
    requires low < 256 && b < 256
    ensures Xor(256 * high + low, b) == 256 * high + Xor(low, b)
  {
    assert Pow2(8) == 256;
    hide Xor, Pow2;
    XorHigh(high, low, b, 8);
    assert Pow2(8) * high == 256 * high;
  }

  // The multiplication is given with its quotient, so that nothing but linear arithmetic is left.
  lemma OneByteMore(s: string, b: char, high: nat, low: nat, x: nat, q: nat, h: Pos)
    requires Hash(s) == 256 * high + low && ByteXor(low, b as int, x)
    requires (256 * high + x) * 16777619 == q * 0x1_0000_0000 + h
    ensures Hash(s + [b]) == h
  {
    Wraps(256 * high + x, q, h);
    hide ByteXor, Step;
    Round(high, low, b, x, Hash(s), h);
    assert (s + [b])[..|s|] == s;
  }

  lemma Wraps(n: nat, q: nat, h: Pos)
    requires n * 16777619 == q * 0x1_0000_0000 + h
    ensures n * PRIME % WORD == h
  {
    ModOfMultiple(h, q);
    assert n * PRIME == h + q * WORD;
  }

  lemma MixIs(x: nat, h: Pos)
    requires x * PRIME % WORD == h
    ensures Mix(x) == h
  {}

  lemma EmptyHash(s: string)
    requires s == ""
    ensures Hash(s) == OFFSET_BASIS
  {}

  lemma HashOfLs2(s: string)
    requires |s| == 6 && s[0] == 'l' && s[1] == 's' && s[2] == ':' && s[3] == '1' && s[4] == '0' && s[5] == '9'
    ensures Hash(s[..2]) == 1446109160
  {
    hide Hash;
    EmptyHash(s[..0]);
    OneByteMore(s[..0], s[0], 8461469, 197, 169, 8461672, 3909890315);
    assert s[..1] == s[..0] + [s[0]];
    OneByteMore(s[..1], s[1], 15273009, 11, 120, 15273376, 1446109160);
    assert s[..2] == s[..1] + [s[1]];
  }

  lemma HashOfLs4(s: string)
    requires |s| == 6 && s[0] == 'l' && s[1] == 's' && s[2] == ':' && s[3] == '1' && s[4] == '0' && s[5] == '9'
    ensures Hash(s[..4]) == 465763301
  {
    hide Hash;
    HashOfLs2(s);
    OneByteMore(s[..2], s[2], 5648863, 232, 210, 5648999, 2189645718);
    assert s[..3] == s[..2] + [s[2]];
    OneByteMore(s[..3], s[3], 8553303, 150, 167, 8553509, 465763301);
    assert s[..4] == s[..3] + [s[3]];
  }

  lemma HashOfLs(s: string)
    requires |s| == 6 && s[0] == 'l' && s[1] == 's' && s[2] == ':' && s[3] == '1' && s[4] == '0' && s[5] == '9'
    ensures Hash(s) == 195496386
  {
    hide Hash;
    HashOfLs4(s);
    OneByteMore(s[..4], s[4], 1819387, 229, 213, 1819431, 2297589839);
    assert s[..5] == s[..4] + [s[4]];
    OneByteMore(s[..5], s[5], 8974960, 79, 118, 8975176, 195496386);
    assert s[..6] == s[..5] + [s[5]];
    assert s[..6] == s;
  }

  lemma HashOfN52(s: string)
    requires |s| == 5 && s[0] == 'n' && s[1] == '5' && s[2] == ':' && s[3] == '4' && s[4] == '4'
    ensures Hash(s[..2]) == 137749068
  {
    hide Hash;
    EmptyHash(s[..0]);
    OneByteMore(s[..0], s[0], 8461469, 197, 171, 8461672, 3943445553);
    assert s[..1] == s[..0] + [s[0]];
    OneByteMore(s[..1], s[1], 15404084, 49, 4, 15404454, 137749068);
    assert s[..2] == s[..1] + [s[1]];
  }

  lemma HashOfN54(s: string)
    requires |s| == 5 && s[0] == 'n' && s[1] == '5' && s[2] == ':' && s[3] == '4' && s[4] == '4'
    ensures Hash(s[..4]) == 2297589826
  {
    hide Hash;
    HashOfN52(s);
    OneByteMore(s[..2], s[2], 538082, 76, 118, 538095, 1658027970);
    assert s[..3] == s[..2] + [s[2]];
    OneByteMore(s[..3], s[3], 6476671, 194, 246, 6476827, 2297589826);
    assert s[..4] == s[..3] + [s[3]];
  }

  lemma HashOfN5(s: string)
    requires |s| == 5 && s[0] == 'n' && s[1] == '5' && s[2] == ':' && s[3] == '4' && s[4] == '4'
    ensures Hash(s) == 195496386
  {
    hide Hash;
    HashOfN54(s);
    OneByteMore(s[..4], s[4], 8974960, 66, 118, 8975176, 195496386);
    assert s[..5] == s[..4] + [s[4]];
    assert s[..5] == s;
  }

  lemma LabelIs(id: string, i: nat, digits: string)
    requires Itoa(i) == digits
    ensures Label(id, i) == id + ":" + digits
  {}

  /** The nodes ls and n5 share the position 195496386: the labels ls:109 and n5:44 have that hash. */
  lemma RealLabelsClash(a: string, b: string)
    requires a == "ls" && b == "n5"
    ensures Hash(Label(a, 109)) == Hash(Label(b, 44)) == 195496386
  {
    assert Itoa(109) == "109" && Itoa(44) == "44";
    hide Hash, Itoa, Label;
    LabelIs(a, 109, "109");
    LabelIs(b, 44, "44");
    HashOfLs(Label(a, 109));
    HashOfN5(Label(b, 44));
  }

  /** So with the real hash two nodes added in different orders can make different rings. */
  lemma OrderCanMatter(a: string, b: string)
    requires a == "ls" && b == "n5"
    ensures R.Add(Hash, R.Add(Hash, R.EMPTY, a), b) != R.Add(Hash, R.Add(Hash, R.EMPTY, b), a)
  {
    hide R.Add, Hash, Label;
    RealLabelsClash(a, b);
    assert R.Vnodes(Hash, a)[109] == R.Vnode(Hash, a, 109) && R.Vnodes(Hash, b)[44] == R.Vnode(Hash, b, 44);
    assert R.Vnodes(Hash, a)[109] in R.Vnodes(Hash, a) && R.Vnodes(Hash, b)[44] in R.Vnodes(Hash, b);
    R.InsertionsCommuteIff(Hash, R.EMPTY, a, b);
  }
}
