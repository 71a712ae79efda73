/** The ring's hash: 32-bit FNV-1a over the bytes of a string. Go strings are byte
    sequences; a string here holds one byte per character (code below 256). */
module Fnv {
  const WORD: nat := 0x1_0000_0000
  const OFFSET_BASIS: nat := 2166136261
  const PRIME: nat := 16777619
  // PRIME * PRIME_INVERSE == 1 modulo WORD
  const PRIME_INVERSE: nat := 899433627

  type Pos = n: nat | n < WORD

  // Bitwise exclusive or of two naturals, bit by bit.
  function Xor(a: nat, b: nat): nat
    decreases a + b
  {
    if a == 0 && b == 0 then 0 else 2 * Xor(a / 2, b / 2) + (if a % 2 == b % 2 then 0 else 1)
  }

  function Pow2(k: nat): nat {
    if k == 0 then 1 else 2 * Pow2(k - 1)
  }

  lemma {:induction false} XorBounded(a: nat, b: nat, k: nat)
    requires a < Pow2(k) && b < Pow2(k)
    ensures Xor(a, b) < Pow2(k)
  {
    if k > 0 {
      XorBounded(a / 2, b / 2, k - 1);
    }
  }

  lemma {:induction false} XorUndoesItself(a: nat, b: nat)
    ensures Xor(Xor(a, b), b) == a
    decreases a + b
  {
    if a != 0 || b != 0 {
      XorUndoesItself(a / 2, b / 2);
      var half, bit := Xor(a / 2, b / 2), if a % 2 == b % 2 then 0 else 1;
      var x := 2 * half + bit;
      assert x / 2 == half && x % 2 == bit;
      assert x != 0 || b != 0;
      assert Xor(x, b) == 2 * Xor(half, b / 2) + (if bit == b % 2 then 0 else 1);
    }
  }

  lemma XorWord(h: Pos, b: nat)
    requires b < WORD
    ensures Xor(h, b) < WORD
  {
    assert Pow2(8) == 256;
    assert Pow2(16) == 65536;
    assert Pow2(24) == 16777216;
    assert Pow2(32) == WORD;
    XorBounded(h, b, 32);
  }

  // The loop's multiplication, wrapping at 32 bits, and its inverse.
  function Mix(x: nat): Pos {
    (x * PRIME) % WORD
  }

  function Unmix(x: nat): Pos {
    (x * PRIME_INVERSE) % WORD
  }

  // One round of the loop: xor in a byte, then multiply.
  function Step(h: Pos, b: char): Pos {
    Mix(Xor(h, b as int % 256))
  }

  // The inverse round.
  function StepBack(h: Pos, b: char): Pos {
    XorWord(Unmix(h), b as int % 256);
    Xor(Unmix(h), b as int % 256)
  }

  lemma MultiplicationIsInvertible(x: Pos)
    ensures Unmix(Mix(x)) == x
    ensures Mix(Unmix(x)) == x
  {
    var q := (PRIME * PRIME_INVERSE - 1) / WORD;
    assert PRIME * PRIME_INVERSE == 1 + q * WORD;
    Cancel(x, PRIME, PRIME_INVERSE, q);
    Cancel(x, PRIME_INVERSE, PRIME, q);
  }

  lemma Cancel(x: Pos, p: nat, i: nat, q: nat)
    requires p * i == 1 + q * WORD
    ensures ((x * p) % WORD * i) % WORD == x
  {
    var k := (x * p) / WORD;
    var r := (x * p) % WORD;
    assert r == x * p - k * WORD;
    calc {
      r * i;
      (x * p - k * WORD) * i;
      x * (p * i) - k * i * WORD;
      x + (x * q - k * i) * WORD;
    }
    ModOfMultiple(x, x * q - k * i);
  }

  lemma ModOfMultiple(x: Pos, m: int)
    ensures (x + m * WORD) % WORD == x
  {}

  /** For each byte a round is a permutation of the 32-bit states. */
  lemma StepIsPermutation(h: Pos, b: char)
    ensures StepBack(Step(h, b), b) == h
    ensures Step(StepBack(h, b), b) == h
  {
    hide Mix, Unmix;
    var c := b as int % 256;
    XorWord(h, c);
    MultiplicationIsInvertible(Xor(h, c));
    XorUndoesItself(h, c);
    XorUndoesItself(Unmix(h), c);
    MultiplicationIsInvertible(h);
  }

  // The state after hashing every byte of s, starting from h.
  function Fold(h: Pos, s: string): Pos {
    if s == "" then h else Step(Fold(h, s[..|s| - 1]), s[|s| - 1])
  }

  function Hash(s: string): Pos {
    Fold(OFFSET_BASIS, s)
  }

  method Fnv1a(s: string) returns (h: Pos)
    ensures h == Hash(s)
  {
    h := OFFSET_BASIS;
    for i := 0 to |s|
      invariant h == Fold(OFFSET_BASIS, s[..i])
    {
      assert s[..i + 1][..i] == s[..i];
      XorWord(h, s[i] as int % 256);
      h := Xor(h, s[i] as int % 256);
      h := (h * PRIME) % WORD;
    }
    assert s[..|s|] == s;
  }

  // Undoes Fold: recovers the starting state from the final one.
  function Unfold(h: Pos, s: string): Pos
    decreases s
  {
    if s == "" then h else Unfold(StepBack(h, s[|s| - 1]), s[..|s| - 1])
  }

  /** Hashing a fixed string is a permutation of the states: no state is lost on the way. */
  lemma {:induction false} FoldIsPermutation(h: Pos, s: string)
    ensures Unfold(Fold(h, s), s) == h
    ensures Fold(Unfold(h, s), s) == h
    decreases s
  {
    hide Step, StepBack;
    if s != "" {
      var init, last := s[..|s| - 1], s[|s| - 1];
      FoldIsPermutation(h, init);
      FoldIsPermutation(StepBack(h, last), init);
      assert StepBack(Step(Fold(h, init), last), last) == Fold(h, init) by {
        StepIsPermutation(Fold(h, init), last);
      }
      assert Step(StepBack(h, last), last) == h by {
        StepIsPermutation(h, last);
      }
    }
  }

  predicate Bytes(s: string) {
    forall i :: 0 <= i < |s| ==> s[i] as int < 256
  }

  predicate DifferExactlyAt(s: string, t: string, k: nat) {
    && |s| == |t| && k < |s|
    && s[k] != t[k]
    && (forall i :: 0 <= i < |s| && i != k ==> s[i] == t[i])
  }

  lemma {:induction false} FoldConcat(h: Pos, s: string, t: string)
    ensures Fold(h, s + t) == Fold(Fold(h, s), t)
  {
    if t == "" {
      assert s + t == s;
    } else {
      assert (s + t)[..|s + t| - 1] == s + t[..|t| - 1];
      FoldConcat(h, s, t[..|t| - 1]);
    }
  }

  lemma XorInjective(h: nat, x: nat, y: nat)
    requires Xor(h, x) == Xor(h, y)
    ensures x == y
  {
    XorCommutes(h, x);
    XorCommutes(h, y);
    XorUndoesItself(x, h);
    XorUndoesItself(y, h);
  }

  /** In each state a round is injective in the byte. */
  lemma StepInjectiveInByte(h: Pos, b: char, c: char)
    requires b as int < 256 && c as int < 256
    requires Step(h, b) == Step(h, c)
    ensures b == c
  {
    hide Mix, Unmix;
    XorWord(h, b as int);
    XorWord(h, c as int);
    MultiplicationIsInvertible(Xor(h, b as int));
    MultiplicationIsInvertible(Xor(h, c as int));
    XorInjective(h, b as int, c as int);
  }

  lemma {:induction false} XorCommutes(a: nat, b: nat)
    ensures Xor(a, b) == Xor(b, a)
    decreases a + b
  {
    if a != 0 || b != 0 {
      XorCommutes(a / 2, b / 2);
    }
  }

  /** Byte strings of equal length that differ in exactly one byte never collide. */
  lemma OneByteApartNeverCollide(s: string, t: string, k: nat)
    requires Bytes(s) && Bytes(t)
    requires DifferExactlyAt(s, t, k)
    ensures Hash(s) != Hash(t)
  {
    var head, tail := s[..k], s[k + 1..];
    assert t[..k] == head && t[k + 1..] == tail;
    assert s == head + [s[k]] + tail;
    assert t == head + [t[k]] + tail;
    var h := Fold(OFFSET_BASIS, head);
    assert (head + [s[k]])[..k] == head && (head + [t[k]])[..k] == head;
    FoldConcat(OFFSET_BASIS, head + [s[k]], tail);
    FoldConcat(OFFSET_BASIS, head + [t[k]], tail);
    FoldIsPermutation(Step(h, s[k]), tail);
    FoldIsPermutation(Step(h, t[k]), tail);
    if Hash(s) == Hash(t) {
      StepInjectiveInByte(h, s[k], t[k]);
    }
  }
}
