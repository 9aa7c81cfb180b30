/**
 The seeded generator of an episode, `SplitMix64` (`crates/rollout-harness-text/src/episode.rs`):
 its output is a permutation of the 64-bit words and its state has full period.
 */
module SplitMix {

  /** 64-bit words as numbers; additions and multiplications wrap. */
  type Word = nat

  const WORDS: nat := 0x1_0000_0000_0000_0000
  const GAMMA: Word := 0x9E37_79B9_7F4A_7C15
  const FIRST: Word := 0xBF58_476D_1CE4_E5B9
  const SECOND: Word := 0x94D0_49BB_1331_11EB

  /** Bitwise exclusive or. */
  function Xor(a: Word, b: Word): Word {
    if a == 0 then b else (a % 2 + b % 2) % 2 + 2 * Xor(a / 2, b / 2)
  }

  /** `x >> n` */
  function Shr(x: Word, n: nat): Word {
    if n == 0 then x else Shr(x / 2, n - 1)
  }

  function XorShift(x: Word, n: nat): Word {
    Xor(x, Shr(x, n))
  }

  /** `wrapping_mul` */
  function WrapMul(x: Word, c: Word): Word {
    x * c % WORDS
  }

  /** The state after one draw. */
  function AfterDraw(state: Word): Word {
    (state + GAMMA) % WORDS
  }

  /** What a draw outputs for the state it has moved to. */
  function Mix(state: Word): Word {
    XorShift(WrapMul(XorShift(WrapMul(XorShift(state, 30), FIRST), 27), SECOND), 31)
  }

  /** The state after `k` draws. */
  function Drawn(seed: Word, k: nat): Word {
    if k == 0 then seed else AfterDraw(Drawn(seed, k - 1))
  }

  class SplitMix64 {
    var state: Word

    constructor (seed: Word)
      ensures state == seed
    {
      state := seed;
    }

    method NextU64() returns (z: Word)
      modifies this
      ensures state == AfterDraw(old(state)) && z == Mix(state)
    {
      state := AfterDraw(state);
      z := state;
      z := WrapMul(XorShift(z, 30), FIRST);
      z := WrapMul(XorShift(z, 27), SECOND);
      z := XorShift(z, 31);
    }
  }

  // ---------- Bits ----------

  function Pow2(n: nat): nat {
    if n == 0 then 1 else 2 * Pow2(n - 1)
  }

  lemma BitAndRest(bit: nat, rest: nat)
    requires bit < 2
    ensures (bit + 2 * rest) % 2 == bit && (bit + 2 * rest) / 2 == rest
  {
  }

  lemma XorBits(a: Word, b: Word)
    ensures Xor(a, b) % 2 == (a % 2 + b % 2) % 2
    ensures Xor(a, b) / 2 == Xor(a / 2, b / 2)
  {
    if a > 0 {
      BitAndRest((a % 2 + b % 2) % 2, Xor(a / 2, b / 2));
    }
  }

  lemma LastBit(a: Word, b: Word, h: Word)
    requires (a % 2 + h % 2) % 2 == (b % 2 + h % 2) % 2
    ensures a % 2 == b % 2
  {
  }

  lemma {:induction false} XorCancel(a: Word, b: Word, h: Word)
    requires Xor(a, h) == Xor(b, h)
    ensures a == b
    decreases a + b
  {
    XorBits(a, h);
    XorBits(b, h);
    LastBit(a, b, h);
    if a > 0 || b > 0 {
      XorCancel(a / 2, b / 2, h / 2);
    }
  }

  lemma {:induction false} XorCommutes(a: Word, b: Word)
    ensures Xor(a, b) == Xor(b, a)
    decreases a + b
  {
    XorBits(a, b);
    XorBits(b, a);
    if a > 0 || b > 0 {
      XorCommutes(a / 2, b / 2);
    }
  }

  lemma XorInjective(s: Word, a: Word, b: Word)
    ensures Xor(s, a) == Xor(s, b) ==> a == b
    ensures Xor(s, 0) == s
  {
    XorCommutes(s, a);
    XorCommutes(s, b);
    XorCommutes(s, 0);
    if Xor(s, a) == Xor(s, b) {
      XorCancel(a, b, s);
    }
  }

  lemma {:induction false} ShrXor(a: Word, b: Word, n: nat)
    ensures Shr(Xor(a, b), n) == Xor(Shr(a, n), Shr(b, n))
    decreases n
  {
    if n > 0 {
      XorBits(a, b);
      ShrXor(a / 2, b / 2, n - 1);
    }
  }

  lemma {:induction false} ShrAdd(x: Word, m: nat, n: nat)
    ensures Shr(Shr(x, m), n) == Shr(x, m + n)
    decreases m
  {
    if m > 0 {
      ShrAdd(x / 2, m - 1, n);
    }
  }

  lemma {:induction false} ShrIsZero(x: Word, n: nat)
    ensures Shr(x, n) == 0 <==> x < Pow2(n)
    decreases n
  {
    if n > 0 {
      ShrIsZero(x / 2, n - 1);
    }
  }

  /** Equal shifted mixtures have equal bits, from the top down. */
  lemma {:induction false} HighBitsAgree(x: Word, y: Word, k: nat, w: nat, n: nat)
    requires k > 0 && n <= w && x < Pow2(w) && y < Pow2(w) && XorShift(x, k) == XorShift(y, k)
    ensures Shr(x, n) == Shr(y, n)
    decreases w - n
  {
    if n == w {
      ShrIsZero(x, w);
      ShrIsZero(y, w);
    } else {
      HighBitsAgree(x, y, k, w, n + 1);
      ShrAdd(x, n + 1, k - 1);
      ShrAdd(y, n + 1, k - 1);
      ShrXor(x, Shr(x, k), n);
      ShrXor(y, Shr(y, k), n);
      ShrAdd(x, k, n);
      ShrAdd(y, k, n);
      XorCancel(Shr(x, n), Shr(y, n), Shr(x, n + k));
    }
  }

  lemma {:induction false} Pow2Add(m: nat, n: nat)
    ensures Pow2(m + n) == Pow2(m) * Pow2(n)
  {
    if m > 0 {
      Pow2Add(m - 1, n);
    }
  }

  lemma WordsArePow2()
    ensures Pow2(64) == WORDS
  {
    assert Pow2(1) == 2 && Pow2(2) == 4;
    Pow2Add(2, 2);
    Pow2Add(4, 4);
    Pow2Add(8, 8);
    Pow2Add(16, 16);
    Pow2Add(32, 32);
  }

  lemma XorShiftInjective(x: Word, y: Word, k: nat)
    requires k > 0 && x < WORDS && y < WORDS && XorShift(x, k) == XorShift(y, k)
    ensures x == y
  {
    WordsArePow2();
    HighBitsAgree(x, y, k, 64, 0);
  }

  lemma XorShiftIsWord(x: Word, k: nat)
    requires x < WORDS
    ensures XorShift(x, k) < WORDS
  {
    WordsArePow2();
    ShrIsZero(x, 64);
    ShrXor(x, Shr(x, k), 64);
    ShrAdd(x, k, 64);
    ShrAdd(x, 64, k);
    ShrOfZero(k);
    ShrIsZero(XorShift(x, k), 64);
  }

  lemma {:induction false} ShrOfZero(n: nat)
    ensures Shr(0, n) == 0
  {
    if n > 0 {
      ShrOfZero(n - 1);
    }
  }

  // ---------- Odd multiples ----------

  lemma Remainder(x: int, t: int)
    requires 0 <= x < WORDS
    ensures (x + t * WORDS) % WORDS == x
  {
  }

  /** Multiplying by `c` is undone by multiplying by its inverse. */
  lemma MulUndone(x: Word, c: Word, inverse: Word, r: nat)
    requires x < WORDS && c * inverse == 1 + r * WORDS
    ensures WrapMul(x, c) * inverse % WORDS == x
  {
    var q, m := x * c / WORDS, x * c % WORDS;
    assert m == x * c - q * WORDS;
    calc {
      m * inverse;
      x * c * inverse - q * WORDS * inverse;
      x * (c * inverse) - q * inverse * WORDS;
      x * (1 + r * WORDS) - q * inverse * WORDS;
      x + (x * r - q * inverse) * WORDS;
    }
    Remainder(x, x * r - q * inverse);
  }

  lemma GammaMulUndone(x: Word)
    requires x < WORDS
    ensures WrapMul(x, GAMMA) * 0xF1DE_83E1_9937_733D % WORDS == x
  {
    MulUndone(x, GAMMA, 0xF1DE_83E1_9937_733D, 10771413168148108919);
  }

  lemma FirstMulInjective(x: Word, y: Word)
    requires x < WORDS && y < WORDS && WrapMul(x, FIRST) == WrapMul(y, FIRST)
    ensures x == y
  {
    MulUndone(x, FIRST, 0x96DE_1B17_3F11_9089, 8125545580553827436);
    MulUndone(y, FIRST, 0x96DE_1B17_3F11_9089, 8125545580553827436);
  }

  lemma SecondMulInjective(x: Word, y: Word)
    requires x < WORDS && y < WORDS && WrapMul(x, SECOND) == WrapMul(y, SECOND)
    ensures x == y
  {
    MulUndone(x, SECOND, 0x3196_42B2_D24D_8EC3, 2077064247507883091);
    MulUndone(y, SECOND, 0x3196_42B2_D24D_8EC3, 2077064247507883091);
  }

  /** Different states output different words. */
  lemma MixInjective(x: Word, y: Word)
    requires x < WORDS && y < WORDS
    ensures Mix(x) == Mix(y) ==> x == y
  {
    var x1, y1 := XorShift(x, 30), XorShift(y, 30);
    var x2, y2 := WrapMul(x1, FIRST), WrapMul(y1, FIRST);
    var x3, y3 := XorShift(x2, 27), XorShift(y2, 27);
    var x4, y4 := WrapMul(x3, SECOND), WrapMul(y3, SECOND);
    XorShiftIsWord(x, 30);
    XorShiftIsWord(y, 30);
    XorShiftIsWord(x2, 27);
    XorShiftIsWord(y2, 27);
    if Mix(x) == Mix(y) {
      XorShiftInjective(x4, y4, 31);
      SecondMulInjective(x3, y3);
      XorShiftInjective(x2, y2, 27);
      FirstMulInjective(x1, y1);
      XorShiftInjective(x, y, 30);
    }
  }

  // ---------- The period ----------

  lemma AddRemainders(a: nat, b: nat)
    ensures (a % WORDS + b) % WORDS == (a + b) % WORDS
  {
  }

  lemma {:induction false} DrawnIs(seed: Word, k: nat)
    requires seed < WORDS
    ensures Drawn(seed, k) == (seed + k * GAMMA) % WORDS
  {
    if k > 0 {
      DrawnIs(seed, k - 1);
      AddRemainders(seed + (k - 1) * GAMMA, GAMMA);
    }
  }

  lemma SameRemainder(a: nat, b: nat)
    requires a <= b && a % WORDS == b % WORDS
    ensures (b - a) % WORDS == 0
  {
  }

  /** The state has full period: it returns to a value only after all the words. */
  lemma FullPeriod(seed: Word, i: nat, j: nat)
    requires seed < WORDS && i <= j < i + WORDS && Drawn(seed, i) == Drawn(seed, j)
    ensures i == j
  {
    DrawnIs(seed, i);
    DrawnIs(seed, j);
    assert i * GAMMA <= j * GAMMA && j * GAMMA - i * GAMMA == (j - i) * GAMMA;
    SameRemainder(seed + i * GAMMA, seed + j * GAMMA);
    assert WrapMul(j - i, GAMMA) == 0;
    GammaMulUndone(j - i);
  }

  lemma DrawnIsWord(seed: Word, k: nat)
    requires seed < WORDS
    ensures Drawn(seed, k) < WORDS
  {
  }

  /** So over any 2^64 draws of one seed no output is repeated. */
  lemma OutputsDoNotRepeat(seed: Word, i: nat, j: nat)
    requires seed < WORDS && i < j < i + WORDS
    ensures Mix(Drawn(seed, i)) != Mix(Drawn(seed, j))
  {
    DrawnIsWord(seed, i);
    DrawnIsWord(seed, j);
    MixInjective(Drawn(seed, i), Drawn(seed, j));
    if Drawn(seed, i) == Drawn(seed, j) {
      FullPeriod(seed, i, j);
    }
  }
}
