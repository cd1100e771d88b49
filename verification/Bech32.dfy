/** The checksum of Bech32 and Bech32m (BIP 173, BIP 350) as src/common/segwit_addr.c computes it: a
    state of 30 bits that every 5-bit symbol is fed into. The state is held as its bits, the least
    significant one first; bits 30 and 31 of the 32-bit variable of the source are always zero. */
module Bech32 {
  import opened Wrappers

  const GENERATOR: seq<bv32> := [0x3b6a57b2, 0x26508e6d, 0x1ea119fa, 0x3d4233dd, 0x2a1462b3]
  const BECH32_CONST: bv32 := 1
  const BECH32M_CONST: bv32 := 0x2bc830a3

  type State = s: seq<bool> | |s| == 30 witness seq(30, _ => false)

  predicate BitOf(n: nat, i: nat) {
    n / Pow2(i) % 2 == 1
  }

  /** The word with just bit i. */
  function MaskOf(i: nat): bv32 {
    if i == 0 then 0x1 else if i == 1 then 0x2 else if i == 2 then 0x4 else if i == 3 then 0x8 else
    if i == 4 then 0x10 else if i == 5 then 0x20 else if i == 6 then 0x40 else if i == 7 then 0x80 else
    if i == 8 then 0x100 else if i == 9 then 0x200 else if i == 10 then 0x400 else if i == 11 then 0x800 else
    if i == 12 then 0x1000 else if i == 13 then 0x2000 else if i == 14 then 0x4000 else
    if i == 15 then 0x8000 else if i == 16 then 0x10000 else if i == 17 then 0x20000 else
    if i == 18 then 0x40000 else if i == 19 then 0x80000 else if i == 20 then 0x100000 else
    if i == 21 then 0x200000 else if i == 22 then 0x400000 else if i == 23 then 0x800000 else
    if i == 24 then 0x1000000 else if i == 25 then 0x2000000 else if i == 26 then 0x4000000 else
    if i == 27 then 0x8000000 else if i == 28 then 0x10000000 else 0x20000000
  }

  predicate Meets(w: bv32, mask: bv32) {
    w & mask != 0
  }

  predicate WordBit(w: bv32, i: nat) {
    Meets(w, MaskOf(i))
  }

  /** The lower 30 bits of a word. */
  function Word(w: bv32): State {
    seq(30, i requires 0 <= i => WordBit(w, i))
  }

  /** The five bits of a symbol. */
  function Sym(v: nat): State {
    seq(30, i requires 0 <= i => i < 5 && BitOf(v, i))
  }

  /** The state before anything is fed. */
  function Start(): State {
    Word(1)
  }

  function Xor(a: State, b: State): State {
    seq(30, i requires 0 <= i < 30 => a[i] != b[i])
  }

  /** Shifts to the right and to the left. */
  function Down(x: State, k: nat): State {
    seq(30, i requires 0 <= i => i + k < 30 && x[i + k])
  }

  function Up5(x: State): State {
    seq(30, i requires 0 <= i < 30 => i >= 5 && x[i - 5])
  }

  predicate Odd(a: bool, b: bool) {
    a != b
  }

  /** What bit 25 + k, which leaves the state at the top, adds to bit i. */
  predicate Tap(x: State, k: nat, i: nat)
    requires k < 5
  {
    x[25 + k] && WordBit(GENERATOR[k], i)
  }

  predicate Feedback(x: State, i: nat) {
    Odd(Odd(Odd(Odd(Tap(x, 0, i), Tap(x, 1, i)), Tap(x, 2, i)), Tap(x, 3, i)), Tap(x, 4, i))
  }

  /** bech32_polymod_step. */
  function Step(x: State): State {
    seq(30, i requires 0 <= i < 30 => Odd(Up5(x)[i], Feedback(x, i)))
  }

  lemma OddSwap(a: bool, b: bool, c: bool, d: bool)
    ensures Odd(Odd(a, b), Odd(c, d)) == Odd(Odd(a, c), Odd(b, d))
  {
  }

  lemma TapLinear(x: State, y: State, k: nat, i: nat)
    requires k < 5
    ensures Tap(Xor(x, y), k, i) == Odd(Tap(x, k, i), Tap(y, k, i))
  {
    hide WordBit;
  }

  lemma FeedbackLinear(x: State, y: State, i: nat)
    ensures Feedback(Xor(x, y), i) == Odd(Feedback(x, i), Feedback(y, i))
  {
    hide Tap, Odd, Xor;
    TapLinear(x, y, 0, i);
    TapLinear(x, y, 1, i);
    TapLinear(x, y, 2, i);
    TapLinear(x, y, 3, i);
    TapLinear(x, y, 4, i);
    var a1, b1 := Odd(Tap(x, 0, i), Tap(x, 1, i)), Odd(Tap(y, 0, i), Tap(y, 1, i));
    var a2, b2 := Odd(a1, Tap(x, 2, i)), Odd(b1, Tap(y, 2, i));
    var a3, b3 := Odd(a2, Tap(x, 3, i)), Odd(b2, Tap(y, 3, i));
    OddSwap(Tap(x, 0, i), Tap(y, 0, i), Tap(x, 1, i), Tap(y, 1, i));
    OddSwap(a1, b1, Tap(x, 2, i), Tap(y, 2, i));
    OddSwap(a2, b2, Tap(x, 3, i), Tap(y, 3, i));
    OddSwap(a3, b3, Tap(x, 4, i), Tap(y, 4, i));
  }

  /** The step is linear. */
  lemma StepLinear(x: State, y: State)
    ensures Step(Xor(x, y)) == Xor(Step(x), Step(y))
  {
    hide Feedback;
    forall i | 0 <= i < 30 ensures Step(Xor(x, y))[i] == Xor(Step(x), Step(y))[i] {
      FeedbackLinear(x, y, i);
      OddSwap(Up5(x)[i], Up5(y)[i], Feedback(x, i), Feedback(y, i));
      assert Up5(Xor(x, y))[i] == Odd(Up5(x)[i], Up5(y)[i]);
    }
  }

  lemma SmallPowers()
    ensures Pow2(0) == 1 && Pow2(1) == 2 && Pow2(2) == 4 && Pow2(3) == 8 && Pow2(4) == 16
  {
  }

  /** The last five bits of the generators. */
  lemma LowBits()
    ensures forall i :: 0 <= i < 5 ==> (WordBit(GENERATOR[0], i) <==> i == 1 || i == 4)
    ensures forall i :: 0 <= i < 5 ==> (WordBit(GENERATOR[1], i) <==> i == 0 || i == 2 || i == 3)
    ensures forall i :: 0 <= i < 5 ==> (WordBit(GENERATOR[2], i) <==> i == 1 || i == 3 || i == 4)
    ensures forall i :: 0 <= i < 5 ==> (WordBit(GENERATOR[3], i) <==> i == 0 || i == 2 || i == 3 || i == 4)
    ensures forall i :: 0 <= i < 5 ==> (WordBit(GENERATOR[4], i) <==> i == 0 || i == 1 || i == 4)
  {
  }

  /** The step loses nothing: different states have different successors. */
  lemma StepInjective(x: State, y: State)
    requires Step(x) == Step(y)
    ensures x == y
  {
    LowBits();
    hide WordBit;
    assert forall i :: 0 <= i < 5 ==> Step(x)[i] == Feedback(x, i) && Step(y)[i] == Feedback(y, i);
    assert Feedback(x, 0) == Feedback(y, 0) && Feedback(x, 1) == Feedback(y, 1) && Feedback(x, 2) == Feedback(y, 2);
    assert Feedback(x, 3) == Feedback(y, 3) && Feedback(x, 4) == Feedback(y, 4);
    assert forall k :: 25 <= k < 30 ==> x[k] == y[k];
    forall i | 0 <= i < 25 ensures x[i] == y[i] {
      assert Step(x)[i + 5] == Step(y)[i + 5];
      assert Up5(x)[i + 5] == x[i] && Up5(y)[i + 5] == y[i];
      assert Feedback(x, i + 5) == Feedback(y, i + 5);
    }
  }

  // ---------------------------------------------------------------- feeding symbols

  function Next(x: State, v: nat): State {
    Xor(Step(x), Sym(v))
  }

  /** The state after feeding symbols, one after the other. */
  function Feed(x: State, s: seq<nat>): State {
    if s == [] then x else Next(Feed(x, s[..|s| - 1]), s[|s| - 1])
  }

  lemma FeedLast(x: State, s: seq<nat>, v: nat)
    ensures Feed(x, s + [v]) == Next(Feed(x, s), v)
  {
    assert (s + [v])[..|s|] == s;
  }

  lemma {:induction false} FeedAppend(x: State, s: seq<nat>, t: seq<nat>)
    ensures Feed(x, s + t) == Feed(Feed(x, s), t)
    decreases |t|
  {
    hide Next;
    if t == [] {
      assert s + t == s;
    } else {
      FeedAppend(x, s, t[..|t| - 1]);
      assert (s + t)[..|s + t| - 1] == s + t[..|t| - 1];
    }
  }

  lemma XorCancel(a: State, b: State, c: State)
    ensures Xor(a, c) == Xor(b, c) ==> a == b
    ensures Xor(c, a) == Xor(c, b) ==> a == b
  {
    if Xor(a, c) == Xor(b, c) {
      forall i | 0 <= i < 30 ensures a[i] == b[i] {
        assert Xor(a, c)[i] == Xor(b, c)[i];
      }
    }
    if Xor(c, a) == Xor(c, b) {
      forall i | 0 <= i < 30 ensures a[i] == b[i] {
        assert Xor(c, a)[i] == Xor(c, b)[i];
      }
    }
  }

  /** Different states stay different, whatever is fed afterwards. */
  lemma {:induction false} FeedInjective(x: State, y: State, s: seq<nat>)
    requires Feed(x, s) == Feed(y, s)
    ensures x == y
    decreases |s|
  {
    hide Step, Sym, Xor;
    if s != [] {
      var init, last := s[..|s| - 1], s[|s| - 1];
      XorCancel(Step(Feed(x, init)), Step(Feed(y, init)), Sym(last));
      StepInjective(Feed(x, init), Feed(y, init));
      FeedInjective(x, y, init);
    }
  }

  lemma Halves(v: nat)
    requires v < 32
    ensures v == v % 2 + 2 * (v / 2 % 2) + 4 * (v / 4 % 2) + 8 * (v / 8 % 2) + 16 * (v / 16 % 2)
  {
    assert v / 4 == v / 2 / 2 && v / 8 == v / 4 / 2 && v / 16 == v / 8 / 2;
  }

  lemma SymAt(v: nat)
    ensures Sym(v)[0] == (v % 2 == 1) && Sym(v)[1] == (v / 2 % 2 == 1) && Sym(v)[2] == (v / 4 % 2 == 1)
    ensures Sym(v)[3] == (v / 8 % 2 == 1) && Sym(v)[4] == (v / 16 % 2 == 1)
  {
    SmallPowers();
  }

  lemma SymDistinct(v: nat, w: nat)
    requires v < 32 && w < 32 && Sym(v) == Sym(w)
    ensures v == w
  {
    SymAt(v);
    SymAt(w);
    Halves(v);
    Halves(w);
  }

  lemma NextDiffers(x: State, v: nat, w: nat)
    requires v < 32 && w < 32 && Next(x, v) == Next(x, w)
    ensures v == w
  {
    hide Step, Sym, Xor;
    XorCancel(Sym(v), Sym(w), Step(x));
    SymDistinct(v, w);
  }

  /** Sequences of symbols that differ in exactly one place never lead to the same state. */
  lemma OneSymbolMatters(x: State, a: seq<nat>, v: nat, w: nat, b: seq<nat>)
    requires v < 32 && w < 32 && v != w
    ensures Feed(x, a + [v] + b) != Feed(x, a + [w] + b)
  {
    hide Feed, Next;
    FeedAppend(x, a + [v], b);
    FeedAppend(x, a + [w], b);
    FeedLast(x, a, v);
    FeedLast(x, a, w);
    if Feed(x, a + [v] + b) == Feed(x, a + [w] + b) {
      FeedInjective(Feed(x, a + [v]), Feed(x, a + [w]), b);
      NextDiffers(Feed(x, a), v, w);
    }
  }

  // ---------------------------------------------------------------- the six symbols of the checksum

  function One(b: bool): nat {
    if b then 1 else 0
  }

  /** The number of the five bits from bit o on. */
  function Num(k: State, o: nat): (v: nat)
    requires o + 5 <= 30
    ensures v < 32
  {
    One(k[o]) + 2 * One(k[o + 1]) + 4 * One(k[o + 2]) + 8 * One(k[o + 3]) + 16 * One(k[o + 4])
  }

  lemma BitsOfNum(b0: bool, b1: bool, b2: bool, b3: bool, b4: bool)
    ensures var v := One(b0) + 2 * One(b1) + 4 * One(b2) + 8 * One(b3) + 16 * One(b4);
            && b0 == (v % 2 == 1) && b1 == (v / 2 % 2 == 1) && b2 == (v / 4 % 2 == 1)
            && b3 == (v / 8 % 2 == 1) && b4 == (v / 16 % 2 == 1)
  {
  }

  /** Symbols taken from k come back as the bits of k. */
  lemma SymOfNum(k: State, o: nat, i: nat)
    requires o + 5 <= 30 && i < 5
    ensures Sym(Num(k, o))[i] == k[o + i]
  {
    BitsOfNum(k[o], k[o + 1], k[o + 2], k[o + 3], k[o + 4]);
    hide BitOf;
    SymAt(Num(k, o));
  }

  /** Six zeros, and the six symbols of a state, most significant first. */
  const SIX: seq<nat> := [0, 0, 0, 0, 0, 0]

  function Checksum(k: State): (s: seq<nat>)
    ensures |s| == 6 && forall i :: 0 <= i < 6 ==> s[i] < 32
  {
    [Num(k, 25), Num(k, 20), Num(k, 15), Num(k, 10), Num(k, 5), Num(k, 0)]
  }

  lemma XorAssoc(a: State, b: State, c: State)
    ensures Xor(Xor(a, b), c) == Xor(a, Xor(b, c))
  {
  }

  lemma SymZero(x: State)
    ensures Xor(x, Sym(0)) == x
  {
    SymAt(0);
    assert forall i :: 0 <= i < 30 ==> !Sym(0)[i];
  }

  predicate LowOnly(w: State) {
    forall i :: 25 <= i < 30 ==> !w[i]
  }

  /** Bits that do not reach the top only move. */
  lemma StepOfLow(w: State)
    requires LowOnly(w)
    ensures Step(w) == Up5(w)
  {
    hide WordBit;
    forall i | 0 <= i < 30 ensures Step(w)[i] == Up5(w)[i] {
      assert !Feedback(w, i);
    }
  }

  /** The upper bits of k move up and take the next symbol of k. */
  lemma DownNext(k: State, o: nat)
    requires o <= 20
    ensures Xor(Up5(Down(k, o + 5)), Sym(Num(k, o))) == Down(k, o)
    ensures LowOnly(Down(k, o + 5))
  {
    forall i | 0 <= i < 30 ensures Xor(Up5(Down(k, o + 5)), Sym(Num(k, o)))[i] == Down(k, o)[i] {
      if i < 5 {
        SymOfNum(k, o, i);
      }
    }
  }

  lemma DownFirst(k: State)
    ensures Sym(Num(k, 25)) == Down(k, 25) && Down(k, 0) == k
  {
    forall i | 0 <= i < 5 ensures Sym(Num(k, 25))[i] == k[25 + i] {
      SymOfNum(k, 25, i);
    }
  }

  /** One more symbol of k, against the same with a zero: the difference takes in the symbol. */
  lemma NextDifference(z: State, k: State, o: nat)
    requires o <= 20
    ensures Next(Xor(z, Down(k, o + 5)), Num(k, o)) == Xor(Next(z, 0), Down(k, o))
  {
    hide Step, Sym, Xor, Up5, Down, Num, LowOnly;
    StepLinear(z, Down(k, o + 5));
    DownNext(k, o);
    StepOfLow(Down(k, o + 5));
    XorAssoc(Step(z), Up5(Down(k, o + 5)), Sym(Num(k, o)));
    SymZero(Step(z));
  }

  lemma FirstDifference(t: State, k: State)
    ensures Next(t, Num(k, 25)) == Xor(Next(t, 0), Down(k, 25))
  {
    hide Step, Sym, Xor, Down, Num;
    DownFirst(k);
    SymZero(Step(t));
  }

  lemma Feed6(t: State, s: seq<nat>)
    requires |s| == 6
    ensures Feed(t, s) == Next(Next(Next(Next(Next(Next(t, s[0]), s[1]), s[2]), s[3]), s[4]), s[5])
  {
    hide Next;
    assert s[..6] == s;
    forall n | 0 <= n < 6 ensures Feed(t, s[..n + 1]) == Next(Feed(t, s[..n]), s[n]) {
      assert s[..n + 1] == s[..n] + [s[n]];
      FeedLast(t, s[..n], s[n]);
    }
    assert s[..0] == [];
  }

  /** Feeding the symbols of k instead of six zeros changes the state by k. */
  lemma ChecksumCompletes(t: State, k: State)
    ensures Feed(t, Checksum(k)) == Xor(Feed(t, SIX), k)
  {
    hide Next, Xor, Down, Num;
    var z1 := Next(t, 0);
    var z2 := Next(z1, 0);
    var z3 := Next(z2, 0);
    var z4 := Next(z3, 0);
    var z5 := Next(z4, 0);
    Feed6(t, SIX);
    Feed6(t, Checksum(k));
    FirstDifference(t, k);
    NextDifference(z1, k, 20);
    NextDifference(z2, k, 15);
    NextDifference(z3, k, 10);
    NextDifference(z4, k, 5);
    NextDifference(z5, k, 0);
    DownFirst(k);
  }
}
