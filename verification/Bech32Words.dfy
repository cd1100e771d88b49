/** The step of the checksum on 32-bit words, as src/common/segwit_addr.c writes it, and what a single
    changed symbol would have to be for the checksum of one encoding to become that of the other. */
module Bech32Words {
  import opened Wrappers
  import opened Bech32
  import opened Bech32Strings

  // ---------------------------------------------------------------- bech32_polymod_step

  function XorWord(a: bv32, b: bv32): bv32 {
    a ^ b
  }

  function ShiftWord(w: bv32): bv32 {
    (w & 0x1ffffff) << 5
  }

  function TapWord(top: bool, g: bv32): bv32 {
    if top then g else 0
  }

  /** The word that is shifted, and the generators for its bits 25 to 29. */
  function StepWord(w: bv32): bv32 {
    var a := XorWord(ShiftWord(w), TapWord(Meets(w, 0x2000000), 0x3b6a57b2));
    var b := XorWord(a, TapWord(Meets(w, 0x4000000), 0x26508e6d));
    var c := XorWord(b, TapWord(Meets(w, 0x8000000), 0x1ea119fa));
    var d := XorWord(c, TapWord(Meets(w, 0x10000000), 0x3d4233dd));
    XorWord(d, TapWord(Meets(w, 0x20000000), 0x2a1462b3))
  }

  lemma TopMasks()
    ensures MaskOf(25) == 0x2000000 && MaskOf(26) == 0x4000000 && MaskOf(27) == 0x8000000
    ensures MaskOf(28) == 0x10000000 && MaskOf(29) == 0x20000000
  {
  }

  lemma MaskedXor(a: bv32, b: bv32, i: nat)
    ensures ((a ^ b) & MaskOf(i) != 0) == ((a & MaskOf(i) != 0) != (b & MaskOf(i) != 0))
  {
  }

  lemma MeetsXor(a: bv32, b: bv32, i: nat)
    ensures Meets(a ^ b, MaskOf(i)) == (Meets(a, MaskOf(i)) != Meets(b, MaskOf(i)))
  {
    hide MaskOf;
    MaskedXor(a, b, i);
  }

  lemma BitOfXor(a: bv32, b: bv32, i: nat)
    ensures WordBit(XorWord(a, b), i) == Odd(WordBit(a, i), WordBit(b, i))
  {
    hide Meets, MaskOf;
    MeetsXor(a, b, i);
  }

  predicate FiveAbove(high: bv32, low: bv32) {
    high == low << 5 && low & 0x1ffffff == low
  }

  lemma MasksFiveAbove(i: nat)
    requires 5 <= i < 30
    ensures FiveAbove(MaskOf(i), MaskOf(i - 5))
  {
  }

  lemma MaskedShift(w: bv32, low: bv32)
    requires low & 0x1ffffff == low
    ensures (((w & 0x1ffffff) << 5) & (low << 5) != 0) == (w & low != 0)
  {
  }

  lemma MeetsShift(w: bv32, low: bv32, high: bv32)
    requires FiveAbove(high, low)
    ensures Meets(ShiftWord(w), high) == Meets(w, low)
  {
    MaskedShift(w, low);
  }

  lemma BitOfShift(w: bv32, i: nat)
    requires 5 <= i < 30
    ensures WordBit(ShiftWord(w), i) == WordBit(w, i - 5)
  {
    hide FiveAbove, ShiftWord, Meets, MaskOf;
    MasksFiveAbove(i);
    MeetsShift(w, MaskOf(i - 5), MaskOf(i));
  }

  lemma LowBitOfShift(w: bv32, i: nat)
    requires i < 5
    ensures !WordBit(ShiftWord(w), i)
  {
  }

  lemma NoBits(i: nat)
    ensures !WordBit(0, i)
  {
    hide MaskOf;
  }

  lemma BitOfTap(w: bv32, k: nat, i: nat)
    requires k < 5 && i < 30
    ensures WordBit(TapWord(WordBit(w, 25 + k), GENERATOR[k]), i) == Tap(Word(w), k, i)
  {
    hide WordBit;
    NoBits(i);
  }

  /** The step with the generators for the first k of the bits 25 to 29 only. */
  function Part(w: bv32, k: nat): bv32
    requires k <= 5
  {
    if k == 0 then ShiftWord(w)
    else XorWord(Part(w, k - 1), TapWord(WordBit(w, 24 + k), GENERATOR[k - 1]))
  }

  predicate PartBit(w: bv32, k: nat, i: nat)
    requires k <= 5
  {
    WordBit(Part(w, k), i)
  }

  lemma TopBits(w: bv32)
    ensures Meets(w, 0x2000000) == WordBit(w, 25) && Meets(w, 0x4000000) == WordBit(w, 26)
    ensures Meets(w, 0x8000000) == WordBit(w, 27) && Meets(w, 0x10000000) == WordBit(w, 28)
    ensures Meets(w, 0x20000000) == WordBit(w, 29)
  {
    hide Meets, MaskOf;
    TopMasks();
  }

  lemma StepIsPart(w: bv32)
    ensures StepWord(w) == Part(w, 5)
  {
    hide WordBit, Meets, XorWord, ShiftWord, TapWord;
    TopBits(w);
    assert Part(w, 1) == XorWord(Part(w, 0), TapWord(WordBit(w, 25), GENERATOR[0]));
    assert Part(w, 2) == XorWord(Part(w, 1), TapWord(WordBit(w, 26), GENERATOR[1]));
    assert Part(w, 3) == XorWord(Part(w, 2), TapWord(WordBit(w, 27), GENERATOR[2]));
    assert Part(w, 4) == XorWord(Part(w, 3), TapWord(WordBit(w, 28), GENERATOR[3]));
  }

  lemma FirstPart(w: bv32, i: nat)
    requires i < 30
    ensures PartBit(w, 0, i) == Up5(Word(w))[i]
  {
    hide WordBit, ShiftWord;
    if i >= 5 {
      BitOfShift(w, i);
    } else {
      LowBitOfShift(w, i);
    }
  }

  lemma NextPart(w: bv32, k: nat, i: nat)
    requires k < 5 && i < 30
    ensures PartBit(w, k + 1, i) == Odd(PartBit(w, k, i), Tap(Word(w), k, i))
  {
    hide WordBit, XorWord, TapWord, Tap, Odd, Word;
    BitOfXor(Part(w, k), TapWord(WordBit(w, 25 + k), GENERATOR[k]), i);
    BitOfTap(w, k, i);
  }

  lemma LastPart(w: bv32, i: nat)
    ensures WordBit(StepWord(w), i) == PartBit(w, 5, i)
  {
    hide WordBit, StepWord;
    StepIsPart(w);
  }

  lemma BitOfStep(w: bv32, i: nat)
    requires i < 30
    ensures WordBit(StepWord(w), i) == Step(Word(w))[i]
  {
    hide PartBit, WordBit, StepWord, Tap, Up5, Word, Part;
    LastPart(w, i);
    FirstPart(w, i);
    NextPart(w, 0, i);
    NextPart(w, 1, i);
    NextPart(w, 2, i);
    NextPart(w, 3, i);
    NextPart(w, 4, i);
  }

  /** The step on words is the step on bits. */
  lemma StepWordIsStep(w: bv32)
    ensures Word(StepWord(w)) == Step(Word(w))
  {
    hide WordBit, StepWord, Step;
    forall i | 0 <= i < 30 ensures Word(StepWord(w))[i] == Step(Word(w))[i] {
      BitOfStep(w, i);
    }
  }

  // ---------------------------------------------------------------- symbols as words

  function FiveBitWord(b0: bool, b1: bool, b2: bool, b3: bool, b4: bool): bv32 {
    (if b0 then 1 else 0) | (if b1 then 2 else 0) | (if b2 then 4 else 0) | (if b3 then 8 else 0) | (if b4 then 16
        else 0)
  }

  function SymbolWord(v: nat): bv32 {
    FiveBitWord(v % 2 == 1, v / 2 % 2 == 1, v / 4 % 2 == 1, v / 8 % 2 == 1, v / 16 % 2 == 1)
  }

  lemma SymbolTable()
    ensures SymbolWord(0) == 0 && SymbolWord(1) == 1 && SymbolWord(2) == 2 && SymbolWord(3) == 3
    ensures SymbolWord(4) == 4 && SymbolWord(5) == 5 && SymbolWord(6) == 6 && SymbolWord(7) == 7
    ensures SymbolWord(8) == 8 && SymbolWord(9) == 9 && SymbolWord(10) == 10 && SymbolWord(11) == 11
    ensures SymbolWord(12) == 12 && SymbolWord(13) == 13 && SymbolWord(14) == 14 && SymbolWord(15) == 15
    ensures SymbolWord(16) == 16 && SymbolWord(17) == 17 && SymbolWord(18) == 18 && SymbolWord(19) == 19
    ensures SymbolWord(20) == 20 && SymbolWord(21) == 21 && SymbolWord(22) == 22 && SymbolWord(23) == 23
    ensures SymbolWord(24) == 24 && SymbolWord(25) == 25 && SymbolWord(26) == 26 && SymbolWord(27) == 27
    ensures SymbolWord(28) == 28 && SymbolWord(29) == 29 && SymbolWord(30) == 30 && SymbolWord(31) == 31
  {
  }

  lemma FiveBitLow(b0: bool, b1: bool, b2: bool, b3: bool, b4: bool)
    ensures var w := FiveBitWord(b0, b1, b2, b3, b4);
            && w & 1 == (if b0 then 1 else 0) && w & 2 == (if b1 then 2 else 0) && w & 4 == (if b2 then 4 else 0)
            && w & 8 == (if b3 then 8 else 0) && w & 16 == (if b4 then 16 else 0) && w & 0x1f == w
  {
  }

  lemma MaskHigh(w: bv32, i: nat)
    requires w & 0x1f == w && 5 <= i < 30
    ensures w & MaskOf(i) == 0
  {
  }

  lemma SymbolBit(v: nat, i: nat)
    requires i < 30
    ensures WordBit(SymbolWord(v), i) == Sym(v)[i]
  {
    SymAt(v);
    hide BitOf;
    FiveBitLow(v % 2 == 1, v / 2 % 2 == 1, v / 4 % 2 == 1, v / 8 % 2 == 1, v / 16 % 2 == 1);
    hide FiveBitWord;
    if i >= 5 {
      MaskHigh(SymbolWord(v), i);
    }
  }

  lemma WordOfSymbol(v: nat)
    ensures Word(SymbolWord(v)) == Sym(v)
  {
    hide SymbolWord, WordBit, Sym;
    forall i | 0 <= i < 30 ensures Word(SymbolWord(v))[i] == Sym(v)[i] {
      SymbolBit(v, i);
    }
  }

  // ---------------------------------------------------------------- many steps

  function Steps(x: State, n: nat): State
    decreases n
  {
    if n == 0 then x else Steps(Step(x), n - 1)
  }

  /** The state that the two final constants differ by. */
  const BOTH: bv32 := 0x2bc830a2

  lemma OneBack(a: bv32, b: bv32, n: nat, t: State)
    requires StepWord(a) == b && Steps(Word(b), n) == t
    ensures Steps(Word(a), n + 1) == t
  {
    hide Word, StepWord, Step;
    StepWordIsStep(a);
  }

  lemma BackTwenty(t: State)
    requires t == Word(BOTH)
    ensures Steps(Word(0x274d7abf), 20) == t
  {
    assert Steps(Word(BOTH), 0) == t;
    hide Steps, Word;
    OneBack(0x165d86d5, 0x2bc830a2, 0, t);
    OneBack(0x1a76a7da, 0x165d86d5, 1, t);
    OneBack(0x826bdf1, 0x1a76a7da, 2, t);
    OneBack(0x361251aa, 0x826bdf1, 3, t);
    OneBack(0x1d9d0faf, 0x361251aa, 4, t);
    OneBack(0x12ddab5e, 0x1d9d0faf, 5, t);
    OneBack(0x24f4ca3c, 0x12ddab5e, 6, t);
    OneBack(0x32464667, 0x24f4ca3c, 7, t);
    OneBack(0x188d2b62, 0x32464667, 8, t);
    OneBack(0x17c7ae0b, 0x188d2b62, 9, t);
    OneBack(0x3e1851fa, 0x17c7ae0b, 10, t);
    OneBack(0x905ca40, 0x3e1851fa, 11, t);
    OneBack(0x482e52, 0x905ca40, 12, t);
    OneBack(0x3d913cf, 0x482e52, 13, t);
    OneBack(0x122f8bbd, 0x3d913cf, 14, t);
    OneBack(0x117b6dc3, 0x122f8bbd, 15, t);
    OneBack(0x3503ed96, 0x117b6dc3, 16, t);
    OneBack(0x2ee46278, 0x3503ed96, 17, t);
    OneBack(0x1e81ec8c, 0x2ee46278, 18, t);
    OneBack(0x274d7abf, 0x1e81ec8c, 19, t);
  }

  lemma BackThirtyEight(t: State)
    requires t == Word(BOTH)
    ensures Steps(Word(0x1c43ade6), 38) == t
  {
    hide Steps, Word;
    BackTwenty(t);
    OneBack(0x7d3bd1b, 0x274d7abf, 20, t);
    OneBack(0x2a40648f, 0x7d3bd1b, 21, t);
    OneBack(0x13634007, 0x2a40648f, 22, t);
    OneBack(0x19840351, 0x13634007, 23, t);
    OneBack(0x369f445f, 0x19840351, 24, t);
    OneBack(0x75d2cec, 0x369f445f, 25, t);
    OneBack(0x27839cbc, 0x75d2cec, 26, t);
    OneBack(0x325dfcd3, 0x27839cbc, 27, t);
    OneBack(0x20c24cf3, 0x325dfcd3, 28, t);
    OneBack(0x2056b172, 0x20c24cf3, 29, t);
    OneBack(0x2d9e736, 0x2056b172, 30, t);
    OneBack(0x2f5ab22d, 0x2d9e736, 31, t);
    OneBack(0x44851e2, 0x2f5ab22d, 32, t);
    OneBack(0x172185df, 0x44851e2, 33, t);
    OneBack(0x650dae0, 0x172185df, 34, t);
    OneBack(0x3286d7, 0x650dae0, 35, t);
    OneBack(0xdc6188a, 0x3286d7, 36, t);
    OneBack(0x1c43ade6, 0xdc6188a, 37, t);
  }

  lemma BackFiftyEight(t: State)
    requires t == Word(BOTH)
    ensures Steps(Word(0x9beeec5), 58) == t
  {
    hide Steps, Word;
    BackThirtyEight(t);
    OneBack(0x3b76f596, 0x1c43ade6, 38, t);
    OneBack(0x2e97cab8, 0x3b76f596, 39, t);
    OneBack(0x1e8271ca, 0x2e97cab8, 40, t);
    OneBack(0x1cd98eac, 0x1e8271ca, 41, t);
    OneBack(0x275fb9ae, 0x1cd98eac, 42, t);
    OneBack(0x31804f46, 0x275fb9ae, 43, t);
    OneBack(0x3a18ea83, 0x31804f46, 44, t);
    OneBack(0x3458f1ac, 0x3a18ea83, 45, t);
    OneBack(0x261bb256, 0x3458f1ac, 46, t);
    OneBack(0x2e7ca086, 0x261bb256, 47, t);
    OneBack(0x3ae70dfd, 0x2e7ca086, 48, t);
    OneBack(0x103d29f1, 0x3ae70dfd, 49, t);
    OneBack(0x36d28d0a, 0x103d29f1, 50, t);
    OneBack(0x1d9b094a, 0x36d28d0a, 51, t);
    OneBack(0x1cc14568, 0x1d9b094a, 52, t);
    OneBack(0xbc85059, 0x1cc14568, 53, t);
    OneBack(0x3d237cb5, 0xbc85059, 54, t);
    OneBack(0x1b2d5009, 0x3d237cb5, 55, t);
    OneBack(0x297cc15a, 0x1b2d5009, 56, t);
    OneBack(0x9beeec5, 0x297cc15a, 57, t);
  }

  // ---------------------------------------------------------------- from one encoding to the other

  lemma {:induction false} StepsLast(x: State, n: nat)
    requires n > 0
    ensures Steps(x, n) == Step(Steps(x, n - 1))
    decreases n
  {
    hide Step;
    if n > 1 {
      StepsLast(Step(x), n - 1);
    }
  }

  lemma {:induction false} StepsInjective(x: State, y: State, n: nat)
    requires Steps(x, n) == Steps(y, n)
    ensures x == y
    decreases n
  {
    hide Step;
    if n > 0 {
      StepsInjective(Step(x), Step(y), n - 1);
      StepInjective(x, y);
    }
  }

  lemma XorShared(a: State, b: State, c: State)
    ensures Xor(Xor(a, c), Xor(b, c)) == Xor(a, b) && Xor(Xor(c, a), Xor(c, b)) == Xor(a, b)
  {
  }

  /** The difference of two states moves on with the steps, whatever is fed to both. */
  lemma {:induction false} FeedDifference(x: State, y: State, s: seq<nat>)
    ensures Xor(Feed(x, s), Feed(y, s)) == Steps(Xor(x, y), |s|)
    decreases |s|
  {
    hide Step, Sym, Xor, Steps;
    if s != [] {
      var init := s[..|s| - 1];
      FeedDifference(x, y, init);
      StepsLast(Xor(x, y), |s|);
      StepLinear(Feed(x, init), Feed(y, init));
      XorShared(Step(Feed(x, init)), Step(Feed(y, init)), Sym(s[|s| - 1]));
    } else {
      NoSteps(Xor(x, y));
    }
  }

  lemma NoSteps(x: State)
    ensures Steps(x, 0) == x
  {
  }

  lemma BothConstants()
    ensures Xor(FinalConstant(Plain), FinalConstant(Modified)) == Word(BOTH)
  {
    hide WordBit;
    assert XorWord(BECH32_CONST, BECH32M_CONST) == BOTH;
    forall i | 0 <= i < 30 ensures Xor(FinalConstant(Plain), FinalConstant(Modified))[i] == Word(BOTH)[i] {
      BitOfXor(BECH32_CONST, BECH32M_CONST, i);
    }
  }

  lemma OriginsReachUp()
    ensures Word(0x1c43ade6)[5] && Word(0x9beeec5)[6]
  {
  }

  /** Two symbols, followed by the same 38 or 58 symbols, never lead from one state to the final constants
      of the two encodings. These are the numbers of symbols that follow the version in an address with a
      program of 20 or 32 bytes. */
  lemma EncodingsApart(t: State, v: nat, w: nat, s: seq<nat>)
    requires |s| == 38 || |s| == 58
    ensures Feed(t, [v] + s) != FinalConstant(Plain) || Feed(t, [w] + s) != FinalConstant(Modified)
  {
    hide Feed, FinalConstant, Steps, Word, Step, Sym, Xor;
    var d := Xor(Sym(v), Sym(w));
    FeedOne(t, v);
    FeedOne(t, w);
    FeedAppend(t, [v], s);
    FeedAppend(t, [w], s);
    FeedDifference(Feed(t, [v]), Feed(t, [w]), s);
    XorShared(Sym(v), Sym(w), Step(t));
    if Feed(t, [v] + s) == FinalConstant(Plain) && Feed(t, [w] + s) == FinalConstant(Modified) {
      BothConstants();
      LowDifference(v, w);
      OriginsReachUp();
      BackThirtyEight(Word(BOTH));
      BackFiftyEight(Word(BOTH));
      if |s| == 38 {
        StepsInjective(d, Word(0x1c43ade6), 38);
      } else {
        StepsInjective(d, Word(0x9beeec5), 58);
      }
    }
  }

  lemma FeedOne(t: State, v: nat)
    ensures Feed(t, [v]) == Xor(Step(t), Sym(v))
  {
    hide Xor, Step, Sym;
    assert [v][..0] == [];
  }

  lemma LowDifference(v: nat, w: nat)
    ensures !Xor(Sym(v), Sym(w))[5] && !Xor(Sym(v), Sym(w))[6]
  {
    hide BitOf;
  }
}
