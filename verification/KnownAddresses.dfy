/** Published addresses: what segwit_addr_encode of src/common/segwit_addr.c gives for them. They fix the
    alphabet, the expansion of the prefix, the generators of the checksum and its two constants. */
module KnownAddresses {
  import opened Wrappers
  import opened Bech32
  import opened Bech32Strings
  import opened Bech32Canonical
  import opened Bech32Words
  import opened ConvertBits
  import opened SegwitAddress

  // ---------------------------------------------------------------- numbers as bytes and as symbols

  /** The last k bytes of a number, the most significant one first. */
  function BytesOf(k: nat, n: nat): (r: seq<nat>)
    ensures |r| == k
  {
    if k == 0 then [] else BytesOf(k - 1, n / 256) + [n % 256]
  }

  function SymbolsOf(k: nat, n: nat): (r: seq<nat>)
    ensures |r| == k && AreSymbols(r)
  {
    if k == 0 then [] else SymbolsOf(k - 1, n / 32) + [n % 32]
  }

  lemma LowBitsOnly(n: nat)
    ensures Bits(n % 256, 8) == Bits(n, 8) && ShiftRight(n, 8) == n / 256
    ensures Bits(n % 32, 5) == Bits(n, 5) && ShiftRight(n, 5) == n / 32
  {
    LowBitsAre(n);
    BitsMasked(n, 8, 8);
    BitsMasked(n, 5, 5);
  }

  lemma LowBitsAre(n: nat)
    ensures Mask(n, 5) == n % 32 && ShiftRight(n, 5) == n / 32
    ensures Mask(n, 8) == n % 256 && ShiftRight(n, 8) == n / 256
  {
    hide Mask, ShiftRight;
    MaskIs(n, 5, 32);
    MaskIs(n, 8, 256);
  }

  lemma {:induction false} MaskIs(n: nat, k: nat, p: nat)
    requires p == 1 || p == 2 || p == 4 || p == 8 || p == 16 || p == 32 || p == 64 || p == 128 || p == 256
    requires p == Pow2(k)
    ensures Mask(n, k) == n % p && ShiftRight(n, k) == n / p
    decreases k
  {
    if k > 0 {
      MaskIs(n / 2, k - 1, p / 2);
      HalfOfRemainder(n, p);
    }
  }

  lemma HalfOfRemainder(n: nat, p: nat)
    requires p == 2 || p == 4 || p == 8 || p == 16 || p == 32 || p == 64 || p == 128 || p == 256
    ensures n % p == 2 * (n / 2 % (p / 2)) + n % 2 && n / p == n / 2 / (p / 2)
  {
  }

  lemma Sixteen(n: nat)
    ensures Pow2(4) == 16 && ShiftLeft(n, 4) == 16 * n
  {
    assert ShiftLeft(n, 1) == 2 * n;
    assert ShiftLeft(n, 3) == 4 * ShiftLeft(n, 1);
  }

  lemma {:induction false} StreamOfBytes(k: nat, n: nat)
    ensures Stream(BytesOf(k, n), 8) == Bits(n, 8 * k)
  {
    hide Bits;
    if k == 0 {
      BitsStep(n, 0);
    } else {
      StreamOfBytes(k - 1, n / 256);
      StreamLast(BytesOf(k - 1, n / 256), n % 256, 8);
      LowBitsOnly(n);
      BitsSplit(n, 8 * (k - 1), 8);
    }
  }

  lemma {:induction false} StreamOfSymbols(k: nat, n: nat)
    ensures Stream(SymbolsOf(k, n), 5) == Bits(n, 5 * k)
  {
    hide Bits;
    if k == 0 {
      BitsStep(n, 0);
    } else {
      StreamOfSymbols(k - 1, n / 32);
      StreamLast(SymbolsOf(k - 1, n / 32), n % 32, 5);
      LowBitsOnly(n);
      BitsSplit(n, 5 * (k - 1), 5);
    }
  }

  lemma PadByFour(n: nat, k: nat)
    ensures Bits(16 * n, k + 4) == Bits(n, k) + Zeros(4)
  {
    hide Bits;
    Sixteen(n);
    BitsShifted(n, 0, k, 4);
    BitsOfZero(4);
  }

  /** A program of 20 or 32 bytes as symbols. */
  lemma SymbolsOfProgram(n: nat)
    ensures Padded(BytesOf(20, n), 8, 5) == SymbolsOf(32, n)
    ensures Padded(BytesOf(32, n), 8, 5) == SymbolsOf(52, 16 * n)
  {
    hide Bits, Stream, Regroup, BytesOf, SymbolsOf;
    StreamOfBytes(20, n);
    StreamOfSymbols(32, n);
    SymbolsFit(SymbolsOf(32, n));
    RegroupStream(SymbolsOf(32, n), 5);
    assert Bits(n, 160) + Zeros(0) == Bits(n, 160);
    StreamOfBytes(32, n);
    StreamOfSymbols(52, 16 * n);
    PadByFour(n, 256);
    SymbolsFit(SymbolsOf(52, 16 * n));
    RegroupStream(SymbolsOf(52, 16 * n), 5);
  }

  lemma NextSymbol(k: nat, n: nat, v: nat)
    requires v < 32
    ensures SymbolsOf(k + 1, 32 * n + v) == SymbolsOf(k, n) + [v]
  {
    assert (32 * n + v) / 32 == n && (32 * n + v) % 32 == v;
  }

  lemma NoSymbols()
    ensures SymbolsOf(0, 0) == []
  {
  }

  // ---------------------------------------------------------------- characters

  lemma NextChar(k: nat, n: nat, v: nat)
    requires v < 32
    ensures Chars(SymbolsOf(k + 1, 32 * n + v)) == Chars(SymbolsOf(k, n)) + [CharOf(v)]
  {
    hide CharOf, SymbolsOf;
    NextSymbol(k, n, v);
  }

  lemma CharTable0()
    ensures CharOf(0) == 'q' && CharOf(1) == 'p' && CharOf(2) == 'z' && CharOf(3) == 'r'
    ensures CharOf(4) == 'y' && CharOf(5) == '9' && CharOf(6) == 'x' && CharOf(7) == '8'
  {
  }

  lemma CharTable1()
    ensures CharOf(8) == 'g' && CharOf(9) == 'f' && CharOf(10) == '2' && CharOf(11) == 't'
    ensures CharOf(12) == 'v' && CharOf(13) == 'd' && CharOf(14) == 'w' && CharOf(15) == '0'
  {
  }

  lemma CharTable2()
    ensures CharOf(16) == 's' && CharOf(17) == '3' && CharOf(18) == 'j' && CharOf(19) == 'n'
    ensures CharOf(20) == '5' && CharOf(21) == '4' && CharOf(22) == 'k' && CharOf(23) == 'h'
  {
  }

  lemma CharTable3()
    ensures CharOf(24) == 'c' && CharOf(25) == 'e' && CharOf(26) == '6' && CharOf(27) == 'm'
    ensures CharOf(28) == 'u' && CharOf(29) == 'a' && CharOf(30) == '7' && CharOf(31) == 'l'
  {
  }

  lemma CharTable()
    ensures CharOf(0) == 'q' && CharOf(1) == 'p' && CharOf(2) == 'z' && CharOf(3) == 'r'
    ensures CharOf(4) == 'y' && CharOf(5) == '9' && CharOf(6) == 'x' && CharOf(7) == '8'
    ensures CharOf(8) == 'g' && CharOf(9) == 'f' && CharOf(10) == '2' && CharOf(11) == 't'
    ensures CharOf(12) == 'v' && CharOf(13) == 'd' && CharOf(14) == 'w' && CharOf(15) == '0'
    ensures CharOf(16) == 's' && CharOf(17) == '3' && CharOf(18) == 'j' && CharOf(19) == 'n'
    ensures CharOf(20) == '5' && CharOf(21) == '4' && CharOf(22) == 'k' && CharOf(23) == 'h'
    ensures CharOf(24) == 'c' && CharOf(25) == 'e' && CharOf(26) == '6' && CharOf(27) == 'm'
    ensures CharOf(28) == 'u' && CharOf(29) == 'a' && CharOf(30) == '7' && CharOf(31) == 'l'
  {
    hide CharOf;
    CharTable0();
    CharTable1();
    CharTable2();
    CharTable3();
  }

  lemma FourChars(k: nat, n: nat, v0: nat, v1: nat, v2: nat, v3: nat)
    requires v0 < 32 && v1 < 32 && v2 < 32 && v3 < 32
    ensures Chars(SymbolsOf(k + 4, 0x10_0000 * n + 0x8000 * v0 + 0x400 * v1 + 0x20 * v2 + v3))
         == Chars(SymbolsOf(k, n)) + [CharOf(v0), CharOf(v1), CharOf(v2), CharOf(v3)]
  {
    hide Chars, CharOf, SymbolsOf;
    NextChar(k, n, v0);
    NextChar(k + 1, 32 * n + v0, v1);
    NextChar(k + 2, 32 * (32 * n + v0) + v1, v2);
    NextChar(k + 3, 32 * (32 * (32 * n + v0) + v1) + v2, v3);
  }

  lemma NoChars()
    ensures Chars(SymbolsOf(0, 0)) == ""
  {
  }

  // ---------------------------------------------------------------- the state of the checksum as a word

  /** Feeding the symbols leads to the state in the word. */
  predicate Fed(s: seq<nat>, w: bv32) {
    Feed(Start(), s) == Word(w)
  }

  lemma NothingFed()
    ensures Fed([], 1)
  {
    hide Word;
  }

  lemma XorOfWords(a: bv32, b: bv32)
    ensures Xor(Word(a), Word(b)) == Word(XorWord(a, b))
  {
    hide WordBit, XorWord;
    forall i | 0 <= i < 30 ensures Xor(Word(a), Word(b))[i] == Word(XorWord(a, b))[i] {
      BitOfXor(a, b, i);
    }
  }

  lemma NextFed(s: seq<nat>, v: nat, w: bv32, w1: bv32)
    requires Fed(s, w) && v < 32 && XorWord(StepWord(w), SymbolWord(v)) == w1
    ensures Fed(s + [v], w1)
  {
    hide Word, Step, Sym, Xor, StepWord, XorWord, SymbolWord, Start;
    FeedLast(Start(), s, v);
    StepWordIsStep(w);
    WordOfSymbol(v);
    XorOfWords(StepWord(w), SymbolWord(v));
  }

  lemma OneFed(p: seq<nat>, k: nat, n: nat, v: nat, w: bv32, w1: bv32)
    requires Fed(p + SymbolsOf(k, n), w) && v < 32 && XorWord(StepWord(w), SymbolWord(v)) == w1
    ensures Fed(p + SymbolsOf(k + 1, 32 * n + v), w1)
  {
    hide Fed, StepWord, XorWord, SymbolWord, SymbolsOf;
    NextFed(p + SymbolsOf(k, n), v, w, w1);
    NextSymbol(k, n, v);
    assert p + SymbolsOf(k, n) + [v] == p + (SymbolsOf(k, n) + [v]);
  }

  /** Four more symbols, with the words between them. */
  lemma FourFed(p: seq<nat>, k: nat, n: nat, v0: nat, v1: nat, v2: nat, v3: nat,
      w0: bv32, w1: bv32, w2: bv32, w3: bv32, w4: bv32)
    requires Fed(p + SymbolsOf(k, n), w0) && v0 < 32 && v1 < 32 && v2 < 32 && v3 < 32
    requires XorWord(StepWord(w0), SymbolWord(v0)) == w1 && XorWord(StepWord(w1), SymbolWord(v1)) == w2
    requires XorWord(StepWord(w2), SymbolWord(v2)) == w3 && XorWord(StepWord(w3), SymbolWord(v3)) == w4
    ensures Fed(p + SymbolsOf(k + 4, 0x10_0000 * n + 0x8000 * v0 + 0x400 * v1 + 0x20 * v2 + v3), w4)
  {
    hide Fed, StepWord, XorWord, SymbolWord, SymbolsOf;
    OneFed(p, k, n, v0, w0, w1);
    OneFed(p, k + 1, 32 * n + v0, v1, w1, w2);
    OneFed(p, k + 2, 32 * (32 * n + v0) + v1, v2, w2, w3);
    OneFed(p, k + 3, 32 * (32 * (32 * n + v0) + v1) + v2, v3, w3, w4);
  }

  /** The address with these symbols: those of the program, and six that complete the checksum. */
  lemma KnownAddress(hrp: string, version: nat, program: seq<nat>, s: seq<nat>, c: seq<nat>)
    requires |hrp| == 2 && PrefixOk(hrp) && Allowed(version, |program|) && Padded(program, 8, 5) == s
    requires AreSymbols(s) && |s| <= 70 && |c| == 6 && AreSymbols(c)
    requires Fed(Expand(hrp) + [version] + s + c, if version == 0 then BECH32_CONST else BECH32M_CONST)
    ensures AreSymbols([version] + s)
    ensures Address(hrp, version, program) == Some(hrp + "1" + Chars([version] + s) + Chars(c))
  {
    hide Feed, Start, Expand, Padded, PrefixOk, Word, CharOf;
    assert Expand(hrp) + [version] + s + c == Expand(hrp) + ([version] + s + c);
    ChecksumDetermined(hrp, [version] + s, c, EncodingOf(version));
  }

  lemma VersionChar(version: nat, s: seq<nat>)
    requires version < 32 && AreSymbols(s)
    ensures AreSymbols([version] + s) && Chars([version] + s) == [CharOf(version)] + Chars(s)
  {
    hide CharOf;
  }

  // ---------------------------------------------------------------- bc1qw508d6qejxtdg4y5r3zarvary0c5xw7kv8f3t4

  lemma BcExpanded()
    ensures PrefixOk("bc") && Expand("bc") == [3, 3, 0, 2, 3]
  {
  }

  lemma KeyhashPrefix()
    ensures Fed(Expand("bc") + [0], 0x3d5a5fd2)
  {
    hide Fed, SymbolWord, Expand, PrefixOk;
    BcExpanded();
    SymbolTable();
    NothingFed();
    assert [] + [3] == [3];
    NextFed([], 3, 0x1, 0x23);
    NextFed([3], 3, 0x23, 0x463);
    assert [3] + [3] == [3, 3];
    NextFed([3, 3], 0, 0x463, 0x8c60);
    assert [3, 3] + [0] == [3, 3, 0];
    NextFed([3, 3, 0], 2, 0x8c60, 0x118c02);
    assert [3, 3, 0] + [2] == [3, 3, 0, 2];
    NextFed([3, 3, 0, 2], 3, 0x118c02, 0x2318043);
    assert [3, 3, 0, 2] + [3] == [3, 3, 0, 2, 3];
    NextFed([3, 3, 0, 2, 3], 0, 0x2318043, 0x3d5a5fd2);
  }

  lemma KeyhashFed20(p: seq<nat>)
    requires Fed(p, 0x3d5a5fd2)
    ensures Fed(p + SymbolsOf(20, 0x751e76e8199196d454941c45d), 0xe75f02f)
  {
    hide Fed, SymbolWord, SymbolsOf;
    SymbolTable();
    NoSymbols();
    assert p + [] == p;
    FourFed(p, 0, 0x0, 14, 20, 15, 7, 0x3d5a5fd2, 0x4ec3cb7, 0x3bd71899, 0x87e0c09, 0x116098dd);
    FourFed(p, 4, 0x751e7, 13, 26, 0, 25, 0x116098dd, 0x11512870, 0x17673dc7, 0xc9f52e2, 0x2b1bcbce);
    FourFed(p, 8, 0x751e76e819, 18, 6, 11, 13, 0x2b1bcbce, 0x2ca65529, 0x62f5002, 0x18d0d994, 0x39f818aa);
    FourFed(p, 12, 0x751e76e8199196d, 8, 21, 4, 20, 0x39f818aa, 0x36f45ddc, 0x14e73324, 0x7f4d934, 0x23a1ff4b);
    FourFed(p, 16, 0x751e76e8199196d45494, 3, 17, 2, 29, 0x23a1ff4b, 0x2541dc62, 0x247f608f, 0x3a8fd3c, 0xe75f02f);
  }

  lemma KeyhashFed32(p: seq<nat>)
    requires Fed(p + SymbolsOf(20, 0x751e76e8199196d454941c45d), 0xe75f02f)
    ensures Fed(p + SymbolsOf(32, 0x751e76e8199196d454941c45d1b3a323f1433bd6), 0x979c4ed)
  {
    hide Fed, SymbolWord, SymbolsOf;
    SymbolTable();
    FourFed(p, 20, 0x751e76e8199196d454941c45d, 3, 12, 29, 3, 0xe75f02f, 0xd25c5c6, 0x1c492f5b, 0xc964f37, 0x2a387174);
    FourFed(p, 24, 0x751e76e8199196d454941c45d1b3a3, 4, 15, 24, 20, 0x2a387174, 0x8d1027f, 0x4815615, 0x367a4cd5,
            0x5251205);
    FourFed(p, 28, 0x751e76e8199196d454941c45d1b3a323f14, 6, 14, 30, 22, 0x5251205, 0x2f2cecb, 0x25338edc, 0x2a353740,
            0x979c4ed);
  }

  lemma KeyhashSum(p: seq<nat>)
    requires Fed(p, 0x979c4ed)
    ensures Fed(p + SymbolsOf(6, 0x1874c575), 0x1)
  {
    hide Fed, SymbolWord, SymbolsOf;
    SymbolTable();
    NoSymbols();
    assert p + [] == p;
    FourFed(p, 0, 0x0, 12, 7, 9, 17, 0x979c4ed, 0x31998456, 0x2466dba9, 0x9f99f7, 0x13f33ef1);
    OneFed(p, 4, 0x61d31, 11, 0x13f33ef1, 0x384fba44);
    OneFed(p, 5, 0xc3a62b, 21, 0x384fba44, 0x1);
  }

  lemma KeyhashText16()
    ensures Chars(SymbolsOf(16, 0x751e76e8199196d45494)) == "w508d6qejxtdg4y5"
  {
    hide Chars, CharOf, SymbolsOf;
    CharTable();
    NoChars();
    FourChars(0, 0x0, 14, 20, 15, 7);
    FourChars(4, 0x751e7, 13, 26, 0, 25);
    FourChars(8, 0x751e76e819, 18, 6, 11, 13);
    FourChars(12, 0x751e76e8199196d, 8, 21, 4, 20);
  }

  lemma KeyhashText32()
    ensures Chars(SymbolsOf(32, 0x751e76e8199196d454941c45d1b3a323f1433bd6)) == "w508d6qejxtdg4y5r3zarvary0c5xw7k"
  {
    hide Chars, CharOf, SymbolsOf;
    CharTable();
    KeyhashText16();
    FourChars(16, 0x751e76e8199196d45494, 3, 17, 2, 29);
    FourChars(20, 0x751e76e8199196d454941c45d, 3, 12, 29, 3);
    FourChars(24, 0x751e76e8199196d454941c45d1b3a3, 4, 15, 24, 20);
    FourChars(28, 0x751e76e8199196d454941c45d1b3a323f14, 6, 14, 30, 22);
  }

  lemma KeyhashSumText()
    ensures Chars(SymbolsOf(6, 0x1874c575)) == "v8f3t4"
  {
    hide Chars, CharOf, SymbolsOf;
    CharTable();
    NoChars();
    FourChars(0, 0x0, 12, 7, 9, 17);
    NextChar(4, 0x61d31, 11);
    NextChar(5, 0xc3a62b, 21);
  }

  /** The key hash of the examples of BIP 173. */
  lemma KeyhashAddress()
    ensures Address("bc", 0, BytesOf(20, 0x751e76e8199196d454941c45d1b3a323f1433bd6))
         == Some("bc1q" + "w508d6qejxtdg4y5r3zarvary0c5xw7k" + "v8f3t4")
  {
    hide Address, Fed, Padded, Chars, PrefixOk, Expand, SymbolsOf, BytesOf, AreSymbols;
    var s, c := SymbolsOf(32, 0x751e76e8199196d454941c45d1b3a323f1433bd6), SymbolsOf(6, 0x1874c575);
    SymbolsOfProgram(0x751e76e8199196d454941c45d1b3a323f1433bd6);
    BcExpanded();
    KeyhashPrefix();
    var p := Expand("bc") + [0];
    KeyhashFed20(p);
    KeyhashFed32(p);
    KeyhashSum(p + s);
    KnownAddress("bc", 0, BytesOf(20, 0x751e76e8199196d454941c45d1b3a323f1433bd6), s, c);
    KeyhashText32();
    KeyhashSumText();
    VersionChar(0, s);
    assert CharOf(0) == 'q';
    assert "bc" + "1" + ("q" + Chars(s)) + Chars(c) == "bc1q" + Chars(s) + Chars(c);
  }

  // ------------------------------------------------ bc1p0xlxvlhemja6c4dqv22uapctqupfhlxm9h8z3k2e72q4k9hcz7vqzk5jj0

  lemma TaprootPrefix()
    ensures Fed(Expand("bc") + [1], 0x3d5a5fd3)
  {
    hide Fed, SymbolWord, Expand, PrefixOk;
    BcExpanded();
    SymbolTable();
    NothingFed();
    assert [] + [3] == [3];
    NextFed([], 3, 0x1, 0x23);
    NextFed([3], 3, 0x23, 0x463);
    assert [3] + [3] == [3, 3];
    NextFed([3, 3], 0, 0x463, 0x8c60);
    assert [3, 3] + [0] == [3, 3, 0];
    NextFed([3, 3, 0], 2, 0x8c60, 0x118c02);
    assert [3, 3, 0] + [2] == [3, 3, 0, 2];
    NextFed([3, 3, 0, 2], 3, 0x118c02, 0x2318043);
    assert [3, 3, 0, 2] + [3] == [3, 3, 0, 2, 3];
    NextFed([3, 3, 0, 2, 3], 1, 0x2318043, 0x3d5a5fd3);
  }

  lemma TaprootFed20(p: seq<nat>)
    requires Fed(p, 0x3d5a5fd3)
    ensures Fed(p + SymbolsOf(20, 0x79be667ef9dcbbac55a06295c), 0x28a11127)
  {
    hide Fed, SymbolWord, SymbolsOf;
    SymbolTable();
    NoSymbols();
    assert p + [] == p;
    FourFed(p, 0, 0x0, 15, 6, 31, 6, 0x3d5a5fd3, 0x4ec3c96, 0x3bd71cab, 0x87e8a59, 0x117052dc);
    FourFed(p, 4, 0x79be6, 12, 31, 23, 25, 0x117052dc, 0x13486851, 0x2f256e50, 0xd226881, 0x1cbc87ae);
    FourFed(p, 8, 0x79be667ef9, 27, 18, 29, 26, 0x1cbc87ae, 0x12235191, 0x242565d, 0x33209c0f, 0x82f8726);
    FourFed(p, 12, 0x79be667ef9dcbba, 24, 21, 13, 0, 0x82f8726, 0x1b51fd22, 0x32b6d9c0, 0x3ae73ed1, 0x2e7ac506);
    FourFed(p, 16, 0x79be667ef9dcbbac55a0, 12, 10, 10, 28, 0x2e7ac506, 0x26d7025a, 0x2dcef026, 0x2b3bf1ee, 0x28a11127);
  }

  lemma TaprootFed40(p: seq<nat>)
    requires Fed(p + SymbolsOf(20, 0x79be667ef9dcbbac55a06295c), 0x28a11127)
    ensures Fed(p + SymbolsOf(40, 0x79be667ef9dcbbac55a06295ce870b07029bfcdb2dce28d959), 0xa95576c)
  {
    hide Fed, SymbolWord, SymbolsOf;
    SymbolTable();
    FourFed(p, 20, 0x79be667ef9dcbbac55a06295c, 29, 1, 24, 11, 0x28a11127, 0x20975fb4, 0x38ff9432, 0x1605cecc,
            0x20c13389);
    FourFed(p, 24, 0x79be667ef9dcbbac55a06295ce870b, 0, 28, 1, 9, 0x20c13389, 0x32321393, 0x2a7e74a0, 0x11b8fa,
            0x2371f49);
    FourFed(p, 28, 0x79be667ef9dcbbac55a06295ce870b07029, 23, 31, 6, 27, 0x2371f49, 0x3d89be85, 0x1e901646,
            0x2cdb3b3e, 0x98292ff);
    FourFed(p, 32, 0x79be667ef9dcbbac55a06295ce870b07029bfcdb, 5, 23, 7, 2, 0x98292ff, 0x2ef3461f, 0x37e76161,
            0x3680a496, 0x1a781a73);
    FourFed(p, 36, 0x79be667ef9dcbbac55a06295ce870b07029bfcdb2dce2, 17, 22, 10, 25, 0x1a781a73, 0x178a33e4,
            0x113e9694, 0x1a90e157, 0xa95576c);
  }

  lemma TaprootFed52(p: seq<nat>)
    requires Fed(p + SymbolsOf(40, 0x79be667ef9dcbbac55a06295ce870b07029bfcdb2dce28d959), 0xa95576c)
    ensures Fed(p + SymbolsOf(52, 0x79be667ef9dcbbac55a06295ce870b07029bfcdb2dce28d959f2815b16f817980), 0x192c5247)
  {
    hide Fed, SymbolWord, SymbolsOf;
    SymbolTable();
    FourFed(p, 40, 0x79be667ef9dcbbac55a06295ce870b07029bfcdb2dce28d959, 30, 10, 0, 21, 0xa95576c, 0x3761a3d6,
            0x2658f27b, 0x3c30f40c, 0x29b9476c);
    FourFed(p, 44, 0x79be667ef9dcbbac55a06295ce870b07029bfcdb2dce28d959f2815, 22, 5, 23, 24, 0x29b9476c, 0x39d96df,
            0x8d88c57, 0x5b0930d, 0x1042efd5);
    FourFed(p, 48, 0x79be667ef9dcbbac55a06295ce870b07029bfcdb2dce28d959f2815b16f8, 2, 30, 12, 0, 0x1042efd5,
            0x351fc97f, 0x12fff0fd, 0x19d67bc3, 0x192c5247);
  }

  lemma TaprootSum(p: seq<nat>)
    requires Fed(p, 0x192c5247)
    ensures Fed(p + SymbolsOf(6, 0x56a4a4f), 0x2bc830a3)
  {
    hide Fed, SymbolWord, SymbolsOf;
    SymbolTable();
    NoSymbols();
    assert p + [] == p;
    FourFed(p, 0, 0x0, 2, 22, 20, 18, 0x192c5247, 0x66962c5, 0x10168169, 0x3f921ee9, 0x268e4c79);
    OneFed(p, 4, 0x15a92, 18, 0x268e4c79, 0x26e7345e);
    OneFed(p, 5, 0x2b5252, 15, 0x26e7345e, 0x2bc830a3);
  }

  lemma TaprootText16()
    ensures Chars(SymbolsOf(16, 0x79be667ef9dcbbac55a0)) == "0xlxvlhemja6c4dq"
  {
    hide Chars, CharOf, SymbolsOf;
    CharTable();
    NoChars();
    FourChars(0, 0x0, 15, 6, 31, 6);
    FourChars(4, 0x79be6, 12, 31, 23, 25);
    FourChars(8, 0x79be667ef9, 27, 18, 29, 26);
    FourChars(12, 0x79be667ef9dcbba, 24, 21, 13, 0);
  }

  lemma TaprootText32()
    ensures Chars(SymbolsOf(32, 0x79be667ef9dcbbac55a06295ce870b07029bfcdb)) == "0xlxvlhemja6c4dqv22uapctqupfhlxm"
  {
    hide Chars, CharOf, SymbolsOf;
    CharTable();
    TaprootText16();
    FourChars(16, 0x79be667ef9dcbbac55a0, 12, 10, 10, 28);
    FourChars(20, 0x79be667ef9dcbbac55a06295c, 29, 1, 24, 11);
    FourChars(24, 0x79be667ef9dcbbac55a06295ce870b, 0, 28, 1, 9);
    FourChars(28, 0x79be667ef9dcbbac55a06295ce870b07029, 23, 31, 6, 27);
  }

  lemma TaprootText52()
    ensures Chars(SymbolsOf(52, 0x79be667ef9dcbbac55a06295ce870b07029bfcdb2dce28d959f2815b16f817980))
            == "0xlxvlhemja6c4dqv22uapctqupfhlxm9h8z3k2e72q4k9hcz7vq"
  {
    hide Chars, CharOf, SymbolsOf;
    CharTable();
    TaprootText32();
    FourChars(32, 0x79be667ef9dcbbac55a06295ce870b07029bfcdb, 5, 23, 7, 2);
    FourChars(36, 0x79be667ef9dcbbac55a06295ce870b07029bfcdb2dce2, 17, 22, 10, 25);
    FourChars(40, 0x79be667ef9dcbbac55a06295ce870b07029bfcdb2dce28d959, 30, 10, 0, 21);
    FourChars(44, 0x79be667ef9dcbbac55a06295ce870b07029bfcdb2dce28d959f2815, 22, 5, 23, 24);
    FourChars(48, 0x79be667ef9dcbbac55a06295ce870b07029bfcdb2dce28d959f2815b16f8, 2, 30, 12, 0);
  }

  lemma TaprootSumText()
    ensures Chars(SymbolsOf(6, 0x56a4a4f)) == "zk5jj0"
  {
    hide Chars, CharOf, SymbolsOf;
    CharTable();
    NoChars();
    FourChars(0, 0x0, 2, 22, 20, 18);
    NextChar(4, 0x15a92, 18);
    NextChar(5, 0x2b5252, 15);
  }

  /** The taproot output of the examples of BIP 350. */
  lemma TaprootAddress()
    ensures Address("bc", 1, BytesOf(32, 0x79be667ef9dcbbac55a06295ce870b07029bfcdb2dce28d959f2815b16f81798))
         == Some("bc1p" + "0xlxvlhemja6c4dqv22uapctqupfhlxm9h8z3k2e72q4k9hcz7vq" + "zk5jj0")
  {
    hide Address, Fed, Padded, Chars, PrefixOk, Expand, SymbolsOf, BytesOf, AreSymbols;
    var s, c := SymbolsOf(52, 0x79be667ef9dcbbac55a06295ce870b07029bfcdb2dce28d959f2815b16f817980),
        SymbolsOf(6, 0x56a4a4f);
    SymbolsOfProgram(0x79be667ef9dcbbac55a06295ce870b07029bfcdb2dce28d959f2815b16f81798);
    BcExpanded();
    TaprootPrefix();
    var p := Expand("bc") + [1];
    TaprootFed20(p);
    TaprootFed40(p);
    TaprootFed52(p);
    TaprootSum(p + s);
    KnownAddress("bc", 1, BytesOf(32, 0x79be667ef9dcbbac55a06295ce870b07029bfcdb2dce28d959f2815b16f81798), s, c);
    TaprootText52();
    TaprootSumText();
    VersionChar(1, s);
    assert CharOf(1) == 'p';
    assert "bc" + "1" + ("p" + Chars(s)) + Chars(c) == "bc1p" + Chars(s) + Chars(c);
  }

  // ---------------------------------------------------------------- tb1qzdr7s2sr0dwmkwx033r4nujzk86u0cy6fmzfjk

  lemma TbExpanded()
    ensures PrefixOk("tb") && Expand("tb") == [3, 3, 0, 20, 2]
  {
  }

  lemma TestnetPrefix()
    ensures Fed(Expand("tb") + [0], 0x3d5a07f2)
  {
    hide Fed, SymbolWord, Expand, PrefixOk;
    TbExpanded();
    SymbolTable();
    NothingFed();
    assert [] + [3] == [3];
    NextFed([], 3, 0x1, 0x23);
    NextFed([3], 3, 0x23, 0x463);
    assert [3] + [3] == [3, 3];
    NextFed([3, 3], 0, 0x463, 0x8c60);
    assert [3, 3] + [0] == [3, 3, 0];
    NextFed([3, 3, 0], 20, 0x8c60, 0x118c14);
    assert [3, 3, 0] + [20] == [3, 3, 0, 20];
    NextFed([3, 3, 0, 20], 2, 0x118c14, 0x2318282);
    assert [3, 3, 0, 20] + [2] == [3, 3, 0, 20, 2];
    NextFed([3, 3, 0, 20, 2], 0, 0x2318282, 0x3d5a07f2);
  }

  lemma TestnetFed20(p: seq<nat>)
    requires Fed(p, 0x3d5a07f2)
    ensures Fed(p + SymbolsOf(20, 0x1347e82a037b5dbb38cf8c475), 0x2908ff5d)
  {
    hide Fed, SymbolWord, SymbolsOf;
    SymbolTable();
    NoSymbols();
    assert p + [] == p;
    FourFed(p, 0, 0x0, 2, 13, 3, 30, 0x3d5a07f2, 0x4e738bb, 0x3ab79900, 0x246e3f25, 0x1830860);
    FourFed(p, 4, 0x1347e, 16, 10, 16, 3, 0x1830860, 0x30610c10, 0x1b77d364, 0x36731105, 0x40ea812);
    FourFed(p, 8, 0x1347e82a03, 15, 13, 14, 27, 0x40ea812, 0x27858c22, 0x79f3f21, 0x2edd3df1, 0x32281cad);
    FourFed(p, 12, 0x1347e82a037b5db, 22, 14, 6, 15, 0x32281cad, 0x293f936a, 0x13471607, 0x2ecaa489, 0x30db33b9);
    FourFed(p, 16, 0x1347e82a037b5dbb38cf, 17, 17, 3, 21, 0x30db33b9, 0xc30265f, 0x3ef55c66, 0xa661d88, 0x2908ff5d);
  }

  lemma TestnetFed32(p: seq<nat>)
    requires Fed(p + SymbolsOf(20, 0x1347e82a037b5dbb38cf8c475), 0x2908ff5d)
    ensures Fed(p + SymbolsOf(32, 0x1347e82a037b5dbb38cf8c4759f242b1f5c7e09a), 0x32390305)
  {
    hide Fed, SymbolWord, SymbolsOf;
    SymbolTable();
    FourFed(p, 20, 0x1347e82a037b5dbb38cf8c475, 19, 28, 18, 2, 0x2908ff5d, 0x15aa90fa, 0x2e40a2ec, 0x219bff04,
            0x196b8231);
    FourFed(p, 24, 0x1347e82a037b5dbb38cf8c4759f242, 22, 7, 26, 28, 0x196b8231, 0xe936c11, 0x11f64202, 0x38a7387,
            0xa24274e);
    FourFed(p, 28, 0x1347e82a037b5dbb38cf8c4759f242b1f5c, 15, 24, 4, 26, 0xa24274e, 0x214fa787, 0x3e0924b, 0x7781ed6,
            0x32390305);
  }

  lemma TestnetSum(p: seq<nat>)
    requires Fed(p, 0x32390305)
    ensures Fed(p + SymbolsOf(6, 0x13b12656), 0x1)
  {
    hide Fed, SymbolWord, SymbolsOf;
    SymbolTable();
    NoSymbols();
    assert p + [] == p;
    FourFed(p, 0, 0x0, 9, 27, 2, 9, 0x32390305, 0x2b1c6675, 0x2c53e240, 0x1899bd26, 0x30d48eee);
    OneFed(p, 4, 0x4ec49, 18, 0x30d48eee, 0xdc78cbc);
    OneFed(p, 5, 0x9d8932, 22, 0xdc78cbc, 0x1);
  }

  lemma TestnetText16()
    ensures Chars(SymbolsOf(16, 0x1347e82a037b5dbb38cf)) == "zdr7s2sr0dwmkwx0"
  {
    hide Chars, CharOf, SymbolsOf;
    CharTable();
    NoChars();
    FourChars(0, 0x0, 2, 13, 3, 30);
    FourChars(4, 0x1347e, 16, 10, 16, 3);
    FourChars(8, 0x1347e82a03, 15, 13, 14, 27);
    FourChars(12, 0x1347e82a037b5db, 22, 14, 6, 15);
  }

  lemma TestnetText32()
    ensures Chars(SymbolsOf(32, 0x1347e82a037b5dbb38cf8c4759f242b1f5c7e09a)) == "zdr7s2sr0dwmkwx033r4nujzk86u0cy6"
  {
    hide Chars, CharOf, SymbolsOf;
    CharTable();
    TestnetText16();
    FourChars(16, 0x1347e82a037b5dbb38cf, 17, 17, 3, 21);
    FourChars(20, 0x1347e82a037b5dbb38cf8c475, 19, 28, 18, 2);
    FourChars(24, 0x1347e82a037b5dbb38cf8c4759f242, 22, 7, 26, 28);
    FourChars(28, 0x1347e82a037b5dbb38cf8c4759f242b1f5c, 15, 24, 4, 26);
  }

  lemma TestnetSumText()
    ensures Chars(SymbolsOf(6, 0x13b12656)) == "fmzfjk"
  {
    hide Chars, CharOf, SymbolsOf;
    CharTable();
    NoChars();
    FourChars(0, 0x0, 9, 27, 2, 9);
    NextChar(4, 0x4ec49, 18);
    NextChar(5, 0x9d8932, 22);
  }

  /** An address of the tests of the application (tests/test_get_wallet_address.py:32). */
  lemma TestnetAddress()
    ensures Address("tb", 0, BytesOf(20, 0x1347e82a037b5dbb38cf8c4759f242b1f5c7e09a))
         == Some("tb1q" + "zdr7s2sr0dwmkwx033r4nujzk86u0cy6" + "fmzfjk")
  {
    hide Address, Fed, Padded, Chars, PrefixOk, Expand, SymbolsOf, BytesOf, AreSymbols;
    var s, c := SymbolsOf(32, 0x1347e82a037b5dbb38cf8c4759f242b1f5c7e09a), SymbolsOf(6, 0x13b12656);
    SymbolsOfProgram(0x1347e82a037b5dbb38cf8c4759f242b1f5c7e09a);
    TbExpanded();
    TestnetPrefix();
    var p := Expand("tb") + [0];
    TestnetFed20(p);
    TestnetFed32(p);
    TestnetSum(p + s);
    KnownAddress("tb", 0, BytesOf(20, 0x1347e82a037b5dbb38cf8c4759f242b1f5c7e09a), s, c);
    TestnetText32();
    TestnetSumText();
    VersionChar(0, s);
    assert CharOf(0) == 'q';
    assert "tb" + "1" + ("q" + Chars(s)) + Chars(c) == "tb1q" + Chars(s) + Chars(c);
  }
}
