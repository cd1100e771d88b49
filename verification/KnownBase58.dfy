/** A known answer for base58: the sentence of the device's unit test, in both directions. */
module KnownBase58 {
  import opened Wrappers
  import opened Base58

  const Sentence := "The quick brown fox " + "jumps over the lazy " + "dog."
  const Number: nat := 0x54686520717569636b2062726f776e20666f78206a756d7073206f76657220746865206c617a7920646f672e
  const Encoded := "USm3fpXnKG5EUBx2ndxB" + "DMPVciP5hGey2Jh4NDv6" + "gmeo1LkMeiKrLJUUBk6Z"

  predicate Narrow(t: string) {
    forall i :: 0 <= i < |t| ==> t[i] < 256 as char
  }

  /** The codes of the characters of a text. */
  function Codes(t: string): (b: Bytes)
    requires Narrow(t)
    ensures |b| == |t| && forall i :: 0 <= i < |t| ==> b[i] == t[i] as nat
  {
    seq(|t|, i requires 0 <= i < |t| => t[i] as nat)
  }

  // ---------------------------------------------------------------- four characters at a time

  /** The text consists of characters of the alphabet and stands for the number v. */
  predicate Reads(t: string, v: nat) {
    DigitsOf(t).Some? && Value(58, DigitsOf(t).value) == v
  }

  /** The codes of the text, as digits, stand for the number v. */
  predicate Spells(t: string, v: nat) {
    Narrow(t) && Value(256, Numbers(Codes(t))) == v
  }

  lemma ReadsOne(t: string, v: nat, c: char, d: nat)
    requires Reads(t, v) && DigitOf(c) == Some(d)
    ensures Reads(t + [c], 58 * v + d)
  {
    hide DigitOf;
    assert (t + [c])[..|t|] == t;
    var s := DigitsOf(t).value;
    assert (s + [d])[..|s|] == s;
  }

  lemma ReadsFour(t: string, v: nat, a: char, da: nat, b: char, db: nat, c: char, dc: nat, d: char, dd: nat, v': nat)
    requires Reads(t, v) && DigitOf(a) == Some(da) && DigitOf(b) == Some(db) && DigitOf(c) == Some(dc)
    requires DigitOf(d) == Some(dd) && v' == 58 * (58 * (58 * (58 * v + da) + db) + dc) + dd
    ensures Reads(t + [a, b, c, d], v')
  {
    hide Reads, DigitOf;
    ReadsOne(t, v, a, da);
    var va := 58 * v + da;
    ReadsOne(t + [a], va, b, db);
    var vb := 58 * va + db;
    ReadsOne(t + [a] + [b], vb, c, dc);
    ReadsOne(t + [a] + [b] + [c], 58 * vb + dc, d, dd);
    assert t + [a] + [b] + [c] + [d] == t + [a, b, c, d];
  }

  lemma SpellsOne(t: string, v: nat, c: char)
    requires Spells(t, v) && c < 256 as char
    ensures Spells(t + [c], 256 * v + c as nat)
  {
    var t' := t + [c];
    assert Narrow(t');
    var s, s' := Numbers(Codes(t)), Numbers(Codes(t'));
    assert s'[..|t|] == s;
  }

  lemma SpellsFour(t: string, v: nat, a: char, b: char, c: char, d: char, v': nat)
    requires Spells(t, v) && a < 256 as char && b < 256 as char && c < 256 as char && d < 256 as char
    requires v' == 256 * (256 * (256 * (256 * v + a as nat) + b as nat) + c as nat) + d as nat
    ensures Spells(t + [a, b, c, d], v')
  {
    hide Spells;
    SpellsOne(t, v, a);
    var va := 256 * v + a as nat;
    SpellsOne(t + [a], va, b);
    var vb := 256 * va + b as nat;
    SpellsOne(t + [a] + [b], vb, c);
    SpellsOne(t + [a] + [b] + [c], 256 * vb + c as nat, d);
    assert t + [a] + [b] + [c] + [d] == t + [a, b, c, d];
  }

  /** The places in the alphabet of the characters that occur. */
  lemma Places()
    ensures DigitOf('1') == Some(0) && DigitOf('2') == Some(1) && DigitOf('3') == Some(2) && DigitOf('4') == Some(3)
            && DigitOf('5') == Some(4) && DigitOf('6') == Some(5)
    ensures DigitOf('B') == Some(10) && DigitOf('D') == Some(12) && DigitOf('E') == Some(13)
            && DigitOf('G') == Some(15) && DigitOf('J') == Some(17) && DigitOf('K') == Some(18)
    ensures DigitOf('L') == Some(19) && DigitOf('M') == Some(20) && DigitOf('N') == Some(21)
            && DigitOf('P') == Some(22) && DigitOf('S') == Some(25) && DigitOf('U') == Some(27)
    ensures DigitOf('V') == Some(28) && DigitOf('X') == Some(30) && DigitOf('Z') == Some(32)
            && DigitOf('c') == Some(35) && DigitOf('d') == Some(36) && DigitOf('e') == Some(37)
    ensures DigitOf('f') == Some(38) && DigitOf('g') == Some(39) && DigitOf('h') == Some(40)
            && DigitOf('i') == Some(41) && DigitOf('k') == Some(43) && DigitOf('m') == Some(44)
    ensures DigitOf('n') == Some(45) && DigitOf('o') == Some(46) && DigitOf('p') == Some(47)
            && DigitOf('r') == Some(49) && DigitOf('v') == Some(53) && DigitOf('x') == Some(55)
    ensures DigitOf('y') == Some(56)
  {
  }

  lemma Read1(t: string)
    requires Reads(t, 0x0)
    ensures Reads(t + "USm3fpXnKG5EUBx2ndxB",
                  0x10e9bd4c45cf1502ff328e563d5c08)
  {
    hide Reads, DigitOf;
    Places();
    ReadsFour(t, 0x0, 'U', 27, 'S', 25, 'm', 44, '3', 2,
              0x51b4b6);
    var t1 := t + ['U', 'S', 'm', '3'];
    ReadsFour(t1, 0x51b4b6, 'f', 38, 'p', 47, 'X', 30, 'n', 45,
              0x371ca6f5dbe5);
    var t2 := t1 + ['f', 'p', 'X', 'n'];
    ReadsFour(t2, 0x371ca6f5dbe5, 'K', 18, 'G', 15, '5', 4, 'E', 13,
              0x252c81fbce5309dc31);
    var t3 := t2 + ['K', 'G', '5', 'E'];
    ReadsFour(t3, 0x252c81fbce5309dc31, 'U', 27, 'B', 10, 'x', 55, '2', 1,
              0x191308bbcde9f5a2cba7d227);
    var t4 := t3 + ['U', 'B', 'x', '2'];
    ReadsFour(t4, 0x191308bbcde9f5a2cba7d227, 'n', 45, 'd', 36, 'x', 55, 'B', 10,
              0x10e9bd4c45cf1502ff328e563d5c08);
    var t5 := t4 + ['n', 'd', 'x', 'B'];
    assert t5 == t + "USm3fpXnKG5EUBx2ndxB";
  }

  lemma Read2(t: string)
    requires Reads(t, 0x10e9bd4c45cf1502ff328e563d5c08)
    ensures Reads(t + "DMPVciP5hGey2Jh4NDv6",
                  0x25c8935fc7ece078648fe22081fc789886192c4537f22204ee33e4841ef)
  {
    hide Reads, DigitOf;
    Places();
    ReadsFour(t, 0x10e9bd4c45cf1502ff328e563d5c08, 'D', 12, 'M', 20, 'P', 22, 'V', 28,
              0xb687a32c747136c27cc9cbf4a66b08bee48);
    var t1 := t + ['D', 'M', 'P', 'V'];
    ReadsFour(t1, 0xb687a32c747136c27cc9cbf4a66b08bee48, 'c', 35, 'i', 41, 'P', 22, '5', 4,
              0x7b1e86b39d798893c0b21133d0e3aa9bdb18fdfbc);
    var t2 := t1 + ['c', 'i', 'P', '5'];
    ReadsFour(t2, 0x7b1e86b39d798893c0b21133d0e3aa9bdb18fdfbc, 'h', 40, 'G', 15, 'e', 37, 'y', 56,
              0x530bbdd39d9a4cbc29da17ef91705d893d31983a5f7ebb6);
    var t3 := t2 + ['h', 'G', 'e', 'y'];
    ReadsFour(t3, 0x530bbdd39d9a4cbc29da17ef91705d893d31983a5f7ebb6, '2', 1, 'J', 17, 'h', 40, '4', 3,
              0x380407aa31c266adec129314c41bc0de70b4409e311f548149bff);
    var t4 := t3 + ['2', 'J', 'h', '4'];
    ReadsFour(t4, 0x380407aa31c266adec129314c41bc0de70b4409e311f548149bff, 'N', 21, 'D', 12, 'v', 53, '6', 5,
              0x25c8935fc7ece078648fe22081fc789886192c4537f22204ee33e4841ef);
    var t5 := t4 + ['N', 'D', 'v', '6'];
    assert t5 == t + "DMPVciP5hGey2Jh4NDv6";
  }

  lemma Read3(t: string)
    requires Reads(t, 0x25c8935fc7ece078648fe22081fc789886192c4537f22204ee33e4841ef)
    ensures Reads(t + "gmeo1LkMeiKrLJUUBk6Z",
                  0x54686520717569636b2062726f776e20666f78206a756d7073206f76657220746865206c617a7920646f672e)
  {
    hide Reads, DigitOf;
    Places();
    ReadsFour(t, 0x25c8935fc7ece078648fe22081fc789886192c4537f22204ee33e4841ef, 'g', 39, 'm', 44, 'e', 37, 'o', 46,
              0x197c4dec7b433e6362f42772a56f80c3c0b51122ff21d0fb6f80257d7061d08c8);
    var t1 := t + ['g', 'm', 'e', 'o'];
    ReadsFour(t1, 0x197c4dec7b433e6362f42772a56f80c3c0b51122ff21d0fb6f80257d7061d08c8, '1', 0, 'L', 19, 'k', 43, 'M',
              20,
              0x1130bef3507f4210238c1faef217e13481cf1deb6923523545e429c19f9e813e720b7fe);
    var t2 := t1 + ['1', 'L', 'k', 'M'];
    ReadsFour(t2, 0x1130bef3507f4210238c1faef217e13481cf1deb6923523545e429c19f9e813e720b7fe, 'e', 37, 'i', 41, 'K',
              18, 'r', 49,
              0xb985f4f90721b6a70eb2d33b5dc9493f5c6292e54987eac8e18db9c91b376ed33e6b2d7a6cb1);
    var t3 := t2 + ['e', 'i', 'K', 'r'];
    ReadsFour(t3, 0xb985f4f90721b6a70eb2d33b5dc9493f5c6292e54987eac8e18db9c91b376ed33e6b2d7a6cb1, 'L', 19, 'J', 17,
              'U', 27, 'U', 27,
              0x7d236bb63c6408f2c82f85afcf555419a6779f157b8857311ff833b286cd349f499e64e2af9a3fdea5);
    var t4 := t3 + ['L', 'J', 'U', 'U'];
    ReadsFour(t4, 0x7d236bb63c6408f2c82f85afcf555419a6779f157b8857311ff833b286cd349f499e64e2af9a3fdea5, 'B', 10, 'k',
              43, '6', 5, 'Z', 32,
              0x54686520717569636b2062726f776e20666f78206a756d7073206f76657220746865206c617a7920646f672e);
    var t5 := t4 + ['B', 'k', '6', 'Z'];
    assert t5 == t + "gmeo1LkMeiKrLJUUBk6Z";
  }

  lemma Spell1(t: string)
    requires Spells(t, 0x0)
    ensures Spells(t + "The quick brown fox ",
                  0x54686520717569636b2062726f776e20666f7820)
  {
    hide Spells;
    SpellsFour(t, 0x0, 'T', 'h', 'e', ' ',
               0x54686520);
    var t1 := t + ['T', 'h', 'e', ' '];
    SpellsFour(t1, 0x54686520, 'q', 'u', 'i', 'c',
               0x5468652071756963);
    var t2 := t1 + ['q', 'u', 'i', 'c'];
    SpellsFour(t2, 0x5468652071756963, 'k', ' ', 'b', 'r',
               0x54686520717569636b206272);
    var t3 := t2 + ['k', ' ', 'b', 'r'];
    SpellsFour(t3, 0x54686520717569636b206272, 'o', 'w', 'n', ' ',
               0x54686520717569636b2062726f776e20);
    var t4 := t3 + ['o', 'w', 'n', ' '];
    SpellsFour(t4, 0x54686520717569636b2062726f776e20, 'f', 'o', 'x', ' ',
               0x54686520717569636b2062726f776e20666f7820);
    var t5 := t4 + ['f', 'o', 'x', ' '];
    assert t5 == t + "The quick brown fox ";
  }

  lemma Spell2(t: string)
    requires Spells(t, 0x54686520717569636b2062726f776e20666f7820)
    ensures Spells(t + "jumps over the lazy ",
                  0x54686520717569636b2062726f776e20666f78206a756d7073206f76657220746865206c617a7920)
  {
    hide Spells;
    SpellsFour(t, 0x54686520717569636b2062726f776e20666f7820, 'j', 'u', 'm', 'p',
               0x54686520717569636b2062726f776e20666f78206a756d70);
    var t1 := t + ['j', 'u', 'm', 'p'];
    SpellsFour(t1, 0x54686520717569636b2062726f776e20666f78206a756d70, 's', ' ', 'o', 'v',
               0x54686520717569636b2062726f776e20666f78206a756d7073206f76);
    var t2 := t1 + ['s', ' ', 'o', 'v'];
    SpellsFour(t2, 0x54686520717569636b2062726f776e20666f78206a756d7073206f76, 'e', 'r', ' ', 't',
               0x54686520717569636b2062726f776e20666f78206a756d7073206f7665722074);
    var t3 := t2 + ['e', 'r', ' ', 't'];
    SpellsFour(t3, 0x54686520717569636b2062726f776e20666f78206a756d7073206f7665722074, 'h', 'e', ' ', 'l',
               0x54686520717569636b2062726f776e20666f78206a756d7073206f76657220746865206c);
    var t4 := t3 + ['h', 'e', ' ', 'l'];
    SpellsFour(t4, 0x54686520717569636b2062726f776e20666f78206a756d7073206f76657220746865206c, 'a', 'z', 'y', ' ',
               0x54686520717569636b2062726f776e20666f78206a756d7073206f76657220746865206c617a7920);
    var t5 := t4 + ['a', 'z', 'y', ' '];
    assert t5 == t + "jumps over the lazy ";
  }

  lemma Spell3(t: string)
    requires Spells(t, 0x54686520717569636b2062726f776e20666f78206a756d7073206f76657220746865206c617a7920)
    ensures Spells(t + "dog.",
                  0x54686520717569636b2062726f776e20666f78206a756d7073206f76657220746865206c617a7920646f672e)
  {
    hide Spells;
    SpellsFour(t, 0x54686520717569636b2062726f776e20666f78206a756d7073206f76657220746865206c617a7920, 'd', 'o', 'g',
               '.',
               0x54686520717569636b2062726f776e20666f78206a756d7073206f76657220746865206c617a7920646f672e);
    var t1 := t + ['d', 'o', 'g', '.'];
    assert t1 == t + "dog.";
  }

  // ---------------------------------------------------------------- the answer

  /** The sentence and its encoding stand for the same number. */
  lemma SameNumber()
    ensures Reads(Encoded, Number)
    ensures Spells(Sentence, Number)
  {
    assert Reads("", 0) && Spells("", 0);
    hide Reads, Spells;
    Read1("");
    Read2("" + "USm3fpXnKG5EUBx2ndxB");
    Read3("" + "USm3fpXnKG5EUBx2ndxB" + "DMPVciP5hGey2Jh4NDv6");
    assert "" + "USm3fpXnKG5EUBx2ndxB" == "USm3fpXnKG5EUBx2ndxB";
    Spell1("");
    Spell2("" + "The quick brown fox ");
    Spell3("" + "The quick brown fox " + "jumps over the lazy ");
    assert "" + "The quick brown fox " == "The quick brown fox ";
  }

  lemma Heads()
    ensures Encoded[0] == 'U' && Sentence[0] == 'T' && DigitOf('U') == Some(27)
  {
  }

  /** Base58 of the sentence, as the unit test of the device has it, both ways. */
  lemma KnownSentence()
    ensures Narrow(Sentence) && Encode(Codes(Sentence)) == Encoded && Decode(Encoded) == Some(Codes(Sentence))
  {
    SameNumber();
    Heads();
    SameNumberBoth(Sentence, Encoded, Number);
  }

  lemma RebaseIs(from: base, to: base, s: seq<nat>, r: seq<nat>)
    requires AreDigits(to, r) && s != [] && r != [] && s[0] != 0 && r[0] != 0 && Value(from, s) == Value(to, r)
    ensures Rebase(from, to, s) == r
  {
    hide Value, Digits;
    DigitsUnique(to, r);
    assert LeadingZeros(s) == 0;
    assert Zeros(0) + r == r;
  }

  lemma CharsBack(t: string, s: seq<nat>)
    requires DigitsOf(t) == Some(s)
    ensures Chars(s) == t
  {
    hide CharOf, DigitOf;
    forall i | 0 <= i < |t| ensures Chars(s)[i] == t[i] {
      assert DigitOf(t[i]) == Some(s[i]);
    }
  }

  /** Two texts that stand for the same number, one by its codes and one in base58, neither with a zero in front,
      are translations of each other. */
  lemma SameNumberBoth(m: string, t: string, v: nat)
    requires Spells(m, v) && Reads(t, v) && m != "" && t != "" && m[0] as nat != 0 && DigitOf(t[0]) != Some(0)
    ensures Encode(Codes(m)) == t && Decode(t) == Some(Codes(m))
  {
    hide DigitOf, Value, Digits, Rebase, Chars, DigitsOf, CharOf;
    var s, b := DigitsOf(t).value, Numbers(Codes(m));
    assert DigitOf(t[0]) == Some(s[0]);
    RebaseIs(58, 256, s, b);
    RebaseIs(256, 58, b, s);
    CharsBack(t, s);
    assert ToBytes(b) == Codes(m);
  }
}
