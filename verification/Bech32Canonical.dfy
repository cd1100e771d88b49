/** Every string that bech32_decode of src/common/segwit_addr.c accepts is, up to its case, the one
    string that bech32_encode produces for what was decoded. */
module Bech32Canonical {
  import opened Wrappers
  import opened Bech32
  import opened Bech32Strings

  // ---------------------------------------------------------------- the checksum is determined

  /** The state whose symbols, most significant first, are c. */
  ghost function Packed(c: seq<nat>): State
    requires |c| == 6
  {
    seq(30, i requires 0 <= i < 30 => Sym(c[5 - i / 5])[i % 5])
  }

  lemma NumOfSym(v: nat, k: State, o: nat)
    requires v < 32 && o + 5 <= 30 && forall i :: 0 <= i < 5 ==> k[o + i] == Sym(v)[i]
    ensures Num(k, o) == v
  {
    hide Sym;
    SymAt(v);
    Halves(v);
    assert k[o + 0] == Sym(v)[0];
    assert k[o] == Sym(v)[0] && k[o + 1] == Sym(v)[1] && k[o + 2] == Sym(v)[2] && k[o + 3] == Sym(v)[3]
           && k[o + 4] == Sym(v)[4];
  }

  lemma PackedNum(c: seq<nat>, j: nat)
    requires |c| == 6 && AreSymbols(c) && j < 6
    ensures Num(Packed(c), 25 - 5 * j) == c[j]
  {
    hide Sym, Num;
    var o := 25 - 5 * j;
    forall i | 0 <= i < 5 ensures Packed(c)[o + i] == Sym(c[j])[i] {
      assert (o + i) / 5 == 5 - j && (o + i) % 5 == i;
    }
    NumOfSym(c[j], Packed(c), o);
  }

  lemma PackedSymbols(c: seq<nat>)
    requires |c| == 6 && AreSymbols(c)
    ensures Checksum(Packed(c)) == c
  {
    hide Packed, Num;
    PackedNum(c, 0);
    PackedNum(c, 1);
    PackedNum(c, 2);
    PackedNum(c, 3);
    PackedNum(c, 4);
    PackedNum(c, 5);
  }

  /** Only one choice of six symbols leads from a state to a given one. */
  lemma ChecksumUnique(t: State, c: seq<nat>, f: State)
    requires |c| == 6 && AreSymbols(c) && Feed(t, c) == f
    ensures c == Checksum(Xor(Feed(t, SIX), f))
  {
    hide Feed, Packed, Checksum, Xor;
    PackedSymbols(c);
    ChecksumCompletes(t, Packed(c));
    XorBack(Feed(t, SIX), Packed(c));
  }

  lemma ChecksumDetermined(hrp: string, data: seq<nat>, c: seq<nat>, e: Encoding)
    requires |c| == 6 && AreSymbols(c) && Feed(Start(), Expand(hrp) + (data + c)) == FinalConstant(e)
    ensures c == ChecksumOf(hrp, data, e)
  {
    hide Feed, Expand, FinalConstant, Checksum, Xor, Start;
    var p := Expand(hrp) + data;
    assert Expand(hrp) + (data + c) == p + c;
    FeedAppend(Start(), p, c);
    FeedAppend(Start(), p, SIX);
    ChecksumUnique(Feed(Start(), p), c, FinalConstant(e));
  }

  // ---------------------------------------------------------------- characters and case

  lemma SymbolRoundTrip(c: char)
    requires RevOf(c).Some?
    ensures CharOf(RevOf(c).value) == Lower(c)
  {
  }

  lemma SymbolCaseFree(c: char)
    ensures RevOf(Lower(c)) == RevOf(c)
  {
  }

  lemma CaseFree(c: char)
    ensures HrpChar(Lower(c)) == HrpChar(c) && (Lower(c) == '1') == (c == '1')
    ensures Lower(Lower(c)) == Lower(c) && !IsUpper(Lower(c))
  {
  }

  lemma CharsOfSymbols(t: string)
    requires Symbols(t).Some?
    ensures AreSymbols(Symbols(t).value) && Chars(Symbols(t).value) == Lowered(t)
  {
    hide RevOf, CharOf, Lower, Symbols;
    var data := Symbols(t).value;
    forall i | 0 <= i < |t| ensures data[i] < 32 && CharOf(data[i]) == Lower(t[i]) {
      assert RevOf(t[i]) == Some(data[i]);
      SymbolRoundTrip(t[i]);
    }
  }

  lemma PrefixLowered(raw: string)
    requires AllHrp(raw)
    ensures PrefixOk(Lowered(raw))
  {
    hide Lower, HrpChar, IsUpper;
    forall i | 0 <= i < |raw| ensures HrpChar(Lowered(raw)[i]) && !IsUpper(Lowered(raw)[i]) {
      CaseFree(raw[i]);
    }
  }

  lemma LoweredParts(a: string, b: string)
    ensures Lowered(a + "1" + b) == Lowered(a) + "1" + Lowered(b)
  {
    assert Lower('1') == '1';
  }

  lemma Separated(t: string, k: nat)
    requires TailLength(t) < |t| && k == |t| - 1 - TailLength(t)
    ensures t == t[..k] + "1" + t[k + 1..]
  {
    assert t[k] == '1';
    hide TailLength;
    SplitAtSeparator(t, k);
  }

  lemma AllParts(t: string, x: Decoded, d: nat)
    requires DecodeAll(t) == Some(x) && d == TailLength(t)
    ensures 6 <= d && 1 + d < |t| <= 90 && AllHrp(t[..|t| - 1 - d]) && x.hrp == Lowered(t[..|t| - 1 - d])
    ensures Symbols(t[|t| - d..]) == Some(x.symbols) && EncodingFor(x.hrp, x.symbols) == Some(x.encoding)
  {
    hide EncodingFor, Symbols, TailLength, Lowered, HasLower, HasUpper, AllHrp;
  }

  lemma EncodingFits(hrp: string, symbols: seq<nat>, e: Encoding)
    requires EncodingFor(hrp, symbols) == Some(e)
    ensures Feed(Start(), Expand(hrp) + symbols) == FinalConstant(e)
  {
    hide Feed, Expand, FinalConstant, Start;
  }

  lemma CharsJoin(a: seq<nat>, b: seq<nat>)
    requires AreSymbols(a + b)
    ensures AreSymbols(a) && AreSymbols(b) && Chars(a + b) == Chars(a) + Chars(b)
  {
    hide CharOf;
    assert forall i :: 0 <= i < |a| ==> (a + b)[i] == a[i];
    assert forall i :: 0 <= i < |b| ==> (a + b)[|a| + i] == b[i];
  }

  lemma EncodedParts(hrp: string, data: seq<nat>, c: seq<nat>, e: Encoding)
    requires PrefixOk(hrp) && |c| == 6 && AreSymbols(data + c) && |hrp| + 7 + |data| <= 90
    requires Feed(Start(), Expand(hrp) + (data + c)) == FinalConstant(e)
    ensures Encode(hrp, data, e) == Some(hrp + "1" + Chars(data + c))
  {
    hide Feed, Expand, FinalConstant, ChecksumOf, Chars, PrefixOk, Start, AreSymbols;
    CharsJoin(data, c);
    ChecksumDetermined(hrp, data, c, e);
    assert hrp + "1" + (Chars(data) + Chars(c)) == hrp + "1" + Chars(data) + Chars(c);
  }

  /** Encoding what was decoded gives back the string, in lower case. */
  lemma DecodeEncodes(t: string, x: Decoded)
    requires Decode(t) == Some(x)
    ensures x.hrp != "" && Encode(x.hrp, x.symbols, x.encoding) == Some(Lowered(t))
  {
    hide DecodeAll, Encode, EncodingFor, Feed, Expand, FinalConstant, Symbols, TailLength, AllHrp, PrefixOk, Start,
         Chars, AreSymbols, Lower;
    var d, y := TailLength(t), DecodeAll(t).value;
    AllParts(t, y, d);
    EncodingFits(y.hrp, y.symbols, y.encoding);
    var raw, tail := t[..|t| - 1 - d], t[|t| - d..];
    Separated(t, |t| - 1 - d);
    CharsOfSymbols(tail);
    PrefixLowered(raw);
    LoweredParts(raw, tail);
    assert y.symbols == x.symbols + y.symbols[d - 6..];
    EncodedParts(x.hrp, x.symbols, y.symbols[d - 6..], x.encoding);
  }

  predicate OneCase(t: string) {
    !HasLower(t) || !HasUpper(t)
  }

  lemma {:induction false} SymbolsCaseFree(t: string)
    ensures Symbols(Lowered(t)) == Symbols(t)
    decreases |t|
  {
    hide RevOf, Lower;
    if t != [] {
      SymbolsCaseFree(t[..|t| - 1]);
      assert Lowered(t)[..|t| - 1] == Lowered(t[..|t| - 1]);
      SymbolCaseFree(t[|t| - 1]);
    }
  }

  lemma TailCaseFree(t: string)
    ensures TailLength(Lowered(t)) == TailLength(t)
  {
    hide TailLength, Lower;
    forall i | 0 <= i < |t| ensures (Lowered(t)[i] == '1') == (t[i] == '1') {
      CaseFree(t[i]);
    }
    TailUnique(Lowered(t), TailLength(t));
  }

  lemma LowerTwice(t: string)
    ensures Lowered(Lowered(t)) == Lowered(t) && AllHrp(Lowered(t)) == AllHrp(t) && !HasUpper(Lowered(t))
  {
    hide Lower, HrpChar, IsUpper;
    forall i | 0 <= i < |t|
      ensures Lower(Lower(t[i])) == Lower(t[i]) && HrpChar(Lower(t[i])) == HrpChar(t[i]) && !IsUpper(Lower(t[i]))
    {
      CaseFree(t[i]);
    }
  }

  /** A string in one case means what its lower-case form means. */
  lemma DecodeCaseFree(t: string)
    requires OneCase(t)
    ensures Decode(t) == Decode(Lowered(t))
  {
    hide Feed, Expand, FinalConstant, Symbols, TailLength, HasLower, HasUpper, AllHrp, Start, Lowered, RevOf;
    var u, d := Lowered(t), TailLength(t);
    TailCaseFree(t);
    LowerTwice(t);
    if 1 + d < |t| {
      var k := |t| - 1 - d;
      LoweredSlices(t, k);
      LowerTwice(t[..k]);
      SymbolsCaseFree(t[k + 1..]);
    }
  }

  lemma LoweredSlices(t: string, k: nat)
    requires k < |t|
    ensures Lowered(t)[..k] == Lowered(t[..k]) && Lowered(t)[k + 1..] == Lowered(t[k + 1..])
  {
    hide Lower;
  }

  /** bech32_decode accepts exactly the strings in one case whose lower-case form bech32_encode produces. */
  lemma DecodesIff(t: string, x: Decoded)
    ensures Decode(t) == Some(x) <==>
            OneCase(t) && x.hrp != "" && Encode(x.hrp, x.symbols, x.encoding) == Some(Lowered(t))
  {
    hide Encode, DecodeAll, Lowered;
    if Decode(t) == Some(x) {
      DecodeEncodes(t, x);
      AcceptedOneCase(t);
    }
    if OneCase(t) && x.hrp != "" && Encode(x.hrp, x.symbols, x.encoding) == Some(Lowered(t)) {
      EncodeDecodes(x.hrp, x.symbols, x.encoding, Lowered(t));
      DecodeCaseFree(t);
    }
  }

  lemma AcceptedOneCase(t: string)
    requires Decode(t).Some?
    ensures OneCase(t)
  {
    hide Feed, Expand, FinalConstant, RevOf, HasLower, HasUpper, TailLength, AllHrp, Start;
  }
}
