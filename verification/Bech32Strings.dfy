/** Bech32 and Bech32m strings: bech32_encode and bech32_decode of src/common/segwit_addr.c. */
module Bech32Strings {
  import opened Wrappers
  import opened Bech32

  datatype Encoding = Plain | Modified

  function FinalConstant(e: Encoding): State {
    Word(if e.Plain? then BECH32_CONST else BECH32M_CONST)
  }

  // ---------------------------------------------------------------- characters

  function CharOf(v: nat): char
    requires v < 32
  {
    match v
    case 0 => 'q'
    case 1 => 'p'
    case 2 => 'z'
    case 3 => 'r'
    case 4 => 'y'
    case 5 => '9'
    case 6 => 'x'
    case 7 => '8'
    case 8 => 'g'
    case 9 => 'f'
    case 10 => '2'
    case 11 => 't'
    case 12 => 'v'
    case 13 => 'd'
    case 14 => 'w'
    case 15 => '0'
    case 16 => 's'
    case 17 => '3'
    case 18 => 'j'
    case 19 => 'n'
    case 20 => '5'
    case 21 => '4'
    case 22 => 'k'
    case 23 => 'h'
    case 24 => 'c'
    case 25 => 'e'
    case 26 => '6'
    case 27 => 'm'
    case 28 => 'u'
    case 29 => 'a'
    case 30 => '7'
    case _ => 'l'
  }

  /** The symbol of a character in either case. */
  function RevOf(c: char): (v: Option<nat>)
    ensures v.Some? ==> v.value < 32
  {
    match c
    case 'q' => Some(0)
    case 'Q' => Some(0)
    case 'p' => Some(1)
    case 'P' => Some(1)
    case 'z' => Some(2)
    case 'Z' => Some(2)
    case 'r' => Some(3)
    case 'R' => Some(3)
    case 'y' => Some(4)
    case 'Y' => Some(4)
    case '9' => Some(5)
    case 'x' => Some(6)
    case 'X' => Some(6)
    case '8' => Some(7)
    case 'g' => Some(8)
    case 'G' => Some(8)
    case 'f' => Some(9)
    case 'F' => Some(9)
    case '2' => Some(10)
    case 't' => Some(11)
    case 'T' => Some(11)
    case 'v' => Some(12)
    case 'V' => Some(12)
    case 'd' => Some(13)
    case 'D' => Some(13)
    case 'w' => Some(14)
    case 'W' => Some(14)
    case '0' => Some(15)
    case 's' => Some(16)
    case 'S' => Some(16)
    case '3' => Some(17)
    case 'j' => Some(18)
    case 'J' => Some(18)
    case 'n' => Some(19)
    case 'N' => Some(19)
    case '5' => Some(20)
    case '4' => Some(21)
    case 'k' => Some(22)
    case 'K' => Some(22)
    case 'h' => Some(23)
    case 'H' => Some(23)
    case 'c' => Some(24)
    case 'C' => Some(24)
    case 'e' => Some(25)
    case 'E' => Some(25)
    case '6' => Some(26)
    case 'm' => Some(27)
    case 'M' => Some(27)
    case 'u' => Some(28)
    case 'U' => Some(28)
    case 'a' => Some(29)
    case 'A' => Some(29)
    case '7' => Some(30)
    case 'l' => Some(31)
    case 'L' => Some(31)
    case _ => None
  }

  predicate IsLower(c: char) {
    'a' <= c <= 'z'
  }

  predicate IsUpper(c: char) {
    'A' <= c <= 'Z'
  }

  predicate HrpChar(c: char) {
    33 <= c as int <= 126
  }

  function Lower(c: char): char {
    if IsUpper(c) then 'a' + (c - 'A') else c
  }

  lemma CharRoundTrip(v: nat)
    requires v < 32
    ensures RevOf(CharOf(v)) == Some(v) && !IsUpper(CharOf(v)) && CharOf(v) != '1'
  {
    if v < 8 {
    } else if v < 16 {
    } else if v < 24 {
    } else {
    }
  }

  // ---------------------------------------------------------------- strings

  /** The prefix as symbols: the high bits of its characters, a zero, and their low bits. */
  function Expand(hrp: string): seq<nat> {
    seq(|hrp|, i requires 0 <= i < |hrp| => hrp[i] as nat / 32) + [0]
        + seq(|hrp|, i requires 0 <= i < |hrp| => hrp[i] as nat % 32)
  }

  function Chars(data: seq<nat>): (r: string)
    requires AreSymbols(data)
    ensures |r| == |data| && forall i :: 0 <= i < |data| ==> r[i] == CharOf(data[i])
  {
    seq(|data|, i requires 0 <= i < |data| => CharOf(data[i]))
  }

  predicate AreSymbols(data: seq<nat>) {
    forall i :: 0 <= i < |data| ==> data[i] < 32
  }

  predicate PrefixOk(hrp: string) {
    forall i :: 0 <= i < |hrp| ==> HrpChar(hrp[i]) && !IsUpper(hrp[i])
  }

  function ChecksumOf(hrp: string, data: seq<nat>, e: Encoding): (r: seq<nat>)
    ensures |r| == 6 && AreSymbols(r)
  {
    Checksum(Xor(Feed(Start(), Expand(hrp) + data + SIX), FinalConstant(e)))
  }

  function Encode(hrp: string, data: seq<nat>, e: Encoding): Option<string> {
    if !PrefixOk(hrp) || |hrp| + 7 + |data| > 90 || !AreSymbols(data) then None
    else Some(hrp + "1" + Chars(data) + Chars(ChecksumOf(hrp, data, e)))
  }

  /** The number of characters after the last '1'. */
  function TailLength(s: string): (n: nat)
    ensures n <= |s| && (forall i :: |s| - n <= i < |s| ==> s[i] != '1') && (n < |s| ==> s[|s| - n - 1] == '1')
  {
    if s == [] || s[|s| - 1] == '1' then 0 else 1 + TailLength(s[..|s| - 1])
  }

  function Symbols(t: string): (r: Option<seq<nat>>)
    ensures r.Some? ==> |r.value| == |t| && forall i :: 0 <= i < |t| ==> RevOf(t[i]) == Some(r.value[i])
  {
    if t == [] then Some([])
    else
      var init :- Symbols(t[..|t| - 1]);
      var last :- RevOf(t[|t| - 1]);
      Some(init + [last])
  }

  function Lowered(t: string): (r: string)
    ensures |r| == |t| && forall i :: 0 <= i < |t| ==> r[i] == Lower(t[i])
  {
    seq(|t|, i requires 0 <= i < |t| => Lower(t[i]))
  }

  predicate HasLower(t: string) {
    exists i :: 0 <= i < |t| && IsLower(t[i])
  }

  predicate HasUpper(t: string) {
    exists i :: 0 <= i < |t| && IsUpper(t[i])
  }

  predicate AllHrp(t: string) {
    forall i :: 0 <= i < |t| ==> HrpChar(t[i])
  }

  datatype Decoded = Decoded(hrp: string, symbols: seq<nat>, encoding: Encoding)

  /** The encoding whose checksum the symbols have. */
  function EncodingFor(hrp: string, symbols: seq<nat>): Option<Encoding> {
    var chk := Feed(Start(), Expand(hrp) + symbols);
    if chk == FinalConstant(Plain) then Some(Plain)
    else if chk == FinalConstant(Modified) then Some(Modified)
    else None
  }

  /** The prefix, all symbols including the six of the checksum, and the encoding that they fit. */
  function DecodeAll(input: string): Option<Decoded> {
    var n, d := |input|, TailLength(input);
    if n < 8 || n > 90 || 1 + d >= n || d < 6 then None
    else
      var raw := input[..n - 1 - d];
      if !AllHrp(raw) then None
      else
        var symbols :- Symbols(input[n - d..]);
        if HasLower(input) && HasUpper(input) then None
        else
          var e :- EncodingFor(Lowered(raw), symbols);
          Some(Decoded(Lowered(raw), symbols, e))
  }

  /** bech32_decode: the symbols without the checksum. */
  function Decode(input: string): Option<Decoded> {
    var r :- DecodeAll(input);
    if |r.symbols| < 6 then None else Some(r.(symbols := r.symbols[..|r.symbols| - 6]))
  }

  lemma DecodedFits(a: string)
    requires DecodeAll(a).Some?
    ensures var x := DecodeAll(a).value;
            AreSymbols(x.symbols) && Feed(Start(), Expand(x.hrp) + x.symbols) == FinalConstant(x.encoding)
  {
    hide Feed, Expand, FinalConstant, RevOf, HasLower, HasUpper, TailLength, AllHrp, Start;
  }

  lemma OneDifference(p: seq<nat>, s: seq<nat>, t: seq<nat>, i: nat)
    requires AreSymbols(s) && AreSymbols(t) && |s| == |t| && i < |s| && s[i] != t[i]
    requires forall j :: 0 <= j < |s| && j != i ==> s[j] == t[j]
    ensures Feed(Start(), p + s) != Feed(Start(), p + t)
  {
    hide Feed, Start;
    assert s[..i] == t[..i] && s[i + 1..] == t[i + 1..];
    assert p + s == p + s[..i] + [s[i]] + s[i + 1..];
    assert p + t == p + s[..i] + [t[i]] + s[i + 1..];
    OneSymbolMatters(Start(), p + s[..i], s[i], t[i], s[i + 1..]);
  }

  /** Two strings with the same prefix, length and encoding that both decode never differ in exactly
      one symbol: where they differ in one place, they differ in another one as well. */
  lemma SingleErrorDetected(a: string, b: string, i: nat)
    requires DecodeAll(a).Some? && DecodeAll(b).Some?
    requires var x, y := DecodeAll(a).value, DecodeAll(b).value;
             && x.hrp == y.hrp && x.encoding == y.encoding && |x.symbols| == |y.symbols|
             && i < |x.symbols| && x.symbols[i] != y.symbols[i]
    ensures var x, y := DecodeAll(a).value, DecodeAll(b).value;
            exists j :: 0 <= j < |x.symbols| && j != i && x.symbols[j] != y.symbols[j]
  {
    hide Feed, Expand, FinalConstant, DecodeAll, AreSymbols;
    var x, y := DecodeAll(a).value, DecodeAll(b).value;
    DecodedFits(a);
    DecodedFits(b);
    if forall j :: 0 <= j < |x.symbols| && j != i ==> x.symbols[j] == y.symbols[j] {
      OneDifference(Expand(x.hrp), x.symbols, y.symbols, i);
    }
  }

  // ---------------------------------------------------------------- round trip

  lemma XorBack(a: State, b: State)
    ensures Xor(a, Xor(a, b)) == b
  {
  }

  lemma ConstantsDiffer()
    ensures FinalConstant(Plain) != FinalConstant(Modified)
  {
    assert !Word(BECH32_CONST)[1] && Word(BECH32M_CONST)[1];
  }

  /** The checksum of encoded data fits its encoding. */
  lemma ChecksumFits(hrp: string, data: seq<nat>, e: Encoding)
    ensures Feed(Start(), Expand(hrp) + (data + ChecksumOf(hrp, data, e))) == FinalConstant(e)
  {
    hide Feed, Expand, Xor, FinalConstant, Checksum;
    var p := Expand(hrp) + data;
    var t := Feed(Start(), p);
    var k := Xor(Feed(Start(), p + SIX), FinalConstant(e));
    FeedAppend(Start(), p, SIX);
    FeedAppend(Start(), p, Checksum(k));
    ChecksumCompletes(t, k);
    XorBack(Feed(t, SIX), FinalConstant(e));
    assert Expand(hrp) + (data + Checksum(k)) == p + Checksum(k);
  }

  lemma TailOf(a: string, b: string)
    requires forall i :: 0 <= i < |b| ==> b[i] != '1'
    ensures TailLength(a + "1" + b) == |b|
  {
    var s := a + "1" + b;
    assert s[|a|] == '1';
    assert forall i :: 0 <= i < |b| ==> s[|a| + 1 + i] == b[i];
    var n := TailLength(s);
    assert n > |b| ==> |s| - n <= |a|;
  }

  lemma SymbolsOfChars(data: seq<nat>)
    requires AreSymbols(data)
    ensures Symbols(Chars(data)) == Some(data)
    ensures forall i :: 0 <= i < |data| ==> Chars(data)[i] != '1' && !IsUpper(Chars(data)[i])
  {
    hide RevOf, CharOf;
    forall i | 0 <= i < |data| ensures RevOf(Chars(data)[i]) == Some(data[i]) && Chars(data)[i] != '1'
      && !IsUpper(Chars(data)[i]) {
      CharRoundTrip(data[i]);
    }
    ReadSymbols(Chars(data), data);
  }

  lemma {:induction false} ReadSymbols(t: string, data: seq<nat>)
    requires |t| == |data| && forall i :: 0 <= i < |t| ==> RevOf(t[i]) == Some(data[i])
    ensures Symbols(t) == Some(data)
    decreases |t|
  {
    hide RevOf;
    if t != [] {
      ReadSymbols(t[..|t| - 1], data[..|t| - 1]);
      assert data == data[..|t| - 1] + [data[|t| - 1]];
    }
  }

  lemma LoweredSame(hrp: string)
    requires PrefixOk(hrp)
    ensures Lowered(hrp) == hrp && AllHrp(hrp) && !HasUpper(hrp)
  {
  }

  /** Decoding a string that was encoded with a non-empty prefix gives back what was encoded. */
  lemma EncodeDecodes(hrp: string, data: seq<nat>, e: Encoding, t: string)
    requires hrp != "" && Encode(hrp, data, e) == Some(t)
    ensures Decode(t) == Some(Decoded(hrp, data, e))
  {
    hide Feed, Expand, FinalConstant, ChecksumOf, CharOf, RevOf, Symbols, TailLength;
    var sum := ChecksumOf(hrp, data, e);
    var all := data + sum;
    var tail := Chars(all);
    assert AreSymbols(all) && tail == Chars(data) + Chars(sum);
    assert t == hrp + "1" + tail;
    SymbolsOfChars(all);
    TailOf(hrp, tail);
    LoweredSame(hrp);
    ChecksumFits(hrp, data, e);
    ConstantsDiffer();
    assert t[..|hrp|] == hrp && t[|hrp| + 1..] == tail;
    assert !HasUpper(t) by {
      assert forall i :: 0 <= i < |hrp| ==> t[i] == hrp[i];
      assert forall i :: 0 <= i < |tail| ==> t[|hrp| + 1 + i] == tail[i];
      assert t[|hrp|] == '1';
    }
    assert all[..|all| - 6] == data;
  }

  // ---------------------------------------------------------------- the loops

  /** bech32_encode: the checksum is updated on the way through the prefix, twice, and the data. */
  method EncodeLoop(hrp: string, data: seq<nat>, e: Encoding) returns (r: Option<string>)
    ensures r == Encode(hrp, data, e)
  {
    hide Feed, Next, Step, FinalConstant, Checksum, CharOf, Start;
    var chk := Start();
    ghost var fed: seq<nat> := [];
    NothingFed(Start());
    var i := 0;
    while i < |hrp|
      invariant 0 <= i <= |hrp| && PrefixOk(hrp[..i]) && chk == Feed(Start(), fed)
      invariant fed == seq(i, k requires 0 <= k < i => hrp[k] as nat / 32)
    {
      if !HrpChar(hrp[i]) || IsUpper(hrp[i]) {
        return None;
      }
      FeedLast(Start(), fed, hrp[i] as nat / 32);
      chk := Next(chk, hrp[i] as nat / 32);
      fed := fed + [hrp[i] as nat / 32];
      i := i + 1;
    }
    assert hrp[..|hrp|] == hrp;
    if i + 7 + |data| > 90 {
      return None;
    }
    StepIsNext(chk);
    FeedLast(Start(), fed, 0);
    chk := Step(chk);
    fed := fed + [0];
    ghost var high := fed;
    var output := "";
    i := 0;
    while i < |hrp|
      invariant 0 <= i <= |hrp| && output == hrp[..i] && chk == Feed(Start(), fed)
      invariant fed == high + seq(i, k requires 0 <= k < i => hrp[k] as nat % 32)
    {
      FeedLast(Start(), fed, hrp[i] as nat % 32);
      chk := Next(chk, hrp[i] as nat % 32);
      fed := fed + [hrp[i] as nat % 32];
      output := output + [hrp[i]];
      i := i + 1;
    }
    assert fed == Expand(hrp);
    output := output + "1";
    i := 0;
    while i < |data|
      invariant 0 <= i <= |data| && AreSymbols(data[..i]) && output == hrp + "1" + Chars(data[..i])
      invariant fed == Expand(hrp) + data[..i] && chk == Feed(Start(), fed)
    {
      if data[i] >= 32 {
        return None;
      }
      FeedLast(Start(), fed, data[i]);
      chk := Next(chk, data[i]);
      fed := fed + [data[i]];
      output := output + [CharOf(data[i])];
      i := i + 1;
    }
    assert data[..|data|] == data;
    chk := SixSteps(chk);
    FeedAppend(Start(), fed, SIX);
    chk := Xor(chk, FinalConstant(e));
    r := Some(output + Chars(Checksum(chk)));
  }

  method SixSteps(x: State) returns (chk: State)
    ensures chk == Feed(x, SIX)
  {
    hide Next, Step;
    chk := x;
    assert SIX[..0] == [];
    for i := 0 to 6
      invariant chk == Feed(x, SIX[..i])
    {
      StepIsNext(chk);
      assert SIX[..i + 1] == SIX[..i] + [0];
      FeedLast(x, SIX[..i], 0);
      chk := Step(chk);
    }
    assert SIX[..6] == SIX;
  }

  lemma StepIsNext(x: State)
    ensures Step(x) == Next(x, 0)
  {
    hide Step;
    SymZero(Step(x));
  }

  lemma NothingFed(x: State)
    ensures Feed(x, []) == x
  {
  }

  /** The loop that looks for the separator from the end. */
  method FindTail(input: string) returns (d: nat)
    ensures d == TailLength(input) && d <= |input| && (d < |input| ==> input[|input| - d - 1] == '1')
  {
    d := 0;
    while d < |input| && input[|input| - 1 - d] != '1'
      invariant d <= |input| && forall i :: |input| - d <= i < |input| ==> input[i] != '1'
    {
      d := d + 1;
    }
    TailUnique(input, d);
  }

  lemma TailUnique(s: string, d: nat)
    requires d <= |s| && (forall i :: |s| - d <= i < |s| ==> s[i] != '1') && (d < |s| ==> s[|s| - d - 1] == '1')
    ensures d == TailLength(s)
  {
    hide TailLength;
    var n := TailLength(s);
    var m := if n < d then n else d;
    if m < |s| {
      var c := s[|s| - m - 1];
    }
  }

  /** The loops over the prefix: lower case, the flags for both cases, and the checksum. */
  method ReadPrefix(raw: string) returns (ok: bool, hrp: string, lower: bool, upper: bool, chk: State)
    ensures ok == AllHrp(raw)
    ensures ok ==> hrp == Lowered(raw) && lower == HasLower(raw) && upper == HasUpper(raw)
    ensures ok ==> chk == Feed(Start(), Expand(hrp))
  {
    hide Feed, Next, Step, Start;
    hrp, lower, upper, chk := "", false, false, Start();
    ghost var fed: seq<nat> := [];
    NothingFed(Start());
    var i := 0;
    while i < |raw|
      invariant 0 <= i <= |raw| && AllHrp(raw[..i]) && hrp == Lowered(raw[..i])
      invariant lower == HasLower(raw[..i]) && upper == HasUpper(raw[..i])
      invariant chk == Feed(Start(), fed) && fed == seq(i, k requires 0 <= k < i => Lower(raw[k]) as nat / 32)
    {
      if !HrpChar(raw[i]) {
        return false, "", false, false, Start();
      }
      var c := Lower(raw[i]);
      if IsLower(raw[i]) {
        lower := true;
      } else if IsUpper(raw[i]) {
        upper := true;
      }
      CaseStep(raw, i);
      FeedLast(Start(), fed, c as nat / 32);
      hrp := hrp + [c];
      chk := Next(chk, c as nat / 32);
      fed := fed + [c as nat / 32];
      i := i + 1;
    }
    assert raw[..|raw|] == raw;
    StepIsNext(chk);
    FeedLast(Start(), fed, 0);
    chk := Step(chk);
    chk := ReadLowBits(raw, chk, fed + [0]);
    assert Expand(hrp) == fed + [0] + LowBits(raw);
    ok := true;
  }

  ghost function LowBits(raw: string): seq<nat> {
    seq(|raw|, k requires 0 <= k < |raw| => Lower(raw[k]) as nat % 32)
  }

  method ReadLowBits(raw: string, start: State, ghost fed: seq<nat>) returns (chk: State)
    requires start == Feed(Start(), fed)
    ensures chk == Feed(Start(), fed + LowBits(raw))
  {
    hide Feed, Next, Start;
    chk := start;
    var i := 0;
    assert fed + LowBits(raw[..0]) == fed;
    while i < |raw|
      invariant 0 <= i <= |raw| && chk == Feed(Start(), fed + LowBits(raw[..i]))
    {
      SameLowBits(raw[i]);
      FeedLast(Start(), fed + LowBits(raw[..i]), raw[i] as nat % 32);
      assert fed + LowBits(raw[..i + 1]) == fed + LowBits(raw[..i]) + [raw[i] as nat % 32];
      chk := Next(chk, raw[i] as nat % 32);
      i := i + 1;
    }
    assert raw[..|raw|] == raw;
  }

  lemma SameLowBits(c: char)
    ensures Lower(c) as nat % 32 == c as nat % 32
  {
  }

  lemma CaseStep(t: string, i: nat)
    requires i < |t|
    ensures HasLower(t[..i + 1]) == (HasLower(t[..i]) || IsLower(t[i]))
    ensures HasUpper(t[..i + 1]) == (HasUpper(t[..i]) || IsUpper(t[i]))
  {
    assert forall k :: 0 <= k < i ==> t[..i + 1][k] == t[..i][k];
    assert t[..i + 1][i] == t[i];
  }

  lemma CaseAppend(a: string, b: string)
    ensures HasLower(a + "1" + b) == (HasLower(a) || HasLower(b))
    ensures HasUpper(a + "1" + b) == (HasUpper(a) || HasUpper(b))
  {
    var t := a + "1" + b;
    assert forall k :: 0 <= k < |a| ==> t[k] == a[k];
    assert forall k :: 0 <= k < |b| ==> t[|a| + 1 + k] == b[k];
    assert t[|a|] == '1';
  }

  /** The loop over the characters after the separator. */
  method ReadData(start: State, tail: string) returns (ok: bool, data: seq<nat>, lower: bool, upper: bool, chk: State)
    ensures ok == Symbols(tail).Some?
    ensures ok ==> data == Symbols(tail).value && lower == HasLower(tail) && upper == HasUpper(tail)
    ensures ok ==> chk == Feed(start, data)
  {
    hide Feed, Next, RevOf;
    data, lower, upper, chk := [], false, false, start;
    NothingFed(start);
    var i := 0;
    while i < |tail|
      invariant 0 <= i <= |tail| && Symbols(tail[..i]) == Some(data) && chk == Feed(start, data)
      invariant lower == HasLower(tail[..i]) && upper == HasUpper(tail[..i])
    {
      assert tail[..i + 1][..i] == tail[..i];
      CaseStep(tail, i);
      var v := RevOf(tail[i]);
      if IsLower(tail[i]) {
        lower := true;
      }
      if IsUpper(tail[i]) {
        upper := true;
      }
      if v.None? {
        NoSymbols(tail, i);
        return false, [], false, false, start;
      }
      FeedLast(start, data, v.value);
      chk := Next(chk, v.value);
      data := data + [v.value];
      i := i + 1;
    }
    assert tail[..|tail|] == tail;
    ok := true;
  }

  lemma NoSymbols(t: string, i: nat)
    requires i < |t| && RevOf(t[i]).None?
    ensures Symbols(t).None?
  {
  }

  /** bech32_decode. */
  method DecodeLoop(input: string) returns (r: Option<Decoded>)
    ensures r == Decode(input)
  {
    hide Feed, Expand, FinalConstant, Symbols, TailLength, Start, HasLower, HasUpper, AllHrp;
    var n := |input|;
    if n < 8 || n > 90 {
      return None;
    }
    var d := FindTail(input);
    if 1 + d >= n || d < 6 {
      return None;
    }
    var raw, tail := input[..n - 1 - d], input[n - d..];
    SplitAtSeparator(input, n - 1 - d);
    CaseAppend(raw, tail);
    var ok, hrp, lower, upper, chk := ReadPrefix(raw);
    if !ok {
      return None;
    }
    var ok2, data, lower2, upper2, chk2 := ReadData(chk, tail);
    if !ok2 {
      return None;
    }
    FeedAppend(Start(), Expand(hrp), data);
    if (lower || lower2) && (upper || upper2) {
      return None;
    }
    if chk2 == FinalConstant(Plain) {
      r := Some(Decoded(hrp, data[..d - 6], Plain));
    } else if chk2 == FinalConstant(Modified) {
      r := Some(Decoded(hrp, data[..d - 6], Modified));
    } else {
      r := None;
    }
  }

  lemma SplitAtSeparator(s: string, k: nat)
    requires k < |s| && s[k] == '1'
    ensures s == s[..k] + "1" + s[k + 1..]
  {
    assert s == s[..k] + [s[k]] + s[k + 1..];
  }
}
