/** The loops of src/common/base58.c, which compute the encoding and decoding of module Base58 digit by
    digit in fixed buffers, and those of bitcoin_client/ledger_bitcoin/_base58.py. */
module Base58Loops {
  import opened Wrappers
  import opened Base58

  const MAX_ENC_INPUT_SIZE := 120
  const MAX_DEC_INPUT_SIZE := 164

  // ---------------------------------------------------------------- the size of the buffer

  lemma {:induction false} PowAdd(b: base, m: nat, n: nat)
    ensures Pow(b, m + n) == Pow(b, m) * Pow(b, n)
    decreases m
  {
    if m > 0 {
      PowAdd(b, m - 1, n);
      assert b * (Pow(b, m - 1) * Pow(b, n)) == b * Pow(b, m - 1) * Pow(b, n);
    }
  }

  lemma {:induction false} PowMonotone(b: base, m: nat, n: nat)
    requires m <= n
    ensures 1 <= Pow(b, m) <= Pow(b, n)
    decreases n
  {
    if m < n {
      PowMonotone(b, m, n - 1);
    } else if n > 0 {
      PowMonotone(b, n - 1, n - 1);
    }
  }

  /** The digits that the buffer has for k bytes, apart from one more. */
  function Room(k: nat): nat {
    k * 138 / 100
  }

  lemma EightBytes()
    ensures Pow(256, 8) <= Pow(58, 11)
  {
    assert Pow(256, 4) == 0x1_0000_0000;
    assert Pow(256, 8) == 256 * (256 * (256 * (256 * Pow(256, 4))));
    assert Pow(58, 4) == 11316496;
    assert Pow(58, 8) == 58 * (58 * (58 * (58 * Pow(58, 4))));
    assert Pow(58, 11) == 58 * (58 * (58 * Pow(58, 8)));
  }

  lemma FewBytes(k: nat)
    requires k < 8
    ensures Pow(256, k) <= Pow(58, Room(k) + 1)
  {
    assert Pow(58, 3) == 195112;
    assert Pow(58, 5) == 58 * (58 * Pow(58, 3));
    assert Pow(58, 7) == 58 * (58 * Pow(58, 5));
    assert Pow(58, 9) == 58 * (58 * Pow(58, 7));
    assert Pow(58, 6) == 58 * Pow(58, 5);
    assert Pow(58, 10) == 58 * Pow(58, 9);
    assert Pow(256, 3) == 0x100_0000;
    assert Pow(256, 4) == 256 * Pow(256, 3) && Pow(256, 5) == 256 * Pow(256, 4);
    assert Pow(256, 6) == 256 * Pow(256, 5) && Pow(256, 7) == 256 * Pow(256, 6);
  }

  lemma RoomEight(k: nat)
    requires k >= 8
    ensures Room(k - 8) + 11 <= Room(k)
  {
  }

  /** k bytes never need more than 138k/100 + 1 digits. */
  lemma {:induction false} RoomSuffices(k: nat)
    ensures Pow(256, k) <= Pow(58, Room(k) + 1)
  {
    hide Pow, Room;
    if k < 8 {
      FewBytes(k);
    } else {
      var r := Room(k - 8) + 1;
      RoomSuffices(k - 8);
      EightBytes();
      PowAdd(256, k - 8, 8);
      PowAdd(58, r, 11);
      ProductMonotone(Pow(256, k - 8), Pow(58, r), Pow(256, 8), Pow(58, 11));
      RoomEight(k);
      PowMonotone(58, r + 11, Room(k) + 1);
    }
  }

  lemma ProductMonotone(a: nat, a': nat, b: nat, b': nat)
    requires a <= a' && b <= b'
    ensures a * b <= a' * b'
  {
    assert a * b <= a' * b <= a' * b';
  }

  // ---------------------------------------------------------------- encoding

  /** One digit of the multiplication by 256: p is the weight of the digit. */
  lemma CarryStep(low: nat, carry: nat, p: nat, oldLow: nat, x: nat, digit: nat)
    requires low + carry * p == 256 * oldLow + x
    ensures var c := carry + 256 * digit; c % 58 * p + low + c / 58 * (58 * p) == 256 * (digit * p + oldLow) + x
  {
    var c := carry + 256 * digit;
    assert c == c / 58 * 58 + c % 58;
    assert c / 58 * (58 * p) == c / 58 * 58 * p;
    assert (c / 58 * 58 + c % 58) * p == c / 58 * 58 * p + c % 58 * p;
    assert c * p == carry * p + 256 * digit * p;
    assert 256 * (digit * p + oldLow) == 256 * digit * p + 256 * oldLow;
  }

  ghost predicate ZeroBelow(s: seq<nat>, k: nat) {
    forall i :: 0 <= i < k && i < |s| ==> s[i] == 0
  }

  lemma ZeroPrefix(s: seq<nat>, k: nat)
    requires k <= |s| && ZeroBelow(s, k)
    ensures Value(58, s) == Value(58, s[k..])
  {
    assert s == Zeros(k) + s[k..];
    ValueZeros(58, k, s[k..]);
  }

  /** If a carry is left at weight p, the number is at least p. */
  lemma CarryLeft(low: nat, carry: nat, p: nat, n: nat)
    requires low + carry * p == n && carry > 0
    ensures p <= n
  {
    assert carry * p >= 1 * p;
  }

  /** The digits after position i are multiplied; those up to i are still the old ones. */
  ghost predicate Multiplied(o: seq<nat>, b: seq<nat>, i: int, carry: nat, x: nat) {
    && |b| == |o| && -1 <= i < |o| && b[..i + 1] == o[..i + 1] && AreDigits(58, b)
    && Value(58, b[i + 1..]) + carry * Pow(58, |o| - 1 - i) == 256 * Value(58, o[i + 1..]) + x
  }

  lemma MultiplyStep(o: seq<nat>, b: seq<nat>, i: nat, carry: nat, x: nat)
    requires i < |o| && Multiplied(o, b, i, carry, x)
    ensures var c := carry + 256 * b[i]; Multiplied(o, b[i := c % 58], i - 1, c / 58, x)
  {
    hide Value, Pow;
    var c, p := carry + 256 * b[i], Pow(58, |o| - 1 - i);
    var b' := b[i := c % 58];
    assert b[i] == b[..i + 1][i] == o[i];
    assert b'[i..] == [c % 58] + b[i + 1..] && o[i..] == [o[i]] + o[i + 1..];
    ValueCons(58, c % 58, b[i + 1..]);
    ValueCons(58, o[i], o[i + 1..]);
    CarryStep(Value(58, b[i + 1..]), carry, p, Value(58, o[i + 1..]), x, o[i]);
    PowNext(|o| - 1 - i);
    assert b'[..i] == o[..i] by {
      assert b'[..i] == b[..i + 1][..i] && o[..i] == o[..i + 1][..i];
    }
  }

  lemma PowNext(n: nat)
    ensures Pow(58, n + 1) == 58 * Pow(58, n)
  {
  }

  lemma MultiplyDone(o: seq<nat>, b: seq<nat>, i: nat, x: nat)
    requires i < |o| && Multiplied(o, b, i - 1, 0, x) && ZeroBelow(o, i)
    ensures Value(58, b) == 256 * Value(58, o) + x && ZeroBelow(b, i)
  {
    assert forall n :: 0 <= n < i ==> b[n] == b[..i][n] == o[..i][n] == o[n];
    ZeroPrefix(o, i);
    ZeroPrefix(b, i);
  }

  lemma RoomGrows(k: nat)
    ensures Room(k) + 1 <= Room(k + 1)
  {
  }

  lemma Exponents(a: nat, b: nat, n: nat)
    requires Pow(58, a) <= n < Pow(58, b)
    ensures a < b
  {
    if b <= a {
      PowMonotone(58, b, a);
    }
  }

  /** While there is a carry, the number has a digit further left, and there is room for it. */
  lemma StillRoom(o: seq<nat>, b: seq<nat>, i: nat, carry: nat, x: nat, k: nat)
    requires i < |o| && Multiplied(o, b, i - 1, carry, x) && ZeroBelow(o, i) && carry > 0
    requires 256 * Value(58, o) + x < Pow(256, k)
    ensures |o| - i <= Room(k)
  {
    hide Value, Pow, Room;
    ZeroPrefix(o, i);
    CarryLeft(Value(58, b[i..]), carry, Pow(58, |o| - i), 256 * Value(58, o) + x);
    RoomSuffices(k);
    Exponents(|o| - i, Room(k) + 1, 256 * Value(58, o) + x);
  }

  lemma NextByte(v: nat, x: nat, k: nat)
    requires v < Pow(256, k) && x < 256
    ensures 256 * v + x < Pow(256, k + 1)
  {
  }

  /** The inner loop of base58_encode: multiplies the number in the first m digits of the buffer by 256
      and adds x. All digits before stopAt are zero, so the loop stops there once there is no carry; k
      is the number of bytes that have been put in before. */
  method MultiplyAdd(buffer: array<nat>, m: nat, x: nat, stopAt: nat, ghost k: nat) returns (j: nat)
    requires m <= buffer.Length && 1 <= stopAt < m && x < 256 && AreDigits(58, buffer[..m])
    requires ZeroBelow(buffer[..m], stopAt) && Value(58, buffer[..m]) < Pow(256, k)
    requires m - 1 - stopAt <= Room(k) && Room(k + 1) < m
    modifies buffer
    ensures AreDigits(58, buffer[..m]) && Value(58, buffer[..m]) == 256 * old(Value(58, buffer[..m])) + x
    ensures j < stopAt && ZeroBelow(buffer[..m], j) && m - 1 - j <= Room(k + 1)
    ensures Value(58, buffer[..m]) < Pow(256, k + 1)
  {
    hide Value, Pow, Room, Multiplied;
    ghost var o := buffer[..m];
    NextByte(Value(58, o), x, k);
    RoomGrows(k);
    MultiplyStart(o, x);
    var carry: nat := x;
    var i: int := m - 1;
    while i >= 0
      invariant 0 <= i < m && Multiplied(o, buffer[..m], i, carry, x)
      invariant i < stopAt ==> m - 1 - i <= Room(k + 1)
    {
      MultiplyStep(o, buffer[..m], i, carry, x);
      carry := carry + 256 * buffer[i];
      buffer[i] := carry % 58;
      carry := carry / 58;
      assert Multiplied(o, buffer[..m], i - 1, carry, x);
      if i <= stopAt - 1 && carry == 0 {
        break;
      }
      if i <= stopAt - 1 {
        StillRoom(o, buffer[..m], i, carry, x, k + 1);
      }
      i := i - 1;
    }
    j := i;
    MultiplyDone(o, buffer[..m], j, x);
    DigitsOfMultiplied(o, buffer[..m], j - 1, carry, x);
  }

  lemma MultiplyStart(o: seq<nat>, x: nat)
    requires o != [] && AreDigits(58, o)
    ensures Multiplied(o, o, |o| - 1, x, x)
  {
    assert o[|o|..] == [];
  }

  lemma DigitsOfMultiplied(o: seq<nat>, b: seq<nat>, i: int, carry: nat, x: nat)
    requires Multiplied(o, b, i, carry, x)
    ensures AreDigits(58, b)
  {
  }

  lemma {:induction false} ValuePrefix(b: base, s: seq<nat>, n: nat)
    requires n < |s|
    ensures Value(b, s[..n + 1]) == Value(b, s[..n]) * b + s[n]
  {
    assert s[..n + 1][..n] == s[..n];
  }

  lemma EncodeParts(input: Bytes, z: nat, b: seq<nat>, j: nat)
    requires z == LeadingZeros(Numbers(input)) && AreDigits(58, b) && j == LeadingZeros(b)
    requires Value(58, b) == Value(256, Numbers(input)[z..])
    ensures AreDigits(58, b[j..]) && Encode(input) == Chars(Zeros(z)) + Chars(b[j..])
  {
    hide Value;
    var s := Numbers(input);
    StripZeros(256, s);
    ValueZeros(256, z, s[z..]);
    StripZeros(58, b);
    assert Rebase(256, 58, s) == Zeros(z) + b[j..];
  }

  method CountZeros(s: seq<nat>) returns (z: nat)
    ensures z == LeadingZeros(s)
  {
    z := 0;
    while z < |s| && s[z] == 0
      invariant z <= |s| && forall i :: 0 <= i < z ==> s[i] == 0
    {
      z := z + 1;
    }
    ZerosCounted(s, z);
  }

  /** base58_encode. The buffer has room for all digits; the result is refused only if the input is
      longer than 120 bytes or the output does not fit. */
  method EncodeDigits(input: Bytes, outLen: nat) returns (r: Option<string>)
    ensures r == if |input| <= MAX_ENC_INPUT_SIZE && |Encode(input)| <= outLen then Some(Encode(input)) else None
  {
    hide Encode, Value, LeadingZeros;
    if |input| > MAX_ENC_INPUT_SIZE {
      return None;
    }
    var buffer := new nat[MAX_ENC_INPUT_SIZE * 138 / 100 + 1](_ => 0);
    var zeroCount := CountZeros(Numbers(input));
    var m := PutBytes(buffer, input, zeroCount);
    var b := buffer[..m];
    var j := CountZeros(b);
    EncodeParts(input, zeroCount, b, j);
    if outLen < zeroCount + m - j {
      return None;
    }
    r := Some(Chars(Zeros(zeroCount)) + Chars(b[j..]));
  }

  lemma ZerosCounted(s: seq<nat>, z: nat)
    requires z <= |s| && (forall i :: 0 <= i < z ==> s[i] == 0) && (z < |s| ==> s[z] != 0)
    ensures LeadingZeros(s) == z
  {
  }

  /** The outer loop: puts the bytes after the leading zeros into the buffer, one after the other. */
  method PutBytes(buffer: array<nat>, input: Bytes, zeroCount: nat) returns (m: nat)
    requires zeroCount <= |input| <= MAX_ENC_INPUT_SIZE && buffer.Length == MAX_ENC_INPUT_SIZE * 138 / 100 + 1
    requires ZeroBelow(buffer[..], buffer.Length)
    modifies buffer
    ensures m <= buffer.Length && AreDigits(58, buffer[..m])
    ensures Value(58, buffer[..m]) == Value(256, Numbers(input)[zeroCount..])
  {
    ghost var s := Numbers(input)[zeroCount..];
    var n := |input| - zeroCount;
    m := n * 138 / 100 + 1;
    var stopAt: nat := m - 1;
    ZeroPrefix(buffer[..m], m);
    var start := zeroCount;
    while start < |input|
      invariant zeroCount <= start <= |input| && AreDigits(58, buffer[..m])
      invariant Value(58, buffer[..m]) == Value(256, s[..start - zeroCount]) < Pow(256, start - zeroCount)
      invariant stopAt < m && ZeroBelow(buffer[..m], stopAt) && m - 1 - stopAt <= Room(start - zeroCount)
    {
      ghost var k := start - zeroCount;
      RoomOrder(k + 1, n);
      RoomGrows(k);
      ValuePrefix(256, s, k);
      stopAt := MultiplyAdd(buffer, m, input[start], stopAt, k);
      start := start + 1;
    }
    assert s[..n] == s;
  }

  lemma RoomOrder(k: nat, n: nat)
    requires k <= n
    ensures Room(k) <= Room(n)
  {
  }

  // ---------------------------------------------------------------- decoding

  /** One digit of the division by 256. */
  lemma DivideStep(v: nat, q: nat, rem: nat, digit: nat)
    requires v == 256 * q + rem && rem < 256 && digit < 58
    ensures var t := rem * 58 + digit; v * 58 + digit == 256 * (q * 58 + t / 256) + t % 256 && t / 256 < 58
  {
  }

  /** The inner loop of base58_decode: divides the number in the digits from start on by 256. */
  method Divide(tmp: array<nat>, start: nat, n: nat) returns (remainder: nat)
    requires start < n <= tmp.Length && AreDigits(58, tmp[..n])
    modifies tmp
    ensures AreDigits(58, tmp[..n]) && remainder < 256 && tmp[start] == 0
    ensures old(Value(58, tmp[start..n])) == 256 * Value(58, tmp[start..n]) + remainder
  {
    hide Value;
    ghost var o := tmp[..n];
    remainder := 0;
    NothingYet(o[start..start]);
    NothingYet(tmp[start..start]);
    var d := start;
    while d < n
      invariant start <= d <= n && remainder < 256 && AreDigits(58, tmp[..n]) && tmp[d..n] == o[d..]
      invariant Value(58, o[start..d]) == 256 * Value(58, tmp[start..d]) + remainder
      invariant d > start ==> tmp[start] == 0
    {
      assert tmp[d] == tmp[d..n][0] == o[d] && o[d] == tmp[..n][d];
      DivideStep(Value(58, o[start..d]), Value(58, tmp[start..d]), remainder, o[d]);
      ghost var before := tmp[start..d];
      var t := remainder * 58 + tmp[d];
      tmp[d] := t / 256;
      remainder := t % 256;
      LastDigit(o, start, d);
      LastDigit(tmp[..n], start, d);
      assert tmp[..n][start..d] == before && tmp[..n][start..d + 1] == tmp[start..d + 1];
      d := d + 1;
    }
    assert o[start..n] == old(tmp[start..n]);
  }

  lemma LastDigit(s: seq<nat>, start: nat, d: nat)
    requires start <= d < |s|
    ensures Value(58, s[start..d + 1]) == Value(58, s[start..d]) * 58 + s[d]
  {
    assert s[start..d + 1][..d - start] == s[start..d];
  }

  lemma CollectStep(v: nat, high: nat, p: nat, low: nat, q: nat, rem: nat)
    requires v == high * p + low && high == 256 * q + rem
    ensures v == q * (256 * p) + (rem * p + low)
  {
    assert (256 * q + rem) * p == q * (256 * p) + rem * p;
  }

  /** The outer loop: the remainders of repeated divisions are the bytes, last one first. */
  method DivideAll(tmp: array<nat>, buffer: array<nat>, n: nat, zeroCount: nat)
    requires tmp != buffer && zeroCount <= n <= tmp.Length == buffer.Length && AreDigits(58, tmp[..n])
    requires ZeroBelow(buffer[..], buffer.Length)
    modifies tmp, buffer
    ensures AreDigits(256, buffer[..n]) && ZeroBelow(buffer[..n], zeroCount)
    ensures Value(256, buffer[zeroCount..n]) == old(Value(58, tmp[zeroCount..n]))
  {
    hide Value, Pow;
    ghost var v := Value(58, tmp[zeroCount..n]);
    var start, j := zeroCount, n;
    NothingYet(buffer[n..n]);
    while start < n
      invariant zeroCount <= start <= n && j == n - (start - zeroCount)
      invariant AreDigits(58, tmp[..n]) && AreDigits(256, buffer[..n]) && ZeroBelow(buffer[..n], j)
      invariant v == Value(58, tmp[start..n]) * Pow(256, n - j) + Value(256, buffer[j..n])
    {
      ghost var high, low := Value(58, tmp[start..n]), buffer[j..n];
      var remainder := Divide(tmp, start, n);
      assert tmp[start..n] == [0] + tmp[start + 1..n];
      ValueCons(58, 0, tmp[start + 1..n]);
      if tmp[start] == 0 {
        start := start + 1;
      }
      j := j - 1;
      buffer[j] := remainder;
      assert buffer[j..n] == [remainder] + low;
      ValueCons(256, remainder, low);
      CollectStep(v, high, Pow(256, n - j - 1), Value(256, low), Value(58, tmp[start..n]), remainder);
      NextPow(n - j - 1);
    }
    NothingYet(tmp[n..n]);
    assert Value(58, tmp[start..n]) == 0;
  }

  lemma NothingYet(s: seq<nat>)
    requires s == []
    ensures Value(58, s) == 0 && Value(256, s) == 0 && Pow(256, 0) == 1
  {
  }

  lemma NextPow(k: nat)
    ensures Pow(256, k + 1) == 256 * Pow(256, k)
  {
  }

  /** The characters as digits, if all of them are in the alphabet. */
  method ReadDigits(input: string, tmp: array<nat>) returns (ok: bool)
    requires |input| <= tmp.Length
    modifies tmp
    ensures ok == DigitsOf(input).Some?
    ensures ok ==> tmp[..|input|] == DigitsOf(input).value
  {
    ok := true;
    for i := 0 to |input|
      invariant forall k :: 0 <= k < i ==> DigitOf(input[k]) == Some(tmp[k])
    {
      var d := DigitOf(input[i]);
      if d.None? {
        return false;
      }
      tmp[i] := d.value;
    }
  }

  /** base58_decode: at least 2 and at most 164 characters, all of them in the alphabet, and an output
      that fits. */
  method DecodeDigits(input: string, outLen: nat) returns (r: Option<Bytes>)
    ensures r == if 2 <= |input| <= MAX_DEC_INPUT_SIZE && Decode(input).Some? && |Decode(input).value| <= outLen
                 then Decode(input) else None
  {
    hide Value, LeadingZeros, DigitsOf;
    if |input| > MAX_DEC_INPUT_SIZE || |input| < 2 {
      return None;
    }
    var tmp := new nat[MAX_DEC_INPUT_SIZE](_ => 0);
    var buffer := new nat[MAX_DEC_INPUT_SIZE](_ => 0);
    var n := |input|;
    var ok := ReadDigits(input, tmp);
    if !ok {
      return None;
    }
    ghost var s := tmp[..n];
    var zeroCount := CountZeros(tmp[..n]);
    ZerosBound(s);
    assert s[zeroCount..] == tmp[zeroCount..n];
    DivideAll(tmp, buffer, n, zeroCount);
    var b := buffer[..n];
    assert b[zeroCount..] == buffer[zeroCount..n];
    var j := zeroCount;
    while j < n && buffer[j] == 0
      invariant zeroCount <= j <= n && ZeroBelow(b, j)
    {
      j := j + 1;
    }
    DecodeParts(input, s, zeroCount, b, j);
    var length := n - (j - zeroCount);
    if outLen < length {
      return None;
    }
    r := Some(ToBytes(b[j - zeroCount..]));
  }

  lemma ZerosBound(s: seq<nat>)
    ensures LeadingZeros(s) <= |s|
  {
  }

  lemma DecodeParts(input: string, s: seq<nat>, z: nat, b: seq<nat>, j: nat)
    requires DigitsOf(input) == Some(s) && z == LeadingZeros(s) && |b| == |s| && AreDigits(256, b)
    requires z <= j <= |b| && ZeroBelow(b, j) && (j < |b| ==> b[j] != 0)
    requires Value(256, b[z..]) == Value(58, s[z..])
    ensures AreDigits(256, b[j - z..]) && Decode(input) == Some(ToBytes(b[j - z..]))
  {
    hide Value, DigitsOf, LeadingZeros, Digits;
    StripZeros(58, s);
    ValueZeros(58, z, s[z..]);
    var rest := b[z..];
    ZerosCounted(rest, j - z);
    StripZeros(256, rest);
    assert rest[j - z..] == b[j..];
    assert b[j..] == Digits(256, Value(58, s));
    assert b[j - z..] == Zeros(z) + b[j..];
  }

  // ---------------------------------------------------------------- lengths and the round trip

  lemma {:induction false} DigitCount(n: nat, m: nat)
    requires n < Pow(58, m)
    ensures |Digits(58, n)| <= m
    decreases m
  {
    if n > 0 {
      DivisionFacts(58, n);
      assert m > 0;
      DigitCount(n / 58, m - 1);
    }
  }

  /** 120 bytes never need more than 164 digits. */
  lemma LongestEncoding()
    ensures Pow(256, 120) <= Pow(58, 164)
  {
    ManyBytes();
    PowAdd(256, 41, 41);
    PowAdd(58, 56, 56);
    ProductMonotone(Pow(256, 41), Pow(58, 56), Pow(256, 41), Pow(58, 56));
    PowAdd(256, 82, 38);
    PowAdd(58, 112, 52);
    ProductMonotone(Pow(256, 82), Pow(58, 112), Pow(256, 38), Pow(58, 52));
  }

  lemma ManyBytes()
    ensures Pow(256, 41) <= Pow(58, 56) && Pow(256, 38) <= Pow(58, 52)
  {
    PowersOf58();
    PowersOf256();
    PowAdd(58, 26, 26);
    PowAdd(58, 28, 28);
  }

  lemma PowersOf58()
    ensures Pow(58, 26) == 7065254862732333761310239421614111190044114944
            && Pow(58, 28) == 23767517358231570773047645414309870043308402671616
  {
    assert Pow(58, 6) == 38068692544;
    assert Pow(58, 7) == 58 * Pow(58, 6);
    PowAdd(58, 7, 6);
    PowAdd(58, 7, 7);
    PowAdd(58, 13, 13);
    PowAdd(58, 14, 14);
  }

  lemma PowersOf256()
    ensures Pow(256, 38) == 32592575621351777380295131014550050576823494298654980010178247189670100796213387298934358016
    ensures Pow(256, 41)
         == 546812681195752981093125556779405341338292357723303109106442651602488249799843980805878294255763456
  {
    assert Pow(256, 4) == 4294967296;
    assert Pow(256, 5) == 256 * Pow(256, 4);
    PowAdd(256, 5, 4);
    PowAdd(256, 5, 5);
    PowAdd(256, 10, 9);
    PowAdd(256, 19, 19);
    assert Pow(256, 41) == 256 * (256 * (256 * Pow(256, 38)));
  }

  lemma {:induction false} Weaken(k: nat, n: nat)
    requires k <= n
    ensures Pow(256, k) * Pow(58, n - k) <= Pow(256, n)
    decreases n - k
  {
    if k < n {
      Weaken(k + 1, n);
      OneMore(Pow(256, k), Pow(58, n - k - 1));
    }
  }

  lemma OneMore(a: nat, p: nat)
    ensures a * (58 * p) <= 256 * a * p
  {
    assert 256 * a * p == 256 * (a * p) && a * (58 * p) == 58 * (a * p);
  }

  lemma Cancel(v: nat, a: nat, p: nat, q: nat)
    requires v < a && a * p <= q * p && p > 0
    ensures v < q
  {
    if q <= v {
      StrictProduct(q, a, p);
    }
  }

  lemma StrictProduct(q: nat, a: nat, p: nat)
    requires q < a && p > 0
    ensures q * p < a * p
  {
    assert (a - q) * p > 0;
  }

  /** v < 256^k gives v * 58^(120-k) < 256^120 <= 58^164. */
  lemma FewDigits(v: nat, k: nat)
    requires k <= 120 && v < Pow(256, k)
    ensures v < Pow(58, 44 + k)
  {
    hide Pow;
    Weaken(k, 120);
    LongestEncoding();
    PowAdd(58, 44 + k, 120 - k);
    PositivePow(120 - k);
    Cancel(v, Pow(256, k), Pow(58, 120 - k), Pow(58, 44 + k));
  }

  /** The encoding of 2 to 120 bytes has 2 to 164 characters. */
  lemma EncodedLength(b: Bytes)
    requires 2 <= |b| <= MAX_ENC_INPUT_SIZE
    ensures 2 <= |Encode(b)| <= MAX_DEC_INPUT_SIZE
  {
    hide Pow, Value, Digits;
    var s := Numbers(b);
    var z := LeadingZeros(s);
    StripZeros(256, s);
    ValueZeros(256, z, s[z..]);
    ValueBound(256, s[z..]);
    FewDigits(Value(256, s), |s| - z);
    DigitCount(Value(256, s), 44 + |s| - z);
    AtLeastTwo(s, z);
  }

  lemma PositivePow(n: nat)
    ensures Pow(58, n) > 0
  {
    PowMonotone(58, n, n);
  }

  lemma AtLeastTwo(s: seq<nat>, z: nat)
    requires |s| >= 2 && AreDigits(256, s) && z == LeadingZeros(s)
    ensures z + |Digits(58, Value(256, s))| >= 2
  {
    if z == 0 {
      Positive(256, s[..|s| - 1]);
      DivisionFacts(58, Value(256, s));
      assert Value(256, s) >= 256;
    } else if z == 1 {
      StripZeros(256, s);
      ValueZeros(256, z, s[z..]);
      Positive(256, s[z..]);
    }
  }

  /** What the device encodes it decodes to the original, for 2 to 120 bytes. */
  lemma DeviceRoundTrip(b: Bytes)
    requires 2 <= |b| <= MAX_ENC_INPUT_SIZE
    ensures 2 <= |Encode(b)| <= MAX_DEC_INPUT_SIZE && Decode(Encode(b)) == Some(b)
  {
    EncodedLength(b);
    RoundTrip(b);
  }

  // ---------------------------------------------------------------- the Python client

  /** encode of _base58.py: the number, its digits from the last one, and the leading zeros. */
  method EncodeNumber(b: Bytes) returns (r: string)
    ensures r == Encode(b)
  {
    hide Value, LeadingZeros, Digits;
    var n := Value(256, Numbers(b));
    var digits: seq<nat> := [];
    ghost var all := Digits(58, n);
    while n > 0
      invariant all == Digits(58, n) + digits && AreDigits(58, digits)
    {
      DivisionFacts(58, n);
      NextDigit(n, digits);
      digits := [n % 58] + digits;
      n := n / 58;
    }
    NoDigits(digits);
    var pad := CountZeros(Numbers(b));
    CharsJoined(Zeros(pad), digits);
    r := Chars(Zeros(pad)) + Chars(digits);
  }

  lemma NextDigit(n: nat, digits: seq<nat>)
    requires n > 0
    ensures Digits(58, n) + digits == Digits(58, n / 58) + ([n % 58] + digits)
  {
  }

  lemma NoDigits(digits: seq<nat>)
    ensures Digits(58, 0) + digits == digits
  {
  }

  lemma CharsJoined(a: seq<nat>, b: seq<nat>)
    requires AreDigits(58, a) && AreDigits(58, b)
    ensures AreDigits(58, a + b) && Chars(a) + Chars(b) == Chars(a + b)
  {
  }

  /** decode of _base58.py: the number, its bytes, and a zero byte for every leading 1 except that the
      last character is left out of the count, because the number 0 is a byte of its own. */
  method DecodeNumber(t: string) returns (r: Option<Bytes>)
    ensures r == Decode(t)
  {
    hide LeadingZeros, Value, Digits, Rebase, DigitsOf;
    if t == [] {
      EmptyString();
      return Some([]);
    }
    var s := DigitsOf(t);
    if s.None? {
      return None;
    }
    var n := Value(58, s.value);
    var bytes := if n == 0 then [0] else Digits(256, n);
    var pad := CountZeros(s.value[..|t| - 1]);
    PadCount(s.value, n);
    BytesJoined(Zeros(pad), bytes);
    r := Some(ToBytes(Zeros(pad)) + ToBytes(bytes));
  }

  lemma BytesJoined(a: seq<nat>, b: seq<nat>)
    requires AreDigits(256, a) && AreDigits(256, b)
    ensures AreDigits(256, a + b) && ToBytes(a) + ToBytes(b) == ToBytes(a + b)
  {
  }

  lemma EmptyString()
    ensures Decode([]) == Some([])
  {
    var none: seq<nat> := [];
    assert DigitsOf([]) == Some(none);
    assert Rebase(58, 256, none) == none;
    assert ToBytes(none) == [];
  }

  lemma PadCount(s: seq<nat>, n: nat)
    requires s != [] && AreDigits(58, s) && n == Value(58, s)
    ensures Zeros(LeadingZeros(s[..|s| - 1])) + (if n == 0 then [0] else Digits(256, n)) == Rebase(58, 256, s)
  {
    var m := |s| - 1;
    var z := LeadingZeros(s);
    StripZeros(58, s);
    DigitsValue(58, n);
    if n == 0 {
      assert z == |s|;
      ZerosCounted(s[..m], m);
    } else {
      assert z <= m;
      ZerosCounted(s[..m], z);
    }
  }
}
