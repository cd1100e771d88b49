/** Base58: numbers in two bases, the encoding as the Python client computes it over unbounded
    integers, and the digit-by-digit loops of src/common/base58.c. */
module Base58 {
  import opened Wrappers

  // ---------------------------------------------------------------- numbers and their digits

  /** The two bases. */
  type base = b: nat | b == 58 || b == 256 witness 58

  function Pow(b: base, n: nat): nat {
    if n == 0 then 1 else b * Pow(b, n - 1)
  }

  /** The number with the given digits, most significant first. */
  function Value(b: base, s: seq<nat>): nat {
    if s == [] then 0 else Value(b, s[..|s| - 1]) * b + s[|s| - 1]
  }

  predicate AreDigits(b: base, s: seq<nat>) {
    forall i :: 0 <= i < |s| ==> s[i] < b
  }

  lemma DivisionFacts(b: base, n: nat)
    ensures n == n / b * b + n % b && n % b < b && (n > 0 ==> n / b < n)
  {
    if b == 58 {
      assert n == n / 58 * 58 + n % 58;
    } else {
      assert n == n / 256 * 256 + n % 256;
    }
  }

  /** The digits of a number, without leading zeros. */
  function Digits(b: base, n: nat): (s: seq<nat>)
    ensures AreDigits(b, s) && (s != [] ==> s[0] != 0)
    decreases n
  {
    if n == 0 then []
    else
      DivisionFacts(b, n);
      Digits(b, n / b) + [n % b]
  }

  function LeadingZeros(s: seq<nat>): (k: nat)
    ensures k <= |s| && (forall i :: 0 <= i < k ==> s[i] == 0) && (k < |s| ==> s[k] != 0)
  {
    if s == [] || s[0] != 0 then 0 else
    assert forall i :: 0 < i < |s| ==> s[i] == s[1..][i - 1];
    1 + LeadingZeros(s[1..])
  }

  function Zeros(k: nat): (s: seq<nat>)
    ensures |s| == k && forall i :: 0 <= i < k ==> s[i] == 0
  {
    seq(k, _ => 0)
  }

  lemma {:induction false} DigitsValue(b: base, n: nat)
    ensures Value(b, Digits(b, n)) == n
    decreases n
  {
    if n > 0 {
      DivisionFacts(b, n);
      DigitsValue(b, n / b);
      var s := Digits(b, n);
      assert s[..|s| - 1] == Digits(b, n / b);
    }
  }

  lemma {:induction false} ValueCons(b: base, d: nat, t: seq<nat>)
    ensures Value(b, [d] + t) == d * Pow(b, |t|) + Value(b, t)
    decreases |t|
  {
    if t == [] {
      assert ([d] + t)[..0] == [];
    } else {
      var init, last := t[..|t| - 1], t[|t| - 1];
      ValueCons(b, d, init);
      assert ([d] + t)[..|t|] == [d] + init;
      ScaleUp(b, d, Pow(b, |init|), Value(b, init), last);
    }
  }

  lemma ScaleUp(b: base, d: nat, p: nat, v: nat, last: nat)
    ensures (d * p + v) * b + last == d * (b * p) + (v * b + last)
  {
    if b == 58 {
      assert d * (58 * p) == d * p * 58;
    } else {
      assert d * (256 * p) == d * p * 256;
    }
  }

  lemma {:induction false} ValueZeros(b: base, k: nat, t: seq<nat>)
    ensures Value(b, Zeros(k) + t) == Value(b, t)
    decreases k
  {
    if k == 0 {
      assert Zeros(0) + t == t;
    } else {
      ValueZeros(b, k - 1, t);
      assert Zeros(k) + t == [0] + (Zeros(k - 1) + t);
      ValueCons(b, 0, Zeros(k - 1) + t);
    }
  }

  lemma {:induction false} ValueBound(b: base, s: seq<nat>)
    requires AreDigits(b, s)
    ensures Value(b, s) < Pow(b, |s|)
    decreases |s|
  {
    if s != [] {
      ValueBound(b, s[..|s| - 1]);
      BelowNext(b, Value(b, s[..|s| - 1]), Pow(b, |s| - 1), s[|s| - 1]);
    }
  }

  lemma BelowNext(b: base, v: nat, p: nat, d: nat)
    requires v < p && d < b
    ensures v * b + d < b * p
  {
    if b == 58 {
      assert v * 58 + d < 58 * p;
    } else {
      assert v * 256 + d < 256 * p;
    }
  }

  /** Digits without a leading zero are those of their number. */
  lemma {:induction false} DigitsUnique(b: base, s: seq<nat>)
    requires AreDigits(b, s) && (s != [] ==> s[0] != 0)
    ensures Digits(b, Value(b, s)) == s
    decreases |s|
  {
    if s != [] {
      var init, last := s[..|s| - 1], s[|s| - 1];
      DigitsUnique(b, init);
      DivMod(b, Value(b, init), last);
      Positive(b, s);
      assert s == init + [last];
    }
  }

  lemma DivMod(b: base, q: nat, r: nat)
    requires r < b
    ensures (q * b + r) / b == q && (q * b + r) % b == r
  {
    if b == 58 {
      assert (q * 58 + r) / 58 == q;
    } else {
      assert (q * 256 + r) / 256 == q;
    }
  }

  lemma {:induction false} Positive(b: base, s: seq<nat>)
    requires s != [] && s[0] != 0
    ensures Value(b, s) > 0
    decreases |s|
  {
    if |s| > 1 {
      Positive(b, s[..|s| - 1]);
      assert Value(b, s[..|s| - 1]) * b >= 1 * b;
    }
  }

  /** Digits with leading zeros: the zeros and the digits of the number. */
  lemma StripZeros(b: base, s: seq<nat>)
    requires AreDigits(b, s)
    ensures var z := LeadingZeros(s); s == Zeros(z) + s[z..] && s[z..] == Digits(b, Value(b, s))
  {
    var z := LeadingZeros(s);
    assert s == Zeros(z) + s[z..];
    ValueZeros(b, z, s[z..]);
    DigitsUnique(b, s[z..]);
  }

  // ---------------------------------------------------------------- the encoding

  /** The alphabet: 1-9, A-Z without I and O, a-z without l. */
  function CharOf(d: nat): char
    requires d < 58
  {
    if d < 9 then '1' + d as char
    else if d < 17 then 'A' + (d - 9) as char
    else if d < 22 then 'J' + (d - 17) as char
    else if d < 33 then 'P' + (d - 22) as char
    else if d < 44 then 'a' + (d - 33) as char
    else 'm' + (d - 44) as char
  }

  /** The place of a character in the alphabet. */
  function DigitOf(c: char): (d: Option<nat>)
    ensures d.Some? ==> d.value < 58 && CharOf(d.value) == c
  {
    if '1' <= c <= '9' then Some((c - '1') as nat)
    else if 'A' <= c <= 'H' then Some((c - 'A') as nat + 9)
    else if 'J' <= c <= 'N' then Some((c - 'J') as nat + 17)
    else if 'P' <= c <= 'Z' then Some((c - 'P') as nat + 22)
    else if 'a' <= c <= 'k' then Some((c - 'a') as nat + 33)
    else if 'm' <= c <= 'z' then Some((c - 'm') as nat + 44)
    else None
  }

  lemma DigitOfChar(d: nat)
    requires d < 58
    ensures DigitOf(CharOf(d)) == Some(d)
  {
  }

  /** The alphabet is what is left of the digits and letters without 0, O, I and l, in the order of their codes. */
  lemma AlphabetInOrder(c: char, c': char)
    ensures DigitOf(c).Some? <==>
      ('0' <= c <= '9' || 'A' <= c <= 'Z' || 'a' <= c <= 'z') && c !in "0OIl"
    ensures DigitOf(c).Some? && DigitOf(c').Some? ==> (DigitOf(c).value < DigitOf(c').value <==> c < c')
  {
    assert c in "0OIl" <==> c == '0' || c == 'O' || c == 'I' || c == 'l';
  }

  function Chars(s: seq<nat>): (r: string)
    requires AreDigits(58, s)
    ensures |r| == |s| && forall i :: 0 <= i < |s| ==> r[i] == CharOf(s[i])
  {
    seq(|s|, i requires 0 <= i < |s| => CharOf(s[i]))
  }

  function DigitsOf(t: string): (r: Option<seq<nat>>)
    ensures r.Some? ==> |r.value| == |t| && AreDigits(58, r.value)
    ensures r.Some? ==> forall i :: 0 <= i < |t| ==> DigitOf(t[i]) == Some(r.value[i])
    ensures r.None? ==> exists i :: 0 <= i < |t| && DigitOf(t[i]).None?
  {
    if t == [] then Some([])
    else
      var n := |t| - 1;
      var init := DigitsOf(t[..n]);
      var last := DigitOf(t[n]);
      if init.None? then
        assert forall i :: 0 <= i < n ==> t[..n][i] == t[i];
        None
      else if last.None? then None
      else Some(init.value + [last.value])
  }

  function Numbers(b: Bytes): (s: seq<nat>)
    ensures |s| == |b| && AreDigits(256, s) && forall i :: 0 <= i < |b| ==> s[i] == b[i]
  {
    seq(|b|, i requires 0 <= i < |b| => b[i])
  }

  function ToBytes(s: seq<nat>): (b: Bytes)
    requires AreDigits(256, s)
    ensures |b| == |s| && forall i :: 0 <= i < |s| ==> b[i] == s[i]
  {
    seq(|s|, i requires 0 <= i < |s| => s[i])
  }

  /** Leading zeros one by one, then the number without leading zeros, in the other base. */
  function Rebase(from: base, to: base, s: seq<nat>): (r: seq<nat>)
    ensures AreDigits(to, r)
  {
    Zeros(LeadingZeros(s)) + Digits(to, Value(from, s))
  }

  function Encode(b: Bytes): string {
    Chars(Rebase(256, 58, Numbers(b)))
  }

  function Decode(t: string): Option<Bytes> {
    var s :- DigitsOf(t);
    Some(ToBytes(Rebase(58, 256, s)))
  }

  lemma LeadingZerosOf(k: nat, t: seq<nat>)
    requires t != [] ==> t[0] != 0
    ensures LeadingZeros(Zeros(k) + t) == k
  {
    var s := Zeros(k) + t;
    assert forall i :: 0 <= i < |s| ==> (s[i] == 0 <==> i < k || t[i - k] == 0);
    assert t != [] ==> s[k] == t[0];
  }

  /** Changing the base and changing it back. */
  lemma RebaseBack(from: base, to: base, s: seq<nat>)
    requires AreDigits(from, s)
    ensures Rebase(to, from, Rebase(from, to, s)) == s
  {
    var z, n := LeadingZeros(s), Value(from, s);
    LeadingZerosOf(z, Digits(to, n));
    ValueZeros(to, z, Digits(to, n));
    DigitsValue(to, n);
    StripZeros(from, s);
  }

  lemma DigitsOfChars(s: seq<nat>)
    requires AreDigits(58, s)
    ensures DigitsOf(Chars(s)) == Some(s)
  {
    var t := Chars(s);
    forall i | 0 <= i < |t| ensures DigitOf(t[i]) == Some(s[i]) {
      DigitOfChar(s[i]);
    }
    assert DigitsOf(t).value == s;
  }

  /** Decoding inverts encoding, for byte strings of every length. */
  lemma RoundTrip(b: Bytes)
    ensures Decode(Encode(b)) == Some(b)
  {
    DigitsOfChars(Rebase(256, 58, Numbers(b)));
    RebaseBack(256, 58, Numbers(b));
    assert ToBytes(Numbers(b)) == b;
  }
}
