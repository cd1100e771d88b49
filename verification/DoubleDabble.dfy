/** The amount formatter of src/swap/btchip_bcd.c: binary to decimal by shifting and adding three, then
    the digits without the zeros that say nothing. */
module DoubleDabble {
  import opened Wrappers
  import opened Bech32
  import opened ConvertBits

  const SCRATCH_SIZE := 21
  const LOOP1 := 13
  const LOOP2 := 8

  // ---------------------------------------------------------------- decimal numbers

  function Pow10(n: nat): (p: nat)
    ensures p >= 1
  {
    if n == 0 then 1 else 10 * Pow10(n - 1)
  }

  function Dec(s: seq<nat>): nat {
    if s == [] then 0 else 10 * Dec(s[..|s| - 1]) + s[|s| - 1]
  }

  predicate AreDigits(s: seq<nat>) {
    forall k :: 0 <= k < |s| ==> s[k] <= 9
  }

  lemma {:induction false} DecBound(s: seq<nat>)
    requires AreDigits(s)
    ensures Dec(s) < Pow10(|s|)
    decreases |s|
  {
    if s != [] {
      DecBound(s[..|s| - 1]);
    }
  }

  /** A digit weighs at least its place. */
  lemma {:induction false} DigitWeighs(s: seq<nat>, k: nat)
    requires k < |s| && s[k] >= 1
    ensures Dec(s) >= Pow10(|s| - 1 - k)
    decreases |s|
  {
    if k < |s| - 1 {
      DigitWeighs(s[..|s| - 1], k);
    }
  }

  lemma {:induction false} DecJoin(a: seq<nat>, b: seq<nat>)
    ensures Dec(a + b) == Dec(a) * Pow10(|b|) + Dec(b)
    decreases |b|
  {
    if b == [] {
      assert a + b == a;
    } else {
      var init := b[..|b| - 1];
      DecJoin(a, init);
      assert (a + b)[..|a + b| - 1] == a + init;
      assert Dec(a) * Pow10(|b|) == 10 * (Dec(a) * Pow10(|init|));
    }
  }

  lemma {:induction false} DecZeros(s: seq<nat>)
    requires forall k :: 0 <= k < |s| ==> s[k] == 0
    ensures Dec(s) == 0
    decreases |s|
  {
    if s != [] {
      DecZeros(s[..|s| - 1]);
    }
  }

  // ---------------------------------------------------------------- doubling

  function Adjusted(d: nat): nat {
    if d >= 5 then d + 3 else d
  }

  function Carry(d: nat): nat {
    if d >= 5 then 1 else 0
  }

  /** The digits of twice the number, plus one bit. */
  ghost function Doubled(s: seq<nat>, bit: nat): (r: seq<nat>)
    ensures |r| == |s|
  {
    seq(|s|, k requires 0 <= k < |s| => (if s[k] >= 5 then 2 * s[k] - 10 else 2 * s[k])
        + (if k + 1 < |s| then Carry(s[k + 1]) else bit))
  }

  /** Doubling the digits doubles the number, when no digit is lost at the front. */
  lemma {:induction false} DoubledValue(s: seq<nat>, bit: nat)
    requires AreDigits(s) && bit <= 1 && s != [] && s[0] < 5
    ensures AreDigits(Doubled(s, bit)) && Dec(Doubled(s, bit)) == 2 * Dec(s) + bit
    decreases |s|
  {
    hide Doubled;
    var init, last := s[..|s| - 1], s[|s| - 1];
    var t := Doubled(s, bit);
    DoubledLast(s, bit);
    if init == [] {
      assert Dec(init) == 0 && t[..0] == [];
    } else {
      DoubledValue(init, Carry(last));
    }
  }

  lemma DoubledLast(s: seq<nat>, bit: nat)
    requires AreDigits(s) && s != []
    ensures var n := |s| - 1;
            Doubled(s, bit)[n] == 2 * s[n] - 10 * Carry(s[n]) + bit
                && Doubled(s, bit)[..n] == Doubled(s[..n], Carry(s[n]))
  {
  }

  /** One bit: the digits from smin on are adjusted and shifted. */
  method ShiftIn(scratch: array<nat>, smin: nat, bit: nat) returns (start: nat)
    requires scratch.Length == SCRATCH_SIZE && AreDigits(scratch[..]) && bit <= 1
    requires 1 <= smin <= 19 && (forall k :: 0 <= k < smin ==> scratch[k] == 0) && (smin == 1 ==> scratch[1] < 5)
    modifies scratch
    ensures AreDigits(scratch[..]) && Dec(scratch[..]) == 2 * old(Dec(scratch[..])) + bit
    ensures 1 <= start <= smin && forall k :: 0 <= k < start ==> scratch[k] == 0
  {
    hide Dec, Carry;
    ghost var s := scratch[..];
    DoubledValue(s, bit);
    var k := smin;
    while k < SCRATCH_SIZE
      invariant smin <= k <= SCRATCH_SIZE
      invariant forall i :: smin <= i < k ==> scratch[i] == Adjusted(s[i])
      invariant forall i :: 0 <= i < smin || k <= i < SCRATCH_SIZE ==> scratch[i] == s[i]
    {
      scratch[k] := scratch[k] + (if scratch[k] >= 5 then 3 else 0);
      k := k + 1;
    }
    start := smin;
    if scratch[smin] >= 8 {
      start := start - 1;
    }
    assert forall i :: 0 <= i < SCRATCH_SIZE ==> scratch[i] == Adjusted(s[i]);
    Shift(scratch, start, bit, s);
    assert scratch[..] == Doubled(s, bit);
  }

  method Shift(scratch: array<nat>, start: nat, bit: nat, ghost s: seq<nat>)
    requires scratch.Length == SCRATCH_SIZE == |s| && AreDigits(s) && bit <= 1 && start <= 19 && s[start] < 5
    requires forall i :: 0 <= i < SCRATCH_SIZE ==> scratch[i] == Adjusted(s[i])
    requires forall i :: 0 <= i < start ==> s[i] == 0
    modifies scratch
    ensures forall i :: 0 <= i < SCRATCH_SIZE ==> scratch[i] == Doubled(s, bit)[i]
    ensures forall i :: 0 <= i < start ==> scratch[i] == 0
  {
    hide Doubled;
    var k := start;
    forall i | 0 <= i < start ensures Doubled(s, bit)[i] == 0 {
      DoubledAt(s, bit, i);
    }
    while k < SCRATCH_SIZE - 1
      invariant start <= k <= SCRATCH_SIZE - 1
      invariant forall i :: start <= i < k ==> scratch[i] == Doubled(s, bit)[i]
      invariant forall i :: 0 <= i < start ==> scratch[i] == 0
      invariant forall i :: k <= i < SCRATCH_SIZE ==> scratch[i] == Adjusted(s[i])
    {
      DoubledAt(s, bit, k);
      scratch[k] := scratch[k] * 2 % 16 + (if scratch[k + 1] >= 8 then 1 else 0);
      k := k + 1;
    }
    DoubledAt(s, bit, SCRATCH_SIZE - 1);
    scratch[SCRATCH_SIZE - 1] := scratch[SCRATCH_SIZE - 1] * 2 % 16 + (if bit == 1 then 1 else 0);
  }

  /** Four bits of twice the adjusted digit. */
  lemma ShiftedDigit(d: nat)
    requires d <= 9
    ensures Adjusted(d) * 2 % 16 == if d >= 5 then 2 * d - 10 else 2 * d
    ensures Adjusted(d) >= 8 <==> d >= 5
  {
  }

  lemma DoubledAt(s: seq<nat>, bit: nat, k: nat)
    requires AreDigits(s) && k < |s|
    ensures Doubled(s, bit)[k] == Adjusted(s[k]) * 2 % 16
            + (if k + 1 < |s| then (if Adjusted(s[k + 1]) >= 8 then 1 else 0) else bit)
  {
    ShiftedDigit(s[k]);
  }

  // ---------------------------------------------------------------- the bits of the amount

  /** The amount, big-endian. */
  function Amount(b: Bytes): nat {
    if b == [] then 0 else 256 * Amount(b[..|b| - 1]) + b[|b| - 1]
  }

  /** The number that the first bytes and the first j bits of the next one make. */
  function Taken(done: nat, next: byte, j: nat): nat
    requires j <= 8
  {
    ShiftLeft(done, j) + ShiftRight(next, 8 - j)
  }

  function BitAt(b: byte, j: nat): (r: nat)
    requires j < 8
    ensures r <= 1
  {
    ShiftRight(b, 7 - j) % 2
  }

  lemma {:induction false} ShiftMore(v: nat, k: nat)
    ensures ShiftRight(v, k + 1) == ShiftRight(v, k) / 2
    decreases k
  {
    if k > 0 {
      ShiftMore(v / 2, k - 1);
    }
  }

  lemma TakeBit(done: nat, next: byte, j: nat)
    requires j < 8
    ensures Taken(done, next, j + 1) == 2 * Taken(done, next, j) + BitAt(next, j)
  {
    ShiftMore(next, 7 - j);
  }

  lemma ShiftTwo(v: nat, k: nat)
    ensures ShiftLeft(v, k + 2) == 4 * ShiftLeft(v, k)
  {
  }

  lemma TakeByte(b: Bytes, i: nat)
    requires i < |b|
    ensures Taken(Amount(b[..i]), b[i], 0) == Amount(b[..i])
    ensures Taken(Amount(b[..i]), b[i], 8) == Amount(b[..i + 1])
  {
    var done := Amount(b[..i]);
    assert b[..i + 1][..i] == b[..i];
    ShiftTwo(done, 6);
    ShiftTwo(done, 4);
    ShiftTwo(done, 2);
    ShiftTwo(done, 0);
    NoTop(b[i]);
  }

  lemma NoTop(v: byte)
    ensures ShiftRight(v, 8) == 0
  {
    assert ShiftRight(v, 8) == ShiftRight(v / 2 / 2, 6);
    assert ShiftRight(v / 2 / 2, 6) == ShiftRight(v / 2 / 2 / 2 / 2, 4);
    assert ShiftRight(v / 2 / 2 / 2 / 2, 4) == ShiftRight(v / 2 / 2 / 2 / 2 / 2 / 2, 2);
  }

  lemma {:induction false} PowersGrow(m: nat, n: nat)
    requires m <= n
    ensures Pow2(m) <= Pow2(n)
    decreases n
  {
    if m < n {
      PowersGrow(m, n - 1);
    }
  }

  lemma {:induction false} PowJoin(m: nat, n: nat)
    ensures Pow2(m + n) == Pow2(m) * Pow2(n)
    decreases n
  {
    if n > 0 {
      PowJoin(m, n - 1);
      assert Pow2(m) * (2 * Pow2(n - 1)) == 2 * (Pow2(m) * Pow2(n - 1));
    }
  }

  lemma {:induction false} TensJoin(m: nat, n: nat)
    ensures Pow10(m + n) == Pow10(m) * Pow10(n)
    decreases n
  {
    if n > 0 {
      TensJoin(m, n - 1);
      assert Pow10(m) * (10 * Pow10(n - 1)) == 10 * (Pow10(m) * Pow10(n - 1));
    }
  }

  lemma TenToEight()
    ensures Pow10(8) == 100_000_000
  {
    assert Pow10(2) == 100;
    assert Pow10(4) == 100 * Pow10(2);
    assert Pow10(6) == 100 * Pow10(4);
  }

  lemma BelowTenToNineteen(v: nat, n: nat)
    requires v < Pow2(n) && n <= 63
    ensures v < Pow10(19)
  {
    hide Pow2, Pow10;
    PowersGrow(n, 63);
    PowStep(63);
    TwoToSixtyFour();
    TenToNineteen();
  }

  lemma TwoToSixteen()
    ensures Pow2(16) == 65536
  {
    assert Pow2(2) == 4;
    assert Pow2(4) == 16;
    hide Pow2;
    PowJoin(4, 4);
    PowJoin(8, 8);
  }

  lemma TwoToSixtyFour()
    ensures Pow2(64) == 18446744073709551616
  {
    hide Pow2;
    TwoToSixteen();
    PowJoin(16, 16);
    PowJoin(32, 32);
  }

  lemma TenToNineteen()
    ensures Pow10(19) == 10000000000000000000
  {
    assert Pow10(3) == 1000;
    hide Pow10;
    TenToEight();
    TensJoin(8, 8);
    TensJoin(16, 3);
  }

  /** All 64 bits: the scratch area then holds the decimal digits of the amount. */
  method ToDigits(amount: Bytes) returns (scratch: array<nat>)
    requires |amount| == 8
    ensures fresh(scratch) && scratch.Length == SCRATCH_SIZE
    ensures AreDigits(scratch[..]) && Dec(scratch[..]) == Amount(amount)
  {
    hide Dec, Pow2, Pow10, Taken, BitAt, Amount;
    scratch := new nat[SCRATCH_SIZE](_ => 0);
    var smin := SCRATCH_SIZE - 2;
    DecZeros(scratch[..]);
    Nothing(amount);
    var i := 0;
    while i < 8
      invariant 0 <= i <= 8 && 1 <= smin <= 19 && AreDigits(scratch[..])
      invariant forall k :: 0 <= k < smin ==> scratch[k] == 0
      invariant Dec(scratch[..]) == Amount(amount[..i]) < Pow2(8 * i)
    {
      TakeByte(amount, i);
      ghost var done := Amount(amount[..i]);
      var j := 0;
      while j < 8
        invariant 0 <= j <= 8 && 1 <= smin <= 19 && AreDigits(scratch[..])
        invariant forall k :: 0 <= k < smin ==> scratch[k] == 0
        invariant Dec(scratch[..]) == Taken(done, amount[i], j) < Pow2(8 * i + j)
      {
        FirstDigitSmall(scratch[..], 8 * i + j);
        TakeBit(done, amount[i], j);
        PowStep(8 * i + j);
        smin := ShiftIn(scratch, smin, BitAt(amount[i], j));
        j := j + 1;
      }
      i := i + 1;
    }
    assert amount[..8] == amount;
  }

  lemma Nothing(amount: Bytes)
    ensures Amount(amount[..0]) == 0 && Pow2(0) == 1
  {
  }

  lemma PowStep(n: nat)
    ensures Pow2(n + 1) == 2 * Pow2(n)
  {
  }

  lemma FirstDigitSmall(s: seq<nat>, n: nat)
    requires |s| == SCRATCH_SIZE && Dec(s) < Pow2(n) && n <= 63
    ensures s[1] < 5
  {
    hide Dec, Pow2, Pow10;
    BelowTenToNineteen(Dec(s), n);
    if s[1] >= 1 {
      DigitWeighs(s, 1);
    }
  }

  // ---------------------------------------------------------------- the text

  function DigitChars(s: seq<nat>): (r: string)
    requires AreDigits(s)
    ensures |r| == |s|
  {
    seq(|s|, k requires 0 <= k < |s| => '0' + s[k] as char)
  }

  /** A numeral without redundant zeros: the digits before the point, and those behind it. */
  predicate IsNumeral(a: seq<nat>, f: seq<nat>) {
    && AreDigits(a) && AreDigits(f)
    && a != [] && (|a| > 1 ==> a[0] != 0)
    && |f| <= 8 && (f != [] ==> f[|f| - 1] != 0)
  }

  function Numeral(a: seq<nat>, f: seq<nat>): string
    requires IsNumeral(a, f)
  {
    DigitChars(a) + (if f == [] then "" else "." + DigitChars(f))
  }

  /** How many hundred-millionths a numeral denotes. */
  function Denotes(a: seq<nat>, f: seq<nat>): nat
    requires |f| <= 8
  {
    Dec(a) * Pow10(8) + Dec(f) * Pow10(8 - |f|)
  }

  /** The text of an amount: the numeral that denotes it. */
  ghost predicate Displays(text: string, n: nat) {
    exists a, f :: IsNumeral(a, f) && text == Numeral(a, f) && Denotes(a, f) == n
  }

  lemma {:induction false} TrailingZeros(f: seq<nat>, g: seq<nat>, i: nat)
    requires i <= |g| && f == g[..i] && forall k :: i <= k < |g| ==> g[k] == 0
    ensures Dec(f) * Pow10(|g| - i) == Dec(g)
  {
    DecJoin(f, g[i..]);
    DecZeros(g[i..]);
    assert g == f + g[i..];
  }

  lemma LeadingZeros(z: seq<nat>, a: seq<nat>)
    requires forall k :: 0 <= k < |z| ==> z[k] == 0
    ensures Dec(z + a) == Dec(a)
  {
    DecJoin(z, a);
    DecZeros(z);
  }

  /** The first loop of the output: the integer part without leading zeros, but not empty. */
  method WriteInteger(scratch: seq<nat>) returns (a: seq<nat>)
    requires |scratch| == SCRATCH_SIZE && AreDigits(scratch)
    ensures AreDigits(a) && a != [] && (|a| > 1 ==> a[0] != 0) && Dec(a) == Dec(scratch[..LOOP1])
  {
    hide Dec;
    a := [];
    var nonZero, offset := false, 0;
    ghost var zeros: seq<nat> := [];
    while offset < LOOP1
      invariant 0 <= offset <= LOOP1 && scratch[..offset] == zeros + a
      invariant (forall k :: 0 <= k < |zeros| ==> zeros[k] == 0) && AreDigits(a)
      invariant nonZero <==> a != []
      invariant a != [] ==> a[0] != 0
    {
      if !nonZero && scratch[offset] == 0 {
        zeros := zeros + [0];
      } else {
        nonZero := true;
        a := a + [scratch[offset]];
      }
      offset := offset + 1;
    }
    LeadingZeros(zeros, a);
    if a == [] {
      a := [0];
      ZeroDigit();
    }
  }

  lemma ZeroDigit()
    ensures Dec([0]) == Dec([])
  {
  }

  /** The inner loop of the output: whether only zeros remain. */
  method AllZero(f: seq<nat>, i: nat) returns (r: bool)
    requires |f| == LOOP2 && i < LOOP2
    ensures r <==> forall k :: i <= k < LOOP2 ==> f[k] == 0
  {
    r := true;
    var j := i;
    while j < LOOP2
      invariant i <= j <= LOOP2 && r && forall k :: i <= k < j ==> f[k] == 0
    {
      if f[j] != 0 {
        r := false;
        break;
      }
      j := j + 1;
    }
  }

  /** The second loop of the output: the fraction without trailing zeros. */
  method WriteFraction(g: seq<nat>) returns (f: seq<nat>)
    requires |g| == LOOP2 && AreDigits(g)
    ensures |f| <= LOOP2 && f == g[..|f|] && (f != [] ==> f[|f| - 1] != 0) && forall k :: |f| <= k < LOOP2 ==> g[k] == 0
  {
    f := [];
    var i := 0;
    while i < LOOP2
      invariant 0 <= i <= LOOP2 && f == g[..i] && (i > 0 ==> exists k :: i - 1 <= k < LOOP2 && g[k] != 0)
    {
      var allZero := AllZero(g, i);
      if allZero {
        break;
      }
      f := f + [g[i]];
      i := i + 1;
    }
  }

  lemma TextValue(scratch: seq<nat>, a: seq<nat>, f: seq<nat>)
    requires |scratch| == SCRATCH_SIZE && Dec(a) == Dec(scratch[..LOOP1]) && |f| <= LOOP2
    requires f == scratch[LOOP1..][..|f|] && forall k :: |f| <= k < LOOP2 ==> scratch[LOOP1..][k] == 0
    ensures Denotes(a, f) == Dec(scratch)
  {
    hide Dec, Pow10;
    var g := scratch[LOOP1..];
    TrailingZeros(f, g, |f|);
    DecJoin(scratch[..LOOP1], g);
    assert scratch == scratch[..LOOP1] + g;
  }

  /** btchip_convert_hex_amount_to_displayable_no_globals. */
  method ConvertAmount(amount: Bytes) returns (out: string)
    requires |amount| == 8
    ensures Displays(out, Amount(amount))
  {
    hide Dec, Amount, Numeral, Denotes;
    var scratch := ToDigits(amount);
    var digits := scratch[..];
    var a := WriteInteger(digits);
    var f := WriteFraction(digits[LOOP1..]);
    TextValue(digits, a, f);
    out := Numeral(a, f);
  }

  // ---------------------------------------------------------------- one text per amount

  lemma {:induction false} DecInjective(s: seq<nat>, t: seq<nat>)
    requires AreDigits(s) && AreDigits(t) && |s| == |t| && Dec(s) == Dec(t)
    ensures s == t
    decreases |s|
  {
    if s != [] {
      DecInjective(s[..|s| - 1], t[..|t| - 1]);
      assert s == s[..|s| - 1] + [s[|s| - 1]] && t == t[..|t| - 1] + [t[|t| - 1]];
    }
  }

  lemma LongerIsMore(s: seq<nat>, t: seq<nat>)
    requires AreDigits(s) && AreDigits(t) && s != [] && |s| < |t| && t[0] != 0
    ensures Dec(s) < Dec(t)
  {
    DecBound(s);
    DigitWeighs(t, 0);
    TensGrow(|s|, |t| - 1);
  }

  lemma {:induction false} TensGrow(m: nat, n: nat)
    requires m <= n
    ensures Pow10(m) <= Pow10(n)
    decreases n
  {
    if m < n {
      TensGrow(m, n - 1);
    }
  }

  lemma IntegerUnique(a: seq<nat>, b: seq<nat>)
    requires AreDigits(a) && AreDigits(b) && a != [] && b != [] && (|a| > 1 ==> a[0] != 0) && (|b| > 1 ==> b[0] != 0)
    requires Dec(a) == Dec(b)
    ensures a == b
  {
    hide Dec;
    if |a| < |b| {
      LongerIsMore(a, b);
    } else if |b| < |a| {
      LongerIsMore(b, a);
    } else {
      DecInjective(a, b);
    }
  }

  ghost function FilledUp8(f: seq<nat>): (g: seq<nat>)
    requires |f| <= 8
    ensures |g| == 8 && g[..|f|] == f && forall k :: |f| <= k < 8 ==> g[k] == 0
  {
    f + seq(8 - |f|, _ => 0)
  }

  lemma FractionUnique(f: seq<nat>, g: seq<nat>)
    requires AreDigits(f) && AreDigits(g) && |f| <= 8 && |g| <= 8 && (f != [] ==> f[|f| - 1] != 0)
             && (g != [] ==> g[|g| - 1] != 0)
    requires Dec(FilledUp8(f)) == Dec(FilledUp8(g))
    ensures f == g
  {
    hide Dec;
    var x, y := FilledUp8(f), FilledUp8(g);
    assert AreDigits(x) && AreDigits(y);
    DecInjective(x, y);
    var m := if |f| < |g| then |g| else |f|;
    if m > 0 {
      var last := x[m - 1];
    }
  }

  lemma NumeralParts(a: seq<nat>, f: seq<nat>)
    requires IsNumeral(a, f)
    ensures Denotes(a, f) == Dec(a) * Pow10(8) + Dec(FilledUp8(f)) && Dec(FilledUp8(f)) < Pow10(8)
  {
    hide Dec, Pow10;
    TrailingZeros(f, FilledUp8(f), |f|);
    DecBound(FilledUp8(f));
  }

  lemma PartsUnique(q: nat, r: nat, p: nat, s: nat)
    requires r < Pow10(8) && s < Pow10(8) && q * Pow10(8) + r == p * Pow10(8) + s
    ensures q == p && r == s
  {
    hide Pow10;
    TenToEight();
  }

  /** An amount has only one text. */
  lemma DisplayUnique(text: string, other: string, n: nat)
    requires Displays(text, n) && Displays(other, n)
    ensures text == other
  {
    hide Dec, Pow10, Numeral, Denotes;
    var a, f :| IsNumeral(a, f) && text == Numeral(a, f) && Denotes(a, f) == n;
    var b, g :| IsNumeral(b, g) && other == Numeral(b, g) && Denotes(b, g) == n;
    NumeralParts(a, f);
    NumeralParts(b, g);
    PartsUnique(Dec(a), Dec(FilledUp8(f)), Dec(b), Dec(FilledUp8(g)));
    IntegerUnique(a, b);
    FractionUnique(f, g);
  }
}
