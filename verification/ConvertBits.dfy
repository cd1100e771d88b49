/** The regrouping of bits between bytes and 5-bit symbols: convert_bits of src/common/segwit_addr.c. */
module ConvertBits {
  import opened Wrappers
  import opened Bech32

  /** The widths of a symbol and of a byte. */
  type width = w: nat | w == 5 || w == 8 witness 5

  // ---------------------------------------------------------------- bits, most significant first

  /** The last w bits of a number. */
  function Bits(x: nat, w: nat): (r: seq<bool>)
    ensures |r| == w
  {
    if w == 0 then [] else Bits(x / 2, w - 1) + [x % 2 == 1]
  }

  function Number(b: seq<bool>): nat {
    if b == [] then 0 else 2 * Number(b[..|b| - 1]) + One(b[|b| - 1])
  }

  lemma {:induction false} BitsOfNumber(b: seq<bool>)
    ensures Bits(Number(b), |b|) == b && Number(b) < Pow2(|b|)
    decreases |b|
  {
    if b != [] {
      var init := b[..|b| - 1];
      BitsOfNumber(init);
      assert Number(b) / 2 == Number(init);
      assert b == init + [b[|b| - 1]];
    }
  }

  lemma {:induction false} NumberOfBits(x: nat, w: nat)
    requires x < Pow2(w)
    ensures Number(Bits(x, w)) == x
    decreases w
  {
    if w > 0 {
      NumberOfBits(x / 2, w - 1);
      assert Bits(x, w)[..w - 1] == Bits(x / 2, w - 1);
    }
  }

  /** Shifts, and the mask that keeps the last m bits. */
  function ShiftLeft(v: nat, k: nat): nat {
    if k == 0 then v else 2 * ShiftLeft(v, k - 1)
  }

  function ShiftRight(v: nat, k: nat): nat {
    if k == 0 then v else ShiftRight(v / 2, k - 1)
  }

  function Mask(v: nat, m: nat): (r: nat)
    ensures r < Pow2(m)
  {
    if m == 0 then 0 else 2 * Mask(v / 2, m - 1) + v % 2
  }

  lemma BitsStep(v: nat, w: nat)
    ensures Bits(v, w) == if w == 0 then [] else Bits(v / 2, w - 1) + [v % 2 == 1]
  {
  }

  /** Higher bits do not matter. */
  lemma {:induction false} BitsMasked(v: nat, m: nat, w: nat)
    requires w <= m
    ensures Bits(Mask(v, m), w) == Bits(v, w)
    decreases w
  {
    if w > 0 {
      BitsMasked(v / 2, m - 1, w - 1);
      assert Mask(v, m) / 2 == Mask(v / 2, m - 1) && Mask(v, m) % 2 == v % 2;
    }
  }

  /** A shift to the left makes room for k bits. */
  lemma {:induction false} BitsShifted(v: nat, x: nat, b: nat, k: nat)
    requires x < Pow2(k)
    ensures Bits(ShiftLeft(v, k) + x, b + k) == Bits(v, b) + Bits(x, k)
    decreases k
  {
    if k > 0 {
      assert (ShiftLeft(v, k) + x) / 2 == ShiftLeft(v, k - 1) + x / 2;
      BitsShifted(v, x / 2, b, k - 1);
    }
  }

  /** A shift to the right leaves the upper bits. */
  lemma {:induction false} BitsSplit(v: nat, a: nat, b: nat)
    ensures Bits(v, a + b) == Bits(ShiftRight(v, b), a) + Bits(v, b)
    decreases b
  {
    hide Bits;
    BitsStep(v, a + b);
    BitsStep(v, b);
    if b > 0 {
      BitsSplit(v / 2, a, b - 1);
    }
  }

  // ---------------------------------------------------------------- streams of groups

  predicate Fits(s: seq<nat>, w: width) {
    forall i :: 0 <= i < |s| ==> s[i] < Pow2(w)
  }

  function Span(n: nat, w: width): nat {
    if w == 5 then 5 * n else 8 * n
  }

  /** The bits of all groups, one after the other. */
  function Stream(s: seq<nat>, w: width): (r: seq<bool>)
    ensures |r| == Span(|s|, w)
  {
    if s == [] then [] else Stream(s[..|s| - 1], w) + Bits(s[|s| - 1], w)
  }

  lemma StreamLast(s: seq<nat>, x: nat, w: width)
    ensures Stream(s + [x], w) == Stream(s, w) + Bits(x, w)
  {
    assert (s + [x])[..|s|] == s;
  }

  /** Bits cut into groups; bits that do not fill a group at the front are dropped. */
  function Regroup(b: seq<bool>, w: width): seq<nat> {
    if |b| < w then [] else Regroup(b[..|b| - w], w) + [Number(b[|b| - w..])]
  }

  lemma {:induction false} RegroupStream(s: seq<nat>, w: width)
    requires Fits(s, w)
    ensures Regroup(Stream(s, w), w) == s
    decreases |s|
  {
    hide Bits, Number;
    if s != [] {
      var init, x := s[..|s| - 1], s[|s| - 1];
      RegroupStream(init, w);
      NumberOfBits(x, w);
      var b := Stream(s, w);
      assert b[..|b| - w] == Stream(init, w) && b[|b| - w..] == Bits(x, w);
      assert s == init + [x];
    }
  }

  function Zeros(n: nat): (r: seq<bool>)
    ensures |r| == n
  {
    seq(n, _ => false)
  }

  lemma {:induction false} BitsOfZero(n: nat)
    ensures Bits(0, n) == Zeros(n)
    decreases n
  {
    if n > 0 {
      BitsOfZero(n - 1);
      assert Zeros(n) == Zeros(n - 1) + [false];
    }
  }

  // ---------------------------------------------------------------- the conversion

  /** How many bits fill up the last group. */
  function Missing(n: nat, w: width): nat {
    if n % w == 0 then 0 else w - n % w
  }

  /** With padding: the bits, filled up with zeros, in groups of the other width. */
  function Padded(input: seq<nat>, from: width, to: width): seq<nat> {
    var b := Stream(input, from);
    Regroup(b + Zeros(Missing(|b|, to)), to)
  }

  /** Without padding: what does not fill a group must be zeros, and less than one group of the input. */
  function Unpadded(input: seq<nat>, from: width, to: width): Option<seq<nat>> {
    var b := Stream(input, from);
    var r := |b| % to;
    if r < from && b[|b| - r..] == Zeros(r) then Some(Regroup(b[..|b| - r], to)) else None
  }

  lemma Remainder(n: nat, r: nat, w: width)
    requires r < w
    ensures (Span(n, w) + r) % w == r
  {
    if w == 5 {
    } else {
    }
  }

  /** The loop of convert_bits. The accumulator is a 32-bit word that shifts bits out at the top. */
  method Collect(input: seq<nat>, from: width, to: width) returns (out: seq<nat>, val: nat, bits: nat)
    requires Fits(input, from)
    ensures bits < to && Fits(out, to) && Stream(out, to) + Bits(val, bits) == Stream(input, from)
  {
    hide Bits, Pow2, Mask, ShiftLeft, ShiftRight, Stream;
    val, bits := 0, 0;
    out := [];
    var i := 0;
    NoBits(val, input, from, to);
    while i < |input|
      invariant 0 <= i <= |input| && bits < to && Fits(out, to)
      invariant Stream(out, to) + Bits(val, bits) == Stream(input[..i], from)
    {
      TakeIn(out, to, val, bits, input, i, from);
      val := Mask(ShiftLeft(val, from) + input[i], 32);
      bits := bits + from;
      while bits >= to
        invariant bits <= 15 && Fits(out, to)
        invariant Stream(out, to) + Bits(val, bits) == Stream(input[..i + 1], from)
      {
        bits := bits - to;
        var group := Mask(ShiftRight(val, bits), to);
        GiveOut(out, to, val, bits, group);
        out := out + [group];
      }
      i := i + 1;
    }
    assert input[..|input|] == input;
  }

  /** What is written and what is held back, before and after one group of the input. */
  lemma TakeIn(out: seq<nat>, to: width, val: nat, bits: nat, input: seq<nat>, i: nat, from: width)
    requires bits < 8 && i < |input| && input[i] < Pow2(from)
    requires Stream(out, to) + Bits(val, bits) == Stream(input[..i], from)
    ensures Stream(out, to) + Bits(Mask(ShiftLeft(val, from) + input[i], 32), bits + from)
            == Stream(input[..i + 1], from)
  {
    hide Bits, Pow2, Mask, ShiftLeft, Stream;
    ShiftIn(val, bits, input[i], from);
    assert input[..i + 1] == input[..i] + [input[i]];
    StreamLast(input[..i], input[i], from);
    assert Stream(out, to) + (Bits(val, bits) + Bits(input[i], from))
           == Stream(out, to) + Bits(val, bits) + Bits(input[i], from);
  }

  lemma GiveOut(out: seq<nat>, to: width, val: nat, bits: nat, group: nat)
    requires group == Mask(ShiftRight(val, bits), to)
    ensures Stream(out + [group], to) + Bits(val, bits) == Stream(out, to) + Bits(val, bits + to)
    ensures Fits(out, to) ==> Fits(out + [group], to)
  {
    hide Bits, Pow2, Mask, ShiftRight, Stream;
    ShiftOut(val, bits, to);
    StreamLast(out, group, to);
  }

  lemma NoBits(val: nat, input: seq<nat>, from: width, to: width)
    ensures Stream([], to) + Bits(val, 0) == Stream(input[..0], from)
  {
  }

  /** convert_bits. */
  method Convert(input: seq<nat>, from: width, to: width, pad: bool) returns (ok: bool, out: seq<nat>)
    requires Fits(input, from)
    ensures pad ==> ok && out == Padded(input, from, to)
    ensures !pad ==> (ok <==> Unpadded(input, from, to).Some?) && (ok ==> out == Unpadded(input, from, to).value)
  {
    hide Bits, Pow2, Regroup, Mask, ShiftLeft, Stream, Zeros, Span, Fits;
    var val: nat, bits: nat;
    out, val, bits := Collect(input, from, to);
    ghost var b := Stream(input, from);
    Remainder(|out|, bits, to);
    RegroupStream(out, to);
    if pad {
      if bits != 0 {
        var group := Mask(Mask(ShiftLeft(val, to - bits), 32), to);
        LastGroup(out, val, bits, to, group);
        assert Stream(out, to) + (Bits(val, bits) + Zeros(to - bits)) == b + Zeros(to - bits);
        out := out + [group];
      } else {
        assert b + Zeros(0) == Stream(out, to);
      }
      ok := true;
    } else {
      LeftOver(val, bits, to);
      assert b[|b| - bits..] == Bits(val, bits) && b[..|b| - bits] == Stream(out, to);
      if Mask(Mask(ShiftLeft(val, to - bits), 32), to) != 0 || bits >= from {
        return false, out;
      }
      ok := true;
    }
  }

  lemma LastGroup(out: seq<nat>, val: nat, bits: nat, to: width, group: nat)
    requires bits < to && Fits(out, to) && group == Mask(Mask(ShiftLeft(val, to - bits), 32), to)
    ensures Regroup(Stream(out, to) + (Bits(val, bits) + Zeros(to - bits)), to) == out + [group]
  {
    hide Bits, Pow2, Regroup, Mask, ShiftLeft, Stream, Zeros, Span;
    FillUp(val, bits, to);
    StreamLast(out, group, to);
    RegroupStream(out + [group], to);
  }

  lemma ShiftIn(val: nat, bits: nat, x: nat, from: width)
    requires bits < 8 && x < Pow2(from)
    ensures Bits(Mask(ShiftLeft(val, from) + x, 32), bits + from) == Bits(val, bits) + Bits(x, from)
  {
    hide Bits, Mask, Pow2, ShiftLeft;
    BitsMasked(ShiftLeft(val, from) + x, 32, bits + from);
    BitsShifted(val, x, bits, from);
  }

  lemma ShiftOut(val: nat, bits: nat, to: width)
    ensures Bits(val, bits + to) == Bits(Mask(ShiftRight(val, bits), to), to) + Bits(val, bits)
  {
    hide Bits, Mask, Pow2, ShiftRight;
    BitsSplit(val, to, bits);
    BitsMasked(ShiftRight(val, bits), to, to);
  }

  lemma FillUp(val: nat, bits: nat, to: width)
    requires bits < to
    ensures Bits(Mask(Mask(ShiftLeft(val, to - bits), 32), to), to) == Bits(val, bits) + Zeros(to - bits)
  {
    hide Bits, Mask, Pow2, ShiftLeft;
    var v := ShiftLeft(val, to - bits);
    BitsMasked(Mask(v, 32), to, to);
    BitsMasked(v, 32, to);
    BitsShifted(val, 0, bits, to - bits);
    BitsOfZero(to - bits);
  }

  lemma LeftOver(val: nat, bits: nat, to: width)
    requires bits < to
    ensures Mask(Mask(ShiftLeft(val, to - bits), 32), to) == 0 <==> Bits(val, bits) == Zeros(bits)
  {
    hide Bits, Mask, Pow2, ShiftLeft;
    FillUp(val, bits, to);
    var g := Mask(Mask(ShiftLeft(val, to - bits), 32), to);
    NumberOfBits(g, to);
    NumberOfBits(0, to);
    BitsOfZero(to);
    assert Zeros(to) == Zeros(bits) + Zeros(to - bits);
    assert Bits(val, bits) == (Bits(val, bits) + Zeros(to - bits))[..bits];
    assert Zeros(bits) == (Zeros(bits) + Zeros(to - bits))[..bits];
  }

  // ---------------------------------------------------------------- the two directions

  predicate Full(n: nat, w: width) {
    n % w == 0
  }

  lemma FullStep(n: nat, w: width)
    requires Full(n, w)
    ensures if n < w then n == 0 else Full(n - w, w)
  {
    if w == 5 {
    } else {
    }
  }

  lemma RegroupLast(b: seq<bool>, w: width)
    ensures |b| < w ==> Regroup(b, w) == [] && Stream([], w) == []
    ensures |b| >= w ==> Regroup(b, w) == Regroup(b[..|b| - w], w) + [Number(b[|b| - w..])]
  {
    hide Number;
  }

  lemma {:induction false} StreamOfRegroup(b: seq<bool>, w: width)
    requires Full(|b|, w)
    ensures Fits(Regroup(b, w), w) && Stream(Regroup(b, w), w) == b
    decreases |b|
  {
    hide Bits, Number, Full, Pow2, Regroup, Stream;
    FullStep(|b|, w);
    RegroupLast(b, w);
    if |b| >= w {
      var init, last := b[..|b| - w], b[|b| - w..];
      StreamOfRegroup(init, w);
      BitsOfNumber(last);
      StreamLast(Regroup(init, w), Number(last), w);
      assert b == init + last;
    }
  }

  lemma FilledUp(n: nat, w: width)
    ensures (n + Missing(n, w)) % w == 0 && Missing(n, w) < w
  {
    if w == 5 {
    } else {
    }
  }

  /** Bytes survive the way to symbols and back. */
  lemma BytesSurvive(p: seq<nat>)
    requires Fits(p, 8)
    ensures Fits(Padded(p, 8, 5), 5) && Unpadded(Padded(p, 8, 5), 5, 8) == Some(p)
    ensures |Padded(p, 8, 5)| == (8 * |p| + 4) / 5
  {
    hide Regroup, Stream, Missing, Fits, Zeros;
    var b := Stream(p, 8);
    var k := Missing(|b|, 5);
    FilledUp(|b|, 5);
    StreamOfRegroup(b + Zeros(k), 5);
    var s := Padded(p, 8, 5);
    assert Stream(s, 5) == b + Zeros(k);
    Remainder(|p|, k, 8);
    assert (b + Zeros(k))[..|b|] == b && (b + Zeros(k))[|b|..] == Zeros(k);
    RegroupStream(p, 8);
  }

  lemma ReadUnpadded(s: seq<nat>, p: seq<nat>)
    requires Fits(s, 5) && Unpadded(s, 5, 8) == Some(p)
    ensures Fits(p, 8) && exists r :: 0 <= r < 5 && Stream(s, 5) == Stream(p, 8) + Zeros(r)
  {
    hide Regroup, Stream, Span, Fits, Zeros;
    var b := Stream(s, 5);
    var r := |b| % 8;
    var whole := b[..|b| - r];
    StreamOfRegroup(whole, 8);
    assert b == whole + Zeros(r);
  }

  /** Symbols that convert to bytes are the ones that these bytes convert to. */
  lemma SymbolsSurvive(s: seq<nat>, p: seq<nat>)
    requires Fits(s, 5) && Unpadded(s, 5, 8) == Some(p)
    ensures Fits(p, 8) && Padded(p, 8, 5) == s && |p| == 5 * |s| / 8
  {
    hide Regroup, Stream, Unpadded, Fits, Zeros, Missing;
    ReadUnpadded(s, p);
    var r :| 0 <= r < 5 && Stream(s, 5) == Stream(p, 8) + Zeros(r);
    assert |Stream(s, 5)| == |Stream(p, 8)| + r;
    MissingIs(|Stream(p, 8)|, r, |s|);
    RegroupStream(s, 5);
  }

  lemma MissingIs(n: nat, r: nat, m: nat)
    requires n + r == 5 * m && r < 5
    ensures Missing(n, 5) == r
  {
  }
}
