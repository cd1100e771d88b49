/** The second pass over a miniscript expression (compute_miniscript_policy_ext_info): size of the
    script, number of opcodes, worst-case number of witness elements, signature and timelock flags.
    The malleability flags and the opcode counts of CHECKMULTISIG keys are not part of this model. */
module MiniscriptAnalysis {
  import opened Wrappers
  import opened BitcoinScript
  import opened Miniscript

  type int16 = x: int | -0x8000 <= x < 0x8000
  type uint16 = x: int | 0 <= x < 0x1_0000

  const INT16_MAX := 32767
  const MAX_N_IN_THRESH := 128
  const TABLE_SIZE := MAX_N_IN_THRESH + 2

  function ToU16(x: int): uint16 {
    x % 0x1_0000
  }

  function ToI16(x: uint16): int16 {
    if x < 0x8000 then x else x - 0x1_0000
  }

  // -1 stands for "not possible"; sums stop at INT16_MAX.
  function SumCheck(a: int16, b: int16): int16 {
    if a < 0 || b < 0 then -1
    else if a + b > INT16_MAX then INT16_MAX
    else a + b
  }

  function MaxCheck(a: int16, b: int16): int16 {
    if a < 0 then b else if a > b then a else b
  }

  /** Maximum number of witness elements to satisfy and to dissatisfy. */
  datatype StackSize = StackSize(sat: int16, dsat: int16)

  datatype ExtInfo = ExtInfo(
    ss: StackSize,
    opCount: uint16,
    scriptSize: uint16,
    s: bool,  // has a signature
    g: bool,  // contains a relative time lock
    h: bool,  // contains a relative height lock
    i: bool,  // contains an absolute time lock
    j: bool,  // contains an absolute height lock
    k: bool,  // no mix of height and time locks
    x: bool)  // the last opcode has no VERIFY form

  function PushSize(n: nat): nat {
    if n <= 16 then 1
    else if n < 0x80 then 2
    else if n < 0x8000 then 3
    else if n < 0x80_0000 then 4
    else if n < 0x8000_0000 then 5
    else 6
  }

  predicate IsRelativeTime(n: nat) {
    (n / 0x40_0000) % 2 == 1  // SEQUENCE_LOCKTIME_TYPE_FLAG, bit 22
  }

  predicate IsAbsoluteTime(n: nat) {
    n >= 500000000  // LOCKTIME_THRESHOLD
  }

  function Plain(ss: StackSize, opCount: uint16, scriptSize: uint16, s: bool, x: bool): ExtInfo {
    ExtInfo(ss, opCount, scriptSize, s, false, false, false, false, true, x)
  }

  function LeafInfo(n: Leaf): ExtInfo {
    match n
    case Zero => Plain(StackSize(-1, 0), 0, 1, true, true)
    case One => Plain(StackSize(0, -1), 0, 1, false, true)
    case PkK(_) => Plain(StackSize(1, 1), 0, 34, true, true)
    case PkH(_) => Plain(StackSize(2, 2), 3, 3 + 21, true, true)
    case Pk(_) => Plain(StackSize(1, 1), 1, 34 + 1, true, false)
    case Pkh(_) => Plain(StackSize(2, 2), 4, 3 + 21 + 1, true, false)
    case Multi(k, keys) =>
      Plain(StackSize(ToI16(ToU16(k + 1)), ToI16(ToU16(k + 1))), 1,
                 ToU16(1 + PushSize(k) + PushSize(|keys|) + 34 * |keys|), true, false)
    case Older(m) =>
      ExtInfo(StackSize(0, -1), 1, ToU16(1 + PushSize(m)), false,
                   IsRelativeTime(m), !IsRelativeTime(m), false, false, true, true)
    case After(m) =>
      ExtInfo(StackSize(0, -1), 1, ToU16(1 + PushSize(m)), false,
                   false, false, IsAbsoluteTime(m), !IsAbsoluteTime(m), true, true)
    case HashLock(kind, _) =>
      Plain(StackSize(1, -1), 4, 4 + 2 + (if DigestLength(kind) == 32 then 33 else 21), false, false)
  }

  predicate MixesLocks(x: ExtInfo, y: ExtInfo) {
    (x.g && y.h) || (x.h && y.g) || (x.i && y.j) || (x.j && y.i)
  }

  /** The parts that all binary nodes compute alike. */
  function Pair(x: ExtInfo, y: ExtInfo, ss: StackSize, ops: nat, size: nat, s: bool, k: bool, last: bool): ExtInfo {
    ExtInfo(ss, ToU16(ops + x.opCount + y.opCount), ToU16(size + x.scriptSize + y.scriptSize), s,
            x.g || y.g, x.h || y.h, x.i || y.i, x.j || y.j, k, last)
  }

  function AndOrInfo(x: ExtInfo, y: ExtInfo, z: ExtInfo): ExtInfo {
    ExtInfo(
      StackSize(MaxCheck(SumCheck(x.ss.sat, y.ss.sat), SumCheck(x.ss.dsat, z.ss.sat)), SumCheck(x.ss.dsat, z.ss.dsat)),
      ToU16(3 + x.opCount + y.opCount + z.opCount),
      ToU16(3 + x.scriptSize + y.scriptSize + z.scriptSize),
      z.s && (x.s || y.s),
      x.g || y.g || z.g, x.h || y.h || z.h, x.i || y.i || z.i, x.j || y.j || z.j,
      x.k && y.k && z.k && !MixesLocks(x, y),
      true)
  }

  function AndVInfo(x: ExtInfo, y: ExtInfo): ExtInfo {
    Pair(x, y, StackSize(SumCheck(x.ss.sat, y.ss.sat), -1), 0, 0, x.s || y.s, x.k && y.k && !MixesLocks(x, y), y.x)
  }

  function AndBInfo(x: ExtInfo, y: ExtInfo): ExtInfo {
    Pair(x, y, StackSize(SumCheck(x.ss.sat, y.ss.sat), SumCheck(x.ss.dsat, y.ss.dsat)), 1, 1,
         x.s || y.s, x.k && y.k && !MixesLocks(x, y), true)
  }

  function AndNInfo(x: ExtInfo, y: ExtInfo): ExtInfo {
    Pair(x, y, StackSize(SumCheck(x.ss.sat, y.ss.sat), x.ss.dsat), 3, 4,
         x.s || y.s, x.k && y.k && !MixesLocks(x, y), true)
  }

  function OrBInfo(x: ExtInfo, z: ExtInfo): ExtInfo {
    Pair(x, z, StackSize(MaxCheck(SumCheck(x.ss.dsat, z.ss.sat), SumCheck(x.ss.sat, z.ss.dsat)),
                         SumCheck(x.ss.dsat, z.ss.dsat)),
         1, 1, x.s && z.s, x.k && z.k, true)
  }

  function OrCInfo(x: ExtInfo, z: ExtInfo): ExtInfo {
    Pair(x, z, StackSize(MaxCheck(x.ss.sat, SumCheck(x.ss.dsat, z.ss.sat)), -1), 2, 2, x.s && z.s, x.k && z.k, true)
  }

  function OrDInfo(x: ExtInfo, z: ExtInfo): ExtInfo {
    Pair(x, z, StackSize(MaxCheck(x.ss.sat, SumCheck(x.ss.dsat, z.ss.sat)), SumCheck(x.ss.dsat, z.ss.dsat)),
         3, 3, x.s && z.s, x.k && z.k, true)
  }

  function OrIInfo(x: ExtInfo, z: ExtInfo): ExtInfo {
    Pair(x, z, StackSize(MaxCheck(SumCheck(x.ss.sat, 1), SumCheck(z.ss.sat, 1)),
                         MaxCheck(SumCheck(x.ss.dsat, 1), SumCheck(z.ss.dsat, 1))),
         3, 3, x.s && z.s, x.k && z.k, true)
  }

  function BinaryInfo(op: BinOp, x: ExtInfo, y: ExtInfo): ExtInfo {
    match op
    case AndV => AndVInfo(x, y)
    case AndB => AndBInfo(x, y)
    case AndN => AndNInfo(x, y)
    case OrB => OrBInfo(x, y)
    case OrC => OrCInfo(x, y)
    case OrD => OrDInfo(x, y)
    case OrI => OrIInfo(x, y)
  }

  function WrapInfo(w: Wrapper, x: ExtInfo): ExtInfo {
    match w
    case WrapA => x.(opCount := ToU16(2 + x.opCount), scriptSize := ToU16(x.scriptSize + 2), x := true)
    case WrapS => x.(opCount := ToU16(1 + x.opCount), scriptSize := ToU16(x.scriptSize + 1))
    case WrapN => x.(opCount := ToU16(1 + x.opCount), scriptSize := ToU16(x.scriptSize + 1), x := true)
    case WrapC => x.(opCount := ToU16(1 + x.opCount), scriptSize := ToU16(x.scriptSize + 1), s := true, x := false)
    case WrapD => x.(opCount := ToU16(3 + x.opCount), scriptSize := ToU16(x.scriptSize + 3),
                     ss := StackSize(SumCheck(1, x.ss.sat), 1), x := true)
    case WrapT => x.(scriptSize := ToU16(x.scriptSize + 1), ss := StackSize(x.ss.sat, -1), x := true)
    case WrapV => x.(opCount := ToU16(x.opCount + (if x.x then 1 else 0)),
                     scriptSize := ToU16(x.scriptSize + (if x.x then 1 else 0)), ss := StackSize(x.ss.sat, -1),
                         x := true)
    case WrapJ => x.(opCount := ToU16(4 + x.opCount), scriptSize := ToU16(x.scriptSize + 4),
                     ss := StackSize(x.ss.sat, 1), x := true)
    case WrapL => WrapLUInfo(x)
    case WrapU => WrapLUInfo(x)
  }

  function WrapLUInfo(x: ExtInfo): ExtInfo {
    x.(opCount := ToU16(3 + x.opCount), scriptSize := ToU16(x.scriptSize + 4),
       ss := StackSize(SumCheck(x.ss.sat, 1), MaxCheck(1, SumCheck(x.ss.dsat, 1))), x := true)
  }

  // ---------------------------------------------------------------- thresh

  /** One round of the dynamic program, where sats[j] is the worst case with j children satisfied. */
  function NextSat(sats: seq<int16>, c: StackSize, j: nat): int16
    requires |sats| >= 1 && j <= |sats|
  {
    if j == 0 then SumCheck(sats[0], c.dsat)
    else if j < |sats| then MaxCheck(SumCheck(sats[j], c.dsat), SumCheck(sats[j - 1], c.sat))
    else SumCheck(sats[|sats| - 1], c.sat)
  }

  function NextSats(sats: seq<int16>, c: StackSize): (r: seq<int16>)
    requires |sats| >= 1
    ensures |r| == |sats| + 1
    ensures forall j :: 0 <= j <= |sats| ==> r[j] == NextSat(sats, c, j)
  {
    seq(|sats| + 1, j requires 0 <= j <= |sats| => NextSat(sats, c, j))
  }

  function ThreshSats(cs: seq<StackSize>): (r: seq<int16>)
    ensures |r| == |cs| + 1
  {
    if cs == [] then [0] else NextSats(ThreshSats(cs[..|cs| - 1]), cs[|cs| - 1])
  }

  /** The flags and counters that the loop over the children of thresh accumulates. */
  datatype ThreshAcc = ThreshAcc(countS: nat, size: nat, ops: nat, g: bool, h: bool, i: bool, j: bool, k: bool)

  function ThreshStep(kk: nat, a: ThreshAcc, t: ExtInfo): ThreshAcc {
    var g, h, i, j := a.g || t.g, a.h || t.h, a.i || t.i, a.j || t.j;
    ThreshAcc(a.countS + (if t.s then 1 else 0), a.size + t.scriptSize, a.ops + t.opCount + 1, g, h, i, j,
              a.k && t.k && !(kk >= 2 && ((t.g && h) || (t.h && g) || (t.i && j) || (t.j && i))))
  }

  function ThreshFold(kk: nat, ts: seq<ExtInfo>): ThreshAcc {
    if ts == [] then ThreshAcc(0, 0, 0, false, false, false, false, true)
    else ThreshStep(kk, ThreshFold(kk, ts[..|ts| - 1]), ts[|ts| - 1])
  }

  function Sizes(ts: seq<ExtInfo>): (r: seq<StackSize>)
    ensures |r| == |ts|
  {
    seq(|ts|, i requires 0 <= i < |ts| => ts[i].ss)
  }

  /** What the table holds in the end: the cells above the number of children keep their initial 0. */
  function ThreshStackSize(k: nat, cs: seq<StackSize>): StackSize {
    var sats := ThreshSats(cs);
    StackSize(if k <= |cs| then sats[k] else 0, sats[0])
  }

  /** None where the source gives up (more than 128 children) or would read outside its table. */
  function ThreshInfo(k: nat, ts: seq<ExtInfo>): Option<ExtInfo> {
    if |ts| > MAX_N_IN_THRESH || k >= TABLE_SIZE then None
    else
      var a := ThreshFold(k, ts);
      Some(ExtInfo(ThreshStackSize(k, Sizes(ts)), ToU16(a.ops), ToU16(a.size + |ts| + PushSize(k)),
                   |ts| - a.countS <= k - 1, a.g, a.h, a.i, a.j, a.k, false))
  }

  function Info(n: Node): Option<ExtInfo>
    decreases n, 1
  {
    match n
    case Atom(leaf) => Some(LeafInfo(leaf))
    case Wrap(w, x) => var a :- Info(x); Some(WrapInfo(w, a))
    case Binary(op, x, y) => var a :- Info(x); var b :- Info(y); Some(BinaryInfo(op, a, b))
    case AndOr(x, y, z) => var a :- Info(x); var b :- Info(y); var c :- Info(z); Some(AndOrInfo(a, b, c))
    case Thresh(k, xs) => var ts :- Infos(xs); ThreshInfo(k, ts)
  }

  function Infos(xs: seq<Node>): (r: Option<seq<ExtInfo>>)
    ensures r.Some? ==> |r.value| == |xs| && forall i :: 0 <= i < |xs| ==> Info(xs[i]) == Some(r.value[i])
    decreases xs, 0
  {
    if xs == [] then Some([])
    else
      var t :- Info(xs[0]);
      var ts :- Infos(xs[1..]);
      Some([t] + ts)
  }

  // A table cell holds an int16 as the unsigned number with the same bits.
  function Cell(x: int16): uint16 {
    if x < 0 then x + 0x1_0000 else x
  }

  ghost predicate Holds(table: array<uint16>, sats: seq<int16>)
    reads table
  {
    |sats| <= table.Length && forall j :: 0 <= j < |sats| ==> table[j] == Cell(sats[j])
  }

  ghost predicate ZeroFrom(table: array<uint16>, m: nat)
    reads table
  {
    forall j :: m <= j < table.Length ==> table[j] == 0
  }

  /** One round: fills next from the table of the children seen so far and copies it back. */
  method Round(sats: array<uint16>, next: array<uint16>, ghost prev: seq<int16>, satsSize: nat, t: StackSize)
    requires sats != next && |prev| == satsSize >= 1 && satsSize < sats.Length == next.Length
    requires Holds(sats, prev) && ZeroFrom(sats, satsSize)
    modifies sats, next
    ensures Holds(sats, NextSats(prev, t)) && ZeroFrom(sats, satsSize + 1)
  {
    ghost var goal := NextSats(prev, t);
    next[0] := Cell(SumCheck(ToI16(sats[0]), t.dsat));
    var j := 1;
    while j < satsSize
      invariant 1 <= j <= satsSize && Holds(next, goal[..j])
      invariant Holds(sats, prev) && ZeroFrom(sats, satsSize)
    {
      next[j] := Cell(MaxCheck(SumCheck(ToI16(sats[j]), t.dsat), SumCheck(ToI16(sats[j - 1]), t.sat)));
      j := j + 1;
    }
    next[satsSize] := Cell(SumCheck(ToI16(sats[satsSize - 1]), t.sat));
    assert Holds(next, goal);
    forall m | 0 <= m < satsSize + 1 {
      sats[m] := next[m];
    }
  }

  /** compute_thresh_stacksize: the dynamic program in two tables of 16-bit unsigned cells. */
  method ComputeThreshStackSize(k: nat, cs: seq<StackSize>) returns (r: Option<StackSize>)
    requires k < TABLE_SIZE
    ensures r == if |cs| > MAX_N_IN_THRESH then None else Some(ThreshStackSize(k, cs))
  {
    if |cs| > MAX_N_IN_THRESH {
      return None;
    }
    var sats := new uint16[TABLE_SIZE](_ => 0);
    var nextSats := new uint16[TABLE_SIZE](_ => 0);
    var cur := 0;
    assert cs[..0] == [];
    while cur < |cs|
      invariant 0 <= cur <= |cs| && Holds(sats, ThreshSats(cs[..cur])) && ZeroFrom(sats, cur + 1)
    {
      Round(sats, nextSats, ThreshSats(cs[..cur]), cur + 1, cs[cur]);
      assert cs[..cur + 1][..cur] == cs[..cur];
      cur := cur + 1;
    }
    assert cs[..|cs|] == cs;
    r := Some(StackSize(ToI16(sats[k]), ToI16(sats[0])));
  }
}
