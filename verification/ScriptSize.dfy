/** The size analysis agrees with the translation to Script: script_size is the number of bytes of the
    serialized script (modulo 2^16, the width of the field), ops.count the number of its opcodes that
    are not pushes, and x tells whether the last opcode cannot absorb a VERIFY. */
module ScriptSize {
  import opened Wrappers
  import opened BitcoinScript
  import opened Miniscript
  import opened MiniscriptAnalysis

  function ByteSize(s: Script): nat {
    |Serialize(s)|
  }

  function Ops(s: Script): nat {
    if s == [] then 0 else (if IsPush(s[0]) then 0 else 1) + Ops(s[1..])
  }

  lemma {:induction false} SerializeAppend(a: Script, b: Script)
    ensures Serialize(a + b) == Serialize(a) + Serialize(b)
    ensures ByteSize(a + b) == ByteSize(a) + ByteSize(b)
    ensures Ops(a + b) == Ops(a) + Ops(b)
    decreases a
  {
    if a == [] {
      assert a + b == b;
    } else {
      assert (a + b)[1..] == a[1..] + b;
      SerializeAppend(a[1..], b);
    }
  }

  lemma MeasureOne(op: Op)
    ensures ByteSize([op]) == |SerializeOp(op)| && Ops([op]) == if IsPush(op) then 0 else 1
  {
    assert [op][1..] == [];
    assert Serialize([op]) == SerializeOp(op) + [];
  }

  lemma MeasurePrepend(op: Op, s: Script)
    ensures ByteSize([op] + s) == |SerializeOp(op)| + ByteSize(s)
            && Ops([op] + s) == (if IsPush(op) then 0 else 1) + Ops(s)
  {
    SerializeAppend([op], s);
    MeasureOne(op);
  }

  lemma MeasurePostfix(s: Script, op: Op)
    ensures ByteSize(s + [op]) == ByteSize(s) + |SerializeOp(op)|
    ensures Ops(s + [op]) == Ops(s) + if IsPush(op) then 0 else 1
  {
    SerializeAppend(s, [op]);
    MeasureOne(op);
  }

  /** What a 16-bit counter shows after counting up to n. */
  function Low16(n: nat): uint16 {
    if n < 0x1_0000 then n else Low16(n - 0x1_0000)
  }

  lemma {:induction false} Low16IsModulo(n: nat)
    ensures Low16(n) == ToU16(n)
  {
    if n >= 0x1_0000 {
      Low16IsModulo(n - 0x1_0000);
    }
  }

  lemma U16Add(a: nat, b: nat, c: nat)
    ensures ToU16(c + ToU16(a) + ToU16(b)) == ToU16(a + b + c)
  {
  }

  lemma Low16Add(a: nat, b: nat, c: nat)
    ensures ToU16(c + Low16(a) + Low16(b)) == Low16(a + b + c)
  {
    Low16IsModulo(a);
    Low16IsModulo(b);
    Low16IsModulo(a + b + c);
    U16Add(a, b, c);
  }

  lemma Low16Add1(a: nat, c: nat)
    ensures ToU16(Low16(a) + c) == Low16(a + c)
  {
    Low16Add(a, 0, c);
  }

  /** The analysis record i describes the script s. */
  predicate Measured(s: Script, i: ExtInfo) {
    && s != []
    && i.scriptSize == Low16(ByteSize(s)) && i.opCount == Low16(Ops(s))
    && (i.x <==> !Absorbs(s[|s| - 1]))
  }

  // ---------------------------------------------------------------- numbers

  /** get_push_script_size is the length of the push of a number below 2^31. */
  lemma PushSizeExact(n: nat)
    requires n < 0x8000_0000
    ensures |SerializeOp(PushNum(n))| == PushSize(n)
  {
    if n > 16 {
      EncodedLength(n);
    }
  }

  lemma EncodedLength(n: nat)
    requires 0 < n < 0x8000_0000
    ensures |EncodePositive(n)| == if n < 0x80 then 1 else if n < 0x8000 then 2 else if n < 0x80_0000 then 3 else 4
  {
    var n1, n2, n3 := n / 256, n / 256 / 256, n / 256 / 256 / 256;
    assert n >= 0x80 ==> |EncodePositive(n)| == 1 + |EncodePositive(n1)|;
    assert n1 >= 0x80 ==> |EncodePositive(n1)| == 1 + |EncodePositive(n2)|;
    assert n2 >= 0x80 ==> |EncodePositive(n2)| == 1 + |EncodePositive(n3)|;
  }

  // ---------------------------------------------------------------- leaves

  lemma {:induction false} MeasureKeys(env: Env, keys: seq<nat>)
    requires env.Valid()
    ensures ByteSize(PushKeys(env, keys)) == 34 * |keys| && Ops(PushKeys(env, keys)) == 0
    decreases keys
  {
    if keys != [] {
      MeasureKeys(env, keys[1..]);
      MeasurePrepend(Push(env.key(keys[0])), PushKeys(env, keys[1..]));
    }
  }

  lemma MultiMeasured(env: Env, k: nat, keys: seq<nat>)
    requires env.Valid() && LeafType(Multi(k, keys)).Some?
    ensures Measured(LeafScript(env, Multi(k, keys)), LeafInfo(Multi(k, keys)))
  {
    var pk, pn, body := PushNum(k), PushNum(|keys|), PushKeys(env, keys);
    assert LeafScript(env, Multi(k, keys)) == [pk] + body + [pn] + [CheckMultisig(false)];
    MeasureKeys(env, keys);
    MeasurePrepend(pk, body);
    MeasurePostfix([pk] + body, pn);
    MeasurePostfix([pk] + body + [pn], CheckMultisig(false));
    PushSizeExact(k);
    PushSizeExact(|keys|);
  }

  lemma Measure2(a: Op, b: Op)
    ensures ByteSize([a, b]) == |SerializeOp(a)| + |SerializeOp(b)|
    ensures Ops([a, b]) == (if IsPush(a) then 0 else 1) + (if IsPush(b) then 0 else 1)
  {
    assert [a, b] == [a] + [b];
    MeasurePrepend(a, [b]);
    MeasureOne(b);
  }

  lemma Measure3(a: Op, b: Op, c: Op)
    ensures ByteSize([a, b, c]) == |SerializeOp(a)| + |SerializeOp(b)| + |SerializeOp(c)|
    ensures Ops([a, b, c]) == (if IsPush(a) then 0 else 1) + (if IsPush(b) then 0 else 1) + (if IsPush(c) then 0 else 1)
  {
    assert [a, b, c] == [a] + [b, c];
    MeasurePrepend(a, [b, c]);
    Measure2(b, c);
  }

  lemma KeyHashMeasured(env: Env, key: nat)
    requires env.Valid()
    ensures Measured(LeafScript(env, PkH(key)), LeafInfo(PkH(key)))
    ensures Measured(LeafScript(env, Pkh(key)), LeafInfo(Pkh(key)))
  {
    var h := Push(env.hash(Hash160, env.key(key)));
    assert LeafScript(env, PkH(key)) == [Dup, HashOp(Hash160), h] + [Equal(true)];
    Measure3(Dup, HashOp(Hash160), h);
    MeasurePostfix([Dup, HashOp(Hash160), h], Equal(true));
    assert LeafScript(env, Pkh(key)) == LeafScript(env, PkH(key)) + [CheckSig(false)];
    MeasurePostfix(LeafScript(env, PkH(key)), CheckSig(false));
  }

  lemma HashLockMeasured(env: Env, kind: HashKind, h: Bytes)
    requires LeafType(HashLock(kind, h)).Some?
    ensures Measured(LeafScript(env, HashLock(kind, h)), LeafInfo(HashLock(kind, h)))
  {
    var a, b := [Size, PushNum(32), Equal(true)], [HashOp(kind), Push(h), Equal(false)];
    assert LeafScript(env, HashLock(kind, h)) == a + b;
    Measure3(Size, PushNum(32), Equal(true));
    Measure3(HashOp(kind), Push(h), Equal(false));
    SerializeAppend(a, b);
  }

  lemma LocksMeasured(env: Env, m: nat)
    requires m < 0x8000_0000
    ensures Measured(LeafScript(env, Older(m)), LeafInfo(Older(m)))
    ensures Measured(LeafScript(env, After(m)), LeafInfo(After(m)))
  {
    PushSizeExact(m);
    Measure2(PushNum(m), Csv);
    Measure2(PushNum(m), Cltv);
  }

  lemma LeafMeasured(env: Env, n: Leaf)
    requires env.Valid() && LeafType(n).Some?
    ensures Measured(LeafScript(env, n), LeafInfo(n))
  {
    match n
    case Zero => MeasureOne(Small(0));
    case One => MeasureOne(Small(1));
    case PkK(key) => MeasureOne(Push(env.key(key)));
    case PkH(key) => KeyHashMeasured(env, key);
    case Pk(key) => Measure2(Push(env.key(key)), CheckSig(false));
    case Pkh(key) => KeyHashMeasured(env, key);
    case Older(m) => LocksMeasured(env, m);
    case After(m) => LocksMeasured(env, m);
    case HashLock(kind, h) => HashLockMeasured(env, kind, h);
    case Multi(k, keys) => MultiMeasured(env, k, keys);
  }

  // ---------------------------------------------------------------- combinators

  /** Bytes and opcodes that a wrapper adds; VERIFY is free where the last opcode absorbs it. */
  function WrapBytes(w: Wrapper, absorbs: bool): nat {
    match w
    case WrapA => 2
    case WrapS => 1
    case WrapC => 1
    case WrapT => 1
    case WrapD => 3
    case WrapV => if absorbs then 0 else 1
    case WrapJ => 4
    case WrapN => 1
    case WrapL => 4
    case WrapU => 4
  }

  function WrapOps(w: Wrapper, absorbs: bool): nat {
    match w
    case WrapT => 0
    case WrapL => 3
    case WrapU => 3
    case _ => WrapBytes(w, absorbs)
  }

  predicate LastAbsorbs(s: Script)
    requires s != []
  {
    Absorbs(s[|s| - 1])
  }

  lemma AddVerifySize(x: Script)
    requires x != []
    ensures ByteSize(AddVerify(x)) == ByteSize(x) + WrapBytes(WrapV, LastAbsorbs(x))
    ensures Ops(AddVerify(x)) == Ops(x) + WrapOps(WrapV, LastAbsorbs(x))
  {
    if LastAbsorbs(x) {
      var init, last := x[..|x| - 1], x[|x| - 1];
      var merged := AddVerify(x)[|x| - 1];
      assert x == init + [last] && AddVerify(x) == init + [merged];
      MeasurePostfix(init, last);
      MeasurePostfix(init, merged);
    } else {
      MeasurePostfix(x, Verify);
    }
  }

  lemma AroundSize(a: Script, x: Script, b: Script)
    ensures ByteSize(a + x + b) == ByteSize(a) + ByteSize(x) + ByteSize(b)
    ensures Ops(a + x + b) == Ops(a) + Ops(x) + Ops(b)
  {
    SerializeAppend(a, x);
    SerializeAppend(a + x, b);
  }

  lemma WrapSize(w: Wrapper, x: Script)
    requires x != []
    ensures ByteSize(WrapScript(w, x)) == ByteSize(x) + WrapBytes(w, LastAbsorbs(x))
    ensures Ops(WrapScript(w, x)) == Ops(x) + WrapOps(w, LastAbsorbs(x))
  {
    match w
    case WrapA => AroundSize([ToAltStack], x, [FromAltStack]); MeasureOne(ToAltStack); MeasureOne(FromAltStack);
    case WrapS => MeasurePrepend(Swap, x);
    case WrapC => MeasurePostfix(x, CheckSig(false));
    case WrapT => MeasurePostfix(x, Small(1));
    case WrapD => AroundSize([Dup, If(false)], x, [EndIf]); Measure2(Dup, If(false)); MeasureOne(EndIf);
    case WrapV => AddVerifySize(x);
    case WrapJ =>
      AroundSize([Size, ZeroNotEqual, If(false)], x, [EndIf]);
      Measure3(Size, ZeroNotEqual, If(false));
      MeasureOne(EndIf);
    case WrapN => MeasurePostfix(x, ZeroNotEqual);
    case WrapL =>
      AroundSize([If(false), Small(0), Else], x, [EndIf]);
      Measure3(If(false), Small(0), Else);
      MeasureOne(EndIf);
    case WrapU =>
      AroundSize([If(false)], x, [Else, Small(0), EndIf]);
      MeasureOne(If(false));
      Measure3(Else, Small(0), EndIf);
  }

  lemma Extended(x: Script, a: ExtInfo, s: Script, i: ExtInfo, bytes: nat, ops: nat)
    requires Measured(x, a) && s != [] && i.x == !LastAbsorbs(s)
    requires ByteSize(s) == ByteSize(x) + bytes && i.scriptSize == ToU16(a.scriptSize + bytes)
    requires Ops(s) == Ops(x) + ops && i.opCount == ToU16(a.opCount + ops)
    ensures Measured(s, i)
  {
    hide ByteSize, Ops, Low16, ToU16;
    Low16Add1(ByteSize(x), bytes);
    Low16Add1(Ops(x), ops);
  }

  lemma WrapMeasured(w: Wrapper, x: Script, a: ExtInfo)
    requires Measured(x, a)
    ensures Measured(WrapScript(w, x), WrapInfo(w, a))
  {
    hide ByteSize, Ops, Low16, ToU16, WrapScript, WrapInfo, WrapBytes, WrapOps;
    var absorbs := LastAbsorbs(x);
    WrapSize(w, x);
    WrapInfoSizes(w, a, absorbs);
    WrapLast(w, x, a.x);
    Extended(x, a, WrapScript(w, x), WrapInfo(w, a), WrapBytes(w, absorbs), WrapOps(w, absorbs));
  }

  lemma WrapInfoSizes(w: Wrapper, a: ExtInfo, absorbs: bool)
    requires absorbs == !a.x
    ensures WrapInfo(w, a).scriptSize == ToU16(a.scriptSize + WrapBytes(w, absorbs))
    ensures WrapInfo(w, a).opCount == ToU16(a.opCount + WrapOps(w, absorbs))
    ensures WrapInfo(w, a).x == (w != WrapC && (w != WrapS || a.x))
  {
    match w
    case WrapA =>
    case WrapS =>
    case WrapC =>
    case WrapT => assert a.opCount == ToU16(a.opCount);
    case WrapD =>
    case WrapV =>
    case WrapJ =>
    case WrapN =>
    case WrapL =>
    case WrapU =>
  }

  lemma WrapLast(w: Wrapper, x: Script, last: bool)
    requires x != [] && last == !LastAbsorbs(x)
    ensures WrapScript(w, x) != [] && !LastAbsorbs(WrapScript(w, x)) == (w != WrapC && (w != WrapS || last))
  {
  }

  function BinaryBytes(op: BinOp): nat {
    match op
    case AndV => 0
    case AndB => 1
    case AndN => 4
    case OrB => 1
    case OrC => 2
    case OrD => 3
    case OrI => 3
  }

  function BinaryOps(op: BinOp): nat {
    if op == AndN then 3 else BinaryBytes(op)
  }

  lemma BetweenSize(x: Script, a: Script, y: Script, b: Script)
    ensures ByteSize(x + a + y + b) == ByteSize(x) + ByteSize(a) + ByteSize(y) + ByteSize(b)
    ensures Ops(x + a + y + b) == Ops(x) + Ops(a) + Ops(y) + Ops(b)
  {
    AroundSize(x, a, y);
    SerializeAppend(x + a + y, b);
  }

  lemma BinarySize(op: BinOp, x: Script, y: Script)
    ensures ByteSize(BinaryScript(op, x, y)) == ByteSize(x) + ByteSize(y) + BinaryBytes(op)
    ensures Ops(BinaryScript(op, x, y)) == Ops(x) + Ops(y) + BinaryOps(op)
  {
    MeasureOne(EndIf);
    match op
    case AndV => SerializeAppend(x, y);
    case AndB => AroundSize(x, y, [BoolAnd]); MeasureOne(BoolAnd);
    case OrB => AroundSize(x, y, [BoolOr]); MeasureOne(BoolOr);
    case AndN => BetweenSize(x, [If(true), Small(0), Else], y, [EndIf]); Measure3(If(true), Small(0), Else);
    case OrC => BetweenSize(x, [If(true)], y, [EndIf]); MeasureOne(If(true));
    case OrD => BetweenSize(x, [IfDup, If(true)], y, [EndIf]); Measure2(IfDup, If(true));
    case OrI =>
      BetweenSize([If(false)] + x, [Else], y, [EndIf]);
      MeasurePrepend(If(false), x);
      MeasureOne(Else);
  }

  lemma BinaryInfoSizes(op: BinOp, a: ExtInfo, b: ExtInfo)
    ensures BinaryInfo(op, a, b).scriptSize == ToU16(BinaryBytes(op) + a.scriptSize + b.scriptSize)
    ensures BinaryInfo(op, a, b).opCount == ToU16(BinaryOps(op) + a.opCount + b.opCount)
    ensures BinaryInfo(op, a, b).x == (op != AndV || b.x)
  {
    match op
    case AndV =>
    case AndB =>
    case AndN =>
    case OrB =>
    case OrC =>
    case OrD =>
    case OrI =>
  }

  lemma BinaryLast(op: BinOp, x: Script, y: Script)
    requires y != []
    ensures BinaryScript(op, x, y) != []
    ensures !LastAbsorbs(BinaryScript(op, x, y)) == (op != AndV || !LastAbsorbs(y))
  {
  }

  lemma BinaryMeasured(op: BinOp, x: Script, a: ExtInfo, y: Script, b: ExtInfo)
    requires Measured(x, a) && Measured(y, b)
    ensures Measured(BinaryScript(op, x, y), BinaryInfo(op, a, b))
  {
    hide ByteSize, Ops, Low16, ToU16, BinaryScript, BinaryInfo, BinaryBytes, BinaryOps;
    BinarySize(op, x, y);
    BinaryInfoSizes(op, a, b);
    Low16Add(ByteSize(x), ByteSize(y), BinaryBytes(op));
    Low16Add(Ops(x), Ops(y), BinaryOps(op));
    BinaryLast(op, x, y);
  }

  lemma Low16Add3(a: nat, b: nat, c: nat)
    ensures ToU16(3 + Low16(a) + Low16(b) + Low16(c)) == Low16(a + b + c + 3)
  {
    Low16Add(a, b, 3);
    Low16Add(a + b + 3, c, 0);
    U16Shift(3 + Low16(a) + Low16(b), Low16(c));
  }

  lemma U16Shift(a: nat, c: nat)
    ensures ToU16(ToU16(a) + c) == ToU16(a + c)
  {
  }

  lemma AndOrMeasured(x: Script, a: ExtInfo, y: Script, b: ExtInfo, z: Script, c: ExtInfo)
    requires Measured(x, a) && Measured(y, b) && Measured(z, c)
    ensures Measured(x + [If(true)] + z + [Else] + y + [EndIf], AndOrInfo(a, b, c))
  {
    hide ByteSize, Ops, Low16, ToU16;
    MeasureOne(If(true));
    MeasureOne(Else);
    MeasureOne(EndIf);
    AroundSize(x, [If(true)], z);
    BetweenSize(x + [If(true)] + z, [Else], y, [EndIf]);
    Low16Add3(ByteSize(x), ByteSize(y), ByteSize(z));
    Low16Add3(Ops(x), Ops(y), Ops(z));
  }

  // ---------------------------------------------------------------- thresh

  ghost predicate EachMeasured(xs: seq<Script>, ts: seq<ExtInfo>)
    requires |xs| == |ts|
  {
    forall i :: 0 <= i < |xs| ==> Measured(xs[i], ts[i])
  }

  function TotalSize(xs: seq<Script>): nat {
    if xs == [] then 0 else TotalSize(xs[..|xs| - 1]) + ByteSize(xs[|xs| - 1])
  }

  function TotalOps(xs: seq<Script>): nat {
    if xs == [] then 0 else TotalOps(xs[..|xs| - 1]) + Ops(xs[|xs| - 1]) + 1
  }

  lemma {:induction false} FoldSizes(k: nat, xs: seq<Script>, ts: seq<ExtInfo>)
    requires |xs| == |ts| && EachMeasured(xs, ts)
    ensures Low16(ThreshFold(k, ts).size) == Low16(TotalSize(xs)) && Low16(ThreshFold(k, ts).ops) == Low16(TotalOps(xs))
    decreases xs
  {
    if xs != [] {
      var m := |xs| - 1;
      FoldSizes(k, xs[..m], ts[..m]);
      var f := ThreshFold(k, ts[..m]);
      FoldStep(f.size, TotalSize(xs[..m]), ByteSize(xs[m]), 0);
      FoldStep(f.ops, TotalOps(xs[..m]), Ops(xs[m]), 1);
    }
  }

  lemma FoldStep(a: nat, a': nat, b: nat, c: nat)
    requires Low16(a) == Low16(a')
    ensures Low16(a + Low16(b) + c) == Low16(a' + b + c)
  {
    Low16Add(a, Low16(b), c);
    Low16Add(a', b, c);
    assert Low16(Low16(b)) == Low16(b);
  }

  lemma {:induction false} SumSize(xs: seq<Script>)
    requires xs != []
    ensures ByteSize(SumScript(xs)) == TotalSize(xs) + |xs| - 1
    ensures Ops(SumScript(xs)) + 1 == TotalOps(xs)
    decreases xs
  {
    var m := |xs| - 1;
    if m == 0 {
      assert xs[..0] == [];
    } else {
      SumSize(xs[..m]);
      AroundSize(SumScript(xs[..m]), xs[m], [Add]);
      MeasureOne(Add);
    }
  }

  lemma ThreshSize(k: nat, xs: seq<Script>)
    requires xs != [] && k < 0x8000_0000
    ensures ByteSize(ThreshScript(k, xs)) == TotalSize(xs) + |xs| + PushSize(k)
    ensures Ops(ThreshScript(k, xs)) == TotalOps(xs)
  {
    SumSize(xs);
    PushSizeExact(k);
    Measure2(PushNum(k), Equal(false));
    SerializeAppend(SumScript(xs), [PushNum(k), Equal(false)]);
  }

  lemma ThreshNumbers(size: nat, total: nat, ops: nat, totalOps: nat, c: nat)
    requires Low16(size) == Low16(total) && Low16(ops) == Low16(totalOps)
    ensures ToU16(size + c) == Low16(total + c) && ToU16(ops) == Low16(totalOps)
  {
    FoldStep(size, total, 0, c);
    Low16IsModulo(size + c);
    Low16IsModulo(ops);
  }

  lemma ThreshFields(k: nat, ts: seq<ExtInfo>, i: ExtInfo, f: ThreshAcc)
    requires ThreshInfo(k, ts) == Some(i) && f == ThreshFold(k, ts)
    ensures i.scriptSize == ToU16(f.size + (|ts| + PushSize(k))) && i.opCount == ToU16(f.ops) && !i.x && k < TABLE_SIZE
  {
  }

  lemma ThreshFoldMeasured(k: nat, xs: seq<Script>, ts: seq<ExtInfo>, i: ExtInfo, f: ThreshAcc)
    requires |xs| == |ts| >= 1 && EachMeasured(xs, ts) && f == ThreshFold(k, ts) && k < TABLE_SIZE
    requires i.scriptSize == ToU16(f.size + (|ts| + PushSize(k))) && i.opCount == ToU16(f.ops) && !i.x
    ensures Measured(ThreshScript(k, xs), i)
  {
    hide ByteSize, Ops, Low16, ToU16, TotalSize, TotalOps, ThreshFold;
    FoldSizes(k, xs, ts);
    ThreshNumbers(f.size, TotalSize(xs), f.ops, TotalOps(xs), |xs| + PushSize(k));
    ThreshSize(k, xs);
  }

  lemma ThreshMeasured(k: nat, xs: seq<Script>, ts: seq<ExtInfo>, i: ExtInfo)
    requires |xs| == |ts| >= 1 && ThreshInfo(k, ts) == Some(i) && EachMeasured(xs, ts)
    ensures Measured(ThreshScript(k, xs), i)
  {
    var f := ThreshFold(k, ts);
    ThreshFields(k, ts, i, f);
    ThreshFoldMeasured(k, xs, ts, i, f);
  }

  lemma {:induction false} CompileMeasured(env: Env, n: Node, i: ExtInfo)
    requires env.Valid() && TypeOf(n).Some? && Info(n) == Some(i)
    ensures Measured(Compile(env, n), i)
    decreases n
  {
    match n
    case Atom(leaf) => LeafMeasured(env, leaf);
    case Wrap(w, x) =>
      var a := Info(x).value;
      CompileMeasured(env, x, a);
      WrapMeasured(w, Compile(env, x), a);
    case Binary(op, x, y) =>
      var a, b := Info(x).value, Info(y).value;
      CompileMeasured(env, x, a);
      CompileMeasured(env, y, b);
      BinaryMeasured(op, Compile(env, x), a, Compile(env, y), b);
    case AndOr(x, y, z) =>
      var a, b, c := Info(x).value, Info(y).value, Info(z).value;
      CompileMeasured(env, x, a);
      CompileMeasured(env, y, b);
      CompileMeasured(env, z, c);
      AndOrMeasured(Compile(env, x), a, Compile(env, y), b, Compile(env, z), c);
    case Thresh(k, xs) =>
      var ts := Infos(xs).value;
      forall m | 0 <= m < |xs| ensures Measured(CompileAll(env, xs)[m], ts[m]) {
        CompileMeasured(env, xs[m], ts[m]);
      }
      ThreshMeasured(k, CompileAll(env, xs), ts, i);
  }

  /** For every typed expression the analysis gives the length, the opcode count and the kind of
      last opcode of the script that the expression is translated to. */
  lemma SizeAnalysisExact(env: Env, n: Node, i: ExtInfo)
    requires env.Valid() && TypeOf(n).Some? && Info(n) == Some(i)
    ensures i.scriptSize == ToU16(|Serialize(Compile(env, n))|)
    ensures i.opCount == ToU16(Ops(Compile(env, n)))
    ensures Compile(env, n) != [] && (i.x <==> !LastAbsorbs(Compile(env, n)))
  {
    CompileMeasured(env, n, i);
    Low16IsModulo(ByteSize(Compile(env, n)));
    Low16IsModulo(Ops(Compile(env, n)));
  }

  // ---------------------------------------------------------------- every opcode has an encoding

  lemma NumberWellFormed(n: nat)
    requires n < 0x8000_0000
    ensures WellFormedOp(PushNum(n))
  {
    if n > 16 {
      EncodedLength(n);
    }
  }

  lemma {:induction false} KeysWellFormed(env: Env, keys: seq<nat>)
    requires env.Valid()
    ensures WellFormed(PushKeys(env, keys))
    decreases keys
  {
    if keys != [] {
      KeysWellFormed(env, keys[1..]);
    }
  }

  lemma LeafWellFormed(env: Env, leaf: Leaf)
    requires env.Valid() && LeafType(leaf).Some?
    ensures WellFormed(LeafScript(env, leaf))
  {
    hide PushNum;
    match leaf
    case Older(m) => NumberWellFormed(m);
    case After(m) => NumberWellFormed(m);
    case HashLock(_, _) => NumberWellFormed(32);
    case Multi(k, keys) =>
      NumberWellFormed(k);
      NumberWellFormed(|keys|);
      KeysWellFormed(env, keys);
    case _ =>
  }

  lemma {:induction false} SumWellFormed(xs: seq<Script>)
    requires forall i :: 0 <= i < |xs| ==> WellFormed(xs[i])
    ensures WellFormed(SumScript(xs))
    decreases xs
  {
    hide WellFormedOp;
    if |xs| > 1 {
      SumWellFormed(xs[..|xs| - 1]);
      AddWellFormed();
    }
  }

  lemma AddWellFormed()
    ensures WellFormedOp(Add)
  {
  }

  lemma WrapWellFormed(w: Wrapper, x: Script)
    requires WellFormed(x)
    ensures WellFormed(WrapScript(w, x))
  {
  }

  lemma BinaryWellFormed(op: BinOp, x: Script, y: Script)
    requires WellFormed(x) && WellFormed(y)
    ensures WellFormed(BinaryScript(op, x, y))
  {
  }

  lemma AndOrWellFormed(x: Script, y: Script, z: Script)
    requires WellFormed(x) && WellFormed(y) && WellFormed(z)
    ensures WellFormed(x + [If(true)] + z + [Else] + y + [EndIf])
  {
  }

  lemma ThreshWellFormed(k: nat, xs: seq<Script>)
    requires k <= MAX_THRESHOLD && forall i :: 0 <= i < |xs| ==> WellFormed(xs[i])
    ensures WellFormed(ThreshScript(k, xs))
  {
    hide PushNum, SumScript;
    SumWellFormed(xs);
    NumberWellFormed(k);
  }

  /** The script of an accepted expression consists of opcodes that the serialization can express: no
      push of data is empty or longer than a direct push, and no small number exceeds 16. */
  lemma {:induction false} CompileWellFormed(env: Env, n: Node)
    requires env.Valid() && TypeOf(n).Some?
    ensures WellFormed(Compile(env, n))
    decreases n
  {
    hide WellFormed, WrapScript, BinaryScript, LeafScript, ThreshScript;
    match n
    case Atom(leaf) => LeafWellFormed(env, leaf);
    case Wrap(w, x) =>
      CompileWellFormed(env, x);
      WrapWellFormed(w, Compile(env, x));
    case Binary(op, x, y) =>
      CompileWellFormed(env, x);
      CompileWellFormed(env, y);
      BinaryWellFormed(op, Compile(env, x), Compile(env, y));
    case AndOr(x, y, z) =>
      CompileWellFormed(env, x);
      CompileWellFormed(env, y);
      CompileWellFormed(env, z);
      AndOrWellFormed(Compile(env, x), Compile(env, y), Compile(env, z));
    case Thresh(k, xs) =>
      forall i | 0 <= i < |xs| ensures WellFormed(CompileAll(env, xs)[i]) {
        CompileWellFormed(env, xs[i]);
      }
      ThreshWellFormed(k, CompileAll(env, xs));
  }

  // ---------------------------------------------------------------- reading a script back

  lemma SameOp(a: Op, b: Op, x: Bytes, y: Bytes)
    requires WellFormedOp(a) && WellFormedOp(b) && SerializeOp(a) + x == SerializeOp(b) + y
    ensures a == b && x == y
  {
    var s := SerializeOp(a) + x;
    assert s[0] == Opcode(a) && (SerializeOp(b) + y)[0] == Opcode(b);
    assert a.Push? == b.Push?;
    if a.Push? {
      var n := |a.data|;
      assert n == |b.data|;
      assert s[1..1 + n] == a.data && (SerializeOp(b) + y)[1..1 + n] == b.data;
      assert s[1 + n..] == x && (SerializeOp(b) + y)[1 + n..] == y;
    } else {
      assert s[1..] == x && (SerializeOp(b) + y)[1..] == y;
    }
  }

  /** The bytes of a script determine the script. */
  lemma {:induction false} SerializeUnique(a: Script, b: Script)
    requires WellFormed(a) && WellFormed(b) && Serialize(a) == Serialize(b)
    ensures a == b
    decreases a
  {
    if a != [] && b != [] {
      SameOp(a[0], b[0], Serialize(a[1..]), Serialize(b[1..]));
      SerializeUnique(a[1..], b[1..]);
      assert a == [a[0]] + a[1..] && b == [b[0]] + b[1..];
    }
  }

  lemma SerializeOne(op: Op)
    ensures Serialize([op]) == SerializeOp(op)
  {
    assert [op][1..] == [];
  }

  lemma SerializeNext(op: Op, s: Script, b: Bytes)
    requires Serialize(s) == b
    ensures Serialize([op] + s) == SerializeOp(op) + b
  {
    assert ([op] + s)[1..] == s;
  }
}
