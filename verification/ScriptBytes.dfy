/** The translation of BIP 379 in bytes, written down as a table of its own, is what the translation to opcodes
    serializes to. */
module ScriptBytes {
  import opened Wrappers
  import opened BitcoinScript
  import opened Miniscript
  import opened ScriptSize

  /** The push of a number: OP_0, OP_1 to OP_16, or its bytes behind their count. */
  function NumberBytes(n: nat): Bytes {
    if n == 0 then [0x00] else if n <= 16 then [0x50 + n] else [|EncodePositive(n)| % 256] + EncodePositive(n)
  }

  function KeyBytes(env: Env, keys: seq<nat>): Bytes {
    if keys == [] then [] else [0x21] + env.key(keys[0]) + KeyBytes(env, keys[1..])
  }

  function KeyHash(env: Env, key: nat): Bytes {
    [0x76, 0xa9, 0x14] + env.hash(Hash160, env.key(key)) + [0x88]
  }

  function HashByte(kind: HashKind): byte {
    match kind
    case Sha256 => 0xa8
    case Hash256 => 0xaa
    case Ripemd160 => 0xa6
    case Hash160 => 0xa9
  }

  function LeafBytes(env: Env, leaf: Leaf): Bytes {
    match leaf
    case Zero => [0x00]
    case One => [0x51]
    case PkK(key) => [0x21] + env.key(key)
    case PkH(key) => KeyHash(env, key)
    case Pk(key) => [0x21] + env.key(key) + [0xac]
    case Pkh(key) => KeyHash(env, key) + [0xac]
    case Older(m) => NumberBytes(m) + [0xb2]
    case After(m) => NumberBytes(m) + [0xb1]
    case HashLock(kind, h) => [0x82, 0x01, 0x20, 0x88, HashByte(kind), DigestLength(kind)] + h + [0x87]
    case Multi(k, keys) => NumberBytes(k) + KeyBytes(env, keys) + NumberBytes(|keys|) + [0xae]
  }

  /** Whether the last opcode is EQUAL, CHECKSIG or CHECKMULTISIG, whose VERIFY form has the next number. */
  predicate EndsMergeable(n: Node)
    decreases n
  {
    match n
    case Atom(leaf) => leaf.Pk? || leaf.Pkh? || leaf.HashLock? || leaf.Multi?
    case Wrap(w, x) => w == WrapC || (w == WrapS && EndsMergeable(x))
    case Binary(op, _, y) => op == AndV && EndsMergeable(y)
    case AndOr(_, _, _) => false
    case Thresh(_, _) => true
  }

  /** The bytes with VERIFY behind them, or with the last byte replaced by the next number. */
  function VerifyBytes(b: Bytes, merge: bool): Bytes {
    if merge && b != [] && b[|b| - 1] < 255 then b[..|b| - 1] + [b[|b| - 1] + 1] else b + [0x69]
  }

  function WrapBytes(w: Wrapper, x: Bytes, merge: bool): Bytes {
    match w
    case WrapA => [0x6b] + x + [0x6c]
    case WrapS => [0x7c] + x
    case WrapC => x + [0xac]
    case WrapT => x + [0x51]
    case WrapD => [0x76, 0x63] + x + [0x68]
    case WrapV => VerifyBytes(x, merge)
    case WrapJ => [0x82, 0x92, 0x63] + x + [0x68]
    case WrapN => x + [0x92]
    case WrapL => [0x63, 0x00, 0x67] + x + [0x68]
    case WrapU => [0x63] + x + [0x67, 0x00, 0x68]
  }

  function BinaryBytes(op: BinOp, x: Bytes, y: Bytes): Bytes {
    match op
    case AndV => x + y
    case AndB => x + y + [0x9a]
    case AndN => x + [0x64, 0x00, 0x67] + y + [0x68]
    case OrB => x + y + [0x9b]
    case OrC => x + [0x64] + y + [0x68]
    case OrD => x + [0x73, 0x64] + y + [0x68]
    case OrI => [0x63] + x + [0x67] + y + [0x68]
  }

  function SumBytes(bs: seq<Bytes>): Bytes {
    if bs == [] then []
    else if |bs| == 1 then bs[0]
    else SumBytes(bs[..|bs| - 1]) + bs[|bs| - 1] + [0x93]
  }

  /** The script of an expression in bytes. */
  function Translation(env: Env, n: Node): Bytes
    decreases n, 1
  {
    match n
    case Atom(leaf) => LeafBytes(env, leaf)
    case Wrap(w, x) => WrapBytes(w, Translation(env, x), EndsMergeable(x))
    case Binary(op, x, y) => BinaryBytes(op, Translation(env, x), Translation(env, y))
    case AndOr(x, y, z) =>
      Translation(env, x) + [0x64] + Translation(env, z) + [0x67] + Translation(env, y) + [0x68]
    case Thresh(k, xs) => SumBytes(Translations(env, xs)) + NumberBytes(k) + [0x87]
  }

  function Translations(env: Env, xs: seq<Node>): (r: seq<Bytes>)
    ensures |r| == |xs| && forall i :: 0 <= i < |xs| ==> r[i] == Translation(env, xs[i])
    decreases xs, 0
  {
    if xs == [] then [] else [Translation(env, xs[0])] + Translations(env, xs[1..])
  }

  // ---------------------------------------------------------------- opcodes one by one

  lemma Join(a: Script, b: Script, x: Bytes, y: Bytes)
    requires Serialize(a) == x && Serialize(b) == y
    ensures Serialize(a + b) == x + y
  {
    SerializeAppend(a, b);
  }

  lemma OneOp(op: Op)
    requires !op.Push?
    ensures Serialize([op]) == [Opcode(op)]
  {
    SerializeOne(op);
  }

  lemma TwoOps(a: Op, b: Op)
    requires !a.Push? && !b.Push?
    ensures Serialize([a, b]) == [Opcode(a), Opcode(b)]
  {
    OneOp(b);
    SerializeNext(a, [b], [Opcode(b)]);
    assert [a] + [b] == [a, b] && [Opcode(a)] + [Opcode(b)] == [Opcode(a), Opcode(b)];
  }

  lemma ThreeOps(a: Op, b: Op, c: Op)
    requires !a.Push? && !b.Push? && !c.Push?
    ensures Serialize([a, b, c]) == [Opcode(a), Opcode(b), Opcode(c)]
  {
    TwoOps(b, c);
    SerializeNext(a, [b, c], [Opcode(b), Opcode(c)]);
    assert [a] + [b, c] == [a, b, c] && [Opcode(a)] + [Opcode(b), Opcode(c)] == [Opcode(a), Opcode(b), Opcode(c)];
  }

  lemma NumberPushed(n: nat)
    ensures Serialize([PushNum(n)]) == NumberBytes(n)
  {
    SerializeOne(PushNum(n));
  }

  lemma DataPushed(data: Bytes, len: byte)
    requires |data| == len
    ensures Serialize([Push(data)]) == [len] + data
  {
    SerializeOne(Push(data));
  }

  // ---------------------------------------------------------------- fragments

  lemma {:induction false} KeysPushed(env: Env, keys: seq<nat>)
    requires env.Valid()
    ensures Serialize(PushKeys(env, keys)) == KeyBytes(env, keys)
    decreases keys
  {
    if keys != [] {
      KeysPushed(env, keys[1..]);
      DataPushed(env.key(keys[0]), 0x21);
      Join([Push(env.key(keys[0]))], PushKeys(env, keys[1..]), [0x21] + env.key(keys[0]), KeyBytes(env, keys[1..]));
    }
  }

  lemma KeyHashSerialized(env: Env, key: nat)
    requires env.Valid()
    ensures Serialize(LeafScript(env, PkH(key))) == KeyHash(env, key)
  {
    hide Serialize;
    var h := env.hash(Hash160, env.key(key));
    TwoOps(Dup, HashOp(Hash160));
    DataPushed(h, 0x14);
    OneOp(Equal(true));
    Join([Dup, HashOp(Hash160)], [Push(h)], [0x76, 0xa9], [0x14] + h);
    Join([Dup, HashOp(Hash160)] + [Push(h)], [Equal(true)], [0x76, 0xa9] + ([0x14] + h), [0x88]);
    assert [Dup, HashOp(Hash160)] + [Push(h)] + [Equal(true)] == LeafScript(env, PkH(key));
    assert [0x76, 0xa9] + ([0x14] + h) + [0x88] == KeyHash(env, key);
  }

  lemma HashLockSerialized(env: Env, kind: HashKind, h: Bytes)
    requires |h| == DigestLength(kind)
    ensures Serialize(LeafScript(env, HashLock(kind, h))) == LeafBytes(env, HashLock(kind, h))
  {
    hide Serialize;
    OneOp(Size);
    DataPushed([0x20], 0x01);
    assert PushNum(32) == Push([0x20]);
    TwoOps(Equal(true), HashOp(kind));
    DataPushed(h, DigestLength(kind));
    OneOp(Equal(false));
    var a := [Size] + [Push([0x20])];
    Join([Size], [Push([0x20])], [0x82], [0x01] + [0x20]);
    var b := a + [Equal(true), HashOp(kind)];
    Join(a, [Equal(true), HashOp(kind)], [0x82] + ([0x01] + [0x20]), [0x88, HashByte(kind)]);
    var start := [0x82, 0x01, 0x20, 0x88, HashByte(kind)];
    assert [0x82] + ([0x01] + [0x20]) + [0x88, HashByte(kind)] == start;
    Join(b, [Push(h)], start, [DigestLength(kind)] + h);
    Join(b + [Push(h)], [Equal(false)], start + ([DigestLength(kind)] + h), [0x87]);
    assert b + [Push(h)] + [Equal(false)] == LeafScript(env, HashLock(kind, h));
    assert start + ([DigestLength(kind)] + h) + [0x87] == LeafBytes(env, HashLock(kind, h));
  }

  lemma MultiSerialized(env: Env, k: nat, keys: seq<nat>)
    requires env.Valid()
    ensures Serialize(LeafScript(env, Multi(k, keys))) == LeafBytes(env, Multi(k, keys))
  {
    hide Serialize, PushNum, NumberBytes, KeyBytes, PushKeys;
    NumberPushed(k);
    NumberPushed(|keys|);
    KeysPushed(env, keys);
    OneOp(CheckMultisig(false));
    var a, b := [PushNum(k)] + PushKeys(env, keys), NumberBytes(k) + KeyBytes(env, keys);
    Join([PushNum(k)], PushKeys(env, keys), NumberBytes(k), KeyBytes(env, keys));
    Join(a, [PushNum(|keys|)], b, NumberBytes(|keys|));
    Join(a + [PushNum(|keys|)], [CheckMultisig(false)], b + NumberBytes(|keys|), [0xae]);
    assert a + [PushNum(|keys|)] + [CheckMultisig(false)] == LeafScript(env, Multi(k, keys));
  }

  lemma LockSerialized(m: nat, op: Op, b: byte)
    requires (op == Csv && b == 0xb2) || (op == Cltv && b == 0xb1)
    ensures Serialize([PushNum(m), op]) == NumberBytes(m) + [b]
  {
    hide Serialize, PushNum, NumberBytes;
    NumberPushed(m);
    OneOp(op);
    Join([PushNum(m)], [op], NumberBytes(m), [b]);
    assert [PushNum(m)] + [op] == [PushNum(m), op];
  }

  lemma LeafSerialized(env: Env, leaf: Leaf)
    requires env.Valid() && LeafType(leaf).Some?
    ensures Serialize(LeafScript(env, leaf)) == LeafBytes(env, leaf)
  {
    hide Serialize, PushNum, NumberBytes, KeyBytes, PushKeys;
    OneOp(CheckSig(false));
    match leaf
    case Zero => OneOp(Small(0));
    case One => OneOp(Small(1));
    case PkK(key) => DataPushed(env.key(key), 0x21);
    case PkH(key) => KeyHashSerialized(env, key);
    case Pk(key) =>
      DataPushed(env.key(key), 0x21);
      Join([Push(env.key(key))], [CheckSig(false)], [0x21] + env.key(key), [0xac]);
      assert [Push(env.key(key))] + [CheckSig(false)] == LeafScript(env, leaf);
    case Pkh(key) =>
      KeyHashSerialized(env, key);
      Join(LeafScript(env, PkH(key)), [CheckSig(false)], KeyHash(env, key), [0xac]);
      assert LeafScript(env, PkH(key)) + [CheckSig(false)] == LeafScript(env, leaf);
    case Older(m) => LockSerialized(m, Csv, 0xb2);
    case After(m) => LockSerialized(m, Cltv, 0xb1);
    case HashLock(kind, h) => HashLockSerialized(env, kind, h);
    case Multi(k, keys) => MultiSerialized(env, k, keys);
  }

  // ---------------------------------------------------------------- combinations

  lemma Around(a: Script, s: Script, b: Script, x: Bytes, y: Bytes, z: Bytes)
    requires Serialize(a) == x && Serialize(s) == y && Serialize(b) == z
    ensures Serialize(a + s + b) == x + y + z
  {
    Join(a, s, x, y);
    Join(a + s, b, x + y, z);
  }

  predicate EndsAbsorbing(s: Script) {
    s != [] && Absorbs(s[|s| - 1])
  }

  lemma VerifySerialized(s: Script)
    ensures Serialize(AddVerify(s)) == VerifyBytes(Serialize(s), EndsAbsorbing(s))
  {
    if EndsAbsorbing(s) {
      var init, last := s[..|s| - 1], s[|s| - 1];
      assert s == init + [last];
      OneOp(last);
      OneOp(Merged(last));
      Join(init, [last], Serialize(init), [Opcode(last)]);
      Join(init, [Merged(last)], Serialize(init), [Opcode(Merged(last))]);
      assert Opcode(Merged(last)) == Opcode(last) + 1;
      var b := Serialize(init) + [Opcode(last)];
      assert b[..|b| - 1] == Serialize(init) && b[|b| - 1] == Opcode(last);
    } else {
      OneOp(Verify);
      Join(s, [Verify], Serialize(s), [0x69]);
    }
  }

  lemma WrapSerialized(w: Wrapper, x: Script, b: Bytes)
    requires Serialize(x) == b
    ensures Serialize(WrapScript(w, x)) == WrapBytes(w, b, EndsAbsorbing(x))
  {
    hide Serialize, VerifyBytes, AddVerify;
    OneOp(EndIf);
    match w
    case WrapA =>
      OneOp(ToAltStack);
      OneOp(FromAltStack);
      Around([ToAltStack], x, [FromAltStack], [0x6b], b, [0x6c]);
    case WrapS =>
      OneOp(Swap);
      Join([Swap], x, [0x7c], b);
    case WrapC =>
      OneOp(CheckSig(false));
      Join(x, [CheckSig(false)], b, [0xac]);
    case WrapT =>
      OneOp(Small(1));
      Join(x, [Small(1)], b, [0x51]);
    case WrapD =>
      TwoOps(Dup, If(false));
      Around([Dup, If(false)], x, [EndIf], [0x76, 0x63], b, [0x68]);
    case WrapV => VerifySerialized(x);
    case WrapJ =>
      ThreeOps(Size, ZeroNotEqual, If(false));
      Around([Size, ZeroNotEqual, If(false)], x, [EndIf], [0x82, 0x92, 0x63], b, [0x68]);
    case WrapN =>
      OneOp(ZeroNotEqual);
      Join(x, [ZeroNotEqual], b, [0x92]);
    case WrapL =>
      ThreeOps(If(false), Small(0), Else);
      Around([If(false), Small(0), Else], x, [EndIf], [0x63, 0x00, 0x67], b, [0x68]);
    case WrapU =>
      OneOp(If(false));
      ThreeOps(Else, Small(0), EndIf);
      Around([If(false)], x, [Else, Small(0), EndIf], [0x63], b, [0x67, 0x00, 0x68]);
  }

  /** Two scripts with opcodes between and behind them. */
  lemma Between(x: Script, a: Script, y: Script, bx: Bytes, ba: Bytes, bw: Bytes)
    requires Serialize(x) == bx && Serialize(a) == ba && Serialize(y) == bw
    ensures Serialize(x + a + y + [EndIf]) == bx + ba + bw + [0x68]
  {
    OneOp(EndIf);
    Around(x, a, y, bx, ba, bw);
    Join(x + a + y, [EndIf], bx + ba + bw, [0x68]);
  }

  lemma BinarySerialized(op: BinOp, x: Script, y: Script, bx: Bytes, bw: Bytes)
    requires Serialize(x) == bx && Serialize(y) == bw
    ensures Serialize(BinaryScript(op, x, y)) == BinaryBytes(op, bx, bw)
  {
    hide Serialize;
    match op
    case AndV => Join(x, y, bx, bw);
    case AndB =>
      OneOp(BoolAnd);
      Around(x, y, [BoolAnd], bx, bw, [0x9a]);
    case AndN =>
      ThreeOps(If(true), Small(0), Else);
      Between(x, [If(true), Small(0), Else], y, bx, [0x64, 0x00, 0x67], bw);
    case OrB =>
      OneOp(BoolOr);
      Around(x, y, [BoolOr], bx, bw, [0x9b]);
    case OrC =>
      OneOp(If(true));
      Between(x, [If(true)], y, bx, [0x64], bw);
    case OrD =>
      TwoOps(IfDup, If(true));
      Between(x, [IfDup, If(true)], y, bx, [0x73, 0x64], bw);
    case OrI =>
      OneOp(If(false));
      OneOp(Else);
      Join([If(false)], x, [0x63], bx);
      Between([If(false)] + x, [Else], y, [0x63] + bx, [0x67], bw);
  }

  lemma AndOrSerialized(x: Script, y: Script, z: Script, bx: Bytes, bw: Bytes, bz: Bytes)
    requires Serialize(x) == bx && Serialize(y) == bw && Serialize(z) == bz
    ensures Serialize(x + [If(true)] + z + [Else] + y + [EndIf]) == bx + [0x64] + bz + [0x67] + bw + [0x68]
  {
    hide Serialize;
    OneOp(If(true));
    OneOp(Else);
    Around(x, [If(true)], z, bx, [0x64], bz);
    Between(x + [If(true)] + z, [Else], y, bx + [0x64] + bz, [0x67], bw);
  }

  lemma {:induction false} SumSerialized(xs: seq<Script>, bs: seq<Bytes>)
    requires |xs| == |bs| && forall i :: 0 <= i < |xs| ==> Serialize(xs[i]) == bs[i]
    ensures Serialize(SumScript(xs)) == SumBytes(bs)
    decreases xs
  {
    hide Serialize;
    if xs == [] {
      assert Serialize([]) == [] by {
        NothingSerialized();
      }
    } else if |xs| > 1 {
      var m := |xs| - 1;
      SumSerialized(xs[..m], bs[..m]);
      OneOp(Add);
      Around(SumScript(xs[..m]), xs[m], [Add], SumBytes(bs[..m]), bs[m], [0x93]);
    }
  }

  lemma NothingSerialized()
    ensures Serialize([]) == []
  {
  }

  lemma ThreshSerialized(k: nat, xs: seq<Script>, bs: seq<Bytes>)
    requires |xs| == |bs| && forall i :: 0 <= i < |xs| ==> Serialize(xs[i]) == bs[i]
    ensures Serialize(ThreshScript(k, xs)) == SumBytes(bs) + NumberBytes(k) + [0x87]
  {
    hide Serialize, SumScript, SumBytes, PushNum, NumberBytes;
    SumSerialized(xs, bs);
    NumberPushed(k);
    OneOp(Equal(false));
    Around(SumScript(xs), [PushNum(k)], [Equal(false)], SumBytes(bs), NumberBytes(k), [0x87]);
    assert SumScript(xs) + [PushNum(k)] + [Equal(false)] == ThreshScript(k, xs);
  }

  // ---------------------------------------------------------------- every expression

  lemma AppendedEnd(a: Script, b: Script)
    requires b != []
    ensures EndsAbsorbing(a + b) == EndsAbsorbing(b) && a + b != []
  {
  }

  lemma LeafEnds(env: Env, leaf: Leaf)
    ensures LeafScript(env, leaf) != []
    ensures EndsAbsorbing(LeafScript(env, leaf)) == EndsMergeable(Atom(leaf))
  {
    hide PushNum, PushKeys;
  }

  lemma WrapEnds(w: Wrapper, x: Script)
    requires x != []
    ensures WrapScript(w, x) != []
    ensures EndsAbsorbing(WrapScript(w, x)) == (w == WrapC || (w == WrapS && EndsAbsorbing(x)))
  {
    if w == WrapV && EndsAbsorbing(x) {
      assert AddVerify(x)[|x| - 1] == Merged(x[|x| - 1]);
    }
  }

  lemma BinaryEnds(op: BinOp, x: Script, y: Script)
    requires y != []
    ensures BinaryScript(op, x, y) != []
    ensures EndsAbsorbing(BinaryScript(op, x, y)) == (op == AndV && EndsAbsorbing(y))
  {
  }

  lemma {:induction false} Ends(env: Env, n: Node)
    ensures Compile(env, n) != [] && EndsAbsorbing(Compile(env, n)) == EndsMergeable(n)
    decreases n
  {
    hide LeafScript, WrapScript, BinaryScript, EndsAbsorbing, SumScript;
    match n
    case Atom(leaf) => LeafEnds(env, leaf);
    case Wrap(w, x) =>
      Ends(env, x);
      WrapEnds(w, Compile(env, x));
    case Binary(op, x, y) =>
      Ends(env, y);
      BinaryEnds(op, Compile(env, x), Compile(env, y));
    case AndOr(x, y, z) =>
      var s := Compile(env, x) + [If(true)] + Compile(env, z) + [Else] + Compile(env, y);
      AppendedEnd(s, [EndIf]);
      LastOps();
    case Thresh(k, xs) =>
      AppendedEnd(SumScript(CompileAll(env, xs)), [PushNum(k), Equal(false)]);
      LastOps();
      CompareEnd(k);
  }

  lemma LastOps()
    ensures !EndsAbsorbing([EndIf])
  {
  }

  lemma CompareEnd(k: nat)
    ensures EndsAbsorbing([PushNum(k), Equal(false)])
  {
  }

  /** The serialized script of every accepted expression is the translation of BIP 379, byte by byte. */
  lemma {:induction false} TranslationExact(env: Env, n: Node)
    requires env.Valid() && TypeOf(n).Some?
    ensures Serialize(Compile(env, n)) == Translation(env, n)
    decreases n
  {
    hide Serialize, LeafScript, LeafBytes, WrapScript, WrapBytes, BinaryScript, BinaryBytes, EndsAbsorbing, SumScript,
         SumBytes, LeafType, WrapType, BinaryType, AndOrType, ThreshType, NumberBytes;
    match n
    case Atom(leaf) => LeafSerialized(env, leaf);
    case Wrap(w, x) =>
      TranslationExact(env, x);
      Ends(env, x);
      WrapSerialized(w, Compile(env, x), Translation(env, x));
    case Binary(op, x, y) =>
      TranslationExact(env, x);
      TranslationExact(env, y);
      BinarySerialized(op, Compile(env, x), Compile(env, y), Translation(env, x), Translation(env, y));
    case AndOr(x, y, z) =>
      TranslationExact(env, x);
      TranslationExact(env, y);
      TranslationExact(env, z);
      AndOrSerialized(Compile(env, x), Compile(env, y), Compile(env, z), Translation(env, x), Translation(env, y),
                      Translation(env, z));
    case Thresh(k, xs) =>
      forall i | 0 <= i < |xs| ensures Serialize(CompileAll(env, xs)[i]) == Translations(env, xs)[i] {
        TranslationExact(env, xs[i]);
      }
      ThreshSerialized(k, CompileAll(env, xs), Translations(env, xs));
  }
}
