/** Miniscript expressions as the wallet policy parser builds them, the type and the modifiers
    z, o, n, d, u that the parser attaches to every node, and their translation to Bitcoin Script
    (Translation Table of BIP 379). */
module Miniscript {
  import opened Wrappers
  import opened BitcoinScript

  datatype Wrapper = WrapA | WrapS | WrapC | WrapT | WrapD | WrapV | WrapJ | WrapN | WrapL | WrapU

  datatype BinOp = AndV | AndB | AndN | OrB | OrC | OrD | OrI

  datatype Leaf =
    | Zero
    | One
    | PkK(key: nat)
    | PkH(key: nat)
    | Pk(key: nat)
    | Pkh(key: nat)
    | Older(n: nat)
    | After(n: nat)
    | HashLock(kind: HashKind, h: Bytes)
    | Multi(k: nat, keys: seq<nat>)

  datatype Node =
    | Atom(leaf: Leaf)
    | Wrap(w: Wrapper, x: Node)
    | Binary(op: BinOp, x: Node, y: Node)
    | AndOr(x: Node, y: Node, z: Node)
    | Thresh(k: nat, xs: seq<Node>)

  const MAX_PUBKEYS_PER_MULTISIG := 16
  const MAX_THRESHOLD := 32767

  // ---------------------------------------------------------------- the parser's type system

  datatype Base = B | V | K | W

  /** flags of policy_node_s */
  datatype Type = Type(base: Base, z: bool, o: bool, n: bool, d: bool, u: bool)

  function AndOrType(x: Type, y: Type, z: Type): Option<Type> {
    if x.base != B || !x.d || !x.u then None
    else if y.base != z.base then None
    else if y.base == W then None
    else Some(Type(y.base,
                   x.z && y.z && z.z,
                   (x.z && y.o && z.o) || (x.o && y.z && z.z),
                   false, z.d, y.u && z.u))
  }

  function AndVType(x: Type, y: Type): Option<Type> {
    if x.base != V || y.base == W then None
    else Some(Type(y.base, x.z && y.z, (x.z && y.o) || (x.o && y.z), x.n || (x.z && y.n), false, y.u))
  }

  function AndBType(x: Type, y: Type): Option<Type> {
    if x.base != B || y.base != W then None
    else Some(Type(B, x.z && y.z, (x.z && y.o) || (x.o && y.z), x.n || (x.z && y.n), x.d && y.d, true))
  }

  function AndNType(x: Type, y: Type): Option<Type> {
    if x.base != B || !x.d || !x.u || y.base != B then None
    else Some(Type(B, x.z && y.z, x.o && y.z, false, true, y.u))
  }

  function OrBType(x: Type, z: Type): Option<Type> {
    if x.base != B || !x.d || z.base != W || !z.d then None
    else Some(Type(B, x.z && z.z, (x.z && z.o) || (x.o && z.z), false, true, true))
  }

  // The rule for o reads x.o && z.o here; BIP 379 has x.o && z.z.
  function OrCType(x: Type, z: Type): Option<Type> {
    if x.base != B || !x.d || !x.u || z.base != V then None
    else Some(Type(V, x.z && z.z, x.o && z.o, false, false, false))
  }

  function OrDType(x: Type, z: Type): Option<Type> {
    if x.base != B || !x.d || !x.u || z.base != B then None
    else Some(Type(B, x.z && z.z, x.o && z.z, false, z.d, z.u))
  }

  function OrIType(x: Type, z: Type): Option<Type> {
    if x.base == W || x.base != z.base then None
    else Some(Type(x.base, false, x.z && z.z, false, x.d || z.d, x.u && z.u))
  }

  function BinaryType(op: BinOp, x: Type, y: Type): Option<Type> {
    match op
    case AndV => AndVType(x, y)
    case AndB => AndBType(x, y)
    case AndN => AndNType(x, y)
    case OrB => OrBType(x, y)
    case OrC => OrCType(x, y)
    case OrD => OrDType(x, y)
    case OrI => OrIType(x, y)
  }

  /** The rules with the o of or_c as in BIP 379; every other rule is the parser's. */
  function FixedBinaryType(op: BinOp, x: Type, y: Type): Option<Type> {
    var t :- BinaryType(op, x, y);
    Some(if op == OrC then t.(o := x.o && y.z) else t)
  }

  function WrapType(w: Wrapper, x: Type): Option<Type> {
    match w
    case WrapA => if x.base != B then None else Some(Type(W, false, false, false, x.d, x.u))
    case WrapS => if x.base != B || !x.o then None else Some(Type(W, false, false, false, x.d, x.u))
    case WrapC => if x.base != K then None else Some(Type(B, false, x.o, x.n, x.d, true))
    case WrapT => if x.base != V then None else Some(Type(B, x.z, x.o, x.n, false, true))
    case WrapD => if x.base != V || !x.z then None else Some(Type(B, false, true, true, true, false))
    case WrapV => if x.base != B then None else Some(Type(V, x.z, x.o, x.n, false, false))
    case WrapJ => if x.base != B || !x.n then None else Some(Type(B, false, x.o, true, true, x.u))
    case WrapN => if x.base != B then None else Some(Type(B, x.z, x.o, x.n, x.d, true))
    case WrapL => if x.base != B then None else Some(Type(B, false, x.z, false, true, x.u))
    case WrapU => if x.base != B then None else Some(Type(B, false, x.z, false, true, x.u))
  }

  /** What each child of thresh must be: the first one Bdu, the others Wdu. */
  predicate ThreshChildOk(first: bool, t: Type) {
    t.base == (if first then B else W) && t.d && t.u
  }

  function CountZ(ts: seq<Type>): nat {
    if ts == [] then 0 else (if ts[0].z then 1 else 0) + CountZ(ts[1..])
  }

  function CountO(ts: seq<Type>): nat {
    if ts == [] then 0 else (if ts[0].o then 1 else 0) + CountO(ts[1..])
  }

  function ThreshType(k: nat, ts: seq<Type>): Option<Type> {
    if k < 1 || k > MAX_THRESHOLD || ts == [] || (exists i :: 0 <= i < |ts| && !ThreshChildOk(i == 0, ts[i])) then None
    else Some(Type(B, CountZ(ts) == |ts|, CountZ(ts) == |ts| - 1 && CountO(ts) == 1, false, false, false))
  }

  function DigestLength(kind: HashKind): nat {
    match kind
    case Sha256 => 32
    case Hash256 => 32
    case Ripemd160 => 20
    case Hash160 => 20
  }

  function LeafType(n: Leaf): Option<Type> {
    match n
    case Zero => Some(Type(B, true, false, false, true, true))
    case One => Some(Type(B, true, false, false, false, true))
    case PkK(_) => Some(Type(K, false, true, true, true, true))
    case PkH(_) => Some(Type(K, false, false, true, true, true))
    case Pk(_) => Some(Type(B, false, true, true, true, true))
    case Pkh(_) => Some(Type(B, false, false, true, true, true))
    case Older(m) => if 1 <= m < 0x8000_0000 then Some(Type(B, true, false, false, false, false)) else None
    case After(m) => if 1 <= m < 0x8000_0000 then Some(Type(B, true, false, false, false, false)) else None
    case HashLock(kind, h) =>
      if |h| == DigestLength(kind) then Some(Type(B, false, true, true, true, true)) else None
    case Multi(k, keys) =>
      if 1 <= k <= |keys| <= MAX_PUBKEYS_PER_MULTISIG then Some(Type(B, false, false, true, true, true)) else None
  }

  /** The flags the parser computes for an expression, or None if it rejects it. */
  function TypeOf(n: Node): Option<Type>
    decreases n, 1
  {
    match n
    case Atom(leaf) => LeafType(leaf)
    case Wrap(w, x) => var tx :- TypeOf(x); WrapType(w, tx)
    case Binary(op, x, y) => var tx :- TypeOf(x); var ty :- TypeOf(y); BinaryType(op, tx, ty)
    case AndOr(x, y, z) => var tx :- TypeOf(x); var ty :- TypeOf(y); var tz :- TypeOf(z); AndOrType(tx, ty, tz)
    case Thresh(k, xs) => var ts :- TypesOf(xs); ThreshType(k, ts)
  }

  function TypesOf(xs: seq<Node>): (r: Option<seq<Type>>)
    ensures r.Some? ==> |r.value| == |xs| && forall i :: 0 <= i < |xs| ==> TypeOf(xs[i]) == Some(r.value[i])
    decreases xs, 0
  {
    if xs == [] then Some([])
    else
      var t :- TypeOf(xs[0]);
      var ts :- TypesOf(xs[1..]);
      Some([t] + ts)
  }

  /** The flags of the parser with the o of or_c corrected, wherever it occurs; None if the correction
      leaves some s: without the o it asks for. */
  function FixedType(n: Node): Option<Type>
    decreases n, 1
  {
    match n
    case Atom(leaf) => LeafType(leaf)
    case Wrap(w, x) => var tx :- FixedType(x); WrapType(w, tx)
    case Binary(op, x, y) => var tx :- FixedType(x); var ty :- FixedType(y); FixedBinaryType(op, tx, ty)
    case AndOr(x, y, z) => var tx :- FixedType(x); var ty :- FixedType(y); var tz :- FixedType(z); AndOrType(tx, ty, tz)
    case Thresh(k, xs) => var ts :- FixedTypes(xs); ThreshType(k, ts)
  }

  function FixedTypes(xs: seq<Node>): (r: Option<seq<Type>>)
    ensures r.Some? ==> |r.value| == |xs| && forall i :: 0 <= i < |xs| ==> FixedType(xs[i]) == Some(r.value[i])
    ensures r.None? ==> exists i :: 0 <= i < |xs| && FixedType(xs[i]).None?
    decreases xs, 0
  {
    if xs == [] then Some([])
    else
      var t :- FixedType(xs[0]);
      var ts :- FixedTypes(xs[1..]);
      Some([t] + ts)
  }

  // ---------------------------------------------------------------- translation to Script

  /** Opcodes that have a VERIFY form. */
  predicate Absorbs(op: Op) {
    op == Equal(false) || op == CheckSig(false) || op == CheckMultisig(false)
  }

  /** The VERIFY form of such an opcode. */
  function Merged(op: Op): Op
    requires Absorbs(op)
  {
    match op
    case Equal(_) => Equal(true)
    case CheckSig(_) => CheckSig(true)
    case _ => CheckMultisig(true)
  }

  /** s followed by VERIFY, merged into the last opcode where that has a VERIFY form. */
  function AddVerify(s: Script): Script {
    if s != [] && Absorbs(s[|s| - 1]) then
      s[..|s| - 1] + [Merged(s[|s| - 1])]
    else s + [Verify]
  }

  function PushKeys(env: Env, keys: seq<nat>): Script {
    if keys == [] then [] else [Push(env.key(keys[0]))] + PushKeys(env, keys[1..])
  }

  function LeafScript(env: Env, n: Leaf): Script {
    match n
    case Zero => [Small(0)]
    case One => [Small(1)]
    case PkK(key) => [Push(env.key(key))]
    case PkH(key) => [Dup, HashOp(Hash160), Push(env.hash(Hash160, env.key(key))), Equal(true)]
    case Pk(key) => [Push(env.key(key)), CheckSig(false)]
    case Pkh(key) => [Dup, HashOp(Hash160), Push(env.hash(Hash160, env.key(key))), Equal(true), CheckSig(false)]
    case Older(m) => [PushNum(m), Csv]
    case After(m) => [PushNum(m), Cltv]
    case HashLock(kind, h) => [Size, PushNum(32), Equal(true), HashOp(kind), Push(h), Equal(false)]
    case Multi(k, keys) => [PushNum(k)] + PushKeys(env, keys) + [PushNum(|keys|), CheckMultisig(false)]
  }

  /** The script of a wrapped expression, given the script of the expression. */
  function WrapScript(w: Wrapper, x: Script): Script {
    match w
    case WrapA => [ToAltStack] + x + [FromAltStack]
    case WrapS => [Swap] + x
    case WrapC => x + [CheckSig(false)]
    case WrapT => x + [Small(1)]
    case WrapD => [Dup, If(false)] + x + [EndIf]
    case WrapV => AddVerify(x)
    case WrapJ => [Size, ZeroNotEqual, If(false)] + x + [EndIf]
    case WrapN => x + [ZeroNotEqual]
    case WrapL => [If(false), Small(0), Else] + x + [EndIf]
    case WrapU => [If(false)] + x + [Else, Small(0), EndIf]
  }

  function BinaryScript(op: BinOp, x: Script, y: Script): Script {
    match op
    case AndV => x + y
    case AndB => x + y + [BoolAnd]
    case AndN => x + [If(true), Small(0), Else] + y + [EndIf]
    case OrB => x + y + [BoolOr]
    case OrC => x + [If(true)] + y + [EndIf]
    case OrD => x + [IfDup, If(true)] + y + [EndIf]
    case OrI => [If(false)] + x + [Else] + y + [EndIf]
  }

  /** [X1] [X2] ADD ... [Xn] ADD */
  function SumScript(xs: seq<Script>): Script {
    if xs == [] then []
    else if |xs| == 1 then xs[0]
    else SumScript(xs[..|xs| - 1]) + xs[|xs| - 1] + [Add]
  }

  function ThreshScript(k: nat, xs: seq<Script>): Script {
    SumScript(xs) + [PushNum(k), Equal(false)]
  }

  function Compile(env: Env, n: Node): Script
    decreases n, 1
  {
    match n
    case Atom(leaf) => LeafScript(env, leaf)
    case Wrap(w, x) => WrapScript(w, Compile(env, x))
    case Binary(op, x, y) => BinaryScript(op, Compile(env, x), Compile(env, y))
    case AndOr(x, y, z) => Compile(env, x) + [If(true)] + Compile(env, z) + [Else] + Compile(env, y) + [EndIf]
    case Thresh(k, xs) => ThreshScript(k, CompileAll(env, xs))
  }

  function CompileAll(env: Env, xs: seq<Node>): (r: seq<Script>)
    ensures |r| == |xs| && forall i :: 0 <= i < |xs| ==> r[i] == Compile(env, xs[i])
    decreases xs, 0
  {
    if xs == [] then [] else [Compile(env, xs[0])] + CompileAll(env, xs[1..])
  }
}
