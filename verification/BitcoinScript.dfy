/** Bitcoin Script, restricted to the opcodes that miniscript on SegWit v0 can produce:
    their byte encoding (opcode values of src/common/script.h) and the consensus interpreter
    with its main stack, alternative stack and stack of IF/ELSE conditions.
    Signature checks, hash functions and timelock checks are parameters (`Env`). */
module BitcoinScript {
  import opened Wrappers

  datatype HashKind = Sha256 | Hash256 | Ripemd160 | Hash160

  /** Everything outside the script: the key material behind key placeholders, the verification of
      signatures, the hash functions, and the timelock checks of the spending transaction. */
  datatype Env = Env(
    key: nat -> Bytes,
    sigOk: (Bytes, Bytes) -> bool,
    hash: (HashKind, Bytes) -> Bytes,
    cltvOk: Bytes -> bool,
    csvOk: Bytes -> bool)
  {
    /** Keys are 33-byte compressed keys, digests have their fixed length, and neither an empty
        signature nor an empty key ever passes a signature check. */
    ghost predicate Valid() {
      && (forall k :: |key(k)| == 33)
      && (forall b :: |hash(Hash160, b)| == 20)
      && (forall s, k :: sigOk(s, k) ==> s != [] && k != [])
    }
  }

  // Opcodes with a VERIFY form carry it as the flag `v`; If(true) is OP_NOTIF.
  datatype Op =
    | Small(n: nat)
    | Push(data: Bytes)
    | If(neg: bool)
    | Else
    | EndIf
    | Verify
    | ToAltStack
    | FromAltStack
    | IfDup
    | Dup
    | Swap
    | Size
    | Equal(v: bool)
    | ZeroNotEqual
    | Add
    | BoolAnd
    | BoolOr
    | HashOp(kind: HashKind)
    | CheckSig(v: bool)
    | CheckMultisig(v: bool)
    | Cltv
    | Csv

  type Script = seq<Op>

  // ---------------------------------------------------------------- numbers on the stack

  /** Little-endian bytes of a positive number, with room for the sign bit in the last byte. */
  function EncodePositive(n: nat): (b: Bytes)
    ensures b != []
    decreases n
  {
    if n < 0x80 then [n] else [n % 256] + EncodePositive(n / 256)
  }

  /** The minimal signed-magnitude encoding of a number. */
  function EncodeNum(n: int): Bytes {
    if n == 0 then []
    else if n > 0 then EncodePositive(n)
    else
      var m := EncodePositive(-n);
      if m[|m| - 1] < 128 then m[|m| - 1 := m[|m| - 1] + 128] else m
  }

  function LittleEndian(b: Bytes): nat {
    if b == [] then 0 else b[0] + 256 * LittleEndian(b[1..])
  }

  /** The number an element stands for when an arithmetic opcode reads it; longer than 4 bytes aborts. */
  function DecodeNum(b: Bytes): Option<int> {
    if |b| > 4 then None
    else if b == [] then Some(0)
    else if b[|b| - 1] < 128 then Some(LittleEndian(b))
    else
      var magnitude: int := LittleEndian(b[|b| - 1 := b[|b| - 1] - 128]);
      Some(-magnitude)
  }

  /** Truth of a stack element: any non-zero byte, except a sign bit in the last one. */
  predicate Truthy(b: Bytes) {
    if b == [] then false
    else if |b| == 1 then b[0] != 0 && b[0] != 128
    else b[0] != 0 || Truthy(b[1..])
  }

  function Bool(b: bool): Bytes {
    if b then [1] else []
  }

  /** The opcode that pushes the number n. */
  function PushNum(n: nat): Op {
    if n <= 16 then Small(n) else Push(EncodePositive(n))
  }

  // ---------------------------------------------------------------- serialization

  // The remainders are only taken of numbers that they leave alone, where the opcode is well-formed.
  function Opcode(op: Op): byte {
    match op
    case Small(n) => if n == 0 then 0x00 else 0x50 + n % 17
    case Push(data) => |data| % 256
    case If(neg) => if neg then 0x64 else 0x63
    case Else => 0x67
    case EndIf => 0x68
    case Verify => 0x69
    case ToAltStack => 0x6b
    case FromAltStack => 0x6c
    case IfDup => 0x73
    case Dup => 0x76
    case Swap => 0x7c
    case Size => 0x82
    case Equal(v) => if v then 0x88 else 0x87
    case ZeroNotEqual => 0x92
    case Add => 0x93
    case BoolAnd => 0x9a
    case BoolOr => 0x9b
    case HashOp(kind) =>
      (match kind
       case Ripemd160 => 0xa6
       case Sha256 => 0xa8
       case Hash160 => 0xa9
       case Hash256 => 0xaa)
    case CheckSig(v) => if v then 0xad else 0xac
    case CheckMultisig(v) => if v then 0xaf else 0xae
    case Cltv => 0xb1
    case Csv => 0xb2
  }

  function SerializeOp(op: Op): Bytes {
    [Opcode(op)] + (if op.Push? then op.data else [])
  }

  function Serialize(s: Script): Bytes {
    if s == [] then [] else SerializeOp(s[0]) + Serialize(s[1..])
  }

  predicate IsPush(op: Op) {
    op.Small? || op.Push?
  }

  /** Small numbers are 0..16 and data pushes are direct pushes of 1..75 bytes. */
  predicate WellFormedOp(op: Op) {
    match op
    case Small(n) => n <= 16
    case Push(data) => 1 <= |data| <= 75
    case _ => true
  }

  predicate WellFormed(s: Script) {
    forall i :: 0 <= i < |s| ==> WellFormedOp(s[i])
  }

  // ---------------------------------------------------------------- interpreter

  datatype List<T> = Nil | Cons(top: T, rest: List<T>)

  type Stack = List<Bytes>

  datatype State = State(stack: Stack, alt: Stack, conds: List<bool>)

  predicate AllTrue(conds: List<bool>) {
    conds.Nil? || (conds.top && AllTrue(conds.rest))
  }

  predicate Live(st: State) {
    AllTrue(st.conds)
  }

  /** The k signatures match k of the keys in order, each key being used at most once. */
  predicate SigsMatch(env: Env, sigs: seq<Bytes>, keys: seq<Bytes>)
    decreases keys
  {
    if sigs == [] then true
    else if |keys| < |sigs| then false
    else if env.sigOk(sigs[0], keys[0]) then SigsMatch(env, sigs[1..], keys[1..])
    else SigsMatch(env, sigs, keys[1..])
  }

  /** Pops n elements, the top one first. */
  function PopN(s: Stack, n: nat): (r: Option<(seq<Bytes>, Stack)>)
    ensures r.Some? ==> |r.value.0| == n
  {
    if n == 0 then Some(([], s))
    else if s.Nil? then None
    else
      var (es, rest) :- PopN(s.rest, n - 1);
      Some(([s.top] + es, rest))
  }

  /** OP_CHECKMULTISIG, including the extra element it pops, which must be empty. */
  function ExecMultisig(env: Env, s: Stack): Option<Stack> {
    if s.Nil? then None else
    var n :- DecodeNum(s.top);
    if n < 0 || n > 20 then None else
    var (keys, s1) :- PopN(s.rest, n);
    if s1.Nil? then None else
    var k :- DecodeNum(s1.top);
    if k < 0 || k > n then None else
    var (sigs, s2) :- PopN(s1.rest, k);
    if s2.Nil? || s2.top != [] then None else
    Some(Cons(Bool(SigsMatch(env, sigs, keys)), s2.rest))
  }

  function VerifyTop(s: Stack): Option<Stack> {
    if s.Nil? || !Truthy(s.top) then None else Some(s.rest)
  }

  function BinaryNum(s: Stack, f: (int, int) -> int): Option<Stack> {
    if s.Nil? || s.rest.Nil? then None else
    var a :- DecodeNum(s.top);
    var b :- DecodeNum(s.rest.top);
    Some(Cons(EncodeNum(f(a, b)), s.rest.rest))
  }

  /** The effect on the main stack of the opcodes that touch nothing else. */
  function ExecMain(env: Env, op: Op, s: Stack): Option<Stack>
    decreases if op.Equal? || op.CheckSig? || op.CheckMultisig? then (if op.v then 1 else 0) else 0
  {
    match op
    case Small(n) => Some(Cons(EncodeNum(n), s))
    case Push(data) => Some(Cons(data, s))
    case Verify => VerifyTop(s)
    case IfDup => if s.Nil? then None else if Truthy(s.top) then Some(Cons(s.top, s)) else Some(s)
    case Dup => if s.Nil? then None else Some(Cons(s.top, s))
    case Swap => if s.Nil? || s.rest.Nil? then None else Some(Cons(s.rest.top, Cons(s.top, s.rest.rest)))
    case Size => if s.Nil? then None else Some(Cons(EncodeNum(|s.top|), s))
    case Equal(v) =>
      if v then var r :- ExecMain(env, Equal(false), s); VerifyTop(r)
      else if s.Nil? || s.rest.Nil? then None
      else Some(Cons(Bool(s.top == s.rest.top), s.rest.rest))
    case ZeroNotEqual =>
      if s.Nil? then None else
      var a :- DecodeNum(s.top);
      Some(Cons(Bool(a != 0), s.rest))
    case Add => BinaryNum(s, (a, b) => a + b)
    case BoolAnd => BinaryNum(s, (a, b) => if a != 0 && b != 0 then 1 else 0)
    case BoolOr => BinaryNum(s, (a, b) => if a != 0 || b != 0 then 1 else 0)
    case HashOp(kind) => if s.Nil? then None else Some(Cons(env.hash(kind, s.top), s.rest))
    case CheckSig(v) =>
      if v then var r :- ExecMain(env, CheckSig(false), s); VerifyTop(r)
      else if s.Nil? || s.rest.Nil? then None
      else Some(Cons(Bool(env.sigOk(s.rest.top, s.top)), s.rest.rest))
    case CheckMultisig(v) =>
      if v then var r :- ExecMain(env, CheckMultisig(false), s); VerifyTop(r)
      else ExecMultisig(env, s)
    case Cltv => if s.Nil? || !env.cltvOk(s.top) then None else Some(s)
    case Csv => if s.Nil? || !env.csvOk(s.top) then None else Some(s)
    case _ => Some(s)
  }

  /** One opcode. Inside a branch that is not taken only the control opcodes have an effect. */
  function Step(env: Env, op: Op, st: State): Option<State> {
    if op.If? then
      if !Live(st) then Some(st.(conds := Cons(false, st.conds)))
      else if st.stack.Nil? then None
      else Some(State(st.stack.rest, st.alt, Cons(Truthy(st.stack.top) != op.neg, st.conds)))
    else if op.Else? then
      if st.conds.Nil? then None else Some(st.(conds := Cons(!st.conds.top, st.conds.rest)))
    else if op.EndIf? then
      if st.conds.Nil? then None else Some(st.(conds := st.conds.rest))
    else if !Live(st) then Some(st)
    else if op.ToAltStack? then
      if st.stack.Nil? then None else Some(State(st.stack.rest, Cons(st.stack.top, st.alt), st.conds))
    else if op.FromAltStack? then
      if st.alt.Nil? then None else Some(State(Cons(st.alt.top, st.stack), st.alt.rest, st.conds))
    else
      var s :- ExecMain(env, op, st.stack);
      Some(st.(stack := s))
  }

  function Run(env: Env, s: Script, st: State): Option<State> {
    if s == [] then Some(st)
    else
      var st' :- Step(env, s[0], st);
      Run(env, s[1..], st')
  }

  /** A run in the middle of other runs: aborting is absorbing. */
  function Then(env: Env, s: Script, r: Option<State>): Option<State> {
    if r.None? then None else Run(env, s, r.value)
  }

  lemma {:induction false} RunAppend(env: Env, a: Script, b: Script, st: State)
    ensures Run(env, a + b, st) == Then(env, b, Run(env, a, st))
    decreases a
  {
    if a == [] {
      assert a + b == b;
    } else {
      assert (a + b)[1..] == a[1..] + b;
      var r := Step(env, a[0], st);
      if r.Some? {
        RunAppend(env, a[1..], b, r.value);
      }
    }
  }

  lemma RunOne(env: Env, op: Op, st: State)
    ensures Run(env, [op], st) == Step(env, op, st)
  {
    var r := Step(env, op, st);
    assert [op][1..] == [];
  }

  lemma RunPrepend(env: Env, op: Op, s: Script, st: State)
    ensures Run(env, [op] + s, st) == Then(env, s, Step(env, op, st))
  {
    assert ([op] + s)[1..] == s;
  }
}
