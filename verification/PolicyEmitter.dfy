/** The script emitter of src/handler/lib/policy.c: a machine that walks through a miniscript policy with
    an explicit stack and lists of commands, against the recursive translation of BIP 379. */
module PolicyEmitter {
  import opened Wrappers
  import opened BitcoinScript
  import opened Miniscript

  const MAX_POLICY_DEPTH := 10

  /** CMD_CODE_OP with all that pushes a constant, CMD_CODE_OP_V, and the three ways to process a child. */
  datatype Command = Emit(op: Op) | EmitV(op: Op) | Child(i: nat) | ChildV(i: nat) | ChildVV(i: nat)

  function Children(n: Node): seq<Node> {
    match n
    case Atom(_) => []
    case Wrap(_, x) => [x]
    case Binary(_, x, y) => [x, y]
    case AndOr(x, y, z) => [x, y, z]
    case Thresh(_, xs) => xs
  }

  function LeafCommands(env: Env, n: Leaf): seq<Command> {
    match n
    case Zero => [EmitV(Small(0))]
    case One => [EmitV(Small(1))]
    case PkK(key) => [Emit(Push(env.key(key)))]
    case PkH(key) => [Emit(Dup), Emit(HashOp(Hash160)), Emit(Push(env.hash(Hash160, env.key(key)))), Emit(Equal(true))]
    case Pk(key) => [Emit(Push(env.key(key))), EmitV(CheckSig(false))]
    case Pkh(key) => [Emit(Dup), Emit(HashOp(Hash160)), Emit(Push(env.hash(Hash160, env.key(key)))),
                      Emit(Equal(true)), EmitV(CheckSig(false))]
    case Older(m) => [Emit(PushNum(m)), EmitV(Csv)]
    case After(m) => [Emit(PushNum(m)), EmitV(Cltv)]
    case HashLock(kind, h) => [Emit(Size), Emit(Push([32])), Emit(Equal(true)), Emit(HashOp(kind)), Emit(Push(h)),
                               EmitV(Equal(false))]
    case Multi(k, keys) =>
      [Emit(Small(k))] + KeyCommands(env, keys) + [Emit(Small(|keys|)), EmitV(CheckMultisig(false))]
  }

  function KeyCommands(env: Env, keys: seq<nat>): seq<Command> {
    if keys == [] then [] else [Emit(Push(env.key(keys[0])))] + KeyCommands(env, keys[1..])
  }

  function WrapCommands(w: Wrapper): seq<Command> {
    match w
    case WrapA => [Emit(ToAltStack), Child(0)]
    case WrapS => [Emit(Swap), Child(0)]
    case WrapC => [Child(0), EmitV(CheckSig(false))]
    case WrapT => [Child(0), EmitV(Small(1))]
    case WrapD => [Emit(Dup), Emit(If(false)), Child(0), EmitV(EndIf)]
    case WrapV => [ChildVV(0)]
    case WrapJ => [Emit(Size), Emit(ZeroNotEqual), Emit(If(false)), Child(0), EmitV(EndIf)]
    case WrapN => [Child(0), EmitV(ZeroNotEqual)]
    case WrapL => [Emit(If(false)), Emit(Small(0)), Emit(Else), Child(0), EmitV(EndIf)]
    case WrapU => [Emit(If(false)), Child(0), Emit(Else), Emit(Small(0)), EmitV(EndIf)]
  }

  function BinaryCommands(op: BinOp): seq<Command> {
    match op
    case AndV => [Child(0), ChildV(1)]
    case AndB => [Child(0), Child(1), EmitV(BoolAnd)]
    case AndN => [Child(0), Emit(If(true)), Emit(Small(0)), Emit(Else), Child(1), EmitV(EndIf)]
    case OrB => [Child(0), Child(1), EmitV(BoolOr)]
    case OrC => [Child(0), Emit(If(true)), Child(1), EmitV(EndIf)]
    case OrD => [Child(0), Emit(IfDup), Emit(If(true)), Child(1), EmitV(EndIf)]
    case OrI => [Emit(If(false)), Child(0), Emit(Else), Child(1), EmitV(EndIf)]
  }

  const ANDOR_COMMANDS := [Child(0), Emit(If(true)), Child(2), Emit(Else), Child(1), EmitV(EndIf)]

  /** The commands of a node; thresh() has a processor of its own. */
  function Commands(env: Env, n: Node): seq<Command> {
    match n
    case Atom(leaf) => LeafCommands(env, leaf)
    case Wrap(w, _) => WrapCommands(w)
    case Binary(op, _, _) => BinaryCommands(op)
    case AndOr(_, _, _) => ANDOR_COMMANDS
    case Thresh(_, _) => []
  }

  /** update_output_op_v: the opcode, turned into its VERIFY form if the flag is set. */
  function WithFlag(op: Op, v: bool): Script {
    if v then AddVerify([op]) else [op]
  }

  // ---------------------------------------------------------------- what is emitted for a node

  function EmitNode(env: Env, n: Node, v: bool): Script
    decreases n, 3
  {
    match n
    case Thresh(k, xs) => EmitThresh(env, n, 0, v)
    case _ => EmitFrom(env, n, Commands(env, n), v)
  }

  function EmitFrom(env: Env, n: Node, cs: seq<Command>, v: bool): Script
    decreases n, 2, |cs|
  {
    if cs == [] then [] else EmitCommand(env, n, cs[0], v) + EmitFrom(env, n, cs[1..], v)
  }

  function EmitCommand(env: Env, n: Node, c: Command, v: bool): Script
    decreases n, 1
  {
    match c
    case Emit(op) => [op]
    case EmitV(op) => WithFlag(op, v)
    case Child(i) => EmitChild(env, n, i, false)
    case ChildV(i) => EmitChild(env, n, i, v)
    case ChildVV(i) => EmitChild(env, n, i, true)
  }

  function EmitChild(env: Env, n: Node, i: nat, v: bool): Script
    decreases n, 0
  {
    if i >= |Children(n)| then []
    else
      match n
      case Wrap(_, x) => EmitNode(env, x, v)
      case Binary(_, x, y) => if i == 0 then EmitNode(env, x, v) else EmitNode(env, y, v)
      case AndOr(x, y, z) => if i == 0 then EmitNode(env, x, v) else if i == 1 then EmitNode(env, y, v)
          else EmitNode(env, z, v)
      case Thresh(_, xs) => EmitNode(env, xs[i], v)
      case Atom(_) => []
  }

  /** thresh() from the given step on: ADD goes before every child but the first two, and before the threshold. */
  function EmitThresh(env: Env, n: Node, step: nat, v: bool): Script
    requires n.Thresh?
    decreases n, 2, if step < |n.xs| then |n.xs| - step else 0
  {
    if step < |n.xs| then
      (if step > 1 then [Add] else []) + EmitNode(env, n.xs[step], false) + EmitThresh(env, n, step + 1, v)
    else
      (if |n.xs| >= 1 then [Add] else []) + [PushNum(n.k)] + WithFlag(Equal(false), v)
  }

  // ---------------------------------------------------------------- lists of commands

  lemma Cons(env: Env, n: Node, c: Command, cs: seq<Command>, v: bool)
    ensures EmitFrom(env, n, [c] + cs, v) == EmitCommand(env, n, c, v) + EmitFrom(env, n, cs, v)
  {
    hide EmitCommand;
    assert ([c] + cs)[1..] == cs;
  }

  lemma {:induction false} Joined(env: Env, n: Node, a: seq<Command>, b: seq<Command>, v: bool)
    ensures EmitFrom(env, n, a + b, v) == EmitFrom(env, n, a, v) + EmitFrom(env, n, b, v)
    decreases |a|
  {
    hide EmitCommand;
    if a == [] {
      assert a + b == b;
    } else {
      Joined(env, n, a[1..], b, v);
      assert (a + b)[1..] == a[1..] + b && (a + b)[0] == a[0];
    }
  }

  lemma List1(env: Env, n: Node, c0: Command, v: bool)
    ensures EmitFrom(env, n, [c0], v) == EmitCommand(env, n, c0, v)
  {
    hide EmitCommand;
    Cons(env, n, c0, [], v);
    assert [c0] + [] == [c0];
  }

  lemma List2(env: Env, n: Node, c0: Command, c1: Command, v: bool)
    ensures EmitFrom(env, n, [c0, c1], v) == EmitCommand(env, n, c0, v) + EmitCommand(env, n, c1, v)
  {
    hide EmitCommand, EmitFrom;
    List1(env, n, c1, v);
    Cons(env, n, c0, [c1], v);
    assert [c0] + [c1] == [c0, c1];
  }

  lemma List3(env: Env, n: Node, c0: Command, c1: Command, c2: Command, v: bool)
    ensures EmitFrom(env, n, [c0, c1, c2], v)
            == EmitCommand(env, n, c0, v) + EmitCommand(env, n, c1, v) + EmitCommand(env, n, c2, v)
  {
    hide EmitCommand, EmitFrom;
    List2(env, n, c1, c2, v);
    Cons(env, n, c0, [c1, c2], v);
    assert [c0] + [c1, c2] == [c0, c1, c2];
  }

  /** Six commands, the last one with its VERIFY form. */
  lemma List6(env: Env, n: Node, c0: Command, c1: Command, c2: Command, c3: Command, c4: Command, c5: Command, v: bool)
    ensures EmitFrom(env, n, [c0, c1, c2, c3, c4, c5], v)
         == EmitCommand(env, n, c0, v) + EmitCommand(env, n, c1, v) + EmitCommand(env, n, c2, v)
            + EmitCommand(env, n, c3, v) + EmitCommand(env, n, c4, v) + EmitCommand(env, n, c5, v)
  {
    hide EmitCommand, EmitFrom;
    List3(env, n, c0, c1, c2, v);
    List3(env, n, c3, c4, c5, v);
    Joined(env, n, [c0, c1, c2], [c3, c4, c5], v);
    assert [c0, c1, c2] + [c3, c4, c5] == [c0, c1, c2, c3, c4, c5];
    Assoc(EmitFrom(env, n, [c0, c1, c2], v), EmitCommand(env, n, c3, v), EmitCommand(env, n, c4, v),
          EmitCommand(env, n, c5, v));
  }

  lemma List4(env: Env, n: Node, c0: Command, c1: Command, c2: Command, c3: Command, v: bool)
    ensures EmitFrom(env, n, [c0, c1, c2, c3], v)
         == EmitCommand(env, n, c0, v) + EmitCommand(env, n, c1, v) + EmitCommand(env, n, c2, v)
            + EmitCommand(env, n, c3, v)
  {
    hide EmitCommand, EmitFrom;
    List3(env, n, c0, c1, c2, v);
    List1(env, n, c3, v);
    Joined(env, n, [c0, c1, c2], [c3], v);
    assert [c0, c1, c2] + [c3] == [c0, c1, c2, c3];
  }

  lemma List5(env: Env, n: Node, c0: Command, c1: Command, c2: Command, c3: Command, c4: Command, v: bool)
    ensures EmitFrom(env, n, [c0, c1, c2, c3, c4], v)
         == EmitCommand(env, n, c0, v) + EmitCommand(env, n, c1, v) + EmitCommand(env, n, c2, v)
            + EmitCommand(env, n, c3, v) + EmitCommand(env, n, c4, v)
  {
    hide EmitCommand, EmitFrom;
    List4(env, n, c0, c1, c2, c3, v);
    List1(env, n, c4, v);
    Joined(env, n, [c0, c1, c2, c3], [c4], v);
    assert [c0, c1, c2, c3] + [c4] == [c0, c1, c2, c3, c4];
  }

  lemma Assoc(a: Script, b: Script, c: Script, d: Script)
    ensures a + (b + c + d) == a + b + c + d
  {
  }

  lemma Singles(a: Op, b: Op, c: Op, d: Op, e: Op, f: Op)
    ensures [a] + [b] + [c] + [d] == [a, b, c, d] && [a] + [b] + [c] + [d] + [e] == [a, b, c, d, e]
    ensures [a, b, c, d] + [e] == [a, b, c, d, e] && [a, b, c, d, e] + [f] == [a, b, c, d, e, f]
  {
  }

  lemma VerifyLast(a: Script, op: Op)
    ensures AddVerify(a + [op]) == a + WithFlag(op, true)
  {
    assert (a + [op])[..|a|] == a && (a + [op])[|a|] == op;
  }

  lemma VerifyTail(a: Script, b: Script)
    requires b != []
    ensures AddVerify(a + b) == a + AddVerify(b)
  {
    assert (a + b)[|a + b| - 1] == b[|b| - 1] && (a + b)[..|a + b| - 1] == a + b[..|b| - 1];
  }

  // ---------------------------------------------------------------- exactness

  /** The script of a policy, written recursively as the translation is; it differs from the translation
      of BIP 379 in the wrapper a: and in thresh() with a single script. */
  function Device(env: Env, n: Node): Script
    decreases n, 1
  {
    match n
    case Atom(leaf) => LeafScript(env, leaf)
    case Wrap(w, x) => if w == WrapA then [ToAltStack] + Device(env, x) else WrapScript(w, Device(env, x))
    case Binary(op, x, y) => BinaryScript(op, Device(env, x), Device(env, y))
    case AndOr(x, y, z) => Device(env, x) + [If(true)] + Device(env, z) + [Else] + Device(env, y) + [EndIf]
    case Thresh(k, xs) => DeviceSum(DeviceAll(env, xs)) + [PushNum(k), Equal(false)]
  }

  function DeviceSum(xs: seq<Script>): Script {
    if |xs| == 1 then xs[0] + [Add] else SumScript(xs)
  }

  function DeviceAll(env: Env, xs: seq<Node>): (r: seq<Script>)
    ensures |r| == |xs| && forall i :: 0 <= i < |xs| ==> r[i] == Device(env, xs[i])
    decreases xs, 0
  {
    if xs == [] then [] else [Device(env, xs[0])] + DeviceAll(env, xs[1..])
  }

  /** A script as the flag asks for it. */
  function Flagged(x: Script, v: bool): Script {
    if v then AddVerify(x) else x
  }

  lemma {:induction false} KeysEmitted(env: Env, n: Node, keys: seq<nat>, v: bool)
    ensures EmitFrom(env, n, KeyCommands(env, keys), v) == PushKeys(env, keys)
    decreases |keys|
  {
    if keys != [] {
      KeysEmitted(env, n, keys[1..], v);
      Cons(env, n, Emit(Push(env.key(keys[0]))), KeyCommands(env, keys[1..]), v);
    }
  }

  lemma MultiEmitted(env: Env, k: nat, keys: seq<nat>, v: bool)
    requires k <= 16 && |keys| <= 16
    ensures EmitFrom(env, Atom(Multi(k, keys)), LeafCommands(env, Multi(k, keys)), v)
            == Flagged(LeafScript(env, Multi(k, keys)), v)
  {
    hide EmitFrom, KeyCommands, AddVerify;
    var n := Atom(Multi(k, keys));
    var tail := [Emit(Small(|keys|)), EmitV(CheckMultisig(false))];
    KeysEmitted(env, n, keys, v);
    List1(env, n, Emit(Small(k)), v);
    List2(env, n, Emit(Small(|keys|)), EmitV(CheckMultisig(false)), v);
    Joined(env, n, [Emit(Small(k))], KeyCommands(env, keys), v);
    Joined(env, n, [Emit(Small(k))] + KeyCommands(env, keys), tail, v);
    var head := [Small(k)] + PushKeys(env, keys);
    assert head + [Small(|keys|), CheckMultisig(false)] == head + [Small(|keys|)] + [CheckMultisig(false)];
    assert head + ([Small(|keys|)] + WithFlag(CheckMultisig(false), v))
           == head + [Small(|keys|)] + WithFlag(CheckMultisig(false), v);
    VerifyLast(head + [Small(|keys|)], CheckMultisig(false));
  }

  lemma TwoEmitted(env: Env, n: Node, a: Op, b: Op, v: bool)
    ensures EmitFrom(env, n, [Emit(a), EmitV(b)], v) == Flagged([a, b], v)
  {
    hide EmitFrom, AddVerify, EmitChild;
    List2(env, n, Emit(a), EmitV(b), v);
    VerifyLast([a], b);
    assert [a] + [b] == [a, b];
  }

  lemma LeafEmitted(env: Env, leaf: Leaf, v: bool)
    requires LeafType(leaf).Some? && (v ==> LeafType(leaf).value.base == B)
    ensures EmitFrom(env, Atom(leaf), LeafCommands(env, leaf), v) == Flagged(LeafScript(env, leaf), v)
  {
    hide EmitFrom, AddVerify, EmitChild, PushNum;
    var n := Atom(leaf);
    match leaf
    case Zero =>
      List1(env, n, EmitV(Small(0)), v);
    case One =>
      List1(env, n, EmitV(Small(1)), v);
    case PkK(key) =>
      List1(env, n, Emit(Push(env.key(key))), v);
    case PkH(key) =>
      var p := env.hash(Hash160, env.key(key));
      List4(env, n, Emit(Dup), Emit(HashOp(Hash160)), Emit(Push(p)), Emit(Equal(true)), v);
      Singles(Dup, HashOp(Hash160), Push(p), Equal(true), Verify, Verify);
    case Pk(key) =>
      TwoEmitted(env, n, Push(env.key(key)), CheckSig(false), v);
    case Pkh(key) =>
      var p := env.hash(Hash160, env.key(key));
      List5(env, n, Emit(Dup), Emit(HashOp(Hash160)), Emit(Push(p)), Emit(Equal(true)), EmitV(CheckSig(false)), v);
      Singles(Dup, HashOp(Hash160), Push(p), Equal(true), CheckSig(false), Verify);
      VerifyLast([Dup, HashOp(Hash160), Push(p), Equal(true)], CheckSig(false));
    case Older(m) =>
      TwoEmitted(env, n, PushNum(m), Csv, v);
    case After(m) =>
      TwoEmitted(env, n, PushNum(m), Cltv, v);
    case HashLock(kind, h) =>
      HashEmitted(env, kind, h, v);
    case Multi(k, keys) =>
      MultiEmitted(env, k, keys, v);
  }

  lemma HashEmitted(env: Env, kind: HashKind, h: Bytes, v: bool)
    ensures EmitFrom(env, Atom(HashLock(kind, h)), LeafCommands(env, HashLock(kind, h)), v)
            == Flagged(LeafScript(env, HashLock(kind, h)), v)
  {
    hide EmitFrom, AddVerify, EmitChild;
    var n := Atom(HashLock(kind, h));
    List6(env, n, Emit(Size), Emit(Push([32])), Emit(Equal(true)), Emit(HashOp(kind)), Emit(Push(h)),
          EmitV(Equal(false)), v);
    assert PushNum(32) == Push([32]);
    Singles(Size, Push([32]), Equal(true), HashOp(kind), Push(h), Equal(false));
    VerifyLast([Size, Push([32]), Equal(true), HashOp(kind), Push(h)], Equal(false));
  }

  // ---------------------------------------------------------------- inner nodes

  /** What a child contributes, with and without the flag. */
  ghost predicate Exact(env: Env, n: Node) {
    && EmitNode(env, n, false) == Device(env, n)
    && (TypeOf(n).Some? && TypeOf(n).value.base == B ==> EmitNode(env, n, true) == AddVerify(Device(env, n)))
    && Device(env, n) != []
  }

  lemma WrapDevice(env: Env, w: Wrapper, x: Node)
    ensures Device(env, Wrap(w, x)) == if w == WrapA then [ToAltStack] + Device(env, x)
            else WrapScript(w, Device(env, x))
  {
    hide WrapScript;
  }

  lemma WrapEmitted(env: Env, w: Wrapper, x: Node, v: bool)
    requires TypeOf(Wrap(w, x)).Some? && Exact(env, x) && (v ==> TypeOf(Wrap(w, x)).value.base == B)
    ensures EmitFrom(env, Wrap(w, x), WrapCommands(w), v) == Flagged(Device(env, Wrap(w, x)), v)
  {
    WrapDevice(env, w, x);
    hide EmitFrom, AddVerify, EmitNode, Device;
    var n, s := Wrap(w, x), Device(env, x);
    match w
    case WrapA =>
      List2(env, n, Emit(ToAltStack), Child(0), v);
    case WrapS =>
      List2(env, n, Emit(Swap), Child(0), v);
    case WrapC =>
      List2(env, n, Child(0), EmitV(CheckSig(false)), v);
      VerifyLast(s, CheckSig(false));
    case WrapT =>
      List2(env, n, Child(0), EmitV(Small(1)), v);
      VerifyLast(s, Small(1));
    case WrapV =>
      List1(env, n, ChildVV(0), v);
    case WrapN =>
      List2(env, n, Child(0), EmitV(ZeroNotEqual), v);
      VerifyLast(s, ZeroNotEqual);
    case _ =>
      WrapIfEmitted(env, w, x, v);
  }

  lemma WrapIfEmitted(env: Env, w: Wrapper, x: Node, v: bool)
    requires w in {WrapD, WrapJ, WrapL, WrapU} && Exact(env, x)
    ensures EmitFrom(env, Wrap(w, x), WrapCommands(w), v) == Flagged(WrapScript(w, Device(env, x)), v)
  {
    hide EmitFrom, AddVerify, EmitNode, Device, TypeOf;
    var n, s := Wrap(w, x), Device(env, x);
    match w
    case WrapD =>
      List4(env, n, Emit(Dup), Emit(If(false)), Child(0), EmitV(EndIf), v);
      VerifyLast([Dup, If(false)] + s, EndIf);
      assert [Dup] + [If(false)] == [Dup, If(false)];
    case WrapJ =>
      List5(env, n, Emit(Size), Emit(ZeroNotEqual), Emit(If(false)), Child(0), EmitV(EndIf), v);
      VerifyLast([Size, ZeroNotEqual, If(false)] + s, EndIf);
      assert [Size] + [ZeroNotEqual] + [If(false)] == [Size, ZeroNotEqual, If(false)];
    case WrapL =>
      List5(env, n, Emit(If(false)), Emit(Small(0)), Emit(Else), Child(0), EmitV(EndIf), v);
      VerifyLast([If(false), Small(0), Else] + s, EndIf);
      assert [If(false)] + [Small(0)] + [Else] == [If(false), Small(0), Else];
    case WrapU =>
      List5(env, n, Emit(If(false)), Child(0), Emit(Else), Emit(Small(0)), EmitV(EndIf), v);
      VerifyLast([If(false)] + s + [Else] + [Small(0)], EndIf);
      assert [If(false)] + s + [Else, Small(0), EndIf] == [If(false)] + s + [Else] + [Small(0)] + [EndIf];
  }

  lemma BinaryEmitted(env: Env, op: BinOp, x: Node, y: Node, v: bool)
    requires TypeOf(Binary(op, x, y)).Some? && Exact(env, x) && Exact(env, y)
             && (v ==> TypeOf(Binary(op, x, y)).value.base == B)
    ensures EmitFrom(env, Binary(op, x, y), BinaryCommands(op), v)
            == Flagged(BinaryScript(op, Device(env, x), Device(env, y)), v)
  {
    hide EmitFrom, AddVerify, EmitNode, Device;
    var n, s, t := Binary(op, x, y), Device(env, x), Device(env, y);
    match op
    case AndV =>
      List2(env, n, Child(0), ChildV(1), v);
      VerifyTail(s, t);
    case AndB =>
      List3(env, n, Child(0), Child(1), EmitV(BoolAnd), v);
      VerifyLast(s + t, BoolAnd);
    case OrB =>
      List3(env, n, Child(0), Child(1), EmitV(BoolOr), v);
      VerifyLast(s + t, BoolOr);
    case _ =>
      BinaryIfEmitted(env, op, x, y, v);
  }

  lemma BinaryIfEmitted(env: Env, op: BinOp, x: Node, y: Node, v: bool)
    requires op in {AndN, OrC, OrD, OrI} && Exact(env, x) && Exact(env, y)
    ensures EmitFrom(env, Binary(op, x, y), BinaryCommands(op), v)
            == Flagged(BinaryScript(op, Device(env, x), Device(env, y)), v)
  {
    hide EmitFrom, AddVerify, EmitNode, Device, TypeOf;
    var n, s, t := Binary(op, x, y), Device(env, x), Device(env, y);
    match op
    case AndN =>
      List6(env, n, Child(0), Emit(If(true)), Emit(Small(0)), Emit(Else), Child(1), EmitV(EndIf), v);
      VerifyLast(s + [If(true), Small(0), Else] + t, EndIf);
      assert s + [If(true)] + [Small(0)] + [Else] == s + [If(true), Small(0), Else];
    case OrC =>
      List4(env, n, Child(0), Emit(If(true)), Child(1), EmitV(EndIf), v);
      VerifyLast(s + [If(true)] + t, EndIf);
    case OrD =>
      List5(env, n, Child(0), Emit(IfDup), Emit(If(true)), Child(1), EmitV(EndIf), v);
      VerifyLast(s + [IfDup, If(true)] + t, EndIf);
      assert s + [IfDup] + [If(true)] == s + [IfDup, If(true)];
    case OrI =>
      List5(env, n, Emit(If(false)), Child(0), Emit(Else), Child(1), EmitV(EndIf), v);
      VerifyLast([If(false)] + s + [Else] + t, EndIf);
  }

  lemma AndOrEmitted(env: Env, x: Node, y: Node, z: Node, v: bool)
    requires Exact(env, x) && Exact(env, y) && Exact(env, z)
    ensures EmitFrom(env, AndOr(x, y, z), ANDOR_COMMANDS, v) == Flagged(Device(env, AndOr(x, y, z)), v)
  {
    hide EmitFrom, AddVerify, EmitNode;
    var n := AndOr(x, y, z);
    List6(env, n, Child(0), Emit(If(true)), Child(2), Emit(Else), Child(1), EmitV(EndIf), v);
    VerifyLast(Device(env, x) + [If(true)] + Device(env, z) + [Else] + Device(env, y), EndIf);
  }

  // ---------------------------------------------------------------- thresh

  function ThreshTotal(env: Env, n: Node, v: bool): Script
    requires n.Thresh?
  {
    DeviceSum(DeviceAll(env, n.xs)) + [PushNum(n.k)] + WithFlag(Equal(false), v)
  }

  lemma SumStep(xs: seq<Script>, i: nat)
    requires 2 <= i <= |xs|
    ensures SumScript(xs[..i]) == SumScript(xs[..i - 1]) + xs[i - 1] + [Add]
  {
    assert xs[..i][..i - 1] == xs[..i - 1];
  }

  /** After at least two children, what is left completes the sum of all. */
  lemma {:induction false} ThreshFrom(env: Env, n: Node, step: nat, v: bool)
    requires n.Thresh? && 2 <= step <= |n.xs|
    requires forall i :: 0 <= i < |n.xs| ==> EmitNode(env, n.xs[i], false) == Device(env, n.xs[i])
    ensures SumScript(DeviceAll(env, n.xs)[..step - 1]) + DeviceAll(env, n.xs)[step - 1] + EmitThresh(env, n, step, v)
            == ThreshTotal(env, n, v)
    decreases |n.xs| - step
  {
    hide EmitNode, Device, DeviceAll, SumScript, WithFlag;
    var cs := DeviceAll(env, n.xs);
    assert DeviceSum(cs) == SumScript(cs);
    var head := SumScript(cs[..step - 1]) + cs[step - 1];
    SumStep(cs, step);
    if step < |n.xs| {
      ThreshFrom(env, n, step + 1, v);
      assert head + ([Add] + cs[step] + EmitThresh(env, n, step + 1, v))
             == head + [Add] + cs[step] + EmitThresh(env, n, step + 1, v);
    } else {
      assert cs[..step] == cs;
      assert head + ([Add] + [PushNum(n.k)] + WithFlag(Equal(false), v))
             == head + [Add] + [PushNum(n.k)] + WithFlag(Equal(false), v);
    }
  }

  lemma SingleEmitted(env: Env, n: Node, v: bool)
    requires n.Thresh? && |n.xs| == 1 && EmitNode(env, n.xs[0], false) == Device(env, n.xs[0])
    ensures EmitThresh(env, n, 0, v) == ThreshTotal(env, n, v)
  {
    hide EmitNode, Device, WithFlag, PushNum;
    var x := Device(env, n.xs[0]);
    assert EmitThresh(env, n, 1, v) == [Add] + [PushNum(n.k)] + WithFlag(Equal(false), v);
    assert EmitThresh(env, n, 0, v) == [] + x + EmitThresh(env, n, 1, v);
    assert x + ([Add] + [PushNum(n.k)] + WithFlag(Equal(false), v))
           == x + [Add] + [PushNum(n.k)] + WithFlag(Equal(false), v);
  }

  lemma ThreshEmitted(env: Env, n: Node, v: bool)
    requires n.Thresh? && |n.xs| >= 1
    requires forall i :: 0 <= i < |n.xs| ==> EmitNode(env, n.xs[i], false) == Device(env, n.xs[i])
    ensures EmitNode(env, n, v) == Flagged(Device(env, n), v)
  {
    hide EmitThresh, SumScript, Flagged, DeviceAll, WithFlag, PushNum, DeviceSum;
    var cs := DeviceAll(env, n.xs);
    FlaggedThresh(DeviceSum(cs), PushNum(n.k), v);
    if |n.xs| == 1 {
      SingleEmitted(env, n, v);
    } else {
      FirstTwo(env, n, v);
      ThreshFrom(env, n, 2, v);
      OneSum(cs);
      assert cs[0] + (cs[1] + EmitThresh(env, n, 2, v)) == cs[0] + cs[1] + EmitThresh(env, n, 2, v);
    }
  }

  lemma FlaggedThresh(sum: Script, k: Op, v: bool)
    ensures Flagged(sum + [k, Equal(false)], v) == sum + [k] + WithFlag(Equal(false), v)
  {
    hide AddVerify;
    VerifyLast(sum + [k], Equal(false));
    assert sum + [k, Equal(false)] == sum + [k] + [Equal(false)];
  }

  lemma OneSum(xs: seq<Script>)
    requires |xs| >= 1
    ensures SumScript(xs[..1]) == xs[0]
  {
  }

  lemma FirstTwo(env: Env, n: Node, v: bool)
    requires n.Thresh? && |n.xs| >= 2
    ensures EmitThresh(env, n, 0, v) == EmitNode(env, n.xs[0], false)
            + (EmitNode(env, n.xs[1], false) + EmitThresh(env, n, 2, v))
  {
    hide EmitNode;
    assert EmitThresh(env, n, 1, v) == [] + EmitNode(env, n.xs[1], false) + EmitThresh(env, n, 2, v);
    assert EmitThresh(env, n, 0, v) == [] + EmitNode(env, n.xs[0], false) + EmitThresh(env, n, 1, v);
  }

  lemma DeviceNotEmpty(env: Env, n: Node)
    requires TypeOf(n).Some?
    ensures Device(env, n) != []
    decreases n
  {
    match n
    case Atom(_) =>
    case Wrap(_, x) =>
      DeviceNotEmpty(env, x);
    case Binary(_, x, _) =>
      DeviceNotEmpty(env, x);
    case AndOr(_, _, _) =>
    case Thresh(_, _) =>
  }

  /** The command lists and the thresh() processor write the device script of every policy that the
      parser accepts, and its VERIFY form where the flag asks for it. */
  lemma {:induction false} EmissionExact(env: Env, n: Node)
    requires TypeOf(n).Some?
    ensures Exact(env, n)
    decreases n
  {
    hide EmitFrom, EmitThresh, AddVerify, Commands, LeafCommands, WrapCommands, BinaryCommands;
    DeviceNotEmpty(env, n);
    match n
    case Atom(leaf) =>
      AtomExact(env, leaf);
    case Wrap(w, x) =>
      EmissionExact(env, x);
      WrapExact(env, w, x);
    case Binary(op, x, y) =>
      EmissionExact(env, x);
      EmissionExact(env, y);
      BinaryExact(env, op, x, y);
    case AndOr(x, y, z) =>
      EmissionExact(env, x);
      EmissionExact(env, y);
      EmissionExact(env, z);
      AndOrExact(env, x, y, z);
    case Thresh(_, xs) =>
      forall i | 0 <= i < |xs| ensures EmitNode(env, xs[i], false) == Device(env, xs[i]) {
        EmissionExact(env, xs[i]);
      }
      ThreshEmitted(env, n, false);
      ThreshEmitted(env, n, true);
  }

  lemma AtomExact(env: Env, leaf: Leaf)
    requires LeafType(leaf).Some?
    ensures Exact(env, Atom(leaf))
  {
    hide EmitFrom, AddVerify, LeafCommands, LeafType;
    DeviceNotEmpty(env, Atom(leaf));
    LeafEmitted(env, leaf, false);
    if LeafType(leaf).value.base == B {
      LeafEmitted(env, leaf, true);
    }
  }

  lemma WrapExact(env: Env, w: Wrapper, x: Node)
    requires TypeOf(Wrap(w, x)).Some? && Exact(env, x)
    ensures Exact(env, Wrap(w, x))
  {
    hide EmitFrom, AddVerify, WrapCommands, TypeOf, WrapScript;
    DeviceNotEmpty(env, Wrap(w, x));
    WrapEmitted(env, w, x, false);
    if TypeOf(Wrap(w, x)).value.base == B {
      WrapEmitted(env, w, x, true);
    }
  }

  lemma BinaryExact(env: Env, op: BinOp, x: Node, y: Node)
    requires TypeOf(Binary(op, x, y)).Some? && Exact(env, x) && Exact(env, y)
    ensures Exact(env, Binary(op, x, y))
  {
    hide EmitFrom, AddVerify, BinaryCommands, TypeOf, BinaryScript;
    DeviceNotEmpty(env, Binary(op, x, y));
    BinaryEmitted(env, op, x, y, false);
    if TypeOf(Binary(op, x, y)).value.base == B {
      BinaryEmitted(env, op, x, y, true);
    }
  }

  lemma AndOrExact(env: Env, x: Node, y: Node, z: Node)
    requires Exact(env, x) && Exact(env, y) && Exact(env, z)
    ensures Exact(env, AndOr(x, y, z))
  {
    hide EmitFrom, AddVerify, TypeOf;
    AndOrEmitted(env, x, y, z, false);
    AndOrEmitted(env, x, y, z, true);
  }

  // ---------------------------------------------------------------- exactly when it is the translation of BIP 379

  /** The fragments for which the emitter writes what BIP 379 prescribes: no wrapper a: and no thresh()
      with a single script. */
  predicate Standard(n: Node)
    decreases n
  {
    match n
    case Atom(_) => true
    case Wrap(w, x) => w != WrapA && Standard(x)
    case Binary(_, x, y) => Standard(x) && Standard(y)
    case AndOr(x, y, z) => Standard(x) && Standard(y) && Standard(z)
    case Thresh(_, xs) => |xs| != 1 && forall i :: 0 <= i < |xs| ==> Standard(xs[i])
  }

  function Count(s: Script, op: Op): nat {
    if s == [] then 0 else Count(s[..|s| - 1], op) + (if s[|s| - 1] == op then 1 else 0)
  }

  lemma {:induction false} CountJoin(a: Script, b: Script, op: Op)
    ensures Count(a + b, op) == Count(a, op) + Count(b, op)
    decreases |b|
  {
    if b == [] {
      assert a + b == a;
    } else {
      CountJoin(a, b[..|b| - 1], op);
      assert (a + b)[..|a + b| - 1] == a + b[..|b| - 1];
    }
  }

  lemma CountOne(a: Op, op: Op)
    ensures Count([a], op) == if a == op then 1 else 0
  {
    assert [a][..0] == [];
  }

  lemma {:induction false} CountNone(s: Script, op: Op)
    requires forall i :: 0 <= i < |s| ==> s[i] != op
    ensures Count(s, op) == 0
    decreases |s|
  {
    if s != [] {
      CountNone(s[..|s| - 1], op);
    }
  }

  lemma CountVerify(s: Script, op: Op)
    requires op == Add || op == FromAltStack
    ensures Count(AddVerify(s), op) == Count(s, op)
  {
    if s != [] && Absorbs(s[|s| - 1]) {
      var t := AddVerify(s);
      assert t[..|s| - 1] == s[..|s| - 1];
    } else {
      CountJoin(s, [Verify], op);
      CountOne(Verify, op);
    }
  }

  /** Scripts around other scripts. */
  lemma CountAround(a: Script, x: Script, b: Script, op: Op)
    requires (forall i :: 0 <= i < |a| ==> a[i] != op) && (forall i :: 0 <= i < |b| ==> b[i] != op)
    ensures Count(a + x + b, op) == Count(x, op)
  {
    CountJoin(a + x, b, op);
    CountJoin(a, x, op);
    CountNone(a, op);
    CountNone(b, op);
  }

  lemma WrapCount(w: Wrapper, x: Script, op: Op)
    requires w != WrapA && (op == Add || op == FromAltStack)
    ensures Count(WrapScript(w, x), op) == Count(x, op)
  {
    hide Count, AddVerify;
    match w
    case WrapS =>
      CountAround([Swap], x, [], op);
      assert [Swap] + x + [] == [Swap] + x;
    case WrapC =>
      CountAround([], x, [CheckSig(false)], op);
      assert [] + x == x;
    case WrapT =>
      CountAround([], x, [Small(1)], op);
      assert [] + x == x;
    case WrapD =>
      CountAround([Dup, If(false)], x, [EndIf], op);
    case WrapV =>
      CountVerify(x, op);
    case WrapJ =>
      CountAround([Size, ZeroNotEqual, If(false)], x, [EndIf], op);
    case WrapN =>
      CountAround([], x, [ZeroNotEqual], op);
      assert [] + x == x;
    case WrapL =>
      CountAround([If(false), Small(0), Else], x, [EndIf], op);
    case WrapU =>
      CountAround([If(false)], x, [Else, Small(0), EndIf], op);
  }

  /** Two scripts with others between and around them. */
  lemma CountAroundTwo(a: Script, x: Script, b: Script, y: Script, c: Script, op: Op)
    requires (forall i :: 0 <= i < |a| ==> a[i] != op) && (forall i :: 0 <= i < |b| ==> b[i] != op)
             && (forall i :: 0 <= i < |c| ==> c[i] != op)
    ensures Count(a + x + b + y + c, op) == Count(x, op) + Count(y, op)
  {
    CountAround(a, x, b, op);
    CountJoin(a + x + b, y, op);
    CountJoin(a + x + b + y, c, op);
    CountNone(c, op);
  }

  lemma BinaryCount(o: BinOp, x: Script, y: Script, op: Op)
    requires op == Add || op == FromAltStack
    ensures Count(BinaryScript(o, x, y), op) == Count(x, op) + Count(y, op)
  {
    hide Count;
    match o
    case AndV =>
      CountJoin(x, y, op);
    case AndB =>
      CountAroundTwo([], x, [], y, [BoolAnd], op);
      assert [] + x + [] == x;
    case AndN =>
      CountAroundTwo([], x, [If(true), Small(0), Else], y, [EndIf], op);
      assert [] + x == x;
    case OrB =>
      CountAroundTwo([], x, [], y, [BoolOr], op);
      assert [] + x + [] == x;
    case OrC =>
      CountAroundTwo([], x, [If(true)], y, [EndIf], op);
      assert [] + x == x;
    case OrD =>
      CountAroundTwo([], x, [IfDup, If(true)], y, [EndIf], op);
      assert [] + x == x;
    case OrI =>
      CountAroundTwo([If(false)], x, [Else], y, [EndIf], op);
  }

  function Total(xs: seq<Script>, op: Op): nat {
    if xs == [] then 0 else Total(xs[..|xs| - 1], op) + Count(xs[|xs| - 1], op)
  }

  lemma {:induction false} SumCount(xs: seq<Script>, op: Op)
    requires |xs| >= 1
    ensures Count(SumScript(xs), op) == Total(xs, op) + (if op == Add then |xs| - 1 else 0)
    decreases |xs|
  {
    hide Count;
    var init, last := xs[..|xs| - 1], xs[|xs| - 1];
    if |xs| > 1 {
      SumCount(init, op);
      CountJoin(SumScript(init) + last, [Add], op);
      CountJoin(SumScript(init), last, op);
      CountOne(Add, op);
    } else {
      assert init == [];
    }
  }

  /** How many wrappers a: and how many thresh() with a single script there are. */
  function Alts(n: Node): nat
    decreases n, 1
  {
    match n
    case Atom(_) => 0
    case Wrap(w, x) => Alts(x) + (if w == WrapA then 1 else 0)
    case Binary(_, x, y) => Alts(x) + Alts(y)
    case AndOr(x, y, z) => Alts(x) + Alts(y) + Alts(z)
    case Thresh(_, xs) => AllAlts(xs)
  }

  function AllAlts(xs: seq<Node>): nat
    decreases xs, 0
  {
    if xs == [] then 0 else AllAlts(xs[..|xs| - 1]) + Alts(xs[|xs| - 1])
  }

  function Lone(n: Node): nat
    decreases n, 1
  {
    match n
    case Atom(_) => 0
    case Wrap(_, x) => Lone(x)
    case Binary(_, x, y) => Lone(x) + Lone(y)
    case AndOr(x, y, z) => Lone(x) + Lone(y) + Lone(z)
    case Thresh(_, xs) => AllLone(xs) + (if |xs| == 1 then 1 else 0)
  }

  function AllLone(xs: seq<Node>): nat
    decreases xs, 0
  {
    if xs == [] then 0 else AllLone(xs[..|xs| - 1]) + Lone(xs[|xs| - 1])
  }

  lemma {:induction false} KeysArePushes(env: Env, keys: seq<nat>)
    ensures forall i :: 0 <= i < |PushKeys(env, keys)| ==> PushKeys(env, keys)[i].Push?
    decreases |keys|
  {
    if keys != [] {
      KeysArePushes(env, keys[1..]);
    }
  }

  lemma LeafCount(env: Env, leaf: Leaf, op: Op)
    requires op == Add || op == FromAltStack
    ensures Count(LeafScript(env, leaf), op) == 0
  {
    if leaf.Multi? {
      KeysArePushes(env, leaf.keys);
    }
    CountNone(LeafScript(env, leaf), op);
  }

  lemma {:induction false} TotalsRelate(ds: seq<Script>, cs: seq<Script>, xs: seq<Node>)
    requires |ds| == |cs| == |xs|
    requires forall i :: 0 <= i < |xs| ==> Relates(ds[i], cs[i], xs[i])
    ensures Total(ds, FromAltStack) == 0 && Total(cs, FromAltStack) == AllAlts(xs)
            && Total(ds, Add) == Total(cs, Add) + AllLone(xs)
    decreases |xs|
  {
    hide Count, Alts, Lone;
    if xs != [] {
      var m := |xs| - 1;
      TotalsRelate(ds[..m], cs[..m], xs[..m]);
      assert Relates(ds[m], cs[m], xs[m]);
    }
  }

  /** How the two scripts of an expression differ in the opcodes that make the difference. */
  ghost predicate Relates(d: Script, c: Script, n: Node) {
    Count(d, FromAltStack) == 0 && Count(c, FromAltStack) == Alts(n) && Count(d, Add) == Count(c, Add) + Lone(n)
  }

  lemma ThreshRelates(env: Env, n: Node)
    requires n.Thresh? && forall i :: 0 <= i < |n.xs| ==> Relates(Device(env, n.xs[i]), Compile(env, n.xs[i]), n.xs[i])
    ensures Relates(Device(env, n), Compile(env, n), n)
  {
    hide Count, SumScript, Relates;
    var ds, cs := DeviceAll(env, n.xs), CompileAll(env, n.xs);
    var tail := [PushNum(n.k), Equal(false)];
    TotalsRelate(ds, cs, n.xs);
    CountJoin(DeviceSum(ds), tail, FromAltStack);
    CountJoin(SumScript(cs), tail, FromAltStack);
    CountJoin(DeviceSum(ds), tail, Add);
    CountJoin(SumScript(cs), tail, Add);
    SumRelates(ds, cs);
    RelatesIs(Device(env, n), Compile(env, n), n);
  }

  lemma RelatesIs(d: Script, c: Script, n: Node)
    requires Count(d, FromAltStack) == 0 && Count(c, FromAltStack) == Alts(n)
             && Count(d, Add) == Count(c, Add) + Lone(n)
    ensures Relates(d, c, n)
  {
  }

  lemma SumRelates(ds: seq<Script>, cs: seq<Script>)
    requires |ds| == |cs|
    ensures Count(DeviceSum(ds), FromAltStack) - Total(ds, FromAltStack)
            == Count(SumScript(cs), FromAltStack) - Total(cs, FromAltStack) == 0
    ensures Count(DeviceSum(ds), Add) - Total(ds, Add)
            == Count(SumScript(cs), Add) - Total(cs, Add) + (if |ds| == 1 then 1 else 0)
    ensures forall k: nat ::
              Count([PushNum(k), Equal(false)], Add) == 0 && Count([PushNum(k), Equal(false)], FromAltStack) == 0
  {
    forall k: nat
      ensures Count([PushNum(k), Equal(false)], Add) == 0 && Count([PushNum(k), Equal(false)], FromAltStack) == 0
    {
      CountNone([PushNum(k), Equal(false)], Add);
      CountNone([PushNum(k), Equal(false)], FromAltStack);
    }
    if |ds| >= 1 {
      SumCount(ds, Add);
      SumCount(ds, FromAltStack);
      SumCount(cs, Add);
      SumCount(cs, FromAltStack);
      CountJoin(ds[0], [Add], Add);
      CountJoin(ds[0], [Add], FromAltStack);
      CountOne(Add, Add);
      CountOne(Add, FromAltStack);
    }
  }

  lemma {:induction false} Counts(env: Env, n: Node)
    ensures Relates(Device(env, n), Compile(env, n), n)
    decreases n
  {
    hide Count, WrapScript, BinaryScript;
    match n
    case Atom(leaf) =>
      LeafCount(env, leaf, FromAltStack);
    case Wrap(w, x) =>
      Counts(env, x);
      WrapRelates(env, w, x);
    case Binary(op, x, y) =>
      Counts(env, x);
      Counts(env, y);
      BinaryCount(op, Device(env, x), Device(env, y), FromAltStack);
      BinaryCount(op, Device(env, x), Device(env, y), Add);
      BinaryCount(op, Compile(env, x), Compile(env, y), FromAltStack);
      BinaryCount(op, Compile(env, x), Compile(env, y), Add);
    case AndOr(x, y, z) =>
      Counts(env, x);
      Counts(env, y);
      Counts(env, z);
      AndOrCount(Device(env, x), Device(env, y), Device(env, z), FromAltStack);
      AndOrCount(Device(env, x), Device(env, y), Device(env, z), Add);
      AndOrCount(Compile(env, x), Compile(env, y), Compile(env, z), FromAltStack);
      AndOrCount(Compile(env, x), Compile(env, y), Compile(env, z), Add);
    case Thresh(_, xs) =>
      forall i | 0 <= i < |xs| ensures Relates(Device(env, xs[i]), Compile(env, xs[i]), xs[i]) {
        Counts(env, xs[i]);
      }
      ThreshRelates(env, n);
  }

  lemma AndOrCount(x: Script, y: Script, z: Script, op: Op)
    requires op == Add || op == FromAltStack
    ensures Count(x + [If(true)] + z + [Else] + y + [EndIf], op) == Count(x, op) + Count(y, op) + Count(z, op)
  {
    hide Count;
    CountAroundTwo([], x, [If(true)], z, [Else], op);
    CountJoin(x + [If(true)] + z + [Else], y, op);
    CountJoin(x + [If(true)] + z + [Else] + y, [EndIf], op);
    CountOne(EndIf, op);
    assert [] + x == x;
  }

  lemma WrapRelates(env: Env, w: Wrapper, x: Node)
    requires Relates(Device(env, x), Compile(env, x), x)
    ensures Relates(Device(env, Wrap(w, x)), Compile(env, Wrap(w, x)), Wrap(w, x))
  {
    hide Count;
    var d, c := Device(env, x), Compile(env, x);
    if w == WrapA {
      CountAround([ToAltStack], d, [], FromAltStack);
      CountAround([ToAltStack], d, [], Add);
      assert [ToAltStack] + d + [] == [ToAltStack] + d;
      CountAround([ToAltStack], c, [FromAltStack], Add);
      CountAround([ToAltStack], c, [], FromAltStack);
      assert [ToAltStack] + c + [] == [ToAltStack] + c;
      CountJoin([ToAltStack] + c, [FromAltStack], FromAltStack);
      CountOne(FromAltStack, FromAltStack);
    } else {
      WrapCount(w, d, FromAltStack);
      WrapCount(w, d, Add);
      WrapCount(w, c, FromAltStack);
      WrapCount(w, c, Add);
    }
  }

  lemma {:induction false} NoneCounted(xs: seq<Node>)
    ensures AllAlts(xs) == 0 <==> forall i :: 0 <= i < |xs| ==> Alts(xs[i]) == 0
    ensures AllLone(xs) == 0 <==> forall i :: 0 <= i < |xs| ==> Lone(xs[i]) == 0
    decreases |xs|
  {
    hide Alts, Lone;
    if xs != [] {
      var m := |xs| - 1;
      NoneCounted(xs[..m]);
      assert forall i :: 0 <= i < m ==> xs[..m][i] == xs[i];
    }
  }

  lemma {:induction false} StandardCounts(n: Node)
    ensures Standard(n) <==> Alts(n) == 0 && Lone(n) == 0
    decreases n
  {
    match n
    case Atom(_) =>
    case Wrap(_, x) =>
      StandardCounts(x);
    case Binary(_, x, y) =>
      StandardCounts(x);
      StandardCounts(y);
    case AndOr(x, y, z) =>
      StandardCounts(x);
      StandardCounts(y);
      StandardCounts(z);
    case Thresh(_, xs) =>
      forall i | 0 <= i < |xs| ensures Standard(xs[i]) <==> Alts(xs[i]) == 0 && Lone(xs[i]) == 0 {
        StandardCounts(xs[i]);
      }
      NoneCounted(xs);
  }

  lemma {:induction false} StandardSame(env: Env, n: Node)
    requires Standard(n)
    ensures Device(env, n) == Compile(env, n)
    decreases n
  {
    match n
    case Atom(_) =>
    case Wrap(_, x) =>
      StandardSame(env, x);
    case Binary(_, x, y) =>
      StandardSame(env, x);
      StandardSame(env, y);
    case AndOr(x, y, z) =>
      StandardSame(env, x);
      StandardSame(env, y);
      StandardSame(env, z);
    case Thresh(_, xs) =>
      forall i | 0 <= i < |xs| ensures Device(env, xs[i]) == Compile(env, xs[i]) {
        StandardSame(env, xs[i]);
      }
      assert DeviceAll(env, xs) == CompileAll(env, xs);
  }

  /** For every policy that the parser accepts, the emitted script is the translation of BIP 379 exactly
      when the policy has neither a wrapper a: nor a thresh() with a single script. */
  lemma EmittedIsTranslationIff(env: Env, n: Node)
    requires TypeOf(n).Some?
    ensures EmitNode(env, n, false) == Compile(env, n) <==> Standard(n)
  {
    hide EmitNode, Device, Compile, TypeOf, Alts, Lone, Standard, Count;
    EmissionExact(env, n);
    Counts(env, n);
    StandardCounts(n);
    if Standard(n) {
      StandardSame(env, n);
    }
  }
}
