/** The canonical satisfactions and dissatisfactions really are that: on a witness with valid signatures
    and preimages, and with its timelocks met, the script of BIP 379 runs to its end and leaves a true
    result for a satisfaction and the empty element for a dissatisfaction. */
module SatisfactionRuns {
  import opened Wrappers
  import opened BitcoinScript
  import opened Miniscript
  import opened ScriptNumbers
  import opened ScriptRelations
  import opened StackShape
  import opened CombinatorSoundness
  import opened LeafSoundness
  import opened TypeSoundness
  import opened Satisfaction
  import opened ScriptEffects

  // ---------------------------------------------------------------- witnesses

  /** The signatures and preimages that a signer has. */
  datatype Signer = Signer(sig: nat -> Bytes, preimage: (HashKind, Bytes) -> Bytes)

  function Value(env: Env, g: Signer, e: Elem): Bytes {
    match e
    case Signature(key) => g.sig(key)
    case KeyBytes(key) => env.key(key)
    case PreimageOf(kind, h) => g.preimage(kind, h)
    case EmptyElem => []
    case OneElem => [1]
  }

  /** Script elements have at most 520 bytes. */
  predicate ElemOk(env: Env, g: Signer, e: Elem) {
    match e
    case Signature(key) => env.sigOk(g.sig(key), env.key(key)) && |g.sig(key)| <= 520
    case PreimageOf(kind, h) => |g.preimage(kind, h)| == 32 && env.hash(kind, g.preimage(kind, h)) == h
    case _ => true
  }

  predicate LockOk(env: Env, l: Lock) {
    if l.absolute then env.cltvOk(EncodeNum(l.n)) else env.csvOk(EncodeNum(l.n))
  }

  /** The signer can provide every element, and the transaction meets every timelock. */
  ghost predicate Supplied(env: Env, g: Signer, a: Way) {
    && (forall i :: 0 <= i < |a.w| ==> ElemOk(env, g, a.w[i]))
    && (forall l :: l in a.locks ==> LockOk(env, l))
  }

  function Values(env: Env, g: Signer, w: seq<Elem>): (r: seq<Bytes>)
    ensures |r| == |w| && forall i :: 0 <= i < |w| ==> r[i] == Value(env, g, w[i])
  {
    seq(|w|, i requires 0 <= i < |w| => Value(env, g, w[i]))
  }

  lemma SuppliedJoin(env: Env, g: Signer, b: Way, c: Way)
    requires Supplied(env, g, Join(b, c))
    ensures Supplied(env, g, b) && Supplied(env, g, c)
    ensures Values(env, g, Join(b, c).w) == Values(env, g, b.w) + Values(env, g, c.w)
  {
    hide ElemOk, LockOk, Value;
    var w := b.w + c.w;
    assert forall i :: 0 <= i < |b.w| ==> w[i] == b.w[i];
    assert forall i :: 0 <= i < |c.w| ==> w[|b.w| + i] == c.w[i];
  }

  lemma SuppliedPrefixed(env: Env, g: Signer, e: Elem, b: Way)
    requires Supplied(env, g, Prefixed(e, b))
    ensures Supplied(env, g, b) && Values(env, g, Prefixed(e, b).w) == [Value(env, g, e)] + Values(env, g, b.w)
  {
    hide ElemOk, LockOk, Value;
    var w := [e] + b.w;
    assert forall i :: 0 <= i < |b.w| ==> w[1 + i] == b.w[i];
  }

  // ---------------------------------------------------------------- results

  /** A true number of at most four bytes, or the empty element. */
  predicate Good(v: Bytes, sat: bool) {
    if sat then Truthy(v) && |v| <= 4 else v == []
  }

  predicate OutOk(env: Env, base: Base, o: seq<Bytes>, sat: bool) {
    match base
    case B => |o| == 1 && Good(o[0], sat)
    case V => o == [] && sat
    case K => |o| == 2 && env.sigOk(o[1], o[0]) == sat
    case W => false
  }

  /** Beside the element that was on top before, in one order or the other. */
  function Beside(top: Bytes, v: Bytes, below: bool): seq<Bytes> {
    if below then [top, v] else [v, top]
  }

  ghost predicate SideEffect(env: Env, s: Script, w: seq<Bytes>, v: Bytes, below: bool) {
    forall top :: Effect(env, s, [top] + w, Beside(top, v, below))
  }

  /** The script of an expression with the given base type succeeds on the witness w. */
  ghost predicate Succeeds(env: Env, base: Base, s: Script, w: seq<Bytes>, sat: bool) {
    if base == W then exists v, below :: Good(v, sat) && SideEffect(env, s, w, v, below)
    else exists o :: OutOk(env, base, o, sat) && Effect(env, s, w, o)
  }

  lemma Results(env: Env, base: Base, s: Script, w: seq<Bytes>, sat: bool) returns (o: seq<Bytes>)
    requires base != W && Succeeds(env, base, s, w, sat)
    ensures OutOk(env, base, o, sat) && Effect(env, s, w, o)
  {
    o :| OutOk(env, base, o, sat) && Effect(env, s, w, o);
  }

  lemma ResultB(env: Env, s: Script, w: seq<Bytes>, sat: bool) returns (v: Bytes)
    requires Succeeds(env, B, s, w, sat)
    ensures Good(v, sat) && Effect(env, s, w, [v])
  {
    hide Good, Effect;
    var o := Results(env, B, s, w, sat);
    v := o[0];
    assert o == [v];
  }

  lemma SucceedsB(env: Env, s: Script, w: seq<Bytes>, sat: bool, v: Bytes)
    requires Good(v, sat) && Effect(env, s, w, [v])
    ensures Succeeds(env, B, s, w, sat)
  {
    hide Good, Effect;
    assert OutOk(env, B, [v], sat);
  }

  lemma SucceedsV(env: Env, s: Script, w: seq<Bytes>)
    requires Effect(env, s, w, [])
    ensures Succeeds(env, V, s, w, true)
  {
    hide Effect;
    assert OutOk(env, V, [], true);
  }

  lemma SucceedsAs(env: Env, base: Base, s: Script, w: seq<Bytes>, sat: bool, o: seq<Bytes>)
    requires base != W && OutOk(env, base, o, sat) && Effect(env, s, w, o)
    ensures Succeeds(env, base, s, w, sat)
  {
    hide Effect;
  }

  lemma ResultW(env: Env, s: Script, w: seq<Bytes>, sat: bool) returns (v: Bytes, below: bool)
    requires Succeeds(env, W, s, w, sat)
    ensures Good(v, sat) && SideEffect(env, s, w, v, below)
  {
    v, below :| Good(v, sat) && SideEffect(env, s, w, v, below);
  }

  lemma SideAt(env: Env, s: Script, w: seq<Bytes>, v: Bytes, below: bool, top: Bytes)
    requires SideEffect(env, s, w, v, below)
    ensures Effect(env, s, [top] + w, Beside(top, v, below))
  {
  }

  lemma OneGood()
    ensures Good([1], true) && Truthy([1]) && Good([], false) && !Truthy([]) && EncodeNum(0) == []
            && EncodeNum(1) == [1] && Small(1) == PushNum(1)
  {
    SmallNumbers(1);
  }

  lemma GoodTruth(v: Bytes, sat: bool)
    requires Good(v, sat)
    ensures Truthy(v) == sat && DecodeNum(v).Some? && (DecodeNum(v).value != 0) == sat
  {
    DecodeTruthy(v);
  }

  // ---------------------------------------------------------------- combinators

  lemma AndOrRuns(env: Env, base: Base, x: Script, y: Script, z: Script, wx: seq<Bytes>, w: seq<Bytes>, satX: bool,
      sat: bool)
    requires base != W && Skips(env, y) && Skips(env, z)
    requires Succeeds(env, B, x, wx, satX) && Succeeds(env, base, if satX then y else z, w, sat)
    ensures Succeeds(env, base, x + [If(true)] + z + [Else] + y + [EndIf], wx + w, sat)
  {
    hide Good, Effect, Skips, Truthy, OutOk, Succeeds;
    var v := ResultB(env, x, wx, satX);
    var o := Results(env, base, if satX then y else z, w, sat);
    GoodTruth(v, satX);
    EffectIfElse(env, true, z, y, v, w, o);
    EffectSeq(env, x, IfElse(true, z, y), wx, [v], w, o);
    assert x + IfElse(true, z, y) == x + [If(true)] + z + [Else] + y + [EndIf];
    SucceedsAs(env, base, x + [If(true)] + z + [Else] + y + [EndIf], wx + w, sat, o);
  }

  lemma AndVRuns(env: Env, base: Base, x: Script, y: Script, wx: seq<Bytes>, wy: seq<Bytes>)
    requires base != W && Succeeds(env, V, x, wx, true) && Succeeds(env, base, y, wy, true)
    ensures Succeeds(env, base, x + y, wx + wy, true)
  {
    hide Good, Effect, Succeeds;
    var r := Results(env, V, x, wx, true);
    var o := Results(env, base, y, wy, true);
    assert [] + wy == wy;
    EffectSeq(env, x, y, wx, [], wy, o);
    SucceedsAs(env, base, x + y, wx + wy, true, o);
  }

  lemma BoolExec(env: Env, op: Op, p: Bytes, q: Bytes, sp: bool, sq: bool, rest: Stack)
    requires (op == BoolAnd || op == BoolOr) && Good(p, sp) && Good(q, sq)
    ensures ExecMain(env, op, On([p, q], rest)) == Some(On([Bool(if op == BoolAnd then sp && sq else sp || sq)], rest))
  {
    hide Truthy, DecodeNum, On, EncodeNum, Good;
    GoodTruth(p, sp);
    GoodTruth(q, sq);
    OnFew(p, q, rest);
    OneGood();
    OnFew(Bool(if op == BoolAnd then sp && sq else sp || sq), p, rest);
  }

  /** A result and a W beside it. */
  lemma TwoResultsRun(env: Env, x: Script, y: Script, wx: seq<Bytes>, wy: seq<Bytes>, sx: bool, sy: bool)
      returns (p: Bytes, q: Bytes, sp: bool, sq: bool)
    requires Succeeds(env, B, x, wx, sx) && Succeeds(env, W, y, wy, sy)
    ensures Effect(env, x + y, wx + wy, [p, q]) && Good(p, sp) && Good(q, sq)
    ensures (sp == sx && sq == sy) || (sp == sy && sq == sx)
  {
    hide Good, Effect, Succeeds;
    var vx := ResultB(env, x, wx, sx);
    var vy, below := ResultW(env, y, wy, sy);
    SideAt(env, y, wy, vy, below, vx);
    EffectSeq(env, x, y, wx, [vx], wy, Beside(vx, vy, below));
    if below {
      p, q, sp, sq := vx, vy, sx, sy;
    } else {
      p, q, sp, sq := vy, vx, sy, sx;
    }
  }

  lemma BoolRuns(env: Env, op: Op, x: Script, y: Script, wx: seq<Bytes>, wy: seq<Bytes>, sx: bool, sy: bool)
    requires (op == BoolAnd || op == BoolOr) && Succeeds(env, B, x, wx, sx) && Succeeds(env, W, y, wy, sy)
    ensures Succeeds(env, B, x + y + [op], wx + wy, if op == BoolAnd then sx && sy else sx || sy)
  {
    hide Good, Effect, Succeeds, ExecMain, On, Truthy;
    var p, q, sp, sq := TwoResultsRun(env, x, y, wx, wy, sx, sy);
    var r := if op == BoolAnd then sx && sy else sx || sy;
    forall rest ensures ExecMain(env, op, On([p, q], rest)) == Some(On([Bool(r)], rest)) {
      BoolExec(env, op, p, q, sp, sq, rest);
    }
    EffectThenOp(env, x + y, op, wx + wy, [p, q], [Bool(r)]);
    OneGood();
    SucceedsB(env, x + y + [op], wx + wy, r, Bool(r));
  }

  lemma OrCRuns(env: Env, x: Script, z: Script, wx: seq<Bytes>, w: seq<Bytes>, satX: bool)
    requires Skips(env, z) && Succeeds(env, B, x, wx, satX) && (if satX then w == [] else Succeeds(env, V, z, w, true))
    ensures Succeeds(env, V, x + [If(true)] + z + [EndIf], wx + w, true)
  {
    hide Good, Effect, Succeeds, Skips, Truthy;
    var v := ResultB(env, x, wx, satX);
    GoodTruth(v, satX);
    if !satX {
      var o := Results(env, V, z, w, true);
    }
    EffectIfThen(env, true, z, v, w, []);
    EffectSeq(env, x, IfThen(true, z), wx, [v], w, []);
    assert x + IfThen(true, z) == x + [If(true)] + z + [EndIf];
    SucceedsV(env, x + [If(true)] + z + [EndIf], wx + w);
  }

  lemma IfDupEffect(env: Env, v: Bytes)
    ensures Effect(env, [IfDup], [v], if Truthy(v) then [v, v] else [v])
  {
    hide Truthy, On;
    forall rest ensures ExecMain(env, IfDup, On([v], rest)) == Some(On(if Truthy(v) then [v, v] else [v], rest)) {
      OnFew(v, v, rest);
    }
    EffectOp(env, IfDup, [v], if Truthy(v) then [v, v] else [v]);
  }

  lemma OrDRuns(env: Env, x: Script, z: Script, wx: seq<Bytes>, w: seq<Bytes>, satX: bool, sat: bool)
    requires Skips(env, z) && Succeeds(env, B, x, wx, satX)
             && (if satX then w == [] && sat else Succeeds(env, B, z, w, sat))
    ensures Succeeds(env, B, x + [IfDup, If(true)] + z + [EndIf], wx + w, sat)
  {
    hide Good, Effect, Succeeds, Skips, Truthy;
    var v := ResultB(env, x, wx, satX);
    GoodTruth(v, satX);
    IfDupEffect(env, v);
    var r: Bytes;
    if satX {
      r := v;
      EffectIfThen(env, true, z, v, [v], [v]);
      assert [v] + [v] == [v, v] && [v, v] + [] == [v, v];
      EffectSeq(env, [IfDup], IfThen(true, z), [v], [v, v], [], [v]);
    } else {
      r := ResultB(env, z, w, sat);
      EffectIfThen(env, true, z, v, w, [r]);
      EffectSeq(env, [IfDup], IfThen(true, z), [v], [v], w, [r]);
    }
    assert [v] + w == if satX then [v] else [v] + w;
    EffectSeq(env, x, [IfDup] + IfThen(true, z), wx, [v], w, [r]);
    assert x + ([IfDup] + IfThen(true, z)) == x + [IfDup, If(true)] + z + [EndIf];
    SucceedsB(env, x + [IfDup, If(true)] + z + [EndIf], wx + w, sat, r);
  }

  lemma OrIRuns(env: Env, base: Base, x: Script, z: Script, w: seq<Bytes>, first: bool, sat: bool)
    requires base != W && Skips(env, x) && Skips(env, z) && Succeeds(env, base, if first then x else z, w, sat)
    ensures Succeeds(env, base, [If(false)] + x + [Else] + z + [EndIf], [Bool(first)] + w, sat)
  {
    hide Good, Effect, Succeeds, Skips, Truthy, OutOk;
    var o := Results(env, base, if first then x else z, w, sat);
    OneGood();
    EffectIfElse(env, false, x, z, Bool(first), w, o);
    assert IfElse(false, x, z) == [If(false)] + x + [Else] + z + [EndIf];
    SucceedsAs(env, base, [If(false)] + x + [Else] + z + [EndIf], [Bool(first)] + w, sat, o);
  }

  // ---------------------------------------------------------------- what the types say about witnesses

  lemma ShapeOfEffect(env: Env, t: Type, s: Script, w: seq<Bytes>, o: seq<Bytes>)
    requires Sound(env, t, s) && Effect(env, s, w, o)
    ensures Shape(env, t, On(w, Nil), On(o, Nil))
  {
    hide Reaches, On, Shape;
    var st := State(On(w, Nil), Nil, Nil);
    EffectAt(env, s, w, o, Nil);
    ReachAt(env, s, On(w, Nil), On(o, Nil), st);
    assert Live(st) && Run(env, s, st).Some?;
    assert TypeRel(env, t)(st.stack, On(o, Nil));
  }

  /** The witness of a Bo has one element, and that of a Vz none. */
  lemma OneInput(env: Env, t: Type, s: Script, w: seq<Bytes>, v: Bytes)
    requires Sound(env, t, s) && t.base == B && t.o && Effect(env, s, w, [v])
    ensures |w| == 1
  {
    ShapeOfEffect(env, t, s, w, [v]);
    OnFew(v, v, Nil);
    assert On(w[1..], Nil) == Nil;
  }

  lemma NoInput(env: Env, t: Type, s: Script, w: seq<Bytes>)
    requires Sound(env, t, s) && t.base == V && t.z && Effect(env, s, w, [])
    ensures w == []
  {
    ShapeOfEffect(env, t, s, w, []);
  }

  /** A Bn that comes out true has a non-empty element on top. */
  lemma NonEmptyInput(env: Env, t: Type, s: Script, w: seq<Bytes>, v: Bytes)
    requires Sound(env, t, s) && t.base == B && t.n && Effect(env, s, w, [v]) && Truthy(v)
    ensures w != [] && w[0] != []
  {
    ShapeOfEffect(env, t, s, w, [v]);
    OnFew(v, v, Nil);
  }

  /** A Bu that comes out true leaves exactly 1. */
  lemma UnitResult(env: Env, t: Type, s: Script, w: seq<Bytes>, v: Bytes)
    requires Sound(env, t, s) && t.base == B && t.u && Effect(env, s, w, [v]) && Truthy(v)
    ensures v == [1]
  {
    ShapeOfEffect(env, t, s, w, [v]);
    OnFew(v, v, Nil);
  }

  // ---------------------------------------------------------------- wrappers

  lemma WrapARuns(env: Env, x: Script, w: seq<Bytes>, sat: bool)
    requires Succeeds(env, B, x, w, sat)
    ensures Succeeds(env, W, WrapScript(WrapA, x), w, sat)
  {
    hide Good, Effect, WrapScript;
    var v := ResultB(env, x, w, sat);
    forall top ensures Effect(env, WrapScript(WrapA, x), [top] + w, Beside(top, v, true)) {
      EffectWrapA(env, x, top, w, v);
    }
    assert SideEffect(env, WrapScript(WrapA, x), w, v, true);
  }

  lemma SwapEffect(env: Env, a: Bytes, b: Bytes)
    ensures Effect(env, [Swap], [a, b], [b, a])
  {
    hide On;
    forall rest ensures ExecMain(env, Swap, On([a, b], rest)) == Some(On([b, a], rest)) {
      OnFew(a, b, rest);
      OnFew(b, a, rest);
    }
    EffectOp(env, Swap, [a, b], [b, a]);
  }

  lemma WrapSRuns(env: Env, tx: Type, x: Script, w: seq<Bytes>, sat: bool)
    requires Succeeds(env, B, x, w, sat) && Sound(env, tx, x) && tx.base == B && tx.o
    ensures Succeeds(env, W, [Swap] + x, w, sat)
  {
    hide Good, Effect, Sound;
    var v := ResultB(env, x, w, sat);
    OneInput(env, tx, x, w, v);
    forall top ensures Effect(env, [Swap] + x, [top] + w, Beside(top, v, false)) {
      SwapEffect(env, top, w[0]);
      EffectFrame(env, x, w, [v], [top]);
      assert w + [top] == [w[0], top] + [] && [v] + [top] == [v, top] && [top] + w == [top, w[0]] + [];
      EffectSeq(env, [Swap], x, [top, w[0]], [w[0], top], [], [v, top]);
    }
    assert SideEffect(env, [Swap] + x, w, v, false);
  }

  lemma WrapCRuns(env: Env, x: Script, w: seq<Bytes>, sat: bool)
    requires Succeeds(env, K, x, w, sat)
    ensures Succeeds(env, B, x + [CheckSig(false)], w, sat)
  {
    hide Good, Effect, On, Truthy, Succeeds;
    var o := Results(env, K, x, w, sat);
    var k, g := o[0], o[1];
    assert o == [k, g];
    forall rest ensures ExecMain(env, CheckSig(false), On([k, g], rest)) == Some(On([Bool(sat)], rest)) {
      OnFew(k, g, rest);
      OnFew(Bool(sat), k, rest);
    }
    EffectThenOp(env, x, CheckSig(false), w, o, [Bool(sat)]);
    OneGood();
    SucceedsB(env, x + [CheckSig(false)], w, sat, Bool(sat));
  }

  lemma SmallEffect(env: Env, n: nat)
    requires n <= 1
    ensures Effect(env, [Small(n)], [], [Bool(n == 1)]) && Skips(env, [Small(n)])
  {
    hide On, Skips, EncodeNum;
    OneGood();
    assert EncodeNum(n) == Bool(n == 1) by {
      assert n == 0 || n == 1;
    }
    forall rest ensures ExecMain(env, Small(n), On([], rest)) == Some(On([Bool(n == 1)], rest)) {
      OnFew(Bool(n == 1), [], rest);
    }
    EffectOp(env, Small(n), [], [Bool(n == 1)]);
    DoesOp(env, Small(n));
  }

  lemma WrapTRuns(env: Env, x: Script, w: seq<Bytes>)
    requires Succeeds(env, V, x, w, true)
    ensures Succeeds(env, B, x + [Small(1)], w, true)
  {
    hide Good, Effect, Truthy, Succeeds, Skips;
    var o := Results(env, V, x, w, true);
    SmallEffect(env, 1);
    var none: seq<Bytes> := [];
    assert none + none == none && w + none == w && [Bool(1 == 1)] == [[1]];
    EffectSeq(env, x, [Small(1)], w, none, none, [[1]]);
    OneGood();
    SucceedsB(env, x + [Small(1)], w, true, [1]);
  }

  lemma WrapVRuns(env: Env, x: Script, w: seq<Bytes>)
    requires Succeeds(env, B, x, w, true)
    ensures Succeeds(env, V, AddVerify(x), w, true)
  {
    hide Effect, Truthy, Succeeds, AddVerify;
    var v := ResultB(env, x, w, true);
    EffectVerify(env, x, w, v);
    SucceedsV(env, AddVerify(x), w);
  }

  lemma WrapNRuns(env: Env, x: Script, w: seq<Bytes>, sat: bool)
    requires Succeeds(env, B, x, w, sat)
    ensures Succeeds(env, B, x + [ZeroNotEqual], w, sat)
  {
    hide Good, Effect, On, Truthy, Succeeds, DecodeNum;
    var v := ResultB(env, x, w, sat);
    GoodTruth(v, sat);
    forall rest ensures ExecMain(env, ZeroNotEqual, On([v], rest)) == Some(On([Bool(sat)], rest)) {
      OnFew(v, v, rest);
      OnFew(Bool(sat), v, rest);
    }
    EffectThenOp(env, x, ZeroNotEqual, w, [v], [Bool(sat)]);
    OneGood();
    SucceedsB(env, x + [ZeroNotEqual], w, sat, Bool(sat));
  }

  lemma DupEffect(env: Env, a: Bytes)
    ensures Effect(env, [Dup], [a], [a, a])
  {
    hide On;
    forall rest ensures ExecMain(env, Dup, On([a], rest)) == Some(On([a, a], rest)) {
      OnFew(a, a, rest);
    }
    EffectOp(env, Dup, [a], [a, a]);
  }

  lemma WrapDRuns(env: Env, tx: Type, x: Script, w: seq<Bytes>, sat: bool)
    requires Sound(env, tx, x) && tx.base == V && tx.z && Skips(env, x)
    requires if sat then Succeeds(env, V, x, w, true) else w == []
    ensures Succeeds(env, B, [Dup, If(false)] + x + [EndIf], [Bool(sat)] + w, sat)
  {
    hide Effect, Truthy, Succeeds, Skips, Sound;
    var c := Bool(sat);
    OneGood();
    DupEffect(env, c);
    if sat {
      var o := Results(env, V, x, w, true);
      NoInput(env, tx, x, w);
      EffectFrame(env, x, [], [], [c]);
      assert [] + [c] == [c];
    }
    EffectIfThen(env, false, x, c, [c], [c]);
    assert [c] + [c] == [c, c] + [] && [c] + [] == [c] && [c] + w == [c];
    EffectSeq(env, [Dup], IfThen(false, x), [c], [c, c], [], [c]);
    assert [Dup] + IfThen(false, x) == [Dup, If(false)] + x + [EndIf];
    SucceedsB(env, [Dup, If(false)] + x + [EndIf], [c] + w, sat, c);
  }

  lemma SizeEncodes(n: nat)
    requires n <= 520
    ensures DecodeNum(EncodeNum(n)) == Some(n)
  {
    if n > 0 {
      assert n / 256 < 0x80;
      assert EncodePositive(n / 256) == [n / 256];
    }
    DecodeEncode(n);
  }

  lemma SizeEffect(env: Env, e: Bytes)
    requires |e| <= 520
    ensures Effect(env, [Size, ZeroNotEqual], [e], [Bool(e != []), e])
  {
    hide On, DecodeNum, EncodeNum, Effect;
    SizeEncodes(|e|);
    var n := EncodeNum(|e|);
    forall rest ensures ExecMain(env, Size, On([e], rest)) == Some(On([n, e], rest)) {
      OnFew(e, e, rest);
      OnFew(n, e, rest);
    }
    EffectOp(env, Size, [e], [n, e]);
    forall rest ensures ExecMain(env, ZeroNotEqual, On([n, e], rest)) == Some(On([Bool(e != []), e], rest)) {
      OnFew(n, e, rest);
      OnFew(Bool(e != []), e, rest);
    }
    EffectThenOp(env, [Size], ZeroNotEqual, [e], [n, e], [Bool(e != []), e]);
    assert [Size] + [ZeroNotEqual] == [Size, ZeroNotEqual];
  }

  lemma WrapJRuns(env: Env, tx: Type, x: Script, w: seq<Bytes>, sat: bool)
    requires Sound(env, tx, x) && tx.base == B && tx.n && Skips(env, x) && forall i :: 0 <= i < |w| ==> |w[i]| <= 520
    requires if sat then Succeeds(env, B, x, w, true) else w == [[]]
    ensures Succeeds(env, B, [Size, ZeroNotEqual, If(false)] + x + [EndIf], w, sat)
  {
    hide Effect, Truthy, Succeeds, Skips, Sound, Good;
    OneGood();
    var v: Bytes;
    if sat {
      v := ResultB(env, x, w, true);
      GoodTruth(v, true);
      NonEmptyInput(env, tx, x, w, v);
    } else {
      v := [];
    }
    var e := w[0];
    SizeEffect(env, e);
    EffectIfThen(env, false, x, Bool(e != []), w, [v]);
    assert [Bool(e != []), e] + w[1..] == [Bool(e != [])] + w && [e] + w[1..] == w;
    EffectSeq(env, [Size, ZeroNotEqual], IfThen(false, x), [e], [Bool(e != []), e], w[1..], [v]);
    assert [Size, ZeroNotEqual] + IfThen(false, x) == [Size, ZeroNotEqual, If(false)] + x + [EndIf];
    SucceedsB(env, [Size, ZeroNotEqual, If(false)] + x + [EndIf], w, sat, v);
  }

  /** l: and u: are or_i() with 0. */
  lemma ZeroRuns(env: Env)
    ensures Succeeds(env, B, [Small(0)], [], false) && Skips(env, [Small(0)])
  {
    hide Effect, Truthy, Succeeds, Skips;
    SmallEffect(env, 0);
    OneGood();
    SucceedsB(env, [Small(0)], [], false, []);
  }

  lemma WrapLRuns(env: Env, x: Script, w: seq<Bytes>, zero: bool, sat: bool)
    requires Skips(env, x) && (if zero then w == [] && !sat else Succeeds(env, B, x, w, sat))
    ensures Succeeds(env, B, [If(false), Small(0), Else] + x + [EndIf], [Bool(zero)] + w, sat)
  {
    hide Succeeds, Skips;
    ZeroRuns(env);
    OrIRuns(env, B, [Small(0)], x, w, zero, sat);
    assert [If(false)] + [Small(0)] + [Else] + x + [EndIf] == [If(false), Small(0), Else] + x + [EndIf];
  }

  lemma WrapURuns(env: Env, x: Script, w: seq<Bytes>, zero: bool, sat: bool)
    requires Skips(env, x) && (if zero then w == [] && !sat else Succeeds(env, B, x, w, sat))
    ensures Succeeds(env, B, [If(false)] + x + [Else, Small(0), EndIf], [Bool(!zero)] + w, sat)
  {
    hide Succeeds, Skips;
    ZeroRuns(env);
    OrIRuns(env, B, x, [Small(0)], w, !zero, sat);
    assert [If(false)] + x + [Else] + [Small(0)] + [EndIf] == [If(false)] + x + [Else, Small(0), EndIf];
  }

  // ---------------------------------------------------------------- thresh

  lemma NumberRoundTrip(j: nat)
    requires j <= 0x7fff_ffff
    ensures DecodeNum(EncodeNum(j)) == Some(j) && |EncodeNum(j)| <= 4 && (j > 0 ==> Truthy(EncodeNum(j)))
  {
    if j > 0 {
      FourBytes(j);
      DecodeEncode(j);
      DecodeTruthy(EncodeNum(j));
    }
  }

  lemma FourBytes(j: nat)
    requires 0 < j <= 0x7fff_ffff
    ensures |EncodePositive(j)| <= 4
  {
    ShorterBy(j);
    ShorterBy(j / 256);
    ShorterBy(j / 256 / 256);
    ShorterBy(j / 256 / 256 / 256);
    hide EncodePositive;
    assert j / 256 / 256 / 256 < 0x80;
  }

  lemma ShorterBy(n: nat)
    ensures |EncodePositive(n)| == if n < 0x80 then 1 else 1 + |EncodePositive(n / 256)|
  {
  }

  lemma AddExec(env: Env, p: Bytes, q: Bytes, a: nat, b: nat, rest: Stack)
    requires DecodeNum(p) == Some(a) && DecodeNum(q) == Some(b)
    ensures ExecMain(env, Add, On([p, q], rest)) == Some(On([EncodeNum(a + b)], rest))
  {
    hide DecodeNum, EncodeNum, On;
    OnFew(p, q, rest);
    OnFew(EncodeNum(a + b), p, rest);
  }

  function Tally(sat: bool): nat {
    if sat then 1 else 0
  }

  /** One more child of thresh(): its result, 1 or nothing, is added to the sum so far. */
  lemma AddRuns(env: Env, x: Script, y: Script, wx: seq<Bytes>, wy: seq<Bytes>, j: nat, sat: bool, v: Bytes,
      below: bool)
    requires j <= 0x7fff_fffe && Effect(env, x, wx, [EncodeNum(j)]) && v == Bool(sat)
             && SideEffect(env, y, wy, v, below)
    ensures Effect(env, x + y + [Add], wx + wy, [EncodeNum(j + Tally(sat))])
  {
    hide DecodeNum, EncodeNum, On, Effect, ExecMain, SideEffect;
    var sum := EncodeNum(j);
    NumberRoundTrip(j);
    NumberRoundTrip(1);
    NumberRoundTrip(0);
    OneGood();
    SideAt(env, y, wy, v, below, sum);
    var r := Beside(sum, v, below);
    EffectSeq(env, x, y, wx, [sum], wy, r);
    forall rest ensures ExecMain(env, Add, On(r, rest)) == Some(On([EncodeNum(j + Tally(sat))], rest)) {
      if below {
        AddExec(env, sum, v, j, Tally(sat), rest);
      } else {
        AddExec(env, v, sum, Tally(sat), j, rest);
      }
    }
    EffectThenOp(env, x + y, Add, wx + wy, r, [EncodeNum(j + Tally(sat))]);
  }

  lemma PushNumExec(env: Env, k: nat, s: Stack)
    requires k >= 1
    ensures ExecMain(env, PushNum(k), s) == Some(Cons(EncodeNum(k), s))
  {
    hide EncodePositive;
  }

  /** The sum is compared with the threshold. */
  lemma ThresholdRuns(env: Env, x: Script, w: seq<Bytes>, j: nat, k: nat)
    requires 1 <= k <= 0x7fff_ffff && j <= 0x7fff_ffff && Effect(env, x, w, [EncodeNum(j)])
    ensures Succeeds(env, B, x + [PushNum(k), Equal(false)], w, j == k)
  {
    hide DecodeNum, EncodeNum, On, Effect, PushNum, Succeeds;
    var sum, limit := EncodeNum(j), EncodeNum(k);
    NumberRoundTrip(j);
    NumberRoundTrip(k);
    forall rest ensures ExecMain(env, PushNum(k), On([sum], rest)) == Some(On([limit, sum], rest)) {
      OnFew(sum, sum, rest);
      OnFew(limit, sum, rest);
      PushNumExec(env, k, On([sum], rest));
    }
    PlainNum(k);
    EffectThenOp(env, x, PushNum(k), w, [sum], [limit, sum]);
    forall rest ensures ExecMain(env, Equal(false), On([limit, sum], rest)) == Some(On([Bool(j == k)], rest)) {
      OnFew(limit, sum, rest);
      OnFew(Bool(j == k), sum, rest);
    }
    EffectThenOp(env, x + [PushNum(k)], Equal(false), w, [limit, sum], [Bool(j == k)]);
    OneGood();
    assert x + [PushNum(k)] + [Equal(false)] == x + [PushNum(k), Equal(false)];
    SucceedsB(env, x + [PushNum(k), Equal(false)], w, j == k, Bool(j == k));
  }

  lemma PlainNum(k: nat)
    ensures Plain(PushNum(k))
  {
  }
}
