/** Every combinator and wrapper keeps the promises of the type the parser gives it, provided its
    parts keep theirs. */
module CombinatorSoundness {
  import opened Wrappers
  import opened BitcoinScript
  import opened Miniscript
  import opened ScriptNumbers
  import opened ScriptRelations
  import opened StackShape

  // ---------------------------------------------------------------- one pair of lemmas per combinator

  lemma AndOrShape(env: Env, tx: Type, ty: Type, tz: Type, t: Type, s: Stack, r: Stack, s': Stack)
    requires AndOrType(tx, ty, tz) == Some(t) && ShapeB(tx, s, r)
    requires Shape(env, if Truthy(r.top) then ty else tz, r.rest, s')
    ensures Shape(env, t, s, s')
  {
    ShapeAfter(env, if Truthy(r.top) then ty else tz, t, s, r.rest, s');
  }

  lemma AndOrSound(env: Env, tx: Type, x: Script, ty: Type, y: Script, tz: Type, z: Script, t: Type)
    requires Sound(env, tx, x) && Sound(env, ty, y) && Sound(env, tz, z)
    requires AndOrType(tx, ty, tz) == Some(t)
    ensures Sound(env, t, x + [If(true)] + z + [Else] + y + [EndIf])
  {
    var ry := IfElseRel(true, TypeRel(env, tz), TypeRel(env, ty));
    assert x + [If(true)] + z + [Else] + y + [EndIf] == x + IfElse(true, z, y);
    DoesIfElse(env, true, z, TypeRel(env, tz), y, TypeRel(env, ty));
    forall s, r, s' | TypeRel(env, tx)(s, r) && ry(r, s') ensures TypeRel(env, t)(s, s') {
      AndOrShape(env, tx, ty, tz, t, s, r, s');
    }
    DoesAppend(env, x, TypeRel(env, tx), IfElse(true, z, y), ry, TypeRel(env, t));
  }

  lemma AndVSound(env: Env, tx: Type, x: Script, ty: Type, y: Script, t: Type)
    requires Sound(env, tx, x) && Sound(env, ty, y) && AndVType(tx, ty) == Some(t)
    ensures Sound(env, t, x + y)
  {
    forall s, r, s' | TypeRel(env, tx)(s, r) && TypeRel(env, ty)(r, s') ensures TypeRel(env, t)(s, s') {
      ShapeAfter(env, ty, t, s, r, s');
    }
    DoesAppend(env, x, TypeRel(env, tx), y, TypeRel(env, ty), TypeRel(env, t));
  }

  /** A B followed by a W leaves their two results, in some order, on what both left untouched. */
  predicate TwoResults(tx: Type, s: Stack, q: Stack) {
    && q.Cons? && q.rest.Cons? && Suffix(q.rest.rest, s)
    && (tx.n && Truthy(q.top) && Truthy(q.rest.top) ==> TopNonEmpty(s))
  }

  function TwoResultsRel(tx: Type, ty: Type): Relation {
    (s, q) => TwoResults(tx, s, q) && !ty.z && !ty.o && !ty.n
  }

  lemma TwoResultsSound(env: Env, tx: Type, x: Script, ty: Type, y: Script)
    requires Sound(env, tx, x) && Sound(env, ty, y) && tx.base == B && ty.base == W
    ensures Does(env, x + y, TwoResultsRel(tx, ty))
  {
    forall s, r, q | TypeRel(env, tx)(s, r) && TypeRel(env, ty)(r, q) ensures TwoResultsRel(tx, ty)(s, q) {
      SuffixTransitive(q.rest.rest, r.rest, s);
    }
    DoesAppend(env, x, TypeRel(env, tx), y, TypeRel(env, ty), TwoResultsRel(tx, ty));
  }

  lemma AndBSound(env: Env, tx: Type, x: Script, ty: Type, y: Script, t: Type)
    requires Sound(env, tx, x) && Sound(env, ty, y) && AndBType(tx, ty) == Some(t)
    ensures Sound(env, t, x + y + [BoolAnd])
  {
    TwoResultsSound(env, tx, x, ty, y);
    DoesOp(env, BoolAnd);
    forall s, q, s' | TwoResultsRel(tx, ty)(s, q) && OpRel(env, BoolAnd)(q, s') ensures TypeRel(env, t)(s, s') {
      BoolResult(env, BoolAnd, q, s');
    }
    DoesAppend(env, x + y, TwoResultsRel(tx, ty), [BoolAnd], OpRel(env, BoolAnd), TypeRel(env, t));
  }

  lemma OrBSound(env: Env, tx: Type, x: Script, tz: Type, z: Script, t: Type)
    requires Sound(env, tx, x) && Sound(env, tz, z) && OrBType(tx, tz) == Some(t)
    ensures Sound(env, t, x + z + [BoolOr])
  {
    TwoResultsSound(env, tx, x, tz, z);
    DoesOp(env, BoolOr);
    forall s, q, s' | TwoResultsRel(tx, tz)(s, q) && OpRel(env, BoolOr)(q, s') ensures TypeRel(env, t)(s, s') {
      BoolResult(env, BoolOr, q, s');
    }
    DoesAppend(env, x + z, TwoResultsRel(tx, tz), [BoolOr], OpRel(env, BoolOr), TypeRel(env, t));
  }

  /** One step of thresh: adding the result of a W to the sum so far. */
  lemma AddSound(env: Env, tx: Type, x: Script, ty: Type, y: Script, t: Type)
    requires Sound(env, tx, x) && Sound(env, ty, y) && tx.base == B && ty.base == W
    requires t == Type(B, false, false, false, false, false)
    ensures Sound(env, t, x + y + [Add])
  {
    TwoResultsSound(env, tx, x, ty, y);
    DoesOp(env, Add);
    DoesAppend(env, x + y, TwoResultsRel(tx, ty), [Add], OpRel(env, Add), TypeRel(env, t));
  }

  lemma PushZeroSound(env: Env)
    ensures Sound(env, LeafType(Zero).value, [Small(0)])
  {
    DoesOp(env, Small(0));
    forall s, s' | OpRel(env, Small(0))(s, s') ensures TypeRel(env, LeafType(Zero).value)(s, s') {
    }
    DoesImplies(env, [Small(0)], OpRel(env, Small(0)), TypeRel(env, LeafType(Zero).value));
  }

  lemma AndNSound(env: Env, tx: Type, x: Script, ty: Type, y: Script, t: Type)
    requires Sound(env, tx, x) && Sound(env, ty, y) && AndNType(tx, ty) == Some(t)
    ensures Sound(env, t, x + [If(true), Small(0), Else] + y + [EndIf])
  {
    PushZeroSound(env);
    var tz := LeafType(Zero).value;
    AndOrSound(env, tx, x, ty, y, tz, [Small(0)], AndOrType(tx, ty, tz).value);
    assert t == AndOrType(tx, ty, tz).value;
    assert x + [If(true), Small(0), Else] + y + [EndIf] == x + [If(true)] + [Small(0)] + [Else] + y + [EndIf];
  }

  lemma OrCShape(env: Env, tx: Type, tz: Type, t: Type, s: Stack, r: Stack, s': Stack)
    requires FixedBinaryType(OrC, tx, tz) == Some(t) && ShapeB(tx, s, r)
    requires if Truthy(r.top) then s' == r.rest else Shape(env, tz, r.rest, s')
    ensures Shape(env, t, s, s')
  {
    if !Truthy(r.top) {
      ShapeAfter(env, tz, t, s, r.rest, s');
    }
  }

  /** or_c, with the o flag of BIP 379. */
  lemma OrCSound(env: Env, tx: Type, x: Script, tz: Type, z: Script, t: Type)
    requires Sound(env, tx, x) && Sound(env, tz, z) && FixedBinaryType(OrC, tx, tz) == Some(t)
    ensures Sound(env, t, x + [If(true)] + z + [EndIf])
  {
    var rz := IfThenRel(true, TypeRel(env, tz));
    assert x + [If(true)] + z + [EndIf] == x + IfThen(true, z);
    DoesIfThen(env, true, z, TypeRel(env, tz));
    forall s, r, s' | TypeRel(env, tx)(s, r) && rz(r, s') ensures TypeRel(env, t)(s, s') {
      OrCShape(env, tx, tz, t, s, r, s');
    }
    DoesAppend(env, x, TypeRel(env, tx), IfThen(true, z), rz, TypeRel(env, t));
  }

  lemma OrDShape(env: Env, tx: Type, tz: Type, t: Type, s: Stack, r: Stack, s': Stack)
    requires OrDType(tx, tz) == Some(t) && ShapeB(tx, s, r)
    requires if Truthy(r.top) then s' == r else Shape(env, tz, r.rest, s')
    ensures Shape(env, t, s, s')
  {
    if !Truthy(r.top) {
      ShapeAfter(env, tz, t, s, r.rest, s');
    }
  }

  lemma OrDSound(env: Env, tx: Type, x: Script, tz: Type, z: Script, t: Type)
    requires Sound(env, tx, x) && Sound(env, tz, z) && OrDType(tx, tz) == Some(t)
    ensures Sound(env, t, x + [IfDup, If(true)] + z + [EndIf])
  {
    var rz := IfThenRel(true, TypeRel(env, tz));
    var rq: Relation := (r: Stack, s': Stack) => r.Cons? && if Truthy(r.top) then s' == r
        else TypeRel(env, tz)(r.rest, s');
    assert x + [IfDup, If(true)] + z + [EndIf] == x + ([IfDup] + IfThen(true, z));
    DoesIfThen(env, true, z, TypeRel(env, tz));
    DoesOp(env, IfDup);
    forall r, q, s' | OpRel(env, IfDup)(r, q) && rz(q, s') ensures rq(r, s') {
    }
    DoesAppend(env, [IfDup], OpRel(env, IfDup), IfThen(true, z), rz, rq);
    forall s, r, s' | TypeRel(env, tx)(s, r) && rq(r, s') ensures TypeRel(env, t)(s, s') {
      OrDShape(env, tx, tz, t, s, r, s');
    }
    DoesAppend(env, x, TypeRel(env, tx), [IfDup] + IfThen(true, z), rq, TypeRel(env, t));
  }

  lemma OrISound(env: Env, tx: Type, x: Script, tz: Type, z: Script, t: Type)
    requires Sound(env, tx, x) && Sound(env, tz, z) && OrIType(tx, tz) == Some(t)
    ensures Sound(env, t, [If(false)] + x + [Else] + z + [EndIf])
  {
    var rq := IfElseRel(false, TypeRel(env, tx), TypeRel(env, tz));
    DoesIfElse(env, false, x, TypeRel(env, tx), z, TypeRel(env, tz));
    forall s, s' | rq(s, s') ensures TypeRel(env, t)(s, s') {
      ShapeAfter(env, if Truthy(s.top) then tx else tz, t, s, s.rest, s');
    }
    DoesImplies(env, IfElse(false, x, z), rq, TypeRel(env, t));
  }

  lemma BinarySound(env: Env, tx: Type, x: Script, ty: Type, y: Script, op: BinOp, t: Type)
    requires Sound(env, tx, x) && Sound(env, ty, y) && FixedBinaryType(op, tx, ty) == Some(t)
    ensures Sound(env, t, BinaryScript(op, x, y))
  {
    match op
    case AndV => AndVSound(env, tx, x, ty, y, t);
    case AndB => AndBSound(env, tx, x, ty, y, t);
    case AndN => AndNSound(env, tx, x, ty, y, t);
    case OrB => OrBSound(env, tx, x, ty, y, t);
    case OrC => OrCSound(env, tx, x, ty, y, t);
    case OrD => OrDSound(env, tx, x, ty, y, t);
    case OrI => OrISound(env, tx, x, ty, y, t);
  }

  // ---------------------------------------------------------------- wrappers

  lemma RunWrapA(env: Env, x: Script, st: State)
    ensures Run(env, WrapScript(WrapA, x), st) ==
            Then(env, [FromAltStack], Then(env, x, Step(env, ToAltStack, st)))
  {
    RunAppend(env, [ToAltStack] + x, [FromAltStack], st);
    RunPrepend(env, ToAltStack, x, st);
  }

  lemma SkipsWrapA(env: Env, x: Script)
    requires Skips(env, x)
    ensures Skips(env, WrapScript(WrapA, x))
  {
    forall st | !Live(st) ensures Run(env, WrapScript(WrapA, x), st) == Some(st) {
      RunWrapA(env, x, st);
      RunOne(env, FromAltStack, st);
    }
  }

  lemma WrapARun(env: Env, tx: Type, x: Script, t: Type, st: State)
    requires Sound(env, tx, x) && WrapType(WrapA, tx) == Some(t) && Live(st) && Run(env, WrapScript(WrapA, x), st).Some?
    ensures var st' := Run(env, WrapScript(WrapA, x), st).value;
            st'.alt == st.alt && st'.conds == st.conds && Shape(env, t, st.stack, st'.stack)
  {
    RunWrapA(env, x, st);
    hide Run, WrapScript, Sound;
    var inner := Step(env, ToAltStack, st).value;
    assert Live(inner);
    var r := Run(env, x, inner).value;
    SoundAt(env, tx, x, inner, r);
    RunOne(env, FromAltStack, r);
  }

  lemma WrapASound(env: Env, tx: Type, x: Script, t: Type)
    requires Sound(env, tx, x) && WrapType(WrapA, tx) == Some(t)
    ensures Sound(env, t, WrapScript(WrapA, x))
  {
    hide WrapScript, Shape;
    SkipsWrapA(env, x);
    forall st | Live(st) && Run(env, WrapScript(WrapA, x), st).Some?
      ensures var st' := Run(env, WrapScript(WrapA, x), st).value;
              st'.alt == st.alt && st'.conds == st.conds && TypeRel(env, t)(st.stack, st'.stack)
    {
      WrapARun(env, tx, x, t, st);
    }
  }

  lemma WrapSSound(env: Env, tx: Type, x: Script, t: Type)
    requires Sound(env, tx, x) && WrapType(WrapS, tx) == Some(t)
    ensures Sound(env, t, WrapScript(WrapS, x))
  {
    DoesOp(env, Swap);
    forall s, r, s' | OpRel(env, Swap)(s, r) && TypeRel(env, tx)(r, s') ensures TypeRel(env, t)(s, s') {
      assert Suffix(s.rest.rest, s.rest);
    }
    DoesAppend(env, [Swap], OpRel(env, Swap), x, TypeRel(env, tx), TypeRel(env, t));
  }

  /** Wrappers that append one opcode to x. */
  lemma PostfixSound(env: Env, tx: Type, x: Script, op: Op, t: Type)
    requires Sound(env, tx, x) && Plain(op)
    requires forall s, r, s' :: Shape(env, tx, s, r) && ExecMain(env, op, r) == Some(s') ==> Shape(env, t, s, s')
    ensures Sound(env, t, x + [op])
  {
    DoesOp(env, op);
    forall s, r, s' | TypeRel(env, tx)(s, r) && OpRel(env, op)(r, s') ensures TypeRel(env, t)(s, s') {
    }
    DoesAppend(env, x, TypeRel(env, tx), [op], OpRel(env, op), TypeRel(env, t));
  }

  lemma WrapCShape(env: Env, tx: Type, t: Type, s: Stack, r: Stack, s': Stack)
    requires WrapType(WrapC, tx) == Some(t) && ShapeK(env, tx, s, r) && ExecMain(env, CheckSig(false), r) == Some(s')
    ensures ShapeB(t, s, s')
  {
    SuffixTransitive(r.rest.rest, r.rest, s);
  }

  lemma WrapTShape(env: Env, tx: Type, t: Type, s: Stack, r: Stack, s': Stack)
    requires WrapType(WrapT, tx) == Some(t) && ShapeV(tx, s, r) && ExecMain(env, Small(1), r) == Some(s')
    ensures ShapeB(t, s, s')
  {
    SmallNumbers(1);
  }

  lemma WrapNShape(env: Env, tx: Type, t: Type, s: Stack, r: Stack, s': Stack)
    requires WrapType(WrapN, tx) == Some(t) && ShapeB(tx, s, r) && ExecMain(env, ZeroNotEqual, r) == Some(s')
    ensures ShapeB(t, s, s')
  {
    ZeroNotEqualResult(env, r, s');
  }

  lemma WrapCSound(env: Env, tx: Type, x: Script, t: Type)
    requires Sound(env, tx, x) && WrapType(WrapC, tx) == Some(t)
    ensures Sound(env, t, x + [CheckSig(false)])
  {
    forall s, r, s' | Shape(env, tx, s, r) && ExecMain(env, CheckSig(false), r) == Some(s')
      ensures Shape(env, t, s, s')
    {
      WrapCShape(env, tx, t, s, r, s');
    }
    PostfixSound(env, tx, x, CheckSig(false), t);
  }

  lemma WrapTSound(env: Env, tx: Type, x: Script, t: Type)
    requires Sound(env, tx, x) && WrapType(WrapT, tx) == Some(t)
    ensures Sound(env, t, x + [Small(1)])
  {
    forall s, r, s' | Shape(env, tx, s, r) && ExecMain(env, Small(1), r) == Some(s') ensures Shape(env, t, s, s') {
      WrapTShape(env, tx, t, s, r, s');
    }
    PostfixSound(env, tx, x, Small(1), t);
  }

  lemma WrapNSound(env: Env, tx: Type, x: Script, t: Type)
    requires Sound(env, tx, x) && WrapType(WrapN, tx) == Some(t)
    ensures Sound(env, t, x + [ZeroNotEqual])
  {
    forall s, r, s' | Shape(env, tx, s, r) && ExecMain(env, ZeroNotEqual, r) == Some(s') ensures Shape(env, t, s, s') {
      WrapNShape(env, tx, t, s, r, s');
    }
    PostfixSound(env, tx, x, ZeroNotEqual, t);
  }

  lemma VerifyForm(env: Env, last: Op, merged: Op, st: State)
    requires Absorbs(last) && merged == Merged(last)
    ensures Run(env, [merged], st) == Run(env, [last, Verify], st)
  {
    RunOne(env, merged, st);
    RunPrepend(env, last, [Verify], st);
    assert [last] + [Verify] == [last, Verify];
    var r := Step(env, last, st);
    if r.Some? {
      RunOne(env, Verify, r.value);
    }
  }

  /** Merging VERIFY into the last opcode does not change any run. */
  lemma AddVerifyRun(env: Env, x: Script, st: State)
    ensures Run(env, AddVerify(x), st) == Run(env, x + [Verify], st)
  {
    if x != [] && Absorbs(x[|x| - 1]) {
      var init, last := x[..|x| - 1], x[|x| - 1];
      var merged := AddVerify(x)[|x| - 1];
      assert AddVerify(x) == init + [merged];
      assert x + [Verify] == init + [last, Verify];
      RunAppend(env, init, [merged], st);
      RunAppend(env, init, [last, Verify], st);
      var r := Run(env, init, st);
      if r.Some? {
        VerifyForm(env, last, merged, r.value);
      }
    }
  }

  lemma WrapVSound(env: Env, tx: Type, x: Script, t: Type)
    requires Sound(env, tx, x) && WrapType(WrapV, tx) == Some(t)
    ensures Sound(env, t, AddVerify(x))
  {
    PostfixSound(env, tx, x, Verify, t);
    forall st ensures Run(env, AddVerify(x), st) == Run(env, x + [Verify], st) {
      AddVerifyRun(env, x, st);
    }
  }

  lemma WrapDSound(env: Env, tx: Type, x: Script, t: Type)
    requires Sound(env, tx, x) && WrapType(WrapD, tx) == Some(t)
    ensures Sound(env, t, WrapScript(WrapD, x))
  {
    var rx := IfThenRel(false, TypeRel(env, tx));
    assert WrapScript(WrapD, x) == [Dup] + IfThen(false, x);
    DoesIfThen(env, false, x, TypeRel(env, tx));
    DoesOp(env, Dup);
    forall s, r, s' | OpRel(env, Dup)(s, r) && rx(r, s') ensures TypeRel(env, t)(s, s') {
      assert s' == s && Suffix(s.rest, s);
    }
    DoesAppend(env, [Dup], OpRel(env, Dup), IfThen(false, x), rx, TypeRel(env, t));
  }

  /** SIZE 0NOTEQUAL pushes whether the top element is non-empty. */
  function SizeTestRel(): Relation {
    (s: Stack, r: Stack) => s.Cons? && r == Cons(Bool(s.top != []), s)
  }

  lemma DoesSizeTest(env: Env)
    ensures Does(env, [Size] + [ZeroNotEqual], SizeTestRel())
  {
    DoesOp(env, Size);
    DoesOp(env, ZeroNotEqual);
    forall s, q, r | OpRel(env, Size)(s, q) && OpRel(env, ZeroNotEqual)(q, r) ensures SizeTestRel()(s, r) {
      SizeTest(env, s, q, r);
    }
    DoesAppend(env, [Size], OpRel(env, Size), [ZeroNotEqual], OpRel(env, ZeroNotEqual), SizeTestRel());
  }

  lemma WrapJShape(tx: Type, t: Type, s: Stack, s': Stack)
    requires WrapType(WrapJ, tx) == Some(t) && s.Cons?
    requires if s.top != [] then ShapeB(tx, s, s') else s' == s
    ensures ShapeB(t, s, s')
  {
    assert Suffix(s.rest, s);
  }

  lemma WrapJSound(env: Env, tx: Type, x: Script, t: Type)
    requires Sound(env, tx, x) && WrapType(WrapJ, tx) == Some(t)
    ensures Sound(env, t, WrapScript(WrapJ, x))
  {
    var rx := IfThenRel(false, TypeRel(env, tx));
    assert WrapScript(WrapJ, x) == [Size] + [ZeroNotEqual] + IfThen(false, x);
    DoesIfThen(env, false, x, TypeRel(env, tx));
    DoesSizeTest(env);
    forall s, r, s' | SizeTestRel()(s, r) && rx(r, s') ensures TypeRel(env, t)(s, s') {
      TruthyBool(s.top != []);
      WrapJShape(tx, t, s, s');
    }
    DoesAppend(env, [Size] + [ZeroNotEqual], SizeTestRel(), IfThen(false, x), rx, TypeRel(env, t));
  }

  lemma WrapLUSound(env: Env, tx: Type, x: Script, w: Wrapper, t: Type)
    requires Sound(env, tx, x) && (w == WrapL || w == WrapU) && WrapType(w, tx) == Some(t)
    ensures Sound(env, t, WrapScript(w, x))
  {
    var tz := LeafType(Zero).value;
    PushZeroSound(env);
    if w == WrapL {
      OrISound(env, tz, [Small(0)], tx, x, t);
      assert WrapScript(w, x) == [If(false)] + [Small(0)] + [Else] + x + [EndIf];
    } else {
      OrISound(env, tx, x, tz, [Small(0)], t);
      assert WrapScript(w, x) == [If(false)] + x + [Else] + [Small(0)] + [EndIf];
    }
  }

  lemma WrapSound(env: Env, tx: Type, x: Script, w: Wrapper, t: Type)
    requires Sound(env, tx, x) && WrapType(w, tx) == Some(t)
    ensures Sound(env, t, WrapScript(w, x))
  {
    match w
    case WrapA => WrapASound(env, tx, x, t);
    case WrapS => WrapSSound(env, tx, x, t);
    case WrapC => WrapCSound(env, tx, x, t);
    case WrapT => WrapTSound(env, tx, x, t);
    case WrapD => WrapDSound(env, tx, x, t);
    case WrapV => WrapVSound(env, tx, x, t);
    case WrapJ => WrapJSound(env, tx, x, t);
    case WrapN => WrapNSound(env, tx, x, t);
    case WrapL => WrapLUSound(env, tx, x, w, t);
    case WrapU => WrapLUSound(env, tx, x, w, t);
  }
}
