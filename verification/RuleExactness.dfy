/** The type rules of the combinators leave out no flag that their parts would allow, except where that is said:
    for a flag that a rule leaves out there are scripts that keep the promises of the parts' types and a run of
    their combination that breaks the flag. */
module RuleExactness {
  import opened Wrappers
  import opened BitcoinScript
  import opened Miniscript
  import opened ScriptNumbers
  import opened ScriptRelations
  import opened StackShape
  import opened CombinatorSoundness
  import opened TypeSoundness
  import opened ScriptEffects
  import opened SatisfactionRuns
  import opened SampleScripts

  /** Some scripts that keep the promises of x and y break those of t when they are put together. */
  ghost predicate BinaryFails(env: Env, op: BinOp, x: Type, y: Type, t: Type) {
    exists a, b :: Keeps(env, x, a) && Keeps(env, y, b) && Breaks(env, t, BinaryScript(op, a, b))
  }

  lemma KeepsSkips(env: Env, t: Type, s: Script)
    requires Keeps(env, t, s)
    ensures Sound(env, t, s) && Skips(env, s)
  {
  }

  /** A script of type t and a witness for it. */
  lemma Part(env: Env, sig: Bytes, t: Type, c: nat, wish: Wish) returns (s: Script, w: seq<Bytes>)
    requires env.Valid() && Signs(env, sig) && Wishes(t, c, wish)
    ensures Keeps(env, t, s) && Skips(env, s) && Succeeds(env, t.base, s, w, wish != No) && |w| == Count(t, c)
    ensures wish == OnEmpty || (wish == No && (t.base == K ==> t.o)) ==> w == [] || w[0] == []
    ensures t.base == B ==> Effect(env, s, w, [Wanted(wish)])
  {
    hide Keeps, Succeeds, Effect, Skips;
    s, w := Sample(env, t, c, wish), SampleWitness(sig, t, c, wish);
    SampleKeeps(env, t, c, wish);
    KeepsSkips(env, t, s);
    SampleRuns(env, sig, t, c, wish);
  }

  lemma BinaryBreaks(env: Env, op: BinOp, x: Type, y: Type, t: Type, a: Script, b: Script)
    requires Keeps(env, x, a) && Keeps(env, y, b) && Breaks(env, t, BinaryScript(op, a, b))
    ensures BinaryFails(env, op, x, y, t)
  {
  }

  /** The parts keep x and y, and their combination succeeds on w: what that says about the flags of t. */
  lemma BinaryWitness(env: Env, op: BinOp, x: Type, y: Type, t: Type, a: Script, b: Script, w: seq<Bytes>, sat: bool)
    requires Keeps(env, x, a) && Keeps(env, y, b) && Succeeds(env, t.base, BinaryScript(op, a, b), w, sat)
    ensures w != [] || t.base == K || t.base == W ==> BinaryFails(env, op, x, y, t.(z := true))
    ensures |w| != 1 || t.base == W ==> BinaryFails(env, op, x, y, t.(o := true))
    ensures (sat && (w == [] || w[0] == [])) || t.base == W ==> BinaryFails(env, op, x, y, t.(n := true))
  {
    hide Keeps, Succeeds, Breaks, BinaryFails, BinaryScript;
    WitnessBreaks(env, t, BinaryScript(op, a, b), w, sat);
    if Breaks(env, t.(z := true), BinaryScript(op, a, b)) {
      BinaryBreaks(env, op, x, y, t.(z := true), a, b);
    }
    if Breaks(env, t.(o := true), BinaryScript(op, a, b)) {
      BinaryBreaks(env, op, x, y, t.(o := true), a, b);
    }
    if Breaks(env, t.(n := true), BinaryScript(op, a, b)) {
      BinaryBreaks(env, op, x, y, t.(n := true), a, b);
    }
  }

  lemma BinaryTwo(env: Env, op: BinOp, x: Type, y: Type, t: Type, a: Script, b: Script, w: seq<Bytes>)
    requires Keeps(env, x, a) && Keeps(env, y, b) && Effect(env, BinaryScript(op, a, b), w, [[2]]) && t.base == B
    ensures BinaryFails(env, op, x, y, t.(u := true))
  {
    hide Keeps, Effect, Breaks, BinaryFails, BinaryScript;
    TwoBreaks(env, t, BinaryScript(op, a, b), w);
    BinaryBreaks(env, op, x, y, t.(u := true), a, b);
  }

  // ---------------------------------------------------------------- and_v

  lemma AndVInputs(env: Env, sig: Bytes, x: Type, y: Type, t: Type)
    requires env.Valid() && Signs(env, sig) && Exclusive(x) && Exclusive(y) && AndVType(x, y) == Some(t)
    ensures !t.z ==> BinaryFails(env, AndV, x, y, t.(z := true))
    ensures !t.o ==> BinaryFails(env, AndV, x, y, t.(o := true))
  {
    hide Keeps, Succeeds, Effect, Skips, BinaryFails;
    var a, wx := Part(env, sig, x, 2, Yes);
    var b, wy := Part(env, sig, y, 2, Yes);
    AndVRuns(env, y.base, a, b, wx, wy);
    BinaryWitness(env, AndV, x, y, t, a, b, wx + wy, true);
  }

  lemma AndVNonEmpty(env: Env, sig: Bytes, x: Type, y: Type, t: Type)
    requires env.Valid() && Signs(env, sig) && Exclusive(x) && Exclusive(y) && AndVType(x, y) == Some(t)
    requires !x.n && !(x.z && NonEmpty(y))
    ensures BinaryFails(env, AndV, x, y, t.(n := true))
  {
    hide Keeps, Succeeds, Effect, Skips, BinaryFails;
    var a, wx := Part(env, sig, x, 1, OnEmpty);
    var b, wy := Part(env, sig, y, 1, if x.z then OnEmpty else Yes);
    AndVRuns(env, y.base, a, b, wx, wy);
    BinaryWitness(env, AndV, x, y, t, a, b, wx + wy, true);
  }

  lemma AndVUnit(env: Env, sig: Bytes, x: Type, y: Type, t: Type)
    requires env.Valid() && Signs(env, sig) && Exclusive(x) && Exclusive(y) && AndVType(x, y) == Some(t)
    requires t.base == B && !t.u
    ensures BinaryFails(env, AndV, x, y, t.(u := true))
  {
    hide Keeps, Succeeds, Effect, Skips, BinaryFails;
    var a, wx := Part(env, sig, x, 1, Yes);
    var b, wy := Part(env, sig, y, 1, Two);
    var r := Results(env, V, a, wx, true);
    assert [] + wy == wy;
    EffectSeq(env, a, b, wx, [], wy, [[2]]);
    BinaryTwo(env, AndV, x, y, t, a, b, wx + wy);
  }

  // ---------------------------------------------------------------- and_b, or_b

  lemma BoolInputs(env: Env, sig: Bytes, op: BinOp, x: Type, y: Type, t: Type)
    requires env.Valid() && Signs(env, sig) && Exclusive(x) && Exclusive(y)
    requires (op == AndB || op == OrB) && BinaryType(op, x, y) == Some(t)
    ensures !t.z ==> BinaryFails(env, op, x, y, t.(z := true))
    ensures !t.o ==> BinaryFails(env, op, x, y, t.(o := true))
  {
    hide Keeps, Succeeds, Effect, Skips, BinaryFails;
    var a, wx := Part(env, sig, x, 2, Yes);
    var b, wy := Part(env, sig, y, 2, Yes);
    BoolRuns(env, if op == AndB then BoolAnd else BoolOr, a, b, wx, wy, true, true);
    BinaryWitness(env, op, x, y, t, a, b, wx + wy, true);
  }

  lemma BoolNonEmpty(env: Env, sig: Bytes, op: BinOp, x: Type, y: Type, t: Type)
    requires env.Valid() && Signs(env, sig) && Exclusive(x) && Exclusive(y)
    requires (op == AndB || op == OrB) && BinaryType(op, x, y) == Some(t) && !t.n
    ensures BinaryFails(env, op, x, y, t.(n := true))
  {
    hide Keeps, Succeeds, Effect, Skips, BinaryFails;
    var a, wx := Part(env, sig, x, 1, if op == AndB then OnEmpty else No);
    var b, wy := Part(env, sig, y, 1, OnEmpty);
    BoolRuns(env, if op == AndB then BoolAnd else BoolOr, a, b, wx, wy, op == AndB, true);
    BinaryWitness(env, op, x, y, t, a, b, wx + wy, true);
  }

  // ---------------------------------------------------------------- or_c, or_d

  lemma OrCInputs(env: Env, sig: Bytes, x: Type, y: Type, t: Type)
    requires env.Valid() && Signs(env, sig) && Exclusive(x) && Exclusive(y) && FixedBinaryType(OrC, x, y) == Some(t)
    ensures !t.z ==> BinaryFails(env, OrC, x, y, t.(z := true))
    ensures !t.o ==> BinaryFails(env, OrC, x, y, t.(o := true))
  {
    hide Keeps, Succeeds, Effect, Skips, BinaryFails;
    var b, wy := Part(env, sig, y, 2, Yes);
    var a, wx := Part(env, sig, x, 2, No);
    OrCRuns(env, a, b, wx, wy, false);
    BinaryWitness(env, OrC, x, y, t, a, b, wx + wy, true);
    if !t.o && !x.o {
      a, wx := Part(env, sig, x, 2, Yes);
      OrCRuns(env, a, b, wx, [], true);
      assert wx + [] == wx;
      BinaryWitness(env, OrC, x, y, t, a, b, wx, true);
    }
  }

  lemma OrCNonEmpty(env: Env, sig: Bytes, x: Type, y: Type, t: Type)
    requires env.Valid() && Signs(env, sig) && Exclusive(x) && Exclusive(y) && FixedBinaryType(OrC, x, y) == Some(t)
    ensures BinaryFails(env, OrC, x, y, t.(n := true))
  {
    hide Keeps, Succeeds, Effect, Skips, BinaryFails;
    var a, wx := Part(env, sig, x, 1, if x.z then Yes else No);
    var b, wy := Part(env, sig, y, 1, Yes);
    if x.z {
      OrCRuns(env, a, b, wx, [], true);
      BinaryWitness(env, OrC, x, y, t, a, b, wx + [], true);
    } else {
      OrCRuns(env, a, b, wx, wy, false);
      BinaryWitness(env, OrC, x, y, t, a, b, wx + wy, true);
    }
  }

  lemma OrDInputs(env: Env, sig: Bytes, x: Type, y: Type, t: Type)
    requires env.Valid() && Signs(env, sig) && Exclusive(x) && Exclusive(y) && OrDType(x, y) == Some(t)
    ensures !t.z ==> BinaryFails(env, OrD, x, y, t.(z := true))
    ensures !t.o ==> BinaryFails(env, OrD, x, y, t.(o := true))
  {
    hide Keeps, Succeeds, Effect, Skips, BinaryFails;
    var b, wy := Part(env, sig, y, 2, Yes);
    var a, wx := Part(env, sig, x, 2, No);
    OrDRuns(env, a, b, wx, wy, false, true);
    BinaryWitness(env, OrD, x, y, t, a, b, wx + wy, true);
    if !t.o && !x.o {
      a, wx := Part(env, sig, x, 2, Yes);
      OrDRuns(env, a, b, wx, [], true, true);
      assert wx + [] == wx;
      BinaryWitness(env, OrD, x, y, t, a, b, wx, true);
    }
  }

  lemma OrDNonEmpty(env: Env, sig: Bytes, x: Type, y: Type, t: Type)
    requires env.Valid() && Signs(env, sig) && Exclusive(x) && Exclusive(y) && OrDType(x, y) == Some(t)
    ensures BinaryFails(env, OrD, x, y, t.(n := true))
  {
    hide Keeps, Succeeds, Effect, Skips, BinaryFails;
    var a, wx := Part(env, sig, x, 1, if x.z then Yes else No);
    var b, wy := Part(env, sig, y, 1, Yes);
    if x.z {
      OrDRuns(env, a, b, wx, [], true, true);
      BinaryWitness(env, OrD, x, y, t, a, b, wx + [], true);
    } else {
      OrDRuns(env, a, b, wx, wy, false, true);
      BinaryWitness(env, OrD, x, y, t, a, b, wx + wy, true);
    }
  }

  lemma OrDUnit(env: Env, sig: Bytes, x: Type, y: Type, t: Type)
    requires env.Valid() && Signs(env, sig) && Exclusive(x) && Exclusive(y) && OrDType(x, y) == Some(t) && !t.u
    ensures BinaryFails(env, OrD, x, y, t.(u := true))
  {
    hide Keeps, Succeeds, Effect, Skips, BinaryFails;
    var a, wx := Part(env, sig, x, 1, No);
    var b, wy := Part(env, sig, y, 1, Two);
    var none: Bytes := [];
    OneGood();
    IfDupEffect(env, none);
    EffectIfThen(env, true, b, none, wy, [[2]]);
    EffectSeq(env, [IfDup], IfThen(true, b), [none], [none], wy, [[2]]);
    EffectSeq(env, a, [IfDup] + IfThen(true, b), wx, [none], wy, [[2]]);
    assert a + ([IfDup] + IfThen(true, b)) == a + [IfDup, If(true)] + b + [EndIf];
    BinaryTwo(env, OrD, x, y, t, a, b, wx + wy);
  }

  // ---------------------------------------------------------------- or_i

  lemma OrIInputs(env: Env, sig: Bytes, x: Type, y: Type, t: Type)
    requires env.Valid() && Signs(env, sig) && Exclusive(x) && Exclusive(y) && OrIType(x, y) == Some(t)
    ensures BinaryFails(env, OrI, x, y, t.(z := true)) && BinaryFails(env, OrI, x, y, t.(n := true))
    ensures !t.o ==> BinaryFails(env, OrI, x, y, t.(o := true))
  {
    hide Keeps, Succeeds, Effect, Skips, BinaryFails;
    var a, wx := Part(env, sig, x, 1, Yes);
    var b, wy := Part(env, sig, y, 1, Yes);
    OrIRuns(env, x.base, a, b, wx, true, true);
    BinaryWitness(env, OrI, x, y, t, a, b, [Bool(true)] + wx, true);
    OrIRuns(env, x.base, a, b, wy, false, true);
    BinaryWitness(env, OrI, x, y, t, a, b, [Bool(false)] + wy, true);
  }

  lemma OrIUnit(env: Env, sig: Bytes, x: Type, y: Type, t: Type)
    requires env.Valid() && Signs(env, sig) && Exclusive(x) && Exclusive(y) && OrIType(x, y) == Some(t)
    requires t.base == B && !t.u
    ensures BinaryFails(env, OrI, x, y, t.(u := true))
  {
    hide Keeps, Succeeds, Effect, Skips, BinaryFails, Truthy;
    var a, wx := Part(env, sig, x, 1, if x.u then Yes else Two);
    var b, wy := Part(env, sig, y, 1, if x.u then Two else Yes);
    OneGood();
    var w := if x.u then wy else wx;
    EffectIfElse(env, false, a, b, Bool(!x.u), w, [[2]]);
    assert IfElse(false, a, b) == [If(false)] + a + [Else] + b + [EndIf];
    BinaryTwo(env, OrI, x, y, t, a, b, [Bool(!x.u)] + w);
  }

  // ---------------------------------------------------------------- and_n

  lemma AndNRuns(env: Env, a: Script, b: Script, wx: seq<Bytes>, wy: seq<Bytes>, satX: bool)
    requires Skips(env, b) && Succeeds(env, B, a, wx, satX)
    requires if satX then Succeeds(env, B, b, wy, true) else wy == []
    ensures Succeeds(env, B, BinaryScript(AndN, a, b), wx + wy, satX)
  {
    hide Succeeds, Skips;
    ZeroRuns(env);
    AndOrRuns(env, B, a, b, [Small(0)], wx, wy, satX, satX);
    assert a + [If(true)] + [Small(0)] + [Else] + b + [EndIf] == a + [If(true), Small(0), Else] + b + [EndIf];
  }

  lemma AndNInputs(env: Env, sig: Bytes, x: Type, y: Type, t: Type)
    requires env.Valid() && Signs(env, sig) && Exclusive(x) && Exclusive(y) && AndNType(x, y) == Some(t)
    ensures !t.z ==> BinaryFails(env, AndN, x, y, t.(z := true))
    ensures !t.o ==> BinaryFails(env, AndN, x, y, t.(o := true))
  {
    hide Keeps, Succeeds, Effect, Skips, BinaryFails, BinaryScript;
    var b, wy := Part(env, sig, y, 2, Yes);
    var a, wx := Part(env, sig, x, 2, Yes);
    AndNRuns(env, a, b, wx, wy, true);
    BinaryWitness(env, AndN, x, y, t, a, b, wx + wy, true);
    if !t.o && !x.o {
      a, wx := Part(env, sig, x, 2, No);
      AndNRuns(env, a, b, wx, [], false);
      BinaryWitness(env, AndN, x, y, t, a, b, wx + [], false);
    }
  }

  lemma AndNNonEmpty(env: Env, sig: Bytes, x: Type, y: Type, t: Type)
    requires env.Valid() && Signs(env, sig) && Exclusive(x) && Exclusive(y) && AndNType(x, y) == Some(t)
    requires !x.n && !(x.z && y.n)
    ensures BinaryFails(env, AndN, x, y, t.(n := true))
  {
    hide Keeps, Succeeds, Effect, Skips, BinaryFails, BinaryScript;
    var a, wx := Part(env, sig, x, 1, OnEmpty);
    var b, wy := Part(env, sig, y, 1, if x.z then OnEmpty else Yes);
    AndNRuns(env, a, b, wx, wy, true);
    BinaryWitness(env, AndN, x, y, t, a, b, wx + wy, true);
  }

  lemma AndNUnit(env: Env, sig: Bytes, x: Type, y: Type, t: Type)
    requires env.Valid() && Signs(env, sig) && Exclusive(x) && Exclusive(y) && AndNType(x, y) == Some(t) && !t.u
    ensures BinaryFails(env, AndN, x, y, t.(u := true))
  {
    hide Keeps, Succeeds, Effect, Skips, BinaryFails, Truthy;
    var a, wx := Part(env, sig, x, 1, Yes);
    var b, wy := Part(env, sig, y, 1, Two);
    OneGood();
    SmallEffect(env, 0);
    EffectIfElse(env, true, [Small(0)], b, [1], wy, [[2]]);
    EffectSeq(env, a, IfElse(true, [Small(0)], b), wx, [[1]], wy, [[2]]);
    assert a + IfElse(true, [Small(0)], b) == a + [If(true), Small(0), Else] + b + [EndIf];
    BinaryTwo(env, AndN, x, y, t, a, b, wx + wy);
  }

  // ---------------------------------------------------------------- where n holds without being announced

  /** n of the combination, as the parts' types allow to conclude it. */
  predicate BinaryNonEmpty(op: BinOp, x: Type, y: Type) {
    match op
    case AndV => x.n || (x.z && NonEmpty(y))
    case AndB => x.n
    case AndN => x.n || (x.z && y.n)
    case _ => false
  }

  lemma OneKeyShape(env: Env, t: Type, s: Stack, s': Stack)
    requires env.Valid() && t.base == K && t.o && ShapeK(env, t, s, s')
    ensures ShapeK(env, t.(n := true), s, s')
  {
  }

  /** A K with o keeps the promise n. */
  lemma OneKeySound(env: Env, t: Type, s: Script)
    requires env.Valid() && t.base == K && t.o && Sound(env, t, s)
    ensures Sound(env, t.(n := true), s)
  {
    hide Does, ShapeK;
    forall a, b | TypeRel(env, t)(a, b) ensures TypeRel(env, t.(n := true))(a, b) {
      OneKeyShape(env, t, a, b);
    }
    DoesImplies(env, s, TypeRel(env, t), TypeRel(env, t.(n := true)));
  }

  lemma AndVKeepsN(env: Env, x: Type, y: Type, t: Type, a: Script, b: Script)
    requires env.Valid() && AndVType(x, y) == Some(t) && BinaryNonEmpty(AndV, x, y)
    requires Sound(env, x, a) && Sound(env, y, b)
    ensures Sound(env, t.(n := true), a + b)
  {
    hide Sound;
    if y.base == K && y.o {
      OneKeySound(env, y, b);
      AndVSound(env, x, a, y.(n := true), b, AndVType(x, y.(n := true)).value);
      assert x.n || x.z ==> AndVType(x, y.(n := true)).value == t.(n := true);
    } else {
      AndVSound(env, x, a, y, b, t);
      assert t.(n := true) == t;
    }
  }

  lemma AndNShapeN(env: Env, x: Type, y: Type, t: Type, s: Stack, r: Stack, s': Stack)
    requires AndNType(x, y) == Some(t) && BinaryNonEmpty(AndN, x, y) && ShapeB(x, s, r)
    requires if Truthy(r.top) then ShapeB(y, r.rest, s') else ShapeB(LeafType(Zero).value, r.rest, s') && s'.top == []
    ensures ShapeB(t.(n := true), s, s')
  {
    var zero := LeafType(Zero).value;
    AndOrShape(env, x, y, zero, AndOrType(x, y, zero).value, s, r, s');
  }

  function ZeroRel(): Relation {
    (s: Stack, s': Stack) => s' == Cons([], s)
  }

  lemma ZeroDoes(env: Env)
    ensures Does(env, [Small(0)], ZeroRel())
  {
    hide Does;
    DoesOp(env, Small(0));
    DoesImplies(env, [Small(0)], OpRel(env, Small(0)), ZeroRel());
  }

  lemma AndNKeepsN(env: Env, x: Type, y: Type, t: Type, a: Script, b: Script)
    requires AndNType(x, y) == Some(t) && BinaryNonEmpty(AndN, x, y) && Sound(env, x, a) && Sound(env, y, b)
    ensures Sound(env, t.(n := true), BinaryScript(AndN, a, b))
  {
    hide Does, ShapeB, BinaryNonEmpty;
    var t' := t.(n := true);
    var rest := IfElse(true, [Small(0)], b);
    var rel := IfElseRel(true, ZeroRel(), TypeRel(env, y));
    ZeroDoes(env);
    DoesIfElse(env, true, [Small(0)], ZeroRel(), b, TypeRel(env, y));
    forall s, r, s' | TypeRel(env, x)(s, r) && rel(r, s') ensures TypeRel(env, t')(s, s') {
      ShapeCons(x, s, r);
      if !Truthy(r.top) {
        ZeroShape(r.rest, s');
      }
      AndNShapeN(env, x, y, t, s, r, s');
    }
    DoesAppend(env, a, TypeRel(env, x), rest, rel, TypeRel(env, t'));
    assert a + rest == a + [If(true), Small(0), Else] + b + [EndIf];
  }

  lemma ShapeCons(t: Type, s: Stack, s': Stack)
    requires ShapeB(t, s, s')
    ensures s'.Cons?
  {
  }

  lemma ZeroShape(s: Stack, s': Stack)
    requires s' == Cons([], s)
    ensures ShapeB(LeafType(Zero).value, s, s')
  {
  }

  // ---------------------------------------------------------------- the rules of the binary combinators

  lemma BinaryUnbroken(env: Env, op: BinOp, x: Type, y: Type, t: Type)
    requires forall a, b :: Sound(env, x, a) && Sound(env, y, b) ==> Sound(env, t, BinaryScript(op, a, b))
    ensures !BinaryFails(env, op, x, y, t)
  {
    hide Sound, Breaks, BinaryScript;
    if BinaryFails(env, op, x, y, t) {
      var a, b :| Keeps(env, x, a) && Keeps(env, y, b) && Breaks(env, t, BinaryScript(op, a, b));
      SoundUnbroken(env, t, BinaryScript(op, a, b));
    }
  }

  lemma BinaryHolds(env: Env, op: BinOp, x: Type, y: Type, t: Type)
    requires FixedBinaryType(op, x, y) == Some(t)
    ensures !BinaryFails(env, op, x, y, t)
  {
    hide Sound, BinaryFails, BinaryScript;
    forall a, b | Sound(env, x, a) && Sound(env, y, b) ensures Sound(env, t, BinaryScript(op, a, b)) {
      BinarySound(env, x, a, y, b, op, t);
    }
    BinaryUnbroken(env, op, x, y, t);
  }

  lemma BinaryHoldsN(env: Env, op: BinOp, x: Type, y: Type, t: Type)
    requires env.Valid() && FixedBinaryType(op, x, y) == Some(t) && BinaryNonEmpty(op, x, y) && Exclusive(y)
    ensures !BinaryFails(env, op, x, y, t.(n := true))
  {
    hide Sound, BinaryFails, BinaryNonEmpty;
    var t' := t.(n := true);
    forall a, b | Sound(env, x, a) && Sound(env, y, b) ensures Sound(env, t', BinaryScript(op, a, b)) {
      match op
      case AndV => AndVKeepsN(env, x, y, t, a, b);
      case AndN => AndNKeepsN(env, x, y, t, a, b);
      case _ =>
        assert t' == t by {
          BinaryNAnnounced(op, x, y, t);
        }
        BinarySound(env, x, a, y, b, op, t);
    }
    BinaryUnbroken(env, op, x, y, t');
  }

  /** Where the flag n follows what the parts allow: everywhere but in and_n, and in and_v with a K that has o
      and not n. */
  lemma BinaryNAnnounced(op: BinOp, x: Type, y: Type, t: Type)
    requires FixedBinaryType(op, x, y) == Some(t) && Exclusive(y)
    ensures t.n <==> BinaryNonEmpty(op, x, y) && op != AndN && (op == AndV ==> x.n || y.n)
  {
  }

  lemma BinaryInputs(env: Env, sig: Bytes, op: BinOp, x: Type, y: Type, t: Type)
    requires env.Valid() && Signs(env, sig) && Exclusive(x) && Exclusive(y) && FixedBinaryType(op, x, y) == Some(t)
    ensures !t.z ==> BinaryFails(env, op, x, y, t.(z := true))
    ensures !t.o ==> BinaryFails(env, op, x, y, t.(o := true))
  {
    hide BinaryFails;
    match op
    case AndV => AndVInputs(env, sig, x, y, t);
    case AndB => BoolInputs(env, sig, op, x, y, t);
    case AndN => AndNInputs(env, sig, x, y, t);
    case OrB => BoolInputs(env, sig, op, x, y, t);
    case OrC => OrCInputs(env, sig, x, y, t);
    case OrD => OrDInputs(env, sig, x, y, t);
    case OrI => OrIInputs(env, sig, x, y, t);
  }

  lemma BinaryEmpty(env: Env, sig: Bytes, op: BinOp, x: Type, y: Type, t: Type)
    requires env.Valid() && Signs(env, sig) && Exclusive(x) && Exclusive(y) && FixedBinaryType(op, x, y) == Some(t)
    requires !BinaryNonEmpty(op, x, y)
    ensures BinaryFails(env, op, x, y, t.(n := true))
  {
    hide BinaryFails;
    match op
    case AndV => AndVNonEmpty(env, sig, x, y, t);
    case AndB => BoolNonEmpty(env, sig, op, x, y, t);
    case AndN => AndNNonEmpty(env, sig, x, y, t);
    case OrB => BoolNonEmpty(env, sig, op, x, y, t);
    case OrC => OrCNonEmpty(env, sig, x, y, t);
    case OrD => OrDNonEmpty(env, sig, x, y, t);
    case OrI => OrIInputs(env, sig, x, y, t);
  }

  lemma BinaryUnit(env: Env, sig: Bytes, op: BinOp, x: Type, y: Type, t: Type)
    requires env.Valid() && Signs(env, sig) && Exclusive(x) && Exclusive(y) && FixedBinaryType(op, x, y) == Some(t)
    requires t.base == B && !t.u
    ensures BinaryFails(env, op, x, y, t.(u := true))
  {
    hide BinaryFails;
    match op
    case AndV => AndVUnit(env, sig, x, y, t);
    case AndN => AndNUnit(env, sig, x, y, t);
    case OrD => OrDUnit(env, sig, x, y, t);
    case OrI => OrIUnit(env, sig, x, y, t);
  }

  /** The flags of a binary combinator, with the o of or_c as in BIP 379, are exactly those that all scripts
      that keep the promises of the parts' types keep when they are put together; for n that is
      `BinaryNonEmpty`. */
  lemma BinaryFlagsExact(env: Env, sig: Bytes, op: BinOp, x: Type, y: Type, t: Type)
    requires env.Valid() && Signs(env, sig) && Exclusive(x) && Exclusive(y) && FixedBinaryType(op, x, y) == Some(t)
    ensures t.z <==> !BinaryFails(env, op, x, y, t.(z := true))
    ensures t.o <==> !BinaryFails(env, op, x, y, t.(o := true))
    ensures BinaryNonEmpty(op, x, y) <==> !BinaryFails(env, op, x, y, t.(n := true))
    ensures t.n <==> BinaryNonEmpty(op, x, y) && op != AndN && (op == AndV ==> x.n || y.n)
    ensures t.base == B ==> (t.u <==> !BinaryFails(env, op, x, y, t.(u := true)))
  {
    BinaryNAnnounced(op, x, y, t);
    hide BinaryFails, FixedBinaryType, Exclusive, BinaryNonEmpty;
    BinaryHolds(env, op, x, y, t);
    assert (t.z ==> t.(z := true) == t) && (t.o ==> t.(o := true) == t) && (t.u ==> t.(u := true) == t);
    BinaryInputs(env, sig, op, x, y, t);
    if BinaryNonEmpty(op, x, y) {
      BinaryHoldsN(env, op, x, y, t);
    } else {
      BinaryEmpty(env, sig, op, x, y, t);
    }
    if t.base == B && !t.u {
      BinaryUnit(env, sig, op, x, y, t);
    }
  }

  // ---------------------------------------------------------------- andor

  function AndOrScript(a: Script, b: Script, c: Script): Script {
    a + [If(true)] + c + [Else] + b + [EndIf]
  }

  ghost predicate AndOrFails(env: Env, x: Type, y: Type, z: Type, t: Type) {
    exists a, b, c ::
      Keeps(env, x, a) && Keeps(env, y, b) && Keeps(env, z, c) && Breaks(env, t, AndOrScript(a, b, c))
  }

  lemma AndOrBreaks(env: Env, x: Type, y: Type, z: Type, t: Type, a: Script, b: Script, c: Script)
    requires Keeps(env, x, a) && Keeps(env, y, b) && Keeps(env, z, c) && Breaks(env, t, AndOrScript(a, b, c))
    ensures AndOrFails(env, x, y, z, t)
  {
  }

  /** A run of andor in which X comes out as satX and the chosen part succeeds. */
  lemma AndOrRun(env: Env, sig: Bytes, x: Type, y: Type, z: Type, t: Type, satX: bool, wishX: Wish, wish: Wish)
      returns (w: seq<Bytes>)
    requires env.Valid() && Signs(env, sig) && Exclusive(x) && Exclusive(y) && Exclusive(z)
    requires AndOrType(x, y, z) == Some(t) && Wishes(x, 2, wishX) && (wishX == No <==> !satX)
    requires (wish == Yes || wish == OnEmpty) && Wishes(if satX then y else z, 2, wish)
    ensures |w| == Count(x, 2) + Count(if satX then y else z, 2)
    ensures (x.z || wishX == No) && (!x.z || wish == OnEmpty) ==> w == [] || w[0] == []
    ensures w != [] || t.base == K ==> AndOrFails(env, x, y, z, t.(z := true))
    ensures |w| != 1 ==> AndOrFails(env, x, y, z, t.(o := true))
    ensures w == [] || w[0] == [] ==> AndOrFails(env, x, y, z, t.(n := true))
  {
    hide Keeps, Succeeds, Effect, Skips, AndOrFails, Breaks, AndOrScript;
    var a, wx := Part(env, sig, x, 2, wishX);
    var b, wy := Part(env, sig, y, 2, if satX then wish else Yes);
    var c, wz := Part(env, sig, z, 2, if satX then Yes else wish);
    w := wx + if satX then wy else wz;
    AndOrRuns(env, t.base, a, b, c, wx, if satX then wy else wz, satX, true);
    AndOrIs(a, b, c);
    WitnessBreaks(env, t, AndOrScript(a, b, c), w, true);
    if w != [] || t.base == K {
      AndOrBreaks(env, x, y, z, t.(z := true), a, b, c);
    }
    if |w| != 1 {
      AndOrBreaks(env, x, y, z, t.(o := true), a, b, c);
    }
    if w == [] || w[0] == [] {
      AndOrBreaks(env, x, y, z, t.(n := true), a, b, c);
    }
  }

  lemma AndOrIs(a: Script, b: Script, c: Script)
    ensures AndOrScript(a, b, c) == a + [If(true)] + c + [Else] + b + [EndIf]
  {
  }

  lemma AndOrInputs(env: Env, sig: Bytes, x: Type, y: Type, z: Type, t: Type)
    requires env.Valid() && Signs(env, sig) && Exclusive(x) && Exclusive(y) && Exclusive(z)
    requires AndOrType(x, y, z) == Some(t)
    ensures !t.z ==> AndOrFails(env, x, y, z, t.(z := true))
    ensures !t.o ==> AndOrFails(env, x, y, z, t.(o := true))
  {
    hide AndOrFails;
    var w := AndOrRun(env, sig, x, y, z, t, true, Yes, Yes);
    w := AndOrRun(env, sig, x, y, z, t, false, No, Yes);
  }

  /** n of andor, as the parts' types allow to conclude it; the rule never announces it. */
  predicate AndOrNonEmpty(x: Type, y: Type, z: Type) {
    x.z && NonEmpty(y) && NonEmpty(z)
  }

  lemma AndOrEmpty(env: Env, sig: Bytes, x: Type, y: Type, z: Type, t: Type)
    requires env.Valid() && Signs(env, sig) && Exclusive(x) && Exclusive(y) && Exclusive(z)
    requires AndOrType(x, y, z) == Some(t) && !AndOrNonEmpty(x, y, z)
    ensures AndOrFails(env, x, y, z, t.(n := true))
  {
    hide AndOrFails;
    if !x.z {
      var w := AndOrRun(env, sig, x, y, z, t, false, No, Yes);
    } else if !NonEmpty(y) {
      var w := AndOrRun(env, sig, x, y, z, t, true, Yes, OnEmpty);
    } else {
      var w := AndOrRun(env, sig, x, y, z, t, false, No, OnEmpty);
    }
  }

  lemma AndOrUnit(env: Env, sig: Bytes, x: Type, y: Type, z: Type, t: Type)
    requires env.Valid() && Signs(env, sig) && Exclusive(x) && Exclusive(y) && Exclusive(z)
    requires AndOrType(x, y, z) == Some(t) && t.base == B && !t.u
    ensures AndOrFails(env, x, y, z, t.(u := true))
  {
    hide Keeps, Succeeds, Effect, Skips, AndOrFails, Truthy, Breaks;
    var satX := !y.u;
    var a, wx := Part(env, sig, x, 1, if satX then Yes else No);
    var b, wy := Part(env, sig, y, 1, if satX then Two else Yes);
    var c, wz := Part(env, sig, z, 1, if satX then Yes else Two);
    var w := if satX then wy else wz;
    OneGood();
    EffectIfElse(env, true, c, b, Bool(satX), w, [[2]]);
    EffectSeq(env, a, IfElse(true, c, b), wx, [Bool(satX)], w, [[2]]);
    assert a + IfElse(true, c, b) == AndOrScript(a, b, c);
    TwoBreaks(env, t, AndOrScript(a, b, c), wx + w);
    AndOrBreaks(env, x, y, z, t.(u := true), a, b, c);
  }

  lemma AndOrUnbroken(env: Env, x: Type, y: Type, z: Type, t: Type)
    requires forall a, b, c :: Sound(env, x, a) && Sound(env, y, b) && Sound(env, z, c) ==>
      Sound(env, t, AndOrScript(a, b, c))
    ensures !AndOrFails(env, x, y, z, t)
  {
    hide Sound, Breaks, AndOrScript;
    if AndOrFails(env, x, y, z, t) {
      var a, b, c :| Keeps(env, x, a) && Keeps(env, y, b) && Keeps(env, z, c) && Breaks(env, t, AndOrScript(a, b, c));
      SoundUnbroken(env, t, AndOrScript(a, b, c));
    }
  }

  lemma AndOrHolds(env: Env, x: Type, y: Type, z: Type, t: Type)
    requires AndOrType(x, y, z) == Some(t)
    ensures !AndOrFails(env, x, y, z, t)
  {
    hide Sound, AndOrFails;
    forall a, b, c | Sound(env, x, a) && Sound(env, y, b) && Sound(env, z, c)
      ensures Sound(env, t, AndOrScript(a, b, c))
    {
      AndOrSound(env, x, a, y, b, z, c, t);
    }
    AndOrUnbroken(env, x, y, z, t);
  }

  /** The type with n, where a K with o lacks it. */
  function WithN(t: Type): Type {
    if t.base == K && t.o then t.(n := true) else t
  }

  lemma WithNSound(env: Env, t: Type, s: Script)
    requires env.Valid() && Sound(env, t, s)
    ensures Sound(env, WithN(t), s)
  {
    hide Sound;
    if t.base == K && t.o {
      OneKeySound(env, t, s);
    }
  }

  lemma AndOrShapeN(env: Env, x: Type, y: Type, z: Type, t: Type, s: Stack, r: Stack, s': Stack)
    requires AndOrType(x, y, z) == Some(t) && x.z && y.n && z.n && ShapeB(x, s, r)
    requires Shape(env, if Truthy(r.top) then y else z, r.rest, s')
    ensures Shape(env, t.(n := true), s, s')
  {
    ShapeAfter(env, if Truthy(r.top) then y else z, t.(n := true), s, r.rest, s');
  }

  lemma AndOrKeepsN(env: Env, x: Type, y: Type, z: Type, t: Type, a: Script, b: Script, c: Script)
    requires AndOrType(x, y, z) == Some(t) && x.z && y.n && z.n
    requires Sound(env, x, a) && Sound(env, y, b) && Sound(env, z, c)
    ensures Sound(env, t.(n := true), AndOrScript(a, b, c))
  {
    hide Does, Shape, ShapeB;
    var t' := t.(n := true);
    var rel := IfElseRel(true, TypeRel(env, z), TypeRel(env, y));
    DoesIfElse(env, true, c, TypeRel(env, z), b, TypeRel(env, y));
    forall s, r, s' | TypeRel(env, x)(s, r) && rel(r, s') ensures TypeRel(env, t')(s, s') {
      ShapeIsB(env, x, s, r);
      AndOrShapeN(env, x, y, z, t, s, r, s');
    }
    DoesAppend(env, a, TypeRel(env, x), IfElse(true, c, b), rel, TypeRel(env, t'));
    assert a + IfElse(true, c, b) == AndOrScript(a, b, c);
  }

  lemma ShapeIsB(env: Env, t: Type, s: Stack, s': Stack)
    requires t.base == B && Shape(env, t, s, s')
    ensures ShapeB(t, s, s') && s'.Cons?
  {
  }

  lemma AndOrHoldsN(env: Env, x: Type, y: Type, z: Type, t: Type)
    requires env.Valid() && AndOrType(x, y, z) == Some(t) && AndOrNonEmpty(x, y, z)
    ensures !AndOrFails(env, x, y, z, t.(n := true))
  {
    hide Sound, AndOrFails, AndOrScript;
    var y', z' := WithN(y), WithN(z);
    forall a, b, c | Sound(env, x, a) && Sound(env, y, b) && Sound(env, z, c)
      ensures Sound(env, t.(n := true), AndOrScript(a, b, c))
    {
      WithNSound(env, y, b);
      WithNSound(env, z, c);
      AndOrKeepsN(env, x, y', z', AndOrType(x, y', z').value, a, b, c);
      assert AndOrType(x, y', z') == Some(t);
    }
    AndOrUnbroken(env, x, y, z, t.(n := true));
  }

  /** The flags of andor are exactly those that all scripts that keep the promises of its parts' types keep when
      they are put together, but for n, which it never announces. */
  lemma AndOrFlagsExact(env: Env, sig: Bytes, x: Type, y: Type, z: Type, t: Type)
    requires env.Valid() && Signs(env, sig) && Exclusive(x) && Exclusive(y) && Exclusive(z)
    requires AndOrType(x, y, z) == Some(t)
    ensures t.z <==> !AndOrFails(env, x, y, z, t.(z := true))
    ensures t.o <==> !AndOrFails(env, x, y, z, t.(o := true))
    ensures !t.n && (AndOrNonEmpty(x, y, z) <==> !AndOrFails(env, x, y, z, t.(n := true)))
    ensures t.base == B ==> (t.u <==> !AndOrFails(env, x, y, z, t.(u := true)))
  {
    hide AndOrFails, AndOrNonEmpty, Exclusive;
    AndOrHolds(env, x, y, z, t);
    assert (t.z ==> t.(z := true) == t) && (t.o ==> t.(o := true) == t) && (t.u ==> t.(u := true) == t);
    AndOrInputs(env, sig, x, y, z, t);
    if AndOrNonEmpty(x, y, z) {
      AndOrHoldsN(env, x, y, z, t);
    } else {
      AndOrEmpty(env, sig, x, y, z, t);
    }
    if t.base == B && !t.u {
      AndOrUnit(env, sig, x, y, z, t);
    }
  }

  // ---------------------------------------------------------------- wrappers

  ghost predicate WrapFails(env: Env, w: Wrapper, x: Type, t: Type) {
    exists a :: Keeps(env, x, a) && Breaks(env, t, WrapScript(w, a))
  }

  lemma WrapBreaks(env: Env, w: Wrapper, x: Type, t: Type, a: Script)
    requires Keeps(env, x, a) && Breaks(env, t, WrapScript(w, a))
    ensures WrapFails(env, w, x, t)
  {
  }

  lemma WrapWitness(env: Env, w: Wrapper, x: Type, t: Type, a: Script, ws: seq<Bytes>, sat: bool)
    requires Keeps(env, x, a) && Succeeds(env, t.base, WrapScript(w, a), ws, sat)
    ensures ws != [] || t.base == W ==> WrapFails(env, w, x, t.(z := true))
    ensures |ws| != 1 || t.base == W ==> WrapFails(env, w, x, t.(o := true))
    ensures (sat && (ws == [] || ws[0] == [])) || t.base == W ==> WrapFails(env, w, x, t.(n := true))
  {
    hide Keeps, Succeeds, Breaks, WrapFails, WrapScript;
    WitnessBreaks(env, t, WrapScript(w, a), ws, sat);
    if Breaks(env, t.(z := true), WrapScript(w, a)) {
      WrapBreaks(env, w, x, t.(z := true), a);
    }
    if Breaks(env, t.(o := true), WrapScript(w, a)) {
      WrapBreaks(env, w, x, t.(o := true), a);
    }
    if Breaks(env, t.(n := true), WrapScript(w, a)) {
      WrapBreaks(env, w, x, t.(n := true), a);
    }
  }

  /** n of the wrapped expression, as the type of the expression allows to conclude it. */
  predicate WrapNonEmpty(w: Wrapper, x: Type) {
    match w
    case WrapC => NonEmpty(x)
    case WrapT => x.n
    case WrapV => x.n
    case WrapN => x.n
    case WrapD => true
    case WrapJ => true
    case WrapU => true
    case _ => false
  }

  /** Wrappers that leave alone what the expression consumes. */
  predicate Passes(w: Wrapper) {
    w == WrapC || w == WrapT || w == WrapV || w == WrapN
  }

  lemma PassRuns(env: Env, w: Wrapper, x: Type, t: Type, a: Script, wx: seq<Bytes>)
    requires Passes(w) && WrapType(w, x) == Some(t) && Succeeds(env, x.base, a, wx, true)
    ensures Succeeds(env, t.base, WrapScript(w, a), wx, true)
  {
    hide Succeeds;
    match w
    case WrapC => WrapCRuns(env, a, wx, true);
    case WrapT => WrapTRuns(env, a, wx);
    case WrapV => WrapVRuns(env, a, wx);
    case WrapN => WrapNRuns(env, a, wx, true);
  }

  lemma PassFlags(env: Env, sig: Bytes, w: Wrapper, x: Type, t: Type)
    requires env.Valid() && Signs(env, sig) && Exclusive(x) && WrapType(w, x) == Some(t) && Passes(w)
    ensures !t.z ==> WrapFails(env, w, x, t.(z := true))
    ensures !t.o ==> WrapFails(env, w, x, t.(o := true))
    ensures !WrapNonEmpty(w, x) ==> WrapFails(env, w, x, t.(n := true))
  {
    hide Keeps, Succeeds, Effect, Skips, WrapFails, WrapScript;
    var a, wx := Part(env, sig, x, 2, if NonEmpty(x) then Yes else OnEmpty);
    PassRuns(env, w, x, t, a, wx);
    WrapWitness(env, w, x, t, a, wx, true);
  }

  /** a: and s: make a W, which announces none of z, o and n. */
  lemma SideFlags(env: Env, sig: Bytes, w: Wrapper, x: Type, t: Type)
    requires env.Valid() && Signs(env, sig) && Exclusive(x) && WrapType(w, x) == Some(t) && t.base == W
    ensures WrapFails(env, w, x, t.(z := true)) && WrapFails(env, w, x, t.(o := true))
    ensures WrapFails(env, w, x, t.(n := true))
  {
    hide Keeps, Succeeds, Effect, Skips, WrapFails;
    var a, wx := Part(env, sig, x, 1, Yes);
    KeepsSkips(env, x, a);
    if w == WrapA {
      WrapARuns(env, a, wx, true);
    } else {
      WrapSRuns(env, x, a, wx, true);
    }
    WrapWitness(env, w, x, t, a, wx, true);
  }

  lemma WrapDFlags(env: Env, sig: Bytes, x: Type, t: Type)
    requires env.Valid() && Signs(env, sig) && Exclusive(x) && WrapType(WrapD, x) == Some(t)
    ensures WrapFails(env, WrapD, x, t.(z := true))
  {
    hide Keeps, Succeeds, Effect, Skips, WrapFails;
    var a, wx := Part(env, sig, x, 1, Yes);
    KeepsSkips(env, x, a);
    WrapDRuns(env, x, a, [], false);
    WrapWitness(env, WrapD, x, t, a, [Bool(false)] + [], false);
  }

  lemma WrapJFlags(env: Env, sig: Bytes, x: Type, t: Type)
    requires env.Valid() && Signs(env, sig) && Exclusive(x) && WrapType(WrapJ, x) == Some(t)
    ensures WrapFails(env, WrapJ, x, t.(z := true))
    ensures !t.o ==> WrapFails(env, WrapJ, x, t.(o := true))
  {
    hide Keeps, Succeeds, Effect, Skips, WrapFails;
    var a, wx := Sample(env, x, 2, Yes), SampleWitness(sig, x, 2, Yes);
    SampleKeeps(env, x, 2, Yes);
    SampleRuns(env, sig, x, 2, Yes);
    KeepsSkips(env, x, a);
    WrapJRuns(env, x, a, wx, true);
    WrapWitness(env, WrapJ, x, t, a, wx, true);
  }

  lemma ChoiceFlags(env: Env, sig: Bytes, w: Wrapper, x: Type, t: Type)
    requires env.Valid() && Signs(env, sig) && Exclusive(x) && WrapType(w, x) == Some(t) && (w == WrapL || w == WrapU)
    ensures WrapFails(env, w, x, t.(z := true))
    ensures !t.o ==> WrapFails(env, w, x, t.(o := true))
    ensures w == WrapL ==> WrapFails(env, w, x, t.(n := true))
  {
    hide Keeps, Succeeds, Effect, Skips, WrapFails;
    var a, wx := Part(env, sig, x, 1, Yes);
    if w == WrapL {
      WrapLRuns(env, a, wx, false, true);
      WrapWitness(env, w, x, t, a, [Bool(false)] + wx, true);
    } else {
      WrapURuns(env, a, wx, false, true);
      WrapWitness(env, w, x, t, a, [Bool(!false)] + wx, true);
    }
  }

  lemma WrapInputs(env: Env, sig: Bytes, w: Wrapper, x: Type, t: Type)
    requires env.Valid() && Signs(env, sig) && Exclusive(x) && WrapType(w, x) == Some(t)
    ensures !t.z ==> WrapFails(env, w, x, t.(z := true))
    ensures !t.o ==> WrapFails(env, w, x, t.(o := true))
    ensures !WrapNonEmpty(w, x) ==> WrapFails(env, w, x, t.(n := true))
  {
    hide WrapFails;
    match w
    case WrapA => SideFlags(env, sig, w, x, t);
    case WrapS => SideFlags(env, sig, w, x, t);
    case WrapD => WrapDFlags(env, sig, x, t);
    case WrapJ => WrapJFlags(env, sig, x, t);
    case WrapL => ChoiceFlags(env, sig, w, x, t);
    case WrapU => ChoiceFlags(env, sig, w, x, t);
    case _ => PassFlags(env, sig, w, x, t);
  }

  // ---------------------------------------------------------------- wrappers and u

  lemma BesideBreaks(env: Env, t: Type, s: Script, w: seq<Bytes>, below: bool)
    requires t.base == W && Effect(env, s, [[]] + w, Beside([], [2], below))
    ensures Breaks(env, t.(u := true), s)
  {
    hide Breaks, Effect;
    var none: Bytes := [];
    OnFew(none, [2], Ground);
    OnFew([2], none, Ground);
    assert Truthy([2]);
    BreakAt(env, t.(u := true), s, [[]] + w, Beside([], [2], below));
  }

  lemma SideUnit(env: Env, sig: Bytes, w: Wrapper, x: Type, t: Type)
    requires env.Valid() && Signs(env, sig) && Exclusive(x) && WrapType(w, x) == Some(t) && t.base == W && !t.u
    ensures WrapFails(env, w, x, t.(u := true))
  {
    hide Keeps, Succeeds, Effect, Skips, WrapFails, Breaks;
    var a, wx := Part(env, sig, x, 1, Two);
    var none: Bytes := [];
    if w == WrapA {
      EffectWrapA(env, a, none, wx, [2]);
      BesideBreaks(env, t, WrapScript(w, a), wx, true);
    } else {
      SwapEffect(env, none, wx[0]);
      EffectFrame(env, a, wx, [[2]], [none]);
      assert wx + [none] == [wx[0], none] + [] && [[2]] + [none] == [[2], none] && [none] + wx == [none, wx[0]] + [];
      EffectSeq(env, [Swap], a, [none, wx[0]], [wx[0], none], [], [[2], none]);
      BesideBreaks(env, t, WrapScript(w, a), wx, false);
    }
    WrapBreaks(env, w, x, t.(u := true), a);
  }

  lemma WrapTwo(env: Env, w: Wrapper, x: Type, t: Type, a: Script, ws: seq<Bytes>)
    requires Keeps(env, x, a) && Effect(env, WrapScript(w, a), ws, [[2]]) && t.base == B
    ensures WrapFails(env, w, x, t.(u := true))
  {
    hide Keeps, Effect, Breaks, WrapFails, WrapScript;
    TwoBreaks(env, t, WrapScript(w, a), ws);
    WrapBreaks(env, w, x, t.(u := true), a);
  }

  lemma WrapDUnit(env: Env, sig: Bytes, x: Type, t: Type)
    requires env.Valid() && Signs(env, sig) && Exclusive(x) && WrapType(WrapD, x) == Some(t)
    ensures WrapFails(env, WrapD, x, t.(u := true))
  {
    hide Keeps, Succeeds, Effect, Skips, WrapFails;
    var a, wx := Part(env, sig, x, 1, Yes);
    var r := Results(env, V, a, wx, true);
    DupEffect(env, [2]);
    EffectFrame(env, a, [], [], [[2]]);
    assert [] + [[2]] == [[2]];
    assert Truthy([2]);
    EffectIfThen(env, false, a, [2], [[2]], [[2]]);
    assert [[2]] + [[2]] == [[2], [2]] + [] && [[2]] + [] == [[2]];
    EffectSeq(env, [Dup], IfThen(false, a), [[2]], [[2], [2]], [], [[2]]);
    assert [Dup] + IfThen(false, a) == [Dup, If(false)] + a + [EndIf];
    WrapTwo(env, WrapD, x, t, a, [[2]]);
  }

  lemma WrapJUnit(env: Env, sig: Bytes, x: Type, t: Type)
    requires env.Valid() && Signs(env, sig) && Exclusive(x) && WrapType(WrapJ, x) == Some(t) && !t.u
    ensures WrapFails(env, WrapJ, x, t.(u := true))
  {
    hide Keeps, Succeeds, Effect, Skips, WrapFails, Sample;
    var a, wx := Sample(env, x, 1, Two), SampleWitness(sig, x, 1, Two);
    assert wx == [[2]];
    SampleKeeps(env, x, 1, Two);
    SampleRuns(env, sig, x, 1, Two);
    KeepsSkips(env, x, a);
    OneGood();
    SizeEffect(env, [2]);
    EffectIfThen(env, false, a, [1], [[2]], [[2]]);
    assert [[1], [2]] + [] == [[1]] + [[2]] && [[2]] + [] == [[2]] && Bool([2] != []) == [1];
    EffectSeq(env, [Size, ZeroNotEqual], IfThen(false, a), [[2]], [[1], [2]], [], [[2]]);
    assert [Size, ZeroNotEqual] + IfThen(false, a) == [Size, ZeroNotEqual, If(false)] + a + [EndIf];
    WrapTwo(env, WrapJ, x, t, a, [[2]]);
  }

  lemma ChoiceUnit(env: Env, sig: Bytes, w: Wrapper, x: Type, t: Type)
    requires env.Valid() && Signs(env, sig) && Exclusive(x) && WrapType(w, x) == Some(t) && (w == WrapL || w == WrapU)
    requires !t.u
    ensures WrapFails(env, w, x, t.(u := true))
  {
    hide Keeps, Succeeds, Effect, Skips, WrapFails, Truthy;
    var a, wx := Part(env, sig, x, 1, Two);
    OneGood();
    SmallEffect(env, 0);
    if w == WrapL {
      EffectIfElse(env, false, [Small(0)], a, [], wx, [[2]]);
      assert IfElse(false, [Small(0)], a) == [If(false), Small(0), Else] + a + [EndIf];
      WrapTwo(env, w, x, t, a, [[]] + wx);
    } else {
      EffectIfElse(env, false, a, [Small(0)], [1], wx, [[2]]);
      assert IfElse(false, a, [Small(0)]) == [If(false)] + a + [Else, Small(0), EndIf];
      WrapTwo(env, w, x, t, a, [[1]] + wx);
    }
  }

  lemma WrapUnit(env: Env, sig: Bytes, w: Wrapper, x: Type, t: Type)
    requires env.Valid() && Signs(env, sig) && Exclusive(x) && WrapType(w, x) == Some(t) && t.base != V && !t.u
    ensures WrapFails(env, w, x, t.(u := true))
  {
    hide WrapFails;
    match w
    case WrapA => SideUnit(env, sig, w, x, t);
    case WrapS => SideUnit(env, sig, w, x, t);
    case WrapD => WrapDUnit(env, sig, x, t);
    case WrapJ => WrapJUnit(env, sig, x, t);
    case WrapL => ChoiceUnit(env, sig, w, x, t);
    case WrapU => ChoiceUnit(env, sig, w, x, t);
  }

  // ---------------------------------------------------------------- the rules of the wrappers

  lemma WrapUShape(env: Env, x: Type, t: Type, s: Stack, s': Stack)
    requires WrapType(WrapU, x) == Some(t) && s.Cons?
    requires if Truthy(s.top) then ShapeB(x, s.rest, s') else s' == Cons([], s.rest)
    ensures ShapeB(t.(n := true), s, s')
  {
    if Truthy(s.top) {
      SuffixTransitive(s'.rest, s.rest, s);
    } else {
      assert Suffix(s.rest, s);
    }
  }

  lemma WrapUKeepsN(env: Env, x: Type, t: Type, a: Script)
    requires WrapType(WrapU, x) == Some(t) && Sound(env, x, a)
    ensures Sound(env, t.(n := true), WrapScript(WrapU, a))
  {
    hide Does, ShapeB;
    var t' := t.(n := true);
    var rel := IfElseRel(false, TypeRel(env, x), ZeroRel());
    ZeroDoes(env);
    DoesIfElse(env, false, a, TypeRel(env, x), [Small(0)], ZeroRel());
    forall s, s' | rel(s, s') ensures TypeRel(env, t')(s, s') {
      WrapUShape(env, x, t, s, s');
    }
    DoesImplies(env, IfElse(false, a, [Small(0)]), rel, TypeRel(env, t'));
    assert IfElse(false, a, [Small(0)]) == WrapScript(WrapU, a);
  }

  lemma WrapCKeepsN(env: Env, x: Type, t: Type, a: Script)
    requires env.Valid() && WrapType(WrapC, x) == Some(t) && NonEmpty(x) && Sound(env, x, a)
    ensures Sound(env, t.(n := true), WrapScript(WrapC, a))
  {
    hide Sound;
    WithNSound(env, x, a);
    WrapSound(env, WithN(x), a, WrapC, WrapType(WrapC, WithN(x)).value);
    assert WrapType(WrapC, WithN(x)).value == t.(n := true);
  }

  lemma WrapUnbroken(env: Env, w: Wrapper, x: Type, t: Type)
    requires forall a :: Sound(env, x, a) ==> Sound(env, t, WrapScript(w, a))
    ensures !WrapFails(env, w, x, t)
  {
    hide Sound, Breaks, WrapScript;
    if WrapFails(env, w, x, t) {
      var a :| Keeps(env, x, a) && Breaks(env, t, WrapScript(w, a));
      SoundUnbroken(env, t, WrapScript(w, a));
    }
  }

  lemma WrapHolds(env: Env, w: Wrapper, x: Type, t: Type)
    requires env.Valid() && WrapType(w, x) == Some(t)
    ensures !WrapFails(env, w, x, t)
    ensures WrapNonEmpty(w, x) ==> !WrapFails(env, w, x, t.(n := true))
  {
    hide Sound, WrapFails, WrapScript;
    forall a | Sound(env, x, a)
      ensures Sound(env, t, WrapScript(w, a))
      ensures WrapNonEmpty(w, x) ==> Sound(env, t.(n := true), WrapScript(w, a))
    {
      WrapSound(env, x, a, w, t);
      if w == WrapU {
        WrapUKeepsN(env, x, t, a);
      } else if w == WrapC {
        if NonEmpty(x) {
          WrapCKeepsN(env, x, t, a);
        }
      } else if WrapNonEmpty(w, x) {
        assert t.(n := true) == t;
      }
    }
    WrapUnbroken(env, w, x, t);
    if WrapNonEmpty(w, x) {
      WrapUnbroken(env, w, x, t.(n := true));
    }
  }

  /** The flags of a wrapper are exactly those that it gives to all scripts that keep the promises of the
      expression's type; for n that is `WrapNonEmpty`, which u: and c: on a K with o do not always announce. */
  lemma WrapFlagsExact(env: Env, sig: Bytes, w: Wrapper, x: Type, t: Type)
    requires env.Valid() && Signs(env, sig) && Exclusive(x) && WrapType(w, x) == Some(t)
    ensures t.z <==> !WrapFails(env, w, x, t.(z := true))
    ensures t.o <==> !WrapFails(env, w, x, t.(o := true))
    ensures WrapNonEmpty(w, x) <==> !WrapFails(env, w, x, t.(n := true))
    ensures t.n <==> WrapNonEmpty(w, x) && w != WrapU && (w == WrapC ==> x.n)
    ensures t.base != V ==> (t.u <==> !WrapFails(env, w, x, t.(u := true)))
  {
    assert t.n <==> WrapNonEmpty(w, x) && w != WrapU && (w == WrapC ==> x.n);
    hide WrapFails, WrapType, Exclusive, WrapNonEmpty;
    WrapHolds(env, w, x, t);
    assert (t.z ==> t.(z := true) == t) && (t.o ==> t.(o := true) == t) && (t.u ==> t.(u := true) == t);
    WrapInputs(env, sig, w, x, t);
    if t.base != V && !t.u {
      WrapUnit(env, sig, w, x, t);
    }
  }
}
