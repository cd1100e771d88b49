/** The flag d of the combinators, and which parts their rules accept, in terms of what all scripts that keep the
    promises of the parts' types do. */
module RuleAcceptance {
  import opened Wrappers
  import opened BitcoinScript
  import opened Miniscript
  import opened ScriptNumbers
  import opened ScriptRelations
  import opened StackShape
  import opened CombinatorSoundness
  import LeafSoundness
  import opened TypeSoundness
  import opened ScriptEffects
  import opened SatisfactionRuns
  import opened SampleScripts
  import opened RuleExactness

  /** The script keeps all promises of the type, d included. */
  ghost predicate KeepsAll(env: Env, t: Type, s: Script) {
    Sound(env, t, s) && (t.d ==> CanFail(env, t.base, s))
  }

  // ---------------------------------------------------------------- scripts that never come out false, or always

  function NoRel(): Relation {
    (s: Stack, s': Stack) => false
  }

  const Stop: Script := [Small(0), Verify]

  lemma StopDoes(env: Env)
    ensures Does(env, Stop, NoRel())
  {
    hide Does;
    OneGood();
    DoesPair(env, 0, Verify, NoRel());
  }

  lemma NoRunSound(env: Env, t: Type, s: Script)
    requires Does(env, s, NoRel())
    ensures Sound(env, t, s)
  {
    hide Shape;
    DoesImplies(env, s, NoRel(), TypeRel(env, t));
  }

  /** A script without complete runs cannot be dissatisfied. */
  lemma NoRunNoFailure(env: Env, base: Base, s: Script)
    requires base != W && Does(env, s, NoRel())
    ensures !CanFail(env, base, s)
  {
    hide Effect, OutOk, Succeeds;
    if CanFail(env, base, s) {
      var w :| Succeeds(env, base, s, w, false);
      var o := Results(env, base, s, w, false);
      EffectAt(env, s, w, o, Nil);
      var st := State(On(w, Nil), Nil, Nil);
      ReachAt(env, s, On(w, Nil), On(o, Nil), st);
    }
  }

  /** A script of type t: the one that stops, if the type allows it. */
  function Whole(env: Env, t: Type): Script {
    if t.d then Sample(env, t, 1, if t.base == K then Yes else No) else Stop
  }

  lemma WholeKeeps(env: Env, sig: Bytes, t: Type)
    requires env.Valid() && Signs(env, sig) && Exclusive(t)
    ensures KeepsAll(env, t, Whole(env, t))
  {
    hide Succeeds, Sound, Sample;
    if t.d {
      var wish := if t.base == K then Yes else No;
      SampleSound(env, t, 1, wish);
      if t.base == K {
        SampleFails(env, t, 1, wish);
      } else {
        SampleRuns(env, sig, t, 1, wish);
      }
    } else {
      StopDoes(env);
      NoRunSound(env, t, Stop);
    }
  }

  /** A B that is always false. */
  function Never(t: Type): Script {
    if t.z then [Small(0)] else [Small(0), BoolAnd]
  }

  predicate LeavesFalse(z: bool, s: Stack, s': Stack) {
    if z then s' == Cons([], s) else s.Cons? && s' == Cons([], s.rest)
  }

  function FalseRel(z: bool): Relation {
    (s, s') => LeavesFalse(z, s, s')
  }

  lemma NeverDoes(env: Env, t: Type)
    ensures Does(env, Never(t), FalseRel(t.z))
  {
    hide Does;
    if t.z {
      ZeroDoes(env);
      DoesImplies(env, [Small(0)], ZeroRel(), FalseRel(t.z));
    } else {
      forall s, s' | ExecMain(env, BoolAnd, Cons(EncodeNum(0), s)) == Some(s') ensures FalseRel(t.z)(s, s') {
        BoolResult(env, BoolAnd, Cons(EncodeNum(0), s), s');
        OneGood();
      }
      DoesPair(env, 0, BoolAnd, FalseRel(t.z));
    }
  }

  lemma FalseShape(t: Type, s: Stack, s': Stack)
    requires LeavesFalse(t.z, s, s') && !(t.z && t.o)
    ensures ShapeB(t, s, s')
  {
    if !t.z {
      assert Suffix(s.rest, s);
    }
  }

  lemma NeverRuns(env: Env, t: Type)
    ensures CanFail(env, B, Never(t))
  {
    hide Effect, On, Succeeds;
    OneGood();
    if t.z {
      ZeroRuns(env);
    } else {
      var none: Bytes := [];
      forall rest ensures ExecAll(env, [Small(0), BoolAnd], On([none], rest)) == Some(On([none], rest)) {
        OnFew(none, none, rest);
        assert [Small(0), BoolAnd] == [Small(0)] + [BoolAnd];
        LeafSoundness.ExecPrepend(env, Small(0), [BoolAnd], Cons(none, rest));
        ExecOne(env, BoolAnd, Cons(none, Cons(none, rest)));
      }
      EffectPlain(env, [Small(0), BoolAnd], [none], [none]);
      SucceedsB(env, Never(t), [none], false, none);
    }
  }

  lemma NeverKeeps(env: Env, t: Type)
    requires t.base == B && Exclusive(t)
    ensures KeepsAll(env, t, Never(t))
  {
    hide Does, Never, LeavesFalse, ShapeB, CanFail;
    NeverDoes(env, t);
    forall s, s' | FalseRel(t.z)(s, s') ensures TypeRel(env, t)(s, s') {
      FalseShape(t, s, s');
    }
    DoesImplies(env, Never(t), FalseRel(t.z), TypeRel(env, t));
    NeverRuns(env, t);
  }

  // ---------------------------------------------------------------- sequences and branches without runs

  lemma NoRunFirst(env: Env, a: Script, b: Script, r: Relation)
    requires Does(env, a, NoRel()) && Does(env, b, r)
    ensures Does(env, a + b, NoRel())
  {
    hide Does;
    DoesAppend(env, a, NoRel(), b, r, NoRel());
  }

  lemma NoRunSecond(env: Env, a: Script, b: Script, r: Relation)
    requires Does(env, a, r) && Does(env, b, NoRel())
    ensures Does(env, a + b, NoRel())
  {
    hide Does;
    DoesAppend(env, a, r, b, NoRel(), NoRel());
  }

  lemma NoRunChoice(env: Env, neg: bool, a: Script, b: Script)
    requires Does(env, a, NoRel()) && Does(env, b, NoRel())
    ensures Does(env, IfElse(neg, a, b), NoRel())
  {
    hide Does, Truthy, IfElse;
    DoesIfElse(env, neg, a, NoRel(), b, NoRel());
    DoesImplies(env, IfElse(neg, a, b), IfElseRel(neg, NoRel(), NoRel()), NoRel());
  }

  /** After a script that is always false, NOTIF enters its first branch. */
  lemma NoRunEntered(env: Env, t: Type, b: Script, rb: Relation)
    requires Does(env, b, rb)
    ensures Does(env, Never(t) + IfElse(true, Stop, b), NoRel())
    ensures Does(env, Never(t) + ([IfDup] + IfThen(true, Stop)), NoRel())
  {
    hide Does, Never, IfElse, IfThen;
    OneGood();
    StopDoes(env);
    NeverDoes(env, t);
    DoesIfElse(env, true, Stop, NoRel(), b, rb);
    DoesAppend(env, Never(t), FalseRel(t.z), IfElse(true, Stop, b), IfElseRel(true, NoRel(), rb), NoRel());
    DoesIfThen(env, true, Stop, NoRel());
    DoesOp(env, IfDup);
    var rest: Relation := (s: Stack, s': Stack) => s.Cons? && Truthy(s.top);
    DoesAppend(env, [IfDup], OpRel(env, IfDup), IfThen(true, Stop), IfThenRel(true, NoRel()), rest);
    DoesAppend(env, Never(t), FalseRel(t.z), [IfDup] + IfThen(true, Stop), rest, NoRel());
  }

  // ---------------------------------------------------------------- d of the binary combinators

  /** Scripts that keep all promises of x and y can be dissatisfied when they are put together. */
  ghost predicate BinaryDissatisfiable(env: Env, op: BinOp, x: Type, y: Type, base: Base) {
    forall a, b :: KeepsAll(env, x, a) && KeepsAll(env, y, b) ==> CanFail(env, base, BinaryScript(op, a, b))
  }

  lemma KeepsAllParts(env: Env, t: Type, s: Script) returns (w: seq<Bytes>)
    requires KeepsAll(env, t, s)
    ensures Sound(env, t, s) && Skips(env, s) && (t.d ==> Succeeds(env, t.base, s, w, false))
  {
    w := [];
    if t.d {
      w :| Succeeds(env, t.base, s, w, false);
    }
  }

  lemma BinaryFailure(env: Env, op: BinOp, x: Type, y: Type, t: Type, a: Script, b: Script)
    requires FixedBinaryType(op, x, y) == Some(t) && t.d && KeepsAll(env, x, a) && KeepsAll(env, y, b)
    ensures CanFail(env, t.base, BinaryScript(op, a, b))
  {
    hide KeepsAll, Succeeds, Skips, Sound;
    var wx := KeepsAllParts(env, x, a);
    var wy := KeepsAllParts(env, y, b);
    match op
    case AndB => BoolRuns(env, BoolAnd, a, b, wx, wy, false, false);
    case AndN => AndNRuns(env, a, b, wx, [], false);
    case OrB => BoolRuns(env, BoolOr, a, b, wx, wy, false, false);
    case OrD => OrDRuns(env, a, b, wx, wy, false, false);
    case OrI => OrIRuns(env, x.base, a, b, if x.d then wx else wy, x.d, false);
  }

  /** The parts that show that the combination need not be dissatisfiable. */
  function Halting(env: Env, op: BinOp, x: Type, y: Type): (Script, Script) {
    if op == OrD then (Never(x), Stop) else (Whole(env, x), Whole(env, y))
  }

  lemma SoundDoes(env: Env, t: Type, s: Script)
    requires KeepsAll(env, t, s)
    ensures Does(env, s, TypeRel(env, t))
  {
  }

  lemma HaltingKeeps(env: Env, sig: Bytes, op: BinOp, x: Type, y: Type, t: Type)
    requires env.Valid() && Signs(env, sig) && Exclusive(x) && Exclusive(y) && FixedBinaryType(op, x, y) == Some(t)
    requires !t.d
    ensures KeepsAll(env, x, Halting(env, op, x, y).0) && KeepsAll(env, y, Halting(env, op, x, y).1)
  {
    hide KeepsAll, Whole;
    WholeKeeps(env, sig, x);
    WholeKeeps(env, sig, y);
    if op == OrD {
      NeverKeeps(env, x);
      assert Whole(env, y) == Stop by {
        WholeIs(env, y);
      }
    }
  }

  lemma WholeIs(env: Env, t: Type)
    requires !t.d
    ensures Whole(env, t) == Stop
  {
  }

  lemma HaltingStops(env: Env, sig: Bytes, op: BinOp, x: Type, y: Type, t: Type)
    requires env.Valid() && Signs(env, sig) && Exclusive(x) && Exclusive(y) && FixedBinaryType(op, x, y) == Some(t)
    requires !t.d && t.base != V
    ensures var (a, b) := Halting(env, op, x, y); Does(env, BinaryScript(op, a, b), NoRel())
  {
    hide Does, KeepsAll, Whole, Never;
    var (a, b) := Halting(env, op, x, y);
    HaltingKeeps(env, sig, op, x, y, t);
    SoundDoes(env, x, a);
    SoundDoes(env, y, b);
    StopDoes(env);
    if !x.d {
      WholeIs(env, x);
    }
    if !y.d {
      WholeIs(env, y);
    }
    match op
    case AndV => NoRunFirst(env, a, b, TypeRel(env, y));
    case AndB =>
      DoesOp(env, BoolAnd);
      if !x.d {
        NoRunFirst(env, a, b, TypeRel(env, y));
      } else {
        NoRunSecond(env, a, b, TypeRel(env, x));
      }
      NoRunFirst(env, a + b, [BoolAnd], OpRel(env, BoolAnd));
    case OrD =>
      NoRunEntered(env, x, b, TypeRel(env, y));
      assert a + ([IfDup] + IfThen(true, b)) == a + [IfDup, If(true)] + b + [EndIf];
    case OrI =>
      NoRunChoice(env, false, a, b);
      assert IfElse(false, a, b) == [If(false)] + a + [Else] + b + [EndIf];
  }

  lemma NoFailureV(env: Env, s: Script)
    ensures !CanFail(env, V, s)
  {
  }

  /** A binary combinator has d exactly if scripts that keep all promises of the parts' types can always be
      dissatisfied when they are put together. */
  lemma BinaryDExact(env: Env, sig: Bytes, op: BinOp, x: Type, y: Type, t: Type)
    requires env.Valid() && Signs(env, sig) && Exclusive(x) && Exclusive(y) && FixedBinaryType(op, x, y) == Some(t)
    ensures t.d <==> BinaryDissatisfiable(env, op, x, y, t.base)
  {
    hide KeepsAll, CanFail, BinaryScript, Halting, FixedBinaryType, Does;
    if t.d {
      forall a, b | KeepsAll(env, x, a) && KeepsAll(env, y, b) ensures CanFail(env, t.base, BinaryScript(op, a, b)) {
        BinaryFailure(env, op, x, y, t, a, b);
      }
    } else {
      var (a, b) := Halting(env, op, x, y);
      HaltingKeeps(env, sig, op, x, y, t);
      if t.base == V {
        NoFailureV(env, BinaryScript(op, a, b));
      } else {
        HaltingStops(env, sig, op, x, y, t);
        BinaryBase(op, x, y, t);
        NoRunNoFailure(env, t.base, BinaryScript(op, a, b));
      }
      assert !CanFail(env, t.base, BinaryScript(op, a, b));
    }
  }

  lemma BinaryBase(op: BinOp, x: Type, y: Type, t: Type)
    requires FixedBinaryType(op, x, y) == Some(t)
    ensures t.base != W
  {
  }

  // ---------------------------------------------------------------- d of andor

  ghost predicate AndOrDissatisfiable(env: Env, x: Type, y: Type, z: Type, base: Base) {
    forall a, b, c :: KeepsAll(env, x, a) && KeepsAll(env, y, b) && KeepsAll(env, z, c) ==>
      CanFail(env, base, AndOrScript(a, b, c))
  }

  /** andor has d exactly if scripts that keep all promises of its parts' types can always be dissatisfied when
      they are put together. */
  lemma AndOrDExact(env: Env, sig: Bytes, x: Type, y: Type, z: Type, t: Type)
    requires env.Valid() && Signs(env, sig) && Exclusive(x) && Exclusive(y) && Exclusive(z)
    requires AndOrType(x, y, z) == Some(t)
    ensures t.d <==> AndOrDissatisfiable(env, x, y, z, t.base)
  {
    hide KeepsAll, CanFail, Does, Succeeds, Skips, Sound, Whole, Never, AndOrScript;
    if t.d {
      forall a, b, c | KeepsAll(env, x, a) && KeepsAll(env, y, b) && KeepsAll(env, z, c)
        ensures CanFail(env, t.base, AndOrScript(a, b, c))
      {
        AndOrFailure(env, x, y, z, t, a, b, c);
      }
    } else {
      var a, b, c := Never(x), Whole(env, y), Stop;
      NeverKeeps(env, x);
      WholeKeeps(env, sig, y);
      WholeKeeps(env, sig, z);
      WholeIs(env, z);
      SoundDoes(env, y, b);
      NoRunEntered(env, x, b, TypeRel(env, y));
      assert a + IfElse(true, c, b) == AndOrScript(a, b, c) by {
        AndOrIs(a, b, c);
      }
      if t.base == V {
        NoFailureV(env, AndOrScript(a, b, c));
      } else {
        NoRunNoFailure(env, t.base, AndOrScript(a, b, c));
      }
      assert !CanFail(env, t.base, AndOrScript(a, b, c));
    }
  }

  lemma AndOrFailure(env: Env, x: Type, y: Type, z: Type, t: Type, a: Script, b: Script, c: Script)
    requires AndOrType(x, y, z) == Some(t) && t.d
    requires KeepsAll(env, x, a) && KeepsAll(env, y, b) && KeepsAll(env, z, c)
    ensures CanFail(env, t.base, AndOrScript(a, b, c))
  {
    hide KeepsAll, Succeeds, Skips, Sound;
    var wx := KeepsAllParts(env, x, a);
    var wy := KeepsAllParts(env, y, b);
    var wz := KeepsAllParts(env, z, c);
    AndOrRuns(env, t.base, a, b, c, wx, wz, false, false);
  }

  // ---------------------------------------------------------------- d of the wrappers

  ghost predicate WrapDissatisfiable(env: Env, w: Wrapper, x: Type, base: Base) {
    forall a :: KeepsAll(env, x, a) ==> CanFail(env, base, WrapScript(w, a))
  }

  lemma WrapFailure(env: Env, w: Wrapper, x: Type, t: Type, a: Script)
    requires WrapType(w, x) == Some(t) && t.d && KeepsAll(env, x, a)
    ensures CanFail(env, t.base, WrapScript(w, a))
  {
    hide KeepsAll, Succeeds, Skips, Sound;
    var wx := KeepsAllParts(env, x, a);
    match w
    case WrapA => WrapARuns(env, a, wx, false);
    case WrapS => WrapSRuns(env, x, a, wx, false);
    case WrapC => WrapCRuns(env, a, wx, false);
    case WrapD => WrapDRuns(env, x, a, [], false);
    case WrapJ => WrapJRuns(env, x, a, [[]], false);
    case WrapN => WrapNRuns(env, a, wx, false);
    case WrapL => WrapLRuns(env, a, [], true, false);
    case WrapU => WrapURuns(env, a, [], true, false);
  }

  lemma WrapStops(env: Env, w: Wrapper, x: Type, t: Type)
    requires WrapType(w, x) == Some(t) && !t.d && (w == WrapC || w == WrapT || w == WrapN)
    ensures Does(env, WrapScript(w, Stop), NoRel())
  {
    hide Does;
    StopDoes(env);
    var op := if w == WrapC then CheckSig(false) else if w == WrapT then Small(1) else ZeroNotEqual;
    DoesOp(env, op);
    NoRunFirst(env, Stop, [op], OpRel(env, op));
  }

  /** What a: and s: make of a script that stops. */
  lemma SideStops(env: Env, w: Wrapper)
    requires w == WrapA || w == WrapS
    ensures !CanFail(env, W, WrapScript(w, Stop))
  {
    hide Effect, Succeeds;
    if CanFail(env, W, WrapScript(w, Stop)) {
      var ws :| Succeeds(env, W, WrapScript(w, Stop), ws, false);
      var v, below := ResultW(env, WrapScript(w, Stop), ws, false);
      SideAt(env, WrapScript(w, Stop), ws, v, below, []);
      EffectAt(env, WrapScript(w, Stop), [[]] + ws, Beside([], v, below), Nil);
      var st := State(On([[]] + ws, Nil), Nil, Nil);
      ReachAt(env, WrapScript(w, Stop), On([[]] + ws, Nil), On(Beside([], v, below), Nil), st);
      SideAborts(env, w, st);
    }
  }

  lemma SideAborts(env: Env, w: Wrapper, st: State)
    requires (w == WrapA || w == WrapS) && Live(st)
    ensures Run(env, WrapScript(w, Stop), st).None?
  {
    StopDoes(env);
    if w == WrapA {
      RunWrapA(env, Stop, st);
      var r := Step(env, ToAltStack, st);
      if r.Some? {
        assert Live(r.value);
      }
    } else {
      RunPrepend(env, Swap, Stop, st);
      var r := Step(env, Swap, st);
      if r.Some? {
        assert Live(r.value);
      }
    }
  }

  /** A wrapper has d exactly if every script that keeps all promises of the expression's type can be
      dissatisfied when it is wrapped. */
  lemma WrapDExact(env: Env, sig: Bytes, w: Wrapper, x: Type, t: Type)
    requires env.Valid() && Signs(env, sig) && Exclusive(x) && WrapType(w, x) == Some(t)
    ensures t.d <==> WrapDissatisfiable(env, w, x, t.base)
  {
    hide KeepsAll, CanFail, Does, WrapScript;
    if t.d {
      forall a | KeepsAll(env, x, a) ensures CanFail(env, t.base, WrapScript(w, a)) {
        WrapFailure(env, w, x, t, a);
      }
    } else if t.base == V {
      WholeKeeps(env, sig, x);
      NoFailureV(env, WrapScript(w, Whole(env, x)));
    } else {
      WholeKeeps(env, sig, x);
      WholeIs(env, x);
      if t.base == W {
        SideStops(env, w);
      } else {
        WrapStops(env, w, x, t);
        NoRunNoFailure(env, t.base, WrapScript(w, Stop));
      }
      assert !CanFail(env, t.base, WrapScript(w, Stop));
    }
  }

  // ---------------------------------------------------------------- what a part is good for

  /** Every script that keeps the promises of t succeeds as the given base type on every witness on which it
      succeeds as a t. */
  ghost predicate Acts(env: Env, t: Type, base: Base) {
    forall s, w, sat :: Keeps(env, t, s) && Succeeds(env, t.base, s, w, sat) ==> Succeeds(env, base, s, w, sat)
  }

  /** Every script that keeps all promises of t can be dissatisfied. */
  ghost predicate Dissatisfiable(env: Env, t: Type) {
    forall s :: KeepsAll(env, t, s) ==> CanFail(env, t.base, s)
  }

  /** Some script that keeps the promises of t breaks those of t'. */
  ghost predicate PartFails(env: Env, t: Type, t': Type) {
    exists s :: Keeps(env, t, s) && Breaks(env, t', s)
  }

  lemma {:induction false} OnInjective(a: seq<Bytes>, b: seq<Bytes>)
    requires On(a, Nil) == On(b, Nil)
    ensures a == b
    decreases a
  {
    if a != [] {
      OnInjective(a[1..], b[1..]);
    }
  }

  lemma EffectUnique(env: Env, s: Script, w: seq<Bytes>, o: seq<Bytes>, o': seq<Bytes>)
    requires Effect(env, s, w, o) && Effect(env, s, w, o')
    ensures o == o'
  {
    hide On, Reaches;
    EffectAt(env, s, w, o, Nil);
    EffectAt(env, s, w, o', Nil);
    var st := State(On(w, Nil), Nil, Nil);
    ReachAt(env, s, On(w, Nil), On(o, Nil), st);
    ReachAt(env, s, On(w, Nil), On(o', Nil), st);
    OnInjective(o, o');
  }

  /** A B, a V and a K leave different numbers of elements. */
  lemma OtherBase(env: Env, base: Base, base': Base, s: Script, w: seq<Bytes>, sat: bool)
    requires base != W && base' != W && base != base' && Succeeds(env, base, s, w, sat)
    ensures !Succeeds(env, base', s, w, sat)
  {
    hide Succeeds, Effect;
    if Succeeds(env, base', s, w, sat) {
      var o := Results(env, base, s, w, sat);
      var o' := Results(env, base', s, w, sat);
      EffectUnique(env, s, w, o, o');
    }
  }

  lemma EffectRun(env: Env, s: Script, w: seq<Bytes>, o: seq<Bytes>)
    requires Effect(env, s, w, o)
    ensures Run(env, s, State(On(w, Nil), Nil, Nil)).Some?
  {
    hide On, Reaches;
    EffectAt(env, s, w, o, Nil);
    ReachAt(env, s, On(w, Nil), On(o, Nil), State(On(w, Nil), Nil, Nil));
  }

  /** Without an element above its input, the sample of a W finds none. */
  lemma SideNeedsTop(env: Env)
    ensures Run(env, WrapScript(WrapA, [ZeroNotEqual]), State(On([[1]], Nil), Nil, Nil)).None?
  {
    hide WrapScript;
    OnFew([1], [1], Nil);
    RunWrapA(env, [ZeroNotEqual], State(On([[1]], Nil), Nil, Nil));
    RunOne(env, ZeroNotEqual, State(Nil, Cons([1], Nil), Nil));
  }

  lemma SideIsNoOther(env: Env, base: Base)
    requires base != W
    ensures !Succeeds(env, base, WrapScript(WrapA, [ZeroNotEqual]), [[1]], true)
  {
    hide Succeeds, Effect, WrapScript;
    if Succeeds(env, base, WrapScript(WrapA, [ZeroNotEqual]), [[1]], true) {
      var o := Results(env, base, WrapScript(WrapA, [ZeroNotEqual]), [[1]], true);
      EffectRun(env, WrapScript(WrapA, [ZeroNotEqual]), [[1]], o);
      SideNeedsTop(env);
    }
  }

  /** A script whose effect on top of w is known does not succeed as a W, if that effect does not fit. */
  lemma NotBeside(env: Env, s: Script, w: seq<Bytes>, top: Bytes, o: seq<Bytes>)
    requires Effect(env, s, [top] + w, o) && (|o| != 2 || (o[0] != top && o[1] != top))
    ensures !Succeeds(env, W, s, w, true)
  {
    hide Succeeds, Effect;
    if Succeeds(env, W, s, w, true) {
      var v, below := ResultW(env, s, w, true);
      SideAt(env, s, w, v, below, top);
      EffectUnique(env, s, [top] + w, o, Beside(top, v, below));
    }
  }

  lemma ValueIsNoSide(env: Env, t: Type)
    requires env.Valid() && t.base == B && !t.z && Exclusive(t)
    ensures !Succeeds(env, W, Sample(env, t, 1, Yes), SampleWitness([], t, 1, Yes), true)
  {
    hide Effect, Succeeds;
    var s := Sample(env, t, 1, Yes);
    assert s == Form(Yes) && SampleWitness([], t, 1, Yes) == [[1]];
    FormRuns(env, Yes, [2]);
    assert Truthy([2]) && Formed(Yes, [2]) == [1];
    EffectFrame(env, s, [[2]], [[1]], [[1]]);
    assert [[1]] + [[1]] == [[1], [1]];
    NotBeside(env, s, [[1]], [2], [[1], [1]]);
  }

  lemma CheckIsNoSide(env: Env, t: Type)
    requires env.Valid() && t.base == V && Exclusive(t)
    ensures !Succeeds(env, W, Sample(env, t, 1, Yes), SampleWitness([], t, 1, Yes), true)
  {
    hide Effect, Succeeds, Core;
    var s, w := Sample(env, t, 1, Yes), SampleWitness([], t, 1, Yes);
    var k := Count(t, 1);
    WantedResult(k, Yes);
    CoreRuns(env, k, Yes, [1]);
    GoodTruth([1], true);
    VerifyRuns(env, Core(k, Yes), Inputs(k, [1]), [1]);
    var o := Results(env, V, s, w, true);
    EffectFrame(env, s, w, [], [[1]]);
    assert w + [[1]] == [[1]] + w && [] + [[1]] == [[1]];
    NotBeside(env, s, w, [1], [[1]]);
  }

  lemma KeyIsNoSide(env: Env, sig: Bytes, t: Type)
    requires env.Valid() && t.base == K && Exclusive(t)
    ensures !Succeeds(env, W, Sample(env, t, 1, Yes), SampleWitness(sig, t, 1, Yes), true)
  {
    hide Effect, Succeeds, KeyCheck;
    var s, w := Sample(env, t, 1, Yes), SampleWitness(sig, t, 1, Yes);
    var below: seq<Bytes> := [[1], sig];
    var first: seq<Bytes> := if t.o then [] else [[1]];
    var key := env.key(0);
    KeyCheckRuns(env, t, Yes);
    EffectFrame(env, KeyCheck(t, Yes), first, [], below);
    KeyPushed(env, key, below);
    assert [] + below == below && below + [] == below && first + below + [] == first + below;
    EffectSeq(env, KeyCheck(t, Yes), [Push(key)], first + below, below, [], [key] + below);
    assert [[1]] + w == first + below;
    NotBeside(env, s, w, [1], [key] + below);
  }

  lemma KeyPushed(env: Env, key: Bytes, below: seq<Bytes>)
    ensures Effect(env, [Push(key)], below + [], [key] + below)
  {
    hide On;
    var none: seq<Bytes> := [];
    assert none + below == below + none;
    forall rest ensures ExecMain(env, Push(key), On(none, rest)) == Some(On([key], rest)) {
      OnFew(key, key, rest);
    }
    EffectOp(env, Push(key), none, [key]);
    EffectFrame(env, [Push(key)], none, [key], below);
  }

  /** A B with z leaves its result above the element that was on top, as a W may do. */
  lemma NoInputIsSide(env: Env, t: Type, s: Script, w: seq<Bytes>, sat: bool)
    requires t.base == B && t.z && Keeps(env, t, s) && Succeeds(env, B, s, w, sat)
    ensures Succeeds(env, W, s, w, sat)
  {
    hide Effect, Good, Succeeds, Keeps;
    var v := ResultB(env, s, w, sat);
    KeepsSkips(env, t, s);
    ConstantWitness(env, t, s, w, v);
    forall top ensures Effect(env, s, [top] + w, Beside(top, v, false)) {
      EffectFrame(env, s, w, [v], [top]);
      assert w + [top] == [top] + w && [v] + [top] == Beside(top, v, false);
    }
    BesideSucceeds(env, s, w, v, sat);
  }

  lemma BesideSucceeds(env: Env, s: Script, w: seq<Bytes>, v: Bytes, sat: bool)
    requires Good(v, sat) && SideEffect(env, s, w, v, false)
    ensures Succeeds(env, W, s, w, sat)
  {
    hide SideEffect, Good;
  }

  lemma ConstantWitness(env: Env, t: Type, s: Script, w: seq<Bytes>, v: Bytes)
    requires t.base == B && t.z && Sound(env, t, s) && Effect(env, s, w, [v])
    ensures w == []
  {
    ShapeOfEffect(env, t, s, w, [v]);
    HeightOn(w, Nil);
    OnFew(v, v, Nil);
  }

  lemma ActsNotAs(env: Env, sig: Bytes, t: Type, base: Base)
    requires env.Valid() && Signs(env, sig) && Exclusive(t) && t.base != base && !(t.base == B && t.z && base == W)
    ensures !Acts(env, t, base)
  {
    hide Keeps, Succeeds, Effect, Sample;
    var s, w := Sample(env, t, 1, Yes), SampleWitness(sig, t, 1, Yes);
    SampleKeeps(env, t, 1, Yes);
    SampleRuns(env, sig, t, 1, Yes);
    if base != W && t.base != W {
      OtherBase(env, t.base, base, s, w, true);
    } else if t.base == W {
      assert s == WrapScript(WrapA, [ZeroNotEqual]) by {
        SideSample(env, t);
      }
      assert w == [[1]];
      SideIsNoOther(env, base);
    } else if t.base == K {
      KeyIsNoSide(env, sig, t);
    } else {
      assert w == SampleWitness([], t, 1, Yes);
      if t.base == B {
        ValueIsNoSide(env, t);
      } else {
        CheckIsNoSide(env, t);
      }
    }
    assert Keeps(env, t, s) && Succeeds(env, t.base, s, w, true) && !Succeeds(env, base, s, w, true);
  }

  lemma SideSample(env: Env, t: Type)
    requires t.base == W && Exclusive(t)
    ensures Sample(env, t, 1, Yes) == WrapScript(WrapA, [ZeroNotEqual])
  {
  }

  /** A type is good for its own base type alone, but for a B with z, which is also good for a W. */
  lemma ActsIff(env: Env, sig: Bytes, t: Type, base: Base)
    requires env.Valid() && Signs(env, sig) && Exclusive(t)
    ensures Acts(env, t, base) <==> t.base == base || (t.base == B && t.z && base == W)
  {
    hide Keeps, Succeeds, Acts;
    if t.base == base {
      ActsAlike(env, t);
    } else if t.base == B && t.z && base == W {
      ActsAside(env, t);
    } else {
      ActsNotAs(env, sig, t, base);
    }
  }

  lemma ActsAlike(env: Env, t: Type)
    ensures Acts(env, t, t.base)
  {
    hide Keeps, Succeeds;
  }

  lemma ActsAside(env: Env, t: Type)
    requires t.base == B && t.z
    ensures Acts(env, t, W)
  {
    hide Keeps, Succeeds;
    forall s, w, sat | Keeps(env, t, s) && Succeeds(env, t.base, s, w, sat) ensures Succeeds(env, W, s, w, sat) {
      NoInputIsSide(env, t, s, w, sat);
    }
  }

  // ---------------------------------------------------------------- flags of a part

  lemma DissatisfiableIff(env: Env, sig: Bytes, t: Type)
    requires env.Valid() && Signs(env, sig) && Exclusive(t)
    ensures Dissatisfiable(env, t) <==> t.d
  {
    hide CanFail, Sound;
    if !t.d {
      StopDoes(env);
      NoRunSound(env, t, Stop);
      if t.base == W {
        var b := t.(base := B);
        NoRunSound(env, b, Stop);
        WrapASound(env, b, Stop, t);
        SideStops(env, WrapA);
        assert KeepsAll(env, t, WrapScript(WrapA, Stop));
      } else {
        NoRunNoFailure(env, t.base, Stop);
        assert KeepsAll(env, t, Stop);
      }
    }
  }

  lemma PartHolds(env: Env, t: Type)
    ensures !PartFails(env, t, t)
  {
    hide Sound, Breaks;
    if PartFails(env, t, t) {
      var s :| Keeps(env, t, s) && Breaks(env, t, s);
      SoundUnbroken(env, t, s);
    }
  }

  lemma PartBreaks(env: Env, t: Type, t': Type, s: Script)
    requires Keeps(env, t, s) && Breaks(env, t', s)
    ensures PartFails(env, t, t')
  {
  }

  /** z and o are announced exactly if every script of the type consumes no input, or one. */
  lemma InputsIff(env: Env, sig: Bytes, t: Type)
    requires env.Valid() && Signs(env, sig) && Exclusive(t)
    ensures t.z <==> !PartFails(env, t, t.(z := true))
    ensures t.o <==> !PartFails(env, t, t.(o := true))
  {
    hide Keeps, Succeeds, Effect, Skips, Breaks, PartFails;
    PartHolds(env, t);
    assert (t.z ==> t.(z := true) == t) && (t.o ==> t.(o := true) == t);
    var s, w := Part(env, sig, t, 2, Yes);
    WitnessBreaks(env, t, s, w, true);
    if !t.z {
      PartBreaks(env, t, t.(z := true), s);
    }
    if !t.o {
      PartBreaks(env, t, t.(o := true), s);
    }
  }

  /** n is announced, or the type is a K with o, exactly if every script of the type keeps it. */
  lemma NonEmptyIff(env: Env, sig: Bytes, t: Type)
    requires env.Valid() && Signs(env, sig) && Exclusive(t)
    ensures NonEmpty(t) <==> !PartFails(env, t, t.(n := true))
  {
    hide Keeps, Succeeds, Effect, Skips, Breaks;
    if NonEmpty(t) {
      forall s | Keeps(env, t, s) ensures !Breaks(env, t.(n := true), s) {
        KeepsSkips(env, t, s);
        WithNSound(env, t, s);
        assert WithN(t) == t.(n := true);
        SoundUnbroken(env, t.(n := true), s);
      }
    } else {
      var s, w := Part(env, sig, t, 1, OnEmpty);
      WitnessBreaks(env, t, s, w, true);
    }
  }

  /** u is announced exactly if every true result of every script of the type is 1. */
  lemma UnitIff(env: Env, sig: Bytes, t: Type)
    requires env.Valid() && Signs(env, sig) && Exclusive(t) && (t.base == B || t.base == W)
    ensures t.u <==> !PartFails(env, t, t.(u := true))
  {
    hide Keeps, Succeeds, Effect, Skips, Breaks, PartFails;
    if t.u {
      PartHolds(env, t);
      assert t.(u := true) == t;
    } else if t.base == B {
      var s, w := Part(env, sig, t, 1, Two);
      TwoBreaks(env, t, s, w);
      PartBreaks(env, t, t.(u := true), s);
    } else {
      var k := Count(t, 1);
      WantedResult(k, Two);
      CoreRuns(env, k, Two, [2]);
      EffectWrapA(env, Core(k, Two), [], Inputs(k, [2]), [2]);
      BesideBreaks(env, t, Sample(env, t, 1, Two), Inputs(k, [2]), true);
      SampleKeeps(env, t, 1, Two);
      PartBreaks(env, t, t.(u := true), Sample(env, t, 1, Two));
    }
  }

  // ---------------------------------------------------------------- what the rules accept

  /** Good as the condition of NOTIF: it leaves 1 when it is true, and it can be false. */
  ghost predicate Condition(env: Env, t: Type) {
    Acts(env, t, B) && Dissatisfiable(env, t) && !PartFails(env, t, t.(u := true))
  }

  /** Good for a W, and not only because it is a B that looks at no input. */
  ghost predicate Aside(env: Env, t: Type) {
    Acts(env, t, W) && !Acts(env, t, B)
  }

  /** Good for the same base type, and not for a W. */
  ghost predicate Together(env: Env, x: Type, y: Type) {
    exists base :: base != W && Acts(env, x, base) && Acts(env, y, base)
  }

  ghost predicate BinaryAccepts(env: Env, op: BinOp, x: Type, y: Type) {
    match op
    case AndV => Acts(env, x, V) && Together(env, y, y)
    case AndB => Acts(env, x, B) && Aside(env, y)
    case AndN => Condition(env, x) && Acts(env, y, B)
    case OrB => Acts(env, x, B) && Dissatisfiable(env, x) && Aside(env, y) && Dissatisfiable(env, y)
    case OrC => Condition(env, x) && Acts(env, y, V)
    case OrD => Condition(env, x) && Acts(env, y, B)
    case OrI => Together(env, x, y)
  }

  lemma RolesIff(env: Env, sig: Bytes, t: Type)
    requires env.Valid() && Signs(env, sig) && Exclusive(t)
    ensures Acts(env, t, B) <==> t.base == B
    ensures Acts(env, t, V) <==> t.base == V
    ensures Acts(env, t, K) <==> t.base == K
    ensures Aside(env, t) <==> t.base == W
    ensures Condition(env, t) <==> t.base == B && t.d && t.u
    ensures Dissatisfiable(env, t) <==> t.d
  {
    hide Acts, Dissatisfiable, PartFails, Exclusive;
    ActsIff(env, sig, t, B);
    ActsIff(env, sig, t, V);
    ActsIff(env, sig, t, K);
    ActsIff(env, sig, t, W);
    DissatisfiableIff(env, sig, t);
    if t.base == B {
      UnitIff(env, sig, t);
    }
  }

  lemma TogetherIff(env: Env, sig: Bytes, x: Type, y: Type)
    requires env.Valid() && Signs(env, sig) && Exclusive(x) && Exclusive(y)
    ensures Together(env, x, y) <==> x.base == y.base && x.base != W
  {
    hide Acts, Exclusive;
    forall base | base != W
      ensures (Acts(env, x, base) <==> x.base == base) && (Acts(env, y, base) <==> y.base == base)
    {
      ActsIff(env, sig, x, base);
      ActsIff(env, sig, y, base);
    }
    if x.base == y.base && x.base != W {
      assert Acts(env, x, x.base) && Acts(env, y, x.base);
    }
  }

  /** The rule of a binary combinator accepts two types exactly if all scripts of these types do what the
      combinator needs of its parts. */
  lemma BinaryAcceptsIff(env: Env, sig: Bytes, op: BinOp, x: Type, y: Type)
    requires env.Valid() && Signs(env, sig) && Exclusive(x) && Exclusive(y)
    ensures BinaryType(op, x, y).Some? <==> BinaryAccepts(env, op, x, y)
  {
    hide Acts, Dissatisfiable, Condition, Aside, Together, Exclusive;
    RolesIff(env, sig, x);
    RolesIff(env, sig, y);
    TogetherIff(env, sig, x, y);
    TogetherIff(env, sig, y, y);
  }

  lemma AndOrAcceptsIff(env: Env, sig: Bytes, x: Type, y: Type, z: Type)
    requires env.Valid() && Signs(env, sig) && Exclusive(x) && Exclusive(y) && Exclusive(z)
    ensures AndOrType(x, y, z).Some? <==> Condition(env, x) && Together(env, y, z)
  {
    hide Acts, Dissatisfiable, Condition, Aside, Together, Exclusive;
    RolesIff(env, sig, x);
    TogetherIff(env, sig, y, z);
  }

  ghost predicate WrapAccepts(env: Env, w: Wrapper, x: Type) {
    match w
    case WrapS => Acts(env, x, B) && !PartFails(env, x, x.(o := true))
    case WrapC => Acts(env, x, K)
    case WrapT => Acts(env, x, V)
    case WrapD => Acts(env, x, V) && !PartFails(env, x, x.(z := true))
    case WrapJ => Acts(env, x, B) && !PartFails(env, x, x.(n := true))
    case _ => Acts(env, x, B)
  }

  /** A wrapper accepts a type exactly if all scripts of the type do what the wrapper needs. */
  lemma WrapAcceptsIff(env: Env, sig: Bytes, w: Wrapper, x: Type)
    requires env.Valid() && Signs(env, sig) && Exclusive(x)
    ensures WrapType(w, x).Some? <==> WrapAccepts(env, w, x)
  {
    hide Acts, PartFails, Exclusive;
    RolesIff(env, sig, x);
    InputsIff(env, sig, x);
    NonEmptyIff(env, sig, x);
  }

  /** thresh accepts types exactly if all scripts of the first one are good as a condition, those of the others
      are good for a W with the same flags, and the threshold is in range. */
  lemma ThreshAcceptsIff(env: Env, sig: Bytes, k: nat, ts: seq<Type>)
    requires env.Valid() && Signs(env, sig) && forall i :: 0 <= i < |ts| ==> Exclusive(ts[i])
    ensures ThreshType(k, ts).Some? <==>
      && 1 <= k <= MAX_THRESHOLD && ts != [] && Condition(env, ts[0])
      && forall i :: 1 <= i < |ts| ==>
           Aside(env, ts[i]) && Dissatisfiable(env, ts[i]) && !PartFails(env, ts[i], ts[i].(u := true))
  {
    hide Acts, Dissatisfiable, Condition, Aside, Exclusive, PartFails;
    forall i | 0 <= i < |ts|
      ensures Condition(env, ts[i]) <==> ThreshChildOk(true, ts[i])
      ensures Aside(env, ts[i]) && Dissatisfiable(env, ts[i]) && !PartFails(env, ts[i], ts[i].(u := true)) <==>
              ThreshChildOk(false, ts[i])
    {
      RolesIff(env, sig, ts[i]);
      if ts[i].base == W {
        UnitIff(env, sig, ts[i]);
      }
    }
  }
}
