/** For every type, scripts that keep its promises and runs that break a promise the type leaves out. */
module SampleScripts {
  import opened Wrappers
  import opened BitcoinScript
  import opened Miniscript
  import opened ScriptNumbers
  import opened ScriptRelations
  import opened StackShape
  import opened CombinatorSoundness
  import opened LeafSoundness
  import opened TypeSoundness
  import opened ScriptEffects
  import opened SatisfactionRuns

  // ---------------------------------------------------------------- what a part of a type is known to do

  ghost predicate CanFail(env: Env, base: Base, s: Script) {
    exists w :: Succeeds(env, base, s, w, false)
  }

  /** The script does what the type announces: the stack changes as the base type and z, o, n, u say, and with d
      some witness dissatisfies it. A script with z and d could only be the constant 0, so d is not asked of z. */
  ghost predicate Keeps(env: Env, t: Type, s: Script) {
    Sound(env, t, s) && (t.d && !t.z ==> CanFail(env, t.base, s))
  }

  /** Some run of the script does what the type does not allow. */
  ghost predicate Breaks(env: Env, t: Type, s: Script) {
    exists a, b :: Reaches(env, s, a, b) && !Shape(env, t, a, b)
  }

  lemma SoundUnbroken(env: Env, t: Type, s: Script)
    requires Sound(env, t, s)
    ensures !Breaks(env, t, s)
  {
    hide Shape;
    if Breaks(env, t, s) {
      var a, b :| Reaches(env, s, a, b) && !Shape(env, t, a, b);
      var st := State(a, Nil, Nil);
      ReachAt(env, s, a, b, st);
      SoundAt(env, t, s, st, st.(stack := b));
    }
  }

  function Height(s: Stack): nat {
    if s.Nil? then 0 else 1 + Height(s.rest)
  }

  lemma {:induction false} HeightOn(w: seq<Bytes>, rest: Stack)
    ensures Height(On(w, rest)) == |w| + Height(rest)
    decreases w
  {
    if w != [] {
      HeightOn(w[1..], rest);
    }
  }

  /** The stack on which the runs below start: the witness, with an empty element under it. */
  const Ground: Stack := Cons([], Nil)

  lemma BreakAt(env: Env, t: Type, s: Script, w: seq<Bytes>, o: seq<Bytes>)
    requires Effect(env, s, w, o) && !Shape(env, t, On(w, Ground), On(o, Ground))
    ensures Breaks(env, t, s)
  {
    hide Shape, On, Reaches;
    EffectAt(env, s, w, o, Ground);
  }

  /** What a run on a witness says about z, o and n, by the number of elements and the first of them. */
  lemma WitnessBreaks(env: Env, t: Type, s: Script, w: seq<Bytes>, sat: bool)
    requires Succeeds(env, t.base, s, w, sat)
    ensures w != [] || t.base == K || t.base == W ==> Breaks(env, t.(z := true), s)
    ensures |w| != 1 || t.base == W ==> Breaks(env, t.(o := true), s)
    ensures (sat && (w == [] || w[0] == [])) || t.base == W ==> Breaks(env, t.(n := true), s)
  {
    hide Breaks;
    if t.base == W {
      hide Succeeds;
      var v, below := ResultW(env, s, w, sat);
      SideAt(env, s, w, v, below, []);
      var o := Beside([], v, below);
      BreakAt(env, t.(z := true), s, [[]] + w, o);
      BreakAt(env, t.(o := true), s, [[]] + w, o);
      BreakAt(env, t.(n := true), s, [[]] + w, o);
    } else {
      WitnessBreaksPlain(env, t, s, w, sat);
    }
  }

  lemma WitnessBreaksPlain(env: Env, t: Type, s: Script, w: seq<Bytes>, sat: bool)
    requires t.base != W && Succeeds(env, t.base, s, w, sat)
    ensures w != [] || t.base == K ==> Breaks(env, t.(z := true), s)
    ensures |w| != 1 ==> Breaks(env, t.(o := true), s)
    ensures sat && (w == [] || w[0] == []) ==> Breaks(env, t.(n := true), s)
  {
    hide Breaks, Effect, Succeeds, OutOk, Shape;
    var o := Results(env, t.base, s, w, sat);
    if w != [] || t.base == K {
      OutputBreaksZ(env, t.(z := true), w, o, sat);
      BreakAt(env, t.(z := true), s, w, o);
    }
    if |w| != 1 {
      OutputBreaksO(env, t.(o := true), w, o, sat);
      BreakAt(env, t.(o := true), s, w, o);
    }
    if sat && (w == [] || w[0] == []) {
      OutputBreaksN(env, t.(n := true), w, o);
      BreakAt(env, t.(n := true), s, w, o);
    }
  }

  lemma OutputBreaksZ(env: Env, t: Type, w: seq<Bytes>, o: seq<Bytes>, sat: bool)
    requires OutOk(env, t.base, o, sat) && t.z && (w != [] || t.base == K)
    ensures !Shape(env, t, On(w, Ground), On(o, Ground))
  {
    HeightOn(w, Ground);
    HeightOn(o, Ground);
    ElementsOn(o, Ground);
  }

  lemma OutputBreaksO(env: Env, t: Type, w: seq<Bytes>, o: seq<Bytes>, sat: bool)
    requires OutOk(env, t.base, o, sat) && t.o && |w| != 1
    ensures !Shape(env, t, On(w, Ground), On(o, Ground))
  {
    HeightOn(w, Ground);
    HeightOn(o, Ground);
    ElementsOn(o, Ground);
  }

  lemma OutputBreaksN(env: Env, t: Type, w: seq<Bytes>, o: seq<Bytes>)
    requires OutOk(env, t.base, o, true) && t.n && (w == [] || w[0] == [])
    ensures !Shape(env, t, On(w, Ground), On(o, Ground))
  {
    ElementsOn(o, Ground);
  }

  lemma ElementsOn(o: seq<Bytes>, rest: Stack)
    ensures |o| == 0 ==> On(o, rest) == rest
    ensures |o| == 1 ==> On(o, rest) == Cons(o[0], rest)
    ensures |o| == 2 ==> On(o, rest) == Cons(o[0], Cons(o[1], rest))
  {
  }

  lemma TwoBreaks(env: Env, t: Type, s: Script, w: seq<Bytes>)
    requires t.base == B && Effect(env, s, w, [[2]])
    ensures Breaks(env, t.(u := true), s)
  {
    hide Breaks, Effect;
    OnFew([2], [2], Ground);
    assert Truthy([2]);
    BreakAt(env, t.(u := true), s, w, [[2]]);
  }

  // ---------------------------------------------------------------- scripts that consume 0, 1 or 2 inputs

  /** What a sample is wanted for: a true result, a false one, a true one from an empty element, the result 2. */
  datatype Wish = Yes | No | OnEmpty | Two

  function Form(wish: Wish): Script {
    match wish
    case OnEmpty => [Small(0), Equal(false)]
    case Two => [Small(0), Add]
    case _ => [ZeroNotEqual]
  }

  /** The result of an element of at most four bytes. */
  function Formed(wish: Wish, a: Bytes): Bytes {
    match wish
    case OnEmpty => Bool(a == [])
    case Two => if DecodeNum(a).Some? then EncodeNum(DecodeNum(a).value) else []
    case _ => Bool(Truthy(a))
  }

  function Constant(wish: Wish): nat {
    match wish
    case No => 0
    case Two => 2
    case _ => 1
  }

  /** A script that makes its result of the top element, if it consumes any, and checks the one below, if it
      consumes two. */
  function Core(c: nat, wish: Wish): Script {
    if c == 0 then [Small(Constant(wish))] else if c == 1 then Form(wish) else [Swap, Verify] + Form(wish)
  }

  predicate FormAllows(wish: Wish, s: Stack, s': Stack) {
    s.Cons? && s' == Cons(Formed(wish, s.top), s.rest)
  }

  function FormRel(wish: Wish): Relation {
    (s, s') => FormAllows(wish, s, s')
  }

  lemma DoesPair(env: Env, n: nat, op: Op, rel: Relation)
    requires Plain(op) && forall s, s' :: ExecMain(env, op, Cons(EncodeNum(n), s)) == Some(s') ==> rel(s, s')
    ensures Does(env, [Small(n), op], rel)
  {
    hide Does, EncodeNum;
    DoesOp(env, Small(n));
    DoesOp(env, op);
    DoesAppend(env, [Small(n)], OpRel(env, Small(n)), [op], OpRel(env, op), rel);
    assert [Small(n)] + [op] == [Small(n), op];
  }

  lemma FormDoes(env: Env, wish: Wish)
    ensures Does(env, Form(wish), FormRel(wish))
  {
    hide Does;
    match wish
    case OnEmpty => DoesPair(env, 0, Equal(false), FormRel(wish));
    case Two => DoesPair(env, 0, Add, FormRel(wish));
    case _ =>
      DoesOp(env, ZeroNotEqual);
      forall s, s' | OpRel(env, ZeroNotEqual)(s, s') ensures FormRel(wish)(s, s') {
        ZeroNotEqualResult(env, s, s');
      }
      DoesImplies(env, [ZeroNotEqual], OpRel(env, ZeroNotEqual), FormRel(wish));
  }

  predicate CoreAllows(c: nat, wish: Wish, s: Stack, s': Stack) {
    if c == 0 then s' == Cons(EncodeNum(Constant(wish)), s)
    else if c == 1 then FormAllows(wish, s, s')
    else s.Cons? && s.rest.Cons? && s' == Cons(Formed(wish, s.top), s.rest.rest)
  }

  function CoreRel(c: nat, wish: Wish): Relation {
    (s, s') => CoreAllows(c, wish, s, s')
  }

  predicate ChecksSecond(s: Stack, s': Stack) {
    s.Cons? && s.rest.Cons? && s' == Cons(s.top, s.rest.rest)
  }

  function CheckRel(): Relation {
    (s, s') => ChecksSecond(s, s')
  }

  lemma CheckExec(env: Env, s: Stack, r: Stack, s': Stack)
    requires ExecMain(env, Swap, s) == Some(r) && ExecMain(env, Verify, r) == Some(s')
    ensures ChecksSecond(s, s')
  {
  }

  lemma CheckDoes(env: Env)
    ensures Does(env, [Swap, Verify], CheckRel())
  {
    hide Does, ChecksSecond, ExecMain;
    DoesOp(env, Swap);
    DoesOp(env, Verify);
    forall s, r, s' | OpRel(env, Swap)(s, r) && OpRel(env, Verify)(r, s') ensures CheckRel()(s, s') {
      CheckExec(env, s, r, s');
    }
    DoesAppend(env, [Swap], OpRel(env, Swap), [Verify], OpRel(env, Verify), CheckRel());
    assert [Swap] + [Verify] == [Swap, Verify];
  }

  lemma CoreDoes(env: Env, c: nat, wish: Wish)
    requires c <= 2
    ensures Does(env, Core(c, wish), CoreRel(c, wish))
  {
    hide Does, Form, EncodeNum, Formed, Constant;
    FormDoes(env, wish);
    if c == 0 {
      DoesOp(env, Small(Constant(wish)));
      DoesImplies(env, Core(c, wish), OpRel(env, Small(Constant(wish))), CoreRel(c, wish));
    } else if c == 1 {
      DoesImplies(env, Core(c, wish), FormRel(wish), CoreRel(c, wish));
    } else {
      CheckDoes(env);
      DoesAppend(env, [Swap, Verify], CheckRel(), Form(wish), FormRel(wish), CoreRel(c, wish));
    }
  }

  /** Which of the scripts above keep a type. */
  predicate Suits(t: Type, c: nat, wish: Wish) {
    c <= 2 && (t.z ==> c == 0) && (t.o ==> c == 1) && (t.n ==> c > 0 && wish != OnEmpty) && (t.u ==> wish != Two)
  }

  lemma FormedFacts(wish: Wish, a: Bytes)
    ensures wish != OnEmpty && Truthy(Formed(wish, a)) ==> a != []
    ensures wish != Two && Truthy(Formed(wish, a)) ==> Formed(wish, a) == [1]
    ensures wish != Two && Truthy(EncodeNum(Constant(wish))) ==> EncodeNum(Constant(wish)) == [1]
  {
    OneGood();
  }

  lemma CoreShape(t: Type, c: nat, wish: Wish, s: Stack, s': Stack)
    requires t.base == B && Suits(t, c, wish) && CoreAllows(c, wish, s, s')
    ensures ShapeB(t, s, s')
    ensures Truthy(s'.top) ==> ShapeV(t, s, s'.rest)
  {
    hide Truthy, EncodeNum, Formed, Constant;
    FormedFacts(wish, if c == 0 then [] else s.top);
    if c >= 1 {
      assert Suffix(s.rest, s);
    }
    if c == 2 {
      assert Suffix(s.rest.rest, s.rest);
    }
  }

  lemma CoreSound(env: Env, t: Type, c: nat, wish: Wish)
    requires t.base == B && Suits(t, c, wish)
    ensures Sound(env, t, Core(c, wish))
    ensures Sound(env, t.(base := V), Core(c, wish) + [Verify])
  {
    hide Does, Core, CoreAllows, ShapeB, ShapeV;
    CoreDoes(env, c, wish);
    forall s, s' | CoreRel(c, wish)(s, s') ensures TypeRel(env, t)(s, s') {
      CoreShape(t, c, wish, s, s');
    }
    DoesImplies(env, Core(c, wish), CoreRel(c, wish), TypeRel(env, t));
    DoesOp(env, Verify);
    forall s, r, s' | CoreRel(c, wish)(s, r) && OpRel(env, Verify)(r, s') ensures TypeRel(env, t.(base := V))(s, s') {
      CoreShape(t, c, wish, s, r);
      ShapeVFlags(t, s, s');
    }
    DoesAppend(env, Core(c, wish), CoreRel(c, wish), [Verify], OpRel(env, Verify), TypeRel(env, t.(base := V)));
  }

  lemma ShapeVFlags(t: Type, s: Stack, s': Stack)
    ensures ShapeV(t.(base := V), s, s') == ShapeV(t, s, s')
  {
  }

  // ---------------------------------------------------------------- their runs

  function Inputs(c: nat, a: Bytes): seq<Bytes> {
    if c == 0 then [] else if c == 1 then [a] else [a, [1]]
  }

  function Result(c: nat, wish: Wish, a: Bytes): Bytes {
    if c == 0 then EncodeNum(Constant(wish)) else Formed(wish, a)
  }

  lemma FormRuns(env: Env, wish: Wish, a: Bytes)
    requires |a| <= 4
    ensures Effect(env, Form(wish), [a], [Formed(wish, a)])
  {
    hide Effect, On, Truthy;
    var v := Formed(wish, a);
    forall rest ensures ExecAll(env, Form(wish), On([a], rest)) == Some(On([v], rest)) {
      FormExec(env, wish, a, rest);
      OnFew(a, a, rest);
      OnFew(v, v, rest);
    }
    EffectPlain(env, Form(wish), [a], [v]);
  }

  lemma FormExec(env: Env, wish: Wish, a: Bytes, rest: Stack)
    requires |a| <= 4
    ensures ExecAll(env, Form(wish), Cons(a, rest)) == Some(Cons(Formed(wish, a), rest))
  {
    hide Truthy, EncodeNum;
    DecodeTruthy(a);
    OneGood();
    match wish
    case OnEmpty =>
      assert Form(wish) == [Small(0)] + [Equal(false)];
      ExecPrepend(env, Small(0), [Equal(false)], Cons(a, rest));
      ExecOne(env, Equal(false), Cons([], Cons(a, rest)));
    case Two =>
      assert Form(wish) == [Small(0)] + [Add];
      ExecPrepend(env, Small(0), [Add], Cons(a, rest));
      ExecOne(env, Add, Cons([], Cons(a, rest)));
    case _ =>
      ExecOne(env, ZeroNotEqual, Cons(a, rest));
  }

  lemma CheckRuns(env: Env, a: Bytes)
    ensures Effect(env, [Swap, Verify], [a, [1]], [a])
  {
    hide Effect, On;
    SwapEffect(env, a, [1]);
    forall rest ensures ExecMain(env, Verify, On([[1], a], rest)) == Some(On([a], rest)) {
      OnFew([1], a, rest);
      OnFew(a, a, rest);
    }
    EffectThenOp(env, [Swap], Verify, [a, [1]], [[1], a], [a]);
    assert [Swap] + [Verify] == [Swap, Verify];
  }

  lemma CoreRuns(env: Env, c: nat, wish: Wish, a: Bytes)
    requires c <= 2 && |a| <= 4
    ensures Effect(env, Core(c, wish), Inputs(c, a), [Result(c, wish, a)])
  {
    hide Effect, On, Form, Formed, EncodeNum, ExecMain, Constant;
    FormRuns(env, wish, a);
    if c == 0 {
      var n := Constant(wish);
      forall rest ensures ExecMain(env, Small(n), On([], rest)) == Some(On([EncodeNum(n)], rest)) {
        OnFew(EncodeNum(n), [], rest);
        SmallExec(env, n, rest);
      }
      EffectOp(env, Small(n), [], [EncodeNum(n)]);
    } else if c == 2 {
      CheckRuns(env, a);
      var none: seq<Bytes> := [];
      assert [a] + none == [a] && [a, [1]] + none == [a, [1]];
      EffectSeq(env, [Swap, Verify], Form(wish), [a, [1]], [a], none, [Formed(wish, a)]);
    }
  }

  lemma SmallExec(env: Env, n: nat, s: Stack)
    ensures ExecMain(env, Small(n), s) == Some(Cons(EncodeNum(n), s))
  {
  }

  // ---------------------------------------------------------------- the sample of a type

  /** A K that takes the signature alone passes n for any valid signature, whether or not the type says so. */
  predicate NonEmpty(t: Type) {
    t.n || (t.base == K && t.o)
  }

  function Count(t: Type, c: nat): nat {
    if t.z then 0 else if t.o then 1 else if t.base == K then 2 else c
  }

  function Input(wish: Wish): Bytes {
    match wish
    case Yes => [1]
    case Two => [2]
    case _ => []
  }

  function Wanted(wish: Wish): Bytes {
    match wish
    case No => []
    case Two => [2]
    case _ => [1]
  }

  lemma WantedResult(c: nat, wish: Wish)
    ensures Result(c, wish, Input(wish)) == Wanted(wish) && Good(Wanted(wish), wish != No)
    ensures c > 0 ==> Result(c, wish, if wish == OnEmpty then [1] else []) == []
  {
    OneGood();
    SmallNumbers(2);
  }

  function KeyCheck(t: Type, wish: Wish): Script {
    if t.o then [] else if wish == OnEmpty then [Small(0), Equal(true)] else [Verify]
  }

  /** c is how many inputs the script is to consume where the type leaves that open. */
  function Sample(env: Env, t: Type, c: nat, wish: Wish): Script {
    match t.base
    case B => Core(Count(t, c), wish)
    case V => Core(Count(t, c), wish) + [Verify]
    case W => WrapScript(WrapA, Core(Count(t, c), wish))
    case K => KeyCheck(t, wish) + [Push(env.key(0))]
  }

  function SampleWitness(sig: Bytes, t: Type, c: nat, wish: Wish): (w: seq<Bytes>)
    ensures c <= 2 ==> |w| == Count(t, c) || t.z
    ensures t.z && t.base != K ==> w == []
  {
    if t.base != K then Inputs(Count(t, c), Input(wish))
    else (if t.o then [] else [if wish == OnEmpty then [] else [1]]) + [if wish == No then [] else sig]
  }

  /** A signature that is valid for the key 0, and that key is a true element, as keys are. */
  predicate Signs(env: Env, sig: Bytes) {
    env.sigOk(sig, env.key(0)) && Truthy(env.key(0))
  }

  predicate Wishes(t: Type, c: nat, wish: Wish) {
    && Exclusive(t) && 1 <= c <= 2 && (wish == OnEmpty ==> !NonEmpty(t))
    && (wish == Two ==> !t.u && t.base != V) && (wish == No ==> t.base != V)
  }

  predicate KeyChecked(t: Type, wish: Wish, s: Stack, s': Stack) {
    if t.o then s' == s else s.Cons? && s' == s.rest && (wish != OnEmpty ==> s.top != [])
  }

  function KeyCheckRel(t: Type, wish: Wish): Relation {
    (s, s') => KeyChecked(t, wish, s, s')
  }

  lemma KeyCheckDoes(env: Env, t: Type, wish: Wish)
    ensures Does(env, KeyCheck(t, wish), KeyCheckRel(t, wish))
  {
    hide Does, Truthy;
    OneGood();
    if t.o {
      DoesPlain(env, []);
      DoesImplies(env, [], PlainRel(env, []), KeyCheckRel(t, wish));
    } else if wish == OnEmpty {
      DoesPair(env, 0, Equal(true), KeyCheckRel(t, wish));
    } else {
      DoesOp(env, Verify);
      DoesImplies(env, [Verify], OpRel(env, Verify), KeyCheckRel(t, wish));
    }
  }

  lemma KeyShape(env: Env, t: Type, wish: Wish, s: Stack, r: Stack)
    requires env.Valid() && t.base == K && Wishes(t, 1, wish) && KeyChecked(t, wish, s, r)
    ensures ShapeK(env, t, s, Cons(env.key(0), r))
  {
    assert IsKey(env, env.key(0));
    if !t.o {
      assert Suffix(s.rest, s);
    }
  }

  lemma SampleSoundK(env: Env, t: Type, c: nat, wish: Wish)
    requires env.Valid() && t.base == K && Wishes(t, c, wish)
    ensures Sound(env, t, Sample(env, t, c, wish))
  {
    hide Does, KeyCheck, KeyChecked, Wishes, ShapeK;
    var push := Push(env.key(0));
    KeyCheckDoes(env, t, wish);
    DoesOp(env, push);
    forall s, r, s' | KeyCheckRel(t, wish)(s, r) && OpRel(env, push)(r, s') ensures TypeRel(env, t)(s, s') {
      WishesAny(t, c, wish);
      KeyShape(env, t, wish, s, r);
    }
    DoesAppend(env, KeyCheck(t, wish), KeyCheckRel(t, wish), [push], OpRel(env, push), TypeRel(env, t));
  }

  lemma WishesAny(t: Type, c: nat, wish: Wish)
    requires Wishes(t, c, wish)
    ensures Wishes(t, 1, wish)
  {
  }

  lemma SampleSound(env: Env, t: Type, c: nat, wish: Wish)
    requires env.Valid() && Wishes(t, c, wish)
    ensures Sound(env, t, Sample(env, t, c, wish))
  {
    hide Sound, Core, WrapScript;
    var k := Count(t, c);
    match t.base
    case B => CoreSound(env, t, k, wish);
    case V =>
      var b := t.(base := B);
      CoreSound(env, b, k, wish);
      assert b.(base := V) == t;
    case W =>
      var b := t.(base := B);
      CoreSound(env, b, k, wish);
      WrapASound(env, b, Core(k, wish), t);
    case K => SampleSoundK(env, t, c, wish);
  }

  // ---------------------------------------------------------------- runs of the sample

  lemma KeyCheckRuns(env: Env, t: Type, wish: Wish)
    ensures Effect(env, KeyCheck(t, wish), if t.o then [] else [if wish == OnEmpty then [] else [1]], [])
  {
    hide Effect, On;
    OneGood();
    if t.o {
      EffectPlain(env, [], [], []);
    } else if wish == OnEmpty {
      var none: Bytes := [];
      forall rest ensures ExecAll(env, [Small(0), Equal(true)], On([none], rest)) == Some(On([], rest)) {
        OnFew(none, none, rest);
        assert [Small(0), Equal(true)] == [Small(0)] + [Equal(true)];
        ExecPrepend(env, Small(0), [Equal(true)], Cons(none, rest));
        ExecOne(env, Equal(true), Cons(none, Cons(none, rest)));
      }
      EffectPlain(env, [Small(0), Equal(true)], [none], []);
    } else {
      forall rest ensures ExecMain(env, Verify, On([[1]], rest)) == Some(On([], rest)) {
        OnFew([1], [1], rest);
      }
      EffectOp(env, Verify, [[1]], []);
    }
  }

  /** The key with a signature below it. */
  lemma KeyRuns(env: Env, t: Type, wish: Wish, sig: Bytes)
    requires t.base == K
    ensures Succeeds(env, K, Sample(env, t, 1, wish),
                     (if t.o then [] else [if wish == OnEmpty then [] else [1]]) + [sig], env.sigOk(sig, env.key(0)))
  {
    hide Effect, On, KeyCheck, Succeeds;
    var key := env.key(0);
    var w := if t.o then [] else [if wish == OnEmpty then [] else [1]];
    KeyCheckRuns(env, t, wish);
    forall rest ensures ExecMain(env, Push(key), On([sig], rest)) == Some(On([key, sig], rest)) {
      OnFew(sig, sig, rest);
      OnFew(key, sig, rest);
    }
    EffectOp(env, Push(key), [sig], [key, sig]);
    assert [] + [sig] == [sig];
    EffectSeq(env, KeyCheck(t, wish), [Push(key)], w, [], [sig], [key, sig]);
    SucceedsAs(env, K, KeyCheck(t, wish) + [Push(key)], w + [sig], env.sigOk(sig, key), [key, sig]);
  }

  lemma VerifyRuns(env: Env, x: Script, w: seq<Bytes>, v: Bytes)
    requires Effect(env, x, w, [v]) && Truthy(v)
    ensures Succeeds(env, V, x + [Verify], w, true)
  {
    hide Effect, On, Succeeds;
    forall rest ensures ExecMain(env, Verify, On([v], rest)) == Some(On([], rest)) {
      OnFew(v, v, rest);
    }
    EffectThenOp(env, x, Verify, w, [v], []);
    SucceedsV(env, x + [Verify], w);
  }

  /** The sample does what was wished for. */
  lemma SampleRuns(env: Env, sig: Bytes, t: Type, c: nat, wish: Wish)
    requires env.Valid() && Signs(env, sig) && Wishes(t, c, wish)
    ensures Succeeds(env, t.base, Sample(env, t, c, wish), SampleWitness(sig, t, c, wish), wish != No)
    ensures t.base == B ==> Effect(env, Sample(env, t, c, wish), SampleWitness(sig, t, c, wish), [Wanted(wish)])
  {
    hide Effect, Succeeds, Core, WrapScript, Result, Good, Inputs;
    var k := Count(t, c);
    if t.base == K {
      KeyRuns(env, t, wish, if wish == No then [] else sig);
    } else {
      var w := Inputs(k, Input(wish));
      WantedResult(k, wish);
      CoreRuns(env, k, wish, Input(wish));
      SucceedsB(env, Core(k, wish), w, wish != No, Wanted(wish));
      if t.base == V {
        GoodTruth(Wanted(wish), true);
        VerifyRuns(env, Core(k, wish), w, Wanted(wish));
      } else if t.base == W {
        WrapARuns(env, Core(k, wish), w, wish != No);
      }
    }
  }

  lemma SampleFails(env: Env, t: Type, c: nat, wish: Wish)
    requires env.Valid() && Wishes(t, c, wish) && t.base != V && !t.z
    ensures CanFail(env, t.base, Sample(env, t, c, wish))
  {
    hide Effect, Succeeds, Core, WrapScript, Result, Good, Inputs;
    var k := Count(t, c);
    if t.base == K {
      KeyRuns(env, t, wish, []);
    } else {
      var a: Bytes := if wish == OnEmpty then [1] else [];
      WantedResult(k, wish);
      CoreRuns(env, k, wish, a);
      OneGood();
      SucceedsB(env, Core(k, wish), Inputs(k, a), false, []);
      if t.base == W {
        WrapARuns(env, Core(k, wish), Inputs(k, a), false);
      }
    }
  }

  /** The sample keeps the promises of its type. */
  lemma SampleKeeps(env: Env, t: Type, c: nat, wish: Wish)
    requires env.Valid() && Wishes(t, c, wish)
    ensures Keeps(env, t, Sample(env, t, c, wish))
  {
    hide Sound, CanFail, Sample;
    SampleSound(env, t, c, wish);
    if t.d && !t.z {
      SampleFails(env, t, c, wish);
    }
  }
}
