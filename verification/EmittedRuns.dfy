/** What the script that src/handler/lib/policy.c emits does when it is run, for the policies where it is
    not the translation of BIP 379: those with a wrapper a: or with a thresh() of a single script. */
module EmittedRuns {
  import opened Wrappers
  import opened BitcoinScript
  import opened Miniscript
  import opened StackShape
  import opened TypeSoundness
  import opened Satisfaction
  import opened ScriptEffects
  import opened SatisfactionRuns
  import opened CanonicalRuns
  import PolicyEmitter

  // ---------------------------------------------------------------- every policy, every run

  lemma {:induction false} AltGrows(env: Env, s: Script, st: State)
    requires PolicyEmitter.Count(s, FromAltStack) == 0 && Run(env, s, st).Some?
    ensures Suffix(st.alt, Run(env, s, st).value.alt)
    decreases s
  {
    if s != [] {
      hide Live;
      assert s == [s[0]] + s[1..];
      PolicyEmitter.CountJoin([s[0]], s[1..], FromAltStack);
      PolicyEmitter.CountOne(s[0], FromAltStack);
      var next := Step(env, s[0], st).value;
      AltGrows(env, s[1..], next);
      assert next.alt == st.alt || (next.alt.Cons? && next.alt.rest == st.alt);
      SuffixTransitive(st.alt, next.alt, Run(env, s, st).value.alt);
    }
  }

  /** Whatever policy the script was emitted for, and from whatever state it runs: nothing ever comes
      back from the alternative stack. */
  lemma NothingComesBack(env: Env, n: Node, st: State)
    requires TypeOf(n).Some? && Run(env, PolicyEmitter.EmitNode(env, n, false), st).Some?
    ensures Suffix(st.alt, Run(env, PolicyEmitter.EmitNode(env, n, false), st).value.alt)
  {
    hide PolicyEmitter.EmitNode, PolicyEmitter.Device, PolicyEmitter.Count, TypeOf, Run;
    PolicyEmitter.EmissionExact(env, n);
    PolicyEmitter.Counts(env, n);
    AltGrows(env, PolicyEmitter.Device(env, n), st);
  }

  // ---------------------------------------------------------------- the wrapper a:

  /** The parts of an expression, on witnesses that suit them, and the operator after them. */
  lemma ParkedRun(env: Env, x: Script, y: Script, op: Op, wx: seq<Bytes>, wy: seq<Bytes>, vx: Bytes, vy: Bytes,
      rest: Stack, alt: Stack)
    requires Effect(env, x, wx, [vx]) && Effect(env, y, wy, [vy])
    ensures Run(env, x + ([ToAltStack] + y) + [op], State(On(wx + wy, rest), alt, Nil))
         == Step(env, op, State(Cons(vy, rest), Cons(vx, alt), Nil))
  {
    hide Effect, Reaches, On, Run;
    var st0, st1 := State(On(wx + wy, rest), alt, Nil), State(Cons(vx, On(wy, rest)), alt, Nil);
    var st2, st3 := State(On(wy, rest), Cons(vx, alt), Nil), State(Cons(vy, rest), Cons(vx, alt), Nil);
    OnJoin(wx, wy, rest);
    OnFew(vx, vx, On(wy, rest));
    OnFew(vy, vy, rest);
    EffectAt(env, x, wx, [vx], On(wy, rest));
    ReachAt(env, x, st0.stack, st1.stack, st0);
    EffectAt(env, y, wy, [vy], rest);
    ReachAt(env, y, st2.stack, st3.stack, st2);
    RunPrepend(env, ToAltStack, y, st1);
    RunAppend(env, x, [ToAltStack] + y, st0);
    RunAppend(env, x + ([ToAltStack] + y), [op], st0);
    RunOne(env, op, st3);
  }

  /** What a policy needs for its canonical ways to be those of its translation. */
  predicate Regular(n: Node) {
    PolicyEmitter.Standard(n) && SwapsOne(n) && Counted(n)
  }

  lemma RegularRuns(env: Env, g: Signer, n: Node, sat: bool, a: Way) returns (v: Bytes)
    requires env.Valid() && TypeOf(n).Some? && TypeOf(n).value.base == B && Regular(n)
    requires WaysOf(n).Of(sat)(a) && Supplied(env, g, a)
    ensures Good(v, sat) && Effect(env, PolicyEmitter.Device(env, n), Values(env, g, a.w), [v])
  {
    hide Compile, TypeOf, FixedType, Runs, Supplied, Values, Effect, Good, WaysOf, SwapsOne, Counted;
    hide PolicyEmitter.Standard, PolicyEmitter.Device;
    CorrectedIff(n);
    AllRun(env, g, n);
    RunsAt(env, g, B, Compile(env, n), WaysOf(n), sat, a);
    v := ResultB(env, Compile(env, n), Values(env, g, a.w), sat);
    PolicyEmitter.StandardSame(env, n);
  }

  function OpOf(op: BinOp): Op {
    if op == AndB then BoolAnd else BoolOr
  }

  lemma DeviceAlt(env: Env, op: BinOp, x: Node, y: Node)
    requires op == AndB || op == OrB
    ensures var n := Binary(op, x, Wrap(WrapA, y));
            PolicyEmitter.Device(env, n)
                == PolicyEmitter.Device(env, x) + ([ToAltStack] + PolicyEmitter.Device(env, y)) + [OpOf(op)]
  {
  }

  lemma AltParts(op: BinOp, x: Node, y: Node)
    requires (op == AndB || op == OrB) && TypeOf(Binary(op, x, Wrap(WrapA, y))).Some?
    ensures TypeOf(x).Some? && TypeOf(x).value.base == B && TypeOf(y).Some? && TypeOf(y).value.base == B
  {
  }

  /** and_b(X,a:Y) and or_b(X,a:Y), on ways for X and Y and whatever lies below them: the result of X
      stays on the alternative stack, and the operator takes the result of Y and the element below. */
  lemma EmittedAltRuns(env: Env, g: Signer, op: BinOp, x: Node, y: Node, sx: bool, b: Way, sy: bool, c: Way,
      rest: Stack, alt: Stack)
    returns (vx: Bytes, vy: Bytes)
    requires env.Valid() && (op == AndB || op == OrB) && TypeOf(Binary(op, x, Wrap(WrapA, y))).Some? && Regular(x)
             && Regular(y)
    requires WaysOf(x).Of(sx)(b) && Supplied(env, g, b) && WaysOf(y).Of(sy)(c) && Supplied(env, g, c)
    ensures Good(vx, sx) && Good(vy, sy)
    ensures Run(env, PolicyEmitter.EmitNode(env, Binary(op, x, Wrap(WrapA, y)), false),
                State(On(Values(env, g, b.w) + Values(env, g, c.w), rest), alt, Nil))
         == Step(env, OpOf(op), State(Cons(vy, rest), Cons(vx, alt), Nil))
  {
    hide TypeOf, Supplied, Values, Effect, Good, WaysOf, Regular, On, Run, Step;
    hide PolicyEmitter.Device, PolicyEmitter.EmitNode;
    AltParts(op, x, y);
    vx := RegularRuns(env, g, x, sx, b);
    vy := RegularRuns(env, g, y, sy, c);
    ParkedRun(env, PolicyEmitter.Device(env, x), PolicyEmitter.Device(env, y), OpOf(op), Values(env, g, b.w),
              Values(env, g, c.w), vx, vy, rest, alt);
    DeviceAlt(env, op, x, y);
    PolicyEmitter.EmissionExact(env, Binary(op, x, Wrap(WrapA, y)));
  }

  lemma AltWays(op: BinOp, x: Node, y: Node, sat: bool, a: Way) returns (sx: bool, b: Way, sy: bool, c: Way)
    requires (op == AndB || op == OrB) && WaysOf(Binary(op, x, Wrap(WrapA, y))).Of(sat)(a)
    ensures WaysOf(x).Of(sx)(b) && WaysOf(y).Of(sy)(c) && a == Join(b, c)
  {
    hide JoinOf;
    var px, py := WaysOf(x), WaysOf(y);
    assert WaysOf(Wrap(WrapA, y)) == py;
    if !sat {
      b, c := Parts(px.dsat, py.dsat, a);
      sx, sy := false, false;
    } else if op == AndB {
      b, c := Parts(px.sat, py.sat, a);
      sx, sy := true, true;
    } else if JoinOf(px.dsat, py.sat)(a) {
      b, c := Parts(px.dsat, py.sat, a);
      sx, sy := false, true;
    } else {
      b, c := Parts(px.sat, py.dsat, a);
      sx, sy := true, false;
    }
  }

  lemma RegularAlt(op: BinOp, x: Node, y: Node)
    requires Regular(x) && Regular(y)
    ensures var n := Binary(op, x, Wrap(WrapA, y)); SwapsOne(n) && Counted(n)
  {
  }

  /** On every canonical satisfaction and dissatisfaction of and_b(X,a:Y) and or_b(X,a:Y), on which the
      translation of BIP 379 leaves one element with the truth value that it should have, the emitted
      script aborts. */
  lemma EmittedAltAborts(env: Env, g: Signer, op: BinOp, x: Node, y: Node, sat: bool, a: Way) returns (v: Bytes)
    requires env.Valid() && (op == AndB || op == OrB) && TypeOf(Binary(op, x, Wrap(WrapA, y))).Some? && Regular(x)
             && Regular(y)
    requires WaysOf(Binary(op, x, Wrap(WrapA, y))).Of(sat)(a) && Supplied(env, g, a)
    ensures var n, st := Binary(op, x, Wrap(WrapA, y)), State(On(Values(env, g, a.w), Nil), Nil, Nil);
            && Run(env, PolicyEmitter.EmitNode(env, n, false), st) == None
            && Run(env, Compile(env, n), st) == Some(State(Cons(v, Nil), Nil, Nil))
               && (if sat then Truthy(v) else v == [])
  {
    hide Compile, Supplied, Values, Good, WaysOf, Regular, On, Run, Truthy, SwapsOne, Counted, PolicyEmitter.EmitNode;
    var sx, b, sy, c := AltWays(op, x, y, sat, a);
    SuppliedJoin(env, g, b, c);
    var vx, vy := EmittedAltRuns(env, g, op, x, y, sx, b, sy, c, Nil, Nil);
    RegularAlt(op, x, y);
    v := CanonicalWaysRun(env, g, Binary(op, x, Wrap(WrapA, y)), sat, a);
  }

  // ---------------------------------------------------------------- thresh() with a single script

  lemma DeviceLone(env: Env, k: nat, x: Node)
    ensures PolicyEmitter.Device(env, Thresh(k, [x]))
            == PolicyEmitter.Device(env, x) + ([Add] + [PushNum(k), Equal(false)])
  {
    var xs := PolicyEmitter.DeviceAll(env, [x]);
    assert xs == [PolicyEmitter.Device(env, x)];
  }

  lemma LoneParts(k: nat, x: Node)
    requires TypeOf(Thresh(k, [x])).Some?
    ensures TypeOf(x).Some? && TypeOf(x).value.base == B
  {
    assert TypesOf([x]).Some?;
  }

  lemma LoneRun(env: Env, x: Script, s: Script, w: seq<Bytes>, v: Bytes, rest: Stack, alt: Stack)
    requires Effect(env, x, w, [v])
    ensures Run(env, x + ([Add] + s), State(On(w, rest), alt, Nil))
            == Then(env, s, Step(env, Add, State(Cons(v, rest), alt, Nil)))
  {
    hide Effect, Reaches, On, Run, Step;
    var st0, st1 := State(On(w, rest), alt, Nil), State(Cons(v, rest), alt, Nil);
    OnFew(v, v, rest);
    EffectAt(env, x, w, [v], rest);
    ReachAt(env, x, st0.stack, st1.stack, st0);
    RunAppend(env, x, [Add] + s, st0);
    RunPrepend(env, Add, s, st1);
  }

  /** thresh(k,X), on a way for X and whatever lies below it: the element below is added to the result
      of X before the sum is compared with k. */
  lemma EmittedLoneRuns(env: Env, g: Signer, k: nat, x: Node, sx: bool, a: Way, rest: Stack, alt: Stack)
      returns (v: Bytes)
    requires env.Valid() && TypeOf(Thresh(k, [x])).Some? && Regular(x) && WaysOf(x).Of(sx)(a) && Supplied(env, g, a)
    ensures Good(v, sx)
    ensures Run(env, PolicyEmitter.EmitNode(env, Thresh(k, [x]), false), State(On(Values(env, g, a.w), rest), alt, Nil))
         == Then(env, [PushNum(k), Equal(false)], Step(env, Add, State(Cons(v, rest), alt, Nil)))
  {
    hide TypeOf, Supplied, Values, Effect, Good, WaysOf, Regular, On, Run, Step, Then;
    hide PolicyEmitter.Device, PolicyEmitter.EmitNode;
    LoneParts(k, x);
    v := RegularRuns(env, g, x, sx, a);
    LoneRun(env, PolicyEmitter.Device(env, x), [PushNum(k), Equal(false)], Values(env, g, a.w), v, rest, alt);
    DeviceLone(env, k, x);
    PolicyEmitter.EmissionExact(env, Thresh(k, [x]));
  }

  lemma LoneWays(k: nat, x: Node, sat: bool, a: Way) returns (sx: bool)
    requires WaysOf(Thresh(k, [x])).Of(sat)(a)
    ensures WaysOf(x).Of(sx)(a)
  {
    var j := if sat then k else 0;
    assert AllWaysOf([x]) == [WaysOf(x)];
    FirstWay(WaysOf(x), j, a);
    sx := j == 1;
  }

  /** On every canonical satisfaction and dissatisfaction of thresh(k,X) the emitted script aborts. */
  lemma EmittedLoneAborts(env: Env, g: Signer, k: nat, x: Node, sat: bool, a: Way) returns (v: Bytes)
    requires env.Valid() && TypeOf(Thresh(k, [x])).Some? && Regular(x)
    requires WaysOf(Thresh(k, [x])).Of(sat)(a) && Supplied(env, g, a)
    ensures var n, st := Thresh(k, [x]), State(On(Values(env, g, a.w), Nil), Nil, Nil);
            && Run(env, PolicyEmitter.EmitNode(env, n, false), st) == None
            && Run(env, Compile(env, n), st) == Some(State(Cons(v, Nil), Nil, Nil))
               && (if sat then Truthy(v) else v == [])
  {
    hide Compile, Supplied, Values, Good, WaysOf, On, Run, Truthy, PolicyEmitter.EmitNode;
    var sx := LoneWays(k, x, sat, a);
    var _ := EmittedLoneRuns(env, g, k, x, sx, a, Nil, Nil);
    v := CanonicalWaysRun(env, g, Thresh(k, [x]), sat, a);
  }

  // ---------------------------------------------------------------- two policies

  /** and_b(pk(0),a:pk(1)) and thresh(1,pk(0)) are accepted and not emitted as BIP 379 translates them. */
  lemma NotTranslated(env: Env)
    ensures var n := Binary(AndB, Atom(Pk(0)), Wrap(WrapA, Atom(Pk(1))));
            TypeOf(n).Some? && PolicyEmitter.EmitNode(env, n, false) != Compile(env, n)
    ensures var n := Thresh(1, [Atom(Pk(0))]);
            TypeOf(n).Some? && PolicyEmitter.EmitNode(env, n, false) != Compile(env, n)
  {
    var n, m := Binary(AndB, Atom(Pk(0)), Wrap(WrapA, Atom(Pk(1)))), Thresh(1, [Atom(Pk(0))]);
    assert TypesOf([Atom(Pk(0))]).Some?;
    PolicyEmitter.EmittedIsTranslationIff(env, n);
    PolicyEmitter.EmittedIsTranslationIff(env, m);
  }
}
