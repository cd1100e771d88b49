/** The o flag as the parser computes it. The parser marks an or_c with o when both parts carry o, where
    BIP 379 asks for z of the second part. This module says exactly which runs break the mark, what that
    does to expressions above, and which or_c keep it. */
module OneInput {
  import opened Wrappers
  import opened BitcoinScript
  import opened Miniscript
  import opened ScriptNumbers
  import opened ScriptRelations
  import opened StackShape
  import opened CombinatorSoundness
  import opened LeafSoundness
  import opened TypeSoundness
  import opened Satisfaction
  import opened ScriptEffects
  import opened SatisfactionRuns
  import opened CanonicalRuns
  import opened Dissatisfaction

  // ---------------------------------------------------------------- which runs fall through

  /** The run of n from st, as far as it decides how many inputs n consumes, gets past a failed first
      part of an or_c into its second part. */
  predicate Falls(env: Env, n: Node, st: State)
    requires TypeOf(n).Some?
    decreases n
  {
    match n
    case Atom(_) => false
    case Wrap(w, x) =>
      (match w
       case WrapC => Falls(env, x, st)
       case WrapT => Falls(env, x, st)
       case WrapV => Falls(env, x, st)
       case WrapN => Falls(env, x, st)
       case WrapJ => st.stack.Cons? && st.stack.top != [] && Falls(env, x, Within(st))
       case _ => false)
    case Binary(op, x, y) =>
      (match op
       case AndV => if TypeOf(x).value.o then Falls(env, x, st)
           else After(env, x, st).Some? && Falls(env, y, After(env, x, st).value)
       case AndN => Falls(env, x, st)
       case OrD => Falls(env, x, st)
       case OrC => Falls(env, x, st) || Fails(env, x, st)
       case _ => false)
    case AndOr(x, y, z) =>
      if TypeOf(x).value.o then Falls(env, x, st)
      else
        var r := After(env, x, st);
        && r.Some? && r.value.stack.Cons?
        && if Truthy(r.value.stack.top) then Falls(env, y, Enter(r.value)) else Falls(env, z, Enter(r.value))
    case Thresh(_, xs) => xs != [] && TypesOf(xs).Some? && Falls(env, xs[0], st)
  }

  function After(env: Env, n: Node, st: State): Option<State> {
    Run(env, Compile(env, n), st)
  }

  /** The guard of the second part of or_c: the first part has left a false result. */
  predicate Fails(env: Env, n: Node, st: State) {
    var r := After(env, n, st);
    r.Some? && r.value.stack.Cons? && !Truthy(r.value.stack.top)
  }

  /** The state inside one more branch that is taken. */
  function Within(st: State): State {
    st.(conds := Cons(true, st.conds))
  }

  // ---------------------------------------------------------------- how many inputs a marked run consumes

  /** At least one input is consumed, and exactly one unless the run falls through. The signature of a
      K is left for the enclosing c:, so that a K with o consumes nothing itself. */
  predicate Spent(base: Base, s: Stack, s': Stack, falls: bool) {
    match base
    case B => s.Cons? && s'.Cons? && Suffix(s'.rest, s.rest) && (s'.rest == s.rest <==> !falls)
    case V => s.Cons? && Suffix(s', s.rest) && (s' == s.rest <==> !falls)
    case K => s'.Cons? && s'.rest == s && !falls
    case W => false
  }

  function Length(s: Stack): nat {
    if s.Nil? then 0 else 1 + Length(s.rest)
  }

  lemma {:induction false} SuffixLength(a: Stack, b: Stack)
    requires Suffix(a, b)
    ensures Length(a) <= Length(b) && (a != b ==> Length(a) < Length(b))
    decreases b
  {
    if a != b {
      SuffixLength(a, b.rest);
    }
  }

  /** Who takes from a rest of s.rest one element more has more than one taken from s. */
  lemma TwoGone(a: Stack, b: Stack, c: Stack)
    requires Suffix(b, c) && b.Cons? && Suffix(a, b.rest)
    ensures Suffix(a, c) && a != c
  {
    assert Suffix(b.rest, b);
    SuffixTransitive(a, b.rest, b);
    SuffixTransitive(a, b, c);
    SuffixLength(a, b.rest);
    SuffixLength(b, c);
  }

  /** The corrected flags of a part, and what a run of it does. */
  lemma RunOf(env: Env, n: Node, st: State, st': State)
    requires env.Valid() && TypeOf(n).Some? && FixedType(n).Some? && Live(st) && After(env, n, st) == Some(st')
    ensures SameButO(TypeOf(n).value, FixedType(n).value)
    ensures st'.alt == st.alt && st'.conds == st.conds && Shape(env, FixedType(n).value, st.stack, st'.stack)
  {
    hide Compile, TypeOf, FixedType, Sound, Run;
    CorrectedIff(n);
    FragmentSound(env, n, FixedType(n).value);
    SoundAt(env, FixedType(n).value, Compile(env, n), st, st');
  }

  /** Where the corrected flags have o as well, one input is consumed. */
  lemma Exactly(env: Env, n: Node, st: State, st': State)
    requires env.Valid() && TypeOf(n).Some? && FixedType(n).Some? && Live(st) && After(env, n, st) == Some(st')
    requires FixedType(n).value.o && TypeOf(n).value.base != W
    ensures Spent(TypeOf(n).value.base, st.stack, st'.stack, false)
  {
    hide Compile, TypeOf, FixedType;
    RunOf(env, n, st, st');
  }

  lemma KeyBinary(op: BinOp, x: Type, y: Type, x': Type, y': Type)
    requires Exclusive(x) && Exclusive(y) && SameButO(x, x') && SameButO(y, y')
    requires BinaryType(op, x, y).Some? && BinaryType(op, x, y).value.base == K && BinaryType(op, x, y).value.o
    ensures op == AndV && !x.o && y.base == K && y.o
    ensures FixedBinaryType(op, x', y').Some? && (y'.o ==> FixedBinaryType(op, x', y').value.o)
  {
  }

  lemma KeyAndOr(x: Type, y: Type, z: Type, x': Type, y': Type, z': Type)
    requires Exclusive(x) && Exclusive(y) && SameButO(x, x') && SameButO(y, y') && SameButO(z, z')
    requires AndOrType(x, y, z).Some? && AndOrType(x, y, z).value.base == K && AndOrType(x, y, z).value.o
    ensures !x.o && y.base == K && y.o && z.base == K && z.o
    ensures AndOrType(x', y', z').Some? && (y'.o && z'.o ==> AndOrType(x', y', z').value.o)
  {
  }

  lemma KeyOnly(n: Node)
    requires TypeOf(n).Some? && TypeOf(n).value.base == K
    ensures n.Atom? || n.Binary? || n.AndOr?
  {
    hide LeafType, BinaryType, AndOrType;
  }

  /** The mark of a K is right, and no run of it falls through. */
  lemma {:induction false} KeyMark(env: Env, n: Node, st: State)
    requires TypeOf(n).Some? && FixedType(n).Some? && TypeOf(n).value.base == K && TypeOf(n).value.o
    ensures FixedType(n).value.o && !Falls(env, n, st)
    decreases n
  {
    hide Compile, Run, BinaryType, FixedBinaryType, AndOrType, WrapType, ThreshType;
    KeyOnly(n);
    match n
    case Atom(_) =>
    case Binary(op, x, y) =>
      FlagsExclusive(x);
      FlagsExclusive(y);
      CorrectedIff(x);
      CorrectedIff(y);
      KeyBinary(op, TypeOf(x).value, TypeOf(y).value, FixedType(x).value, FixedType(y).value);
      KeyMark(env, y, if After(env, x, st).Some? then After(env, x, st).value else st);
    case AndOr(x, y, z) =>
      FlagsExclusive(x);
      FlagsExclusive(y);
      CorrectedIff(x);
      CorrectedIff(y);
      CorrectedIff(z);
      KeyAndOr(TypeOf(x).value, TypeOf(y).value, TypeOf(z).value, FixedType(x).value, FixedType(y).value,
               FixedType(z).value);
      var r := After(env, x, st);
      var q := if r.Some? && r.value.stack.Cons? then Enter(r.value) else st;
      KeyMark(env, y, q);
      KeyMark(env, z, q);
  }

  // ---------------------------------------------------------------- a marked first part and what follows it

  /** The result of a B is replaced by a result, or used up. */
  function FollowRel(base: Base): Relation {
    (r: Stack, s': Stack) => r.Cons? && if base == B then s'.Cons? && s'.rest == r.rest else s' == r.rest
  }

  lemma TailRun(env: Env, tx: Type, x: Script, q: Script, rq: Relation, st: State, st': State) returns (r: State)
    requires Sound(env, tx, x) && Does(env, q, rq) && Live(st) && Run(env, x + q, st) == Some(st')
    ensures Run(env, x, st) == Some(r) && Live(r) && rq(r.stack, st'.stack)
  {
    RunAppend(env, x, q, st);
    r := Run(env, x, st).value;
    SoundAt(env, tx, x, st, r);
  }

  /** Two branches that consume nothing. */
  lemma BranchesFollow(env: Env, ta: Type, a: Script, tb: Type, b: Script)
    requires Sound(env, ta, a) && Sound(env, tb, b) && ta.z && tb.z && ta.base == tb.base
             && (ta.base == B || ta.base == V)
    ensures Does(env, IfElse(true, a, b), FollowRel(ta.base))
  {
    hide Sound;
    var rel := IfElseRel(true, TypeRel(env, ta), TypeRel(env, tb));
    SoundDoes(env, ta, a);
    SoundDoes(env, tb, b);
    DoesIfElse(env, true, a, TypeRel(env, ta), b, TypeRel(env, tb));
    DoesImplies(env, IfElse(true, a, b), rel, FollowRel(ta.base));
  }

  lemma SoundDoes(env: Env, t: Type, s: Script)
    requires Sound(env, t, s)
    ensures Does(env, s, TypeRel(env, t))
  {
  }

  /** What or_d adds to its first part, when its second part consumes nothing. */
  lemma OrDFollows(env: Env, tz: Type, z: Script)
    requires Sound(env, tz, z) && tz.z && tz.base == B
    ensures Does(env, [IfDup] + IfThen(true, z), FollowRel(B))
  {
    hide Sound;
    SoundDoes(env, tz, z);
    var rz := IfThenRel(true, TypeRel(env, tz));
    DoesIfThen(env, true, z, TypeRel(env, tz));
    DoesOp(env, IfDup);
    forall r, q, s' | OpRel(env, IfDup)(r, q) && rz(q, s') ensures FollowRel(B)(r, s') {
    }
    DoesAppend(env, [IfDup], OpRel(env, IfDup), IfThen(true, z), rz, FollowRel(B));
  }

  /** The comparison at the end of thresh. */
  lemma ThresholdFollows(env: Env, k: nat)
    ensures Does(env, [PushNum(k), Equal(false)], FollowRel(B))
  {
    DoesPushNum(env, k);
    DoesOp(env, Equal(false));
    DoesAppend(env, [PushNum(k)], PushedRel(), [Equal(false)], OpRel(env, Equal(false)), FollowRel(B));
    assert [PushNum(k)] + [Equal(false)] == [PushNum(k), Equal(false)];
  }

  lemma OpFollows(env: Env, op: Op)
    requires op == ZeroNotEqual || op == Verify
    ensures Does(env, [op], FollowRel(if op == Verify then V else B))
  {
    DoesOp(env, op);
    forall r, s' | OpRel(env, op)(r, s') ensures FollowRel(if op == Verify then V else B)(r, s') {
    }
    DoesImplies(env, [op], OpRel(env, op), FollowRel(if op == Verify then V else B));
  }

  // ---------------------------------------------------------------- the theorem about the mark

  ghost predicate Marked(env: Env, n: Node, st: State, st': State) {
    && env.Valid() && TypeOf(n).Some? && FixedType(n).Some? && TypeOf(n).value.o
    && Live(st) && After(env, n, st) == Some(st')
  }

  /** A marked B followed by something that only touches its result. */
  lemma {:induction false} MarkedFirst(env: Env, x: Node, q: Script, base: Base, st: State, st': State)
    requires env.Valid() && TypeOf(x).Some? && FixedType(x).Some? && TypeOf(x).value.o && TypeOf(x).value.base == B
             && Live(st)
    requires (base == B || base == V) && Does(env, q, FollowRel(base)) && Run(env, Compile(env, x) + q, st) == Some(st')
    ensures Spent(base, st.stack, st'.stack, Falls(env, x, st))
    decreases x, 3
  {
    hide Compile, TypeOf, FixedType, Sound, Run, Does, Falls;
    FragmentSound(env, x, FixedType(x).value);
    var r := TailRun(env, FixedType(x).value, Compile(env, x), q, FollowRel(base), st, st');
    MarkedRun(env, x, st, r);
  }

  lemma {:induction false} MarkedAndV(env: Env, x: Node, y: Node, st: State, st': State)
    requires Marked(env, Binary(AndV, x, y), st, st')
    ensures Spent(TypeOf(y).value.base, st.stack, st'.stack, Falls(env, Binary(AndV, x, y), st))
    decreases Binary(AndV, x, y), 0
  {
    hide Run;
    FlagsExclusive(x);
    FlagsExclusive(y);
    RunAppend(env, Compile(env, x), Compile(env, y), st);
    var r := After(env, x, st).value;
    RunOf(env, x, st, r);
    if TypeOf(x).value.o {
      MarkedRun(env, x, st, r);
      RunOf(env, y, r, st');
    } else {
      MarkedRun(env, y, r, st');
    }
  }

  lemma {:induction false} MarkedOrC(env: Env, x: Node, z: Node, st: State, st': State)
    requires Marked(env, Binary(OrC, x, z), st, st')
    ensures Spent(V, st.stack, st'.stack, Falls(env, Binary(OrC, x, z), st))
    decreases Binary(OrC, x, z), 0
  {
    hide Run;
    FragmentSound(env, x, FixedType(x).value);
    FragmentSound(env, z, FixedType(z).value);
    OrCRun(env, Compile(env, x), TypeRel(env, FixedType(x).value), Compile(env, z), TypeRel(env, FixedType(z).value),
           st);
    var r := After(env, x, st).value;
    MarkedRun(env, x, st, r);
    if !Truthy(r.stack.top) {
      RunOf(env, x, st, r);
      assert Live(Enter(r));
      var q := After(env, z, Enter(r)).value;
      MarkedRun(env, z, Enter(r), q);
      TwoGone(st'.stack, r.stack.rest, st.stack.rest);
    }
  }

  lemma OrCRun(env: Env, x: Script, rx: Relation, z: Script, rz: Relation, st: State)
    requires Does(env, x, rx) && Does(env, z, rz) && Live(st)
    ensures Run(env, x + [If(true)] + z + [EndIf], st) ==
            var r := Run(env, x, st);
            if r.None? || r.value.stack.Nil? then None
            else if Truthy(r.value.stack.top) then Some(r.value.(stack := r.value.stack.rest))
            else Leave(Run(env, z, Enter(r.value)), st.conds)
  {
    assert x + [If(true)] + z + [EndIf] == x + IfThen(true, z);
    RunAppend(env, x, IfThen(true, z), st);
    var r := Run(env, x, st);
    if r.Some? {
      TakeIfThen(env, true, z, rz, r.value);
    }
  }

  lemma AndOrRun(env: Env, x: Script, rx: Relation, y: Script, ry: Relation, z: Script, rz: Relation, st: State)
    requires Does(env, x, rx) && Does(env, y, ry) && Does(env, z, rz) && Live(st)
    ensures Run(env, x + [If(true)] + z + [Else] + y + [EndIf], st) ==
            var r := Run(env, x, st);
            if r.None? || r.value.stack.Nil? then None
            else Leave(Run(env, if Truthy(r.value.stack.top) then y else z, Enter(r.value)), st.conds)
  {
    assert x + [If(true)] + z + [Else] + y + [EndIf] == x + IfElse(true, z, y);
    RunAppend(env, x, IfElse(true, z, y), st);
    var r := Run(env, x, st);
    if r.Some? {
      TakeIfElse(env, true, z, rz, y, ry, r.value);
    }
  }

  lemma AndOrParts(x: Node, y: Node, z: Node)
    requires TypeOf(AndOr(x, y, z)).Some? && FixedType(AndOr(x, y, z)).Some? && TypeOf(AndOr(x, y, z)).value.o
    ensures TypeOf(x).Some? && TypeOf(y).Some? && TypeOf(z).Some? && FixedType(x).Some? && FixedType(y).Some?
            && FixedType(z).Some?
    ensures TypeOf(x).value.base == B && TypeOf(y).value.base == TypeOf(z).value.base
            == TypeOf(AndOr(x, y, z)).value.base
    ensures SameButO(TypeOf(y).value, FixedType(y).value) && SameButO(TypeOf(z).value, FixedType(z).value)
    ensures if TypeOf(x).value.o then TypeOf(y).value.z && TypeOf(z).value.z && TypeOf(y).value.base in {B, V}
            else TypeOf(x).value.z && TypeOf(y).value.o && TypeOf(z).value.o
  {
    FlagsExclusive(x);
    FlagsExclusive(y);
    CorrectedIff(y);
    CorrectedIff(z);
  }

  lemma AndOrCompiled(env: Env, x: Node, y: Node, z: Node)
    ensures Compile(env, AndOr(x, y, z))
            == Compile(env, x) + [If(true)] + Compile(env, z) + [Else] + Compile(env, y) + [EndIf]
    ensures Compile(env, AndOr(x, y, z)) == Compile(env, x) + IfElse(true, Compile(env, z), Compile(env, y))
  {
  }

  lemma {:induction false} MarkedAndOr(env: Env, x: Node, y: Node, z: Node, st: State, st': State)
    requires Marked(env, AndOr(x, y, z), st, st')
    ensures Spent(TypeOf(AndOr(x, y, z)).value.base, st.stack, st'.stack, Falls(env, AndOr(x, y, z), st))
    decreases AndOr(x, y, z), 1
  {
    hide Run, TypeOf, FixedType, Compile, Sound, Does, IfElse;
    AndOrParts(x, y, z);
    AndOrCompiled(env, x, y, z);
    var c, d, e := Compile(env, x), Compile(env, y), Compile(env, z);
    FragmentSound(env, y, FixedType(y).value);
    FragmentSound(env, z, FixedType(z).value);
    if TypeOf(x).value.o {
      BranchesFollow(env, FixedType(z).value, e, FixedType(y).value, d);
      MarkedFirst(env, x, IfElse(true, e, d), TypeOf(y).value.base, st, st');
    } else {
      FragmentSound(env, x, FixedType(x).value);
      SoundDoes(env, FixedType(x).value, c);
      SoundDoes(env, FixedType(y).value, d);
      SoundDoes(env, FixedType(z).value, e);
      AndOrRun(env, c, TypeRel(env, FixedType(x).value), d, TypeRel(env, FixedType(y).value), e,
               TypeRel(env, FixedType(z).value), st);
      var r := After(env, x, st).value;
      RunOf(env, x, st, r);
      assert Live(Enter(r));
      var branch := if Truthy(r.stack.top) then y else z;
      MarkedRun(env, branch, Enter(r), After(env, branch, Enter(r)).value);
    }
  }

  lemma {:induction false} MarkedJ(env: Env, x: Node, st: State, st': State)
    requires Marked(env, Wrap(WrapJ, x), st, st')
    ensures Spent(B, st.stack, st'.stack, Falls(env, Wrap(WrapJ, x), st))
    decreases Wrap(WrapJ, x), 0
  {
    hide Run;
    var c := Compile(env, x);
    FragmentSound(env, x, FixedType(x).value);
    JRun(env, c, TypeRel(env, FixedType(x).value), st);
    if st.stack.top != [] {
      assert Live(Within(st));
      MarkedRun(env, x, Within(st), After(env, x, Within(st)).value);
    }
  }

  lemma JRun(env: Env, x: Script, rx: Relation, st: State)
    requires Does(env, x, rx) && Live(st) && Run(env, WrapScript(WrapJ, x), st).Some?
    ensures st.stack.Cons?
    ensures Run(env, WrapScript(WrapJ, x), st) == if st.stack.top != [] then Leave(Run(env, x, Within(st)), st.conds)
            else Some(st)
  {
    hide Run, Does;
    var test := [Size] + [ZeroNotEqual];
    assert WrapScript(WrapJ, x) == test + IfThen(false, x);
    RunAppend(env, test, IfThen(false, x), st);
    DoesSizeTest(env);
    var m := Run(env, test, st).value;
    DoesAt(env, test, SizeTestRel(), st, m);
    TruthyBool(st.stack.top != []);
    TakeIfThen(env, false, x, rx, m);
    assert Enter(m) == Within(st);
  }

  lemma DoesAt(env: Env, s: Script, rel: Relation, st: State, st': State)
    requires Does(env, s, rel) && Live(st) && Run(env, s, st) == Some(st')
    ensures st'.alt == st.alt && st'.conds == st.conds && rel(st.stack, st'.stack)
  {
  }

  lemma {:induction false} MarkedT(env: Env, x: Node, st: State, st': State)
    requires Marked(env, Wrap(WrapT, x), st, st')
    ensures Spent(B, st.stack, st'.stack, Falls(env, Wrap(WrapT, x), st))
    decreases Wrap(WrapT, x), 0
  {
    hide Run;
    FragmentSound(env, x, FixedType(x).value);
    DoesPushNum(env, 1);
    var r := TailRun(env, FixedType(x).value, Compile(env, x), [Small(1)], PushedRel(), st, st');
    MarkedRun(env, x, st, r);
  }

  lemma {:induction false} MarkedWrap(env: Env, w: Wrapper, x: Node, st: State, st': State)
    requires Marked(env, Wrap(w, x), st, st')
    ensures Spent(TypeOf(Wrap(w, x)).value.base, st.stack, st'.stack, Falls(env, Wrap(w, x), st))
    decreases Wrap(w, x), 1
  {
    hide Run;
    var n := Wrap(w, x);
    CorrectedIff(x);
    match w
    case WrapC =>
      KeyMark(env, x, st);
      Exactly(env, n, st, st');
    case WrapT => MarkedT(env, x, st, st');
    case WrapV =>
      OpFollows(env, Verify);
      AddVerifyRun(env, Compile(env, x), st);
      MarkedFirst(env, x, [Verify], V, st, st');
    case WrapN =>
      OpFollows(env, ZeroNotEqual);
      MarkedFirst(env, x, [ZeroNotEqual], B, st, st');
    case WrapJ => MarkedJ(env, x, st, st');
    case WrapD => Exactly(env, n, st, st');
    case WrapL => Exactly(env, n, st, st');
    case WrapU => Exactly(env, n, st, st');
  }

  lemma FirstMarked(op: BinOp, x: Node, y: Node)
    requires op == AndN || op == OrD
    requires TypeOf(Binary(op, x, y)).Some? && FixedType(Binary(op, x, y)).Some? && TypeOf(Binary(op, x, y)).value.o
    ensures TypeOf(x).Some? && FixedType(x).Some? && TypeOf(x).value.o && TypeOf(x).value.base == B
    ensures FixedType(y).Some? && FixedType(y).value.z && FixedType(y).value.base == B
  {
    CorrectedIff(y);
  }

  lemma FirstCompiled(env: Env, x: Node, y: Node)
    ensures Compile(env, Binary(AndN, x, y)) == Compile(env, x) + IfElse(true, [Small(0)], Compile(env, y))
    ensures Compile(env, Binary(OrD, x, y)) == Compile(env, x) + ([IfDup] + IfThen(true, Compile(env, y)))
  {
    FirstScripts(Compile(env, x), Compile(env, y));
    hide IfElse, IfThen, BinaryScript;
  }

  lemma FirstScripts(x: Script, y: Script)
    ensures BinaryScript(AndN, x, y) == x + IfElse(true, [Small(0)], y)
    ensures BinaryScript(OrD, x, y) == x + ([IfDup] + IfThen(true, y))
  {
    assert [If(true)] + [Small(0)] + [Else] == [If(true), Small(0), Else] && [IfDup] + [If(true)] == [IfDup, If(true)];
    assert BinaryScript(AndN, x, y) == x + ([If(true), Small(0), Else] + y + [EndIf]);
    assert BinaryScript(OrD, x, y) == x + ([IfDup] + ([If(true)] + y + [EndIf]));
  }

  lemma {:induction false} MarkedAndN(env: Env, x: Node, y: Node, st: State, st': State)
    requires Marked(env, Binary(AndN, x, y), st, st')
    ensures Spent(B, st.stack, st'.stack, Falls(env, Binary(AndN, x, y), st))
    decreases Binary(AndN, x, y), 0
  {
    hide Run, Sound, Does, TypeOf, FixedType, Compile, IfElse;
    FirstMarked(AndN, x, y);
    FirstCompiled(env, x, y);
    PushZeroSound(env);
    FragmentSound(env, y, FixedType(y).value);
    BranchesFollow(env, LeafType(Zero).value, [Small(0)], FixedType(y).value, Compile(env, y));
    MarkedFirst(env, x, IfElse(true, [Small(0)], Compile(env, y)), B, st, st');
  }

  lemma {:induction false} MarkedOrD(env: Env, x: Node, z: Node, st: State, st': State)
    requires Marked(env, Binary(OrD, x, z), st, st')
    ensures Spent(B, st.stack, st'.stack, Falls(env, Binary(OrD, x, z), st))
    decreases Binary(OrD, x, z), 0
  {
    hide Run, Sound, Does, TypeOf, FixedType, Compile, IfThen;
    FirstMarked(OrD, x, z);
    FirstCompiled(env, x, z);
    FragmentSound(env, z, FixedType(z).value);
    OrDFollows(env, FixedType(z).value, Compile(env, z));
    MarkedFirst(env, x, [IfDup] + IfThen(true, Compile(env, z)), B, st, st');
  }

  /** Which two-part expressions can be marked, and the type of the whole. */
  lemma MarkedOps(op: BinOp, x: Node, y: Node)
    requires TypeOf(Binary(op, x, y)).Some? && FixedType(Binary(op, x, y)).Some? && TypeOf(Binary(op, x, y)).value.o
    ensures op != AndB && op != OrB && TypeOf(y).Some?
    ensures TypeOf(Binary(op, x, y)).value.base == TypeOf(y).value.base != W
    ensures op == AndN || op == OrD ==> TypeOf(y).value.base == B
    ensures op == OrC ==> TypeOf(y).value.base == V
    ensures op == OrI ==> FixedType(Binary(op, x, y)).value.o
  {
    FlagsExclusive(y);
    CorrectedIff(x);
    CorrectedIff(y);
  }

  lemma {:induction false} MarkedBinary(env: Env, op: BinOp, x: Node, y: Node, st: State, st': State)
    requires Marked(env, Binary(op, x, y), st, st')
    ensures Spent(TypeOf(Binary(op, x, y)).value.base, st.stack, st'.stack, Falls(env, Binary(op, x, y), st))
    decreases Binary(op, x, y), 1
  {
    MarkedOps(op, x, y);
    hide Run, TypeOf, FixedType, Compile;
    match op
    case AndV => MarkedAndV(env, x, y, st, st');
    case AndN => MarkedAndN(env, x, y, st, st');
    case OrC => MarkedOrC(env, x, y, st, st');
    case OrD => MarkedOrD(env, x, y, st, st');
    case OrI => Exactly(env, Binary(op, x, y), st, st');
  }

  lemma {:induction false} MarkedThresh(env: Env, k: nat, xs: seq<Node>, st: State, st': State)
    requires Marked(env, Thresh(k, xs), st, st')
    ensures Spent(B, st.stack, st'.stack, Falls(env, Thresh(k, xs), st))
    decreases Thresh(k, xs), 0
  {
    hide Run;
    var ts := TypesOf(xs).value;
    forall i | 0 <= i < |ts| ensures Exclusive(ts[i]) {
      FlagsExclusive(xs[i]);
    }
    if |ts| >= 2 {
      ThreshFlags(k, ts, TypeOf(Thresh(k, xs)).value);
    } else {
      assert ThreshChildOk(true, ts[0]) && ts[1..] == [];
      assert CountO(ts[1..]) == 0 && CountZ(ts[1..]) == 0;
      assert FixedType(xs[0]).Some?;
      SumOne(Compile(env, xs[0]));
      assert CompileAll(env, xs) == [Compile(env, xs[0])];
      assert Compile(env, Thresh(k, xs)) == Compile(env, xs[0]) + [PushNum(k), Equal(false)];
      ThresholdFollows(env, k);
      MarkedFirst(env, xs[0], [PushNum(k), Equal(false)], B, st, st');
    }
  }

  /** What the parser's mark means. A run of an expression with the flag o consumes at least one input,
      and it consumes exactly one if and only if it does not get past the failed first part of an or_c. */
  lemma {:induction false} MarkedRun(env: Env, n: Node, st: State, st': State)
    requires Marked(env, n, st, st')
    ensures Spent(TypeOf(n).value.base, st.stack, st'.stack, Falls(env, n, st))
    decreases n, 2
  {
    match n
    case Atom(_) => Exactly(env, n, st, st');
    case Wrap(w, x) => MarkedWrap(env, w, x, st, st');
    case Binary(op, x, y) => MarkedBinary(env, op, x, y, st, st');
    case AndOr(x, y, z) => MarkedAndOr(env, x, y, z, st, st');
    case Thresh(k, xs) => MarkedThresh(env, k, xs, st, st');
  }

  // ---------------------------------------------------------------- when the mark holds of all runs

  /** A complete run of n falls through. */
  ghost predicate SomeRunFalls(env: Env, n: Node)
    requires TypeOf(n).Some?
  {
    exists st :: Live(st) && After(env, n, st).Some? && Falls(env, n, st)
  }

  lemma MarkAt(env: Env, n: Node, st: State, st': State)
    requires Marked(env, n, st, st')
    ensures st'.alt == st.alt && st'.conds == st.conds
    ensures Shape(env, TypeOf(n).value, st.stack, st'.stack) <==> !Falls(env, n, st)
  {
    hide Compile, Run, TypeOf, FixedType, Falls;
    RunOf(env, n, st, st');
    MarkedRun(env, n, st, st');
  }

  /** The flags that the parser gives a marked expression hold of all its runs if and only if none of
      them falls through. */
  lemma MarkHoldsIff(env: Env, n: Node)
    requires env.Valid() && TypeOf(n).Some? && FixedType(n).Some? && TypeOf(n).value.o
    ensures Sound(env, TypeOf(n).value, Compile(env, n)) <==> !SomeRunFalls(env, n)
  {
    hide Compile, Run, TypeOf, FixedType, Falls, Shape;
    var t, s := TypeOf(n).value, Compile(env, n);
    FragmentSound(env, n, FixedType(n).value);
    forall st | Live(st) && After(env, n, st).Some?
      ensures var st' := After(env, n, st).value;
              st'.alt == st.alt && st'.conds == st.conds
                  && (TypeRel(env, t)(st.stack, st'.stack) <==> !Falls(env, n, st))
    {
      MarkAt(env, n, st, After(env, n, st).value);
    }
  }

  /** Where the corrected flags have o as well, no complete run falls through. */
  lemma FixedMarkHolds(env: Env, n: Node, st: State)
    requires env.Valid() && TypeOf(n).Some? && FixedType(n).Some? && TypeOf(n).value.o && FixedType(n).value.o
    requires Live(st) && After(env, n, st).Some?
    ensures !Falls(env, n, st)
  {
    hide Compile, Run, TypeOf, FixedType, Falls;
    MarkedRun(env, n, st, After(env, n, st).value);
    RunOf(env, n, st, After(env, n, st).value);
  }

  // ---------------------------------------------------------------- or_c

  /** A run of or_c(X,Z), where X and Z consume one input each, consumes exactly one input if and only
      if X has left a true result. */
  lemma OrCRunIff(env: Env, x: Node, z: Node, st: State, st': State)
    requires env.Valid() && TypeOf(Binary(OrC, x, z)).Some? && FixedType(x).Some? && FixedType(z).Some?
    requires TypeOf(x).value.o && FixedType(x).value.o && TypeOf(z).value.o
    requires Live(st) && After(env, Binary(OrC, x, z), st) == Some(st')
    ensures st.stack.Cons? && After(env, x, st).Some? && After(env, x, st).value.stack.Cons?
    ensures st'.stack == st.stack.rest <==> Truthy(After(env, x, st).value.stack.top)
  {
    var n := Binary(OrC, x, z);
    OrCMarked(x, z);
    FallsAtOrC(env, x, z);
    hide Run, TypeOf, FixedType, Compile, Falls, Truthy;
    OrCFixed(x, z);
    OrCCompleted(env, x, z, st);
    MarkedOrC(env, x, z, st, st');
    FixedMarkHolds(env, x, st);
  }

  lemma OrCMarked(x: Node, z: Node)
    requires TypeOf(Binary(OrC, x, z)).Some? && TypeOf(x).value.o && TypeOf(z).value.o
    ensures TypeOf(Binary(OrC, x, z)).value.o
  {
  }

  lemma OrCCompleted(env: Env, x: Node, z: Node, st: State)
    requires env.Valid() && TypeOf(Binary(OrC, x, z)).Some? && FixedType(x).Some? && FixedType(z).Some? && Live(st)
    ensures var r := After(env, x, st);
            After(env, Binary(OrC, x, z), st) ==
            if r.None? || r.value.stack.Nil? then None
            else if Truthy(r.value.stack.top) then Some(r.value.(stack := r.value.stack.rest))
            else Leave(After(env, z, Enter(r.value)), st.conds)
  {
    hide Run, Truthy;
    FragmentSound(env, x, FixedType(x).value);
    FragmentSound(env, z, FixedType(z).value);
    OrCRun(env, Compile(env, x), TypeRel(env, FixedType(x).value), Compile(env, z), TypeRel(env, FixedType(z).value),
           st);
  }

  /** One more condition at the bottom. */
  function Snoc(conds: List<bool>): List<bool> {
    if conds.Nil? then Cons(true, Nil) else Cons(conds.top, Snoc(conds.rest))
  }

  lemma {:induction false} SnocTrue(conds: List<bool>)
    ensures AllTrue(Snoc(conds)) == AllTrue(conds) && (AllTrue(conds) ==> Snoc(conds) == Cons(true, conds))
    decreases conds
  {
    if conds.Cons? {
      SnocTrue(conds.rest);
    }
  }

  lemma StepDeeper(env: Env, op: Op, st: State)
    requires Step(env, op, st).Some?
    ensures Step(env, op, st.(conds := Snoc(st.conds)))
            == Some(Step(env, op, st).value.(conds := Snoc(Step(env, op, st).value.conds)))
  {
    hide ExecMain, Truthy;
    SnocTrue(st.conds);
  }

  /** A complete run stays the same inside further branches that are taken. */
  lemma {:induction false} RunDeeper(env: Env, s: Script, st: State)
    requires Run(env, s, st).Some?
    ensures Run(env, s, st.(conds := Snoc(st.conds)))
            == Some(Run(env, s, st).value.(conds := Snoc(Run(env, s, st).value.conds)))
    decreases s
  {
    hide Step;
    if s != [] {
      StepDeeper(env, s[0], st);
      RunDeeper(env, s[1..], Step(env, s[0], st).value);
    }
  }

  ghost predicate Completes(env: Env, n: Node) {
    exists st :: Live(st) && After(env, n, st).Some?
  }

  /** A dissatisfaction of x on top of the stack on which z completes falls through. */
  lemma FallingRun(env: Env, decoy: Decoy, x: Node, z: Node, st: State) returns (st0: State)
    requires env.Valid() && Misses(env, decoy) && TypeOf(Binary(OrC, x, z)).Some? && FixedType(x).Some?
             && FixedType(z).Some?
    requires Live(st) && After(env, z, st).Some?
    ensures Live(st0) && After(env, Binary(OrC, x, z), st0).Some? && Fails(env, x, st0)
  {
    hide Compile, Run, FixedType, Succeeds, On, Effect, Misses;
    CorrectedIff(x);
    hide TypeOf;
    OrCNeedsD(x, z);
    var w := Dissatisfiable(env, decoy, x);
    var v := ResultB(env, Compile(env, x), w, false);
    EmptyResult(v);
    EffectAt(env, Compile(env, x), w, [v], st.stack);
    OnFew(v, v, st.stack);
    st0 := st.(stack := On(w, st.stack));
    ReachAt(env, Compile(env, x), On(w, st.stack), Cons(v, st.stack), st0);
    OneGood();
    RunDeeper(env, Compile(env, z), st);
    SnocTrue(st.conds);
    assert Enter(st.(stack := Cons(v, st.stack))) == st.(conds := Snoc(st.conds));
    OrCCompleted(env, x, z, st0);
  }

  lemma OrCNeedsD(x: Node, z: Node)
    requires TypeOf(Binary(OrC, x, z)).Some?
    ensures TypeOf(x).Some? && TypeOf(x).value.base == B && TypeOf(x).value.d
  {
  }

  /** Where the parser marks or_c(X,Z), and X has its own mark by right, the mark is right if and only
      if no run of Z completes: X can always be dissatisfied first. */
  lemma OrCMarkIff(env: Env, decoy: Decoy, x: Node, z: Node)
    requires env.Valid() && Misses(env, decoy) && TypeOf(Binary(OrC, x, z)).Some? && TypeOf(Binary(OrC, x, z)).value.o
    requires FixedType(x).Some? && FixedType(z).Some? && FixedType(x).value.o
    ensures Sound(env, TypeOf(Binary(OrC, x, z)).value, Compile(env, Binary(OrC, x, z))) <==> !Completes(env, z)
  {
    OrCFixed(x, z);
    var n := Binary(OrC, x, z);
    FallsAtOrC(env, x, z);
    hide Compile, Run, TypeOf, FixedType, Sound, Misses, Falls, Truthy;
    MarkHoldsIff(env, n);
    if st :| Live(st) && After(env, z, st).Some? {
      var st0 := FallingRun(env, decoy, x, z, st);
      assert Falls(env, n, st0);
    }
    if st :| Live(st) && After(env, n, st).Some? && Falls(env, n, st) {
      OrCCompleted(env, x, z, st);
      FixedMarkHolds(env, x, st);
      RunOf(env, x, st, After(env, x, st).value);
      assert Live(Enter(After(env, x, st).value));
    }
  }

  lemma OrCFixed(x: Node, z: Node)
    requires TypeOf(Binary(OrC, x, z)).Some? && TypeOf(Binary(OrC, x, z)).value.o && FixedType(x).Some?
             && FixedType(z).Some?
    ensures FixedType(Binary(OrC, x, z)).Some? && TypeOf(x).Some? && TypeOf(x).value.o
  {
    CorrectedIff(x);
    CorrectedIff(z);
  }

  lemma FallsAtOrC(env: Env, x: Node, z: Node)
    requires TypeOf(Binary(OrC, x, z)).Some?
    ensures TypeOf(x).Some? && forall st :: Falls(env, Binary(OrC, x, z), st) <==>
            Falls(env, x, st) || Fails(env, x, st)
  {
  }

  // ---------------------------------------------------------------- s: above a mark

  /** Two elements on top change places. */
  function Swapped(st: State): State
    requires st.stack.Cons? && st.stack.rest.Cons?
  {
    st.(stack := Cons(st.stack.rest.top, Cons(st.stack.top, st.stack.rest.rest)))
  }

  /** The wrapper s: rests on the mark. A run of s:X keeps the old top below its result, and everything
      below the one input, if and only if its run of X does not fall through; otherwise the old top
      has been consumed. */
  lemma SwapRunIff(env: Env, x: Node, st: State, st': State)
    requires env.Valid() && TypeOf(Wrap(WrapS, x)).Some? && FixedType(x).Some?
    requires Live(st) && After(env, Wrap(WrapS, x), st) == Some(st')
    ensures st.stack.Cons? && st.stack.rest.Cons? && st'.stack.Cons?
    ensures st'.stack.rest == Cons(st.stack.top, st.stack.rest.rest) <==> !Falls(env, x, Swapped(st))
    ensures Falls(env, x, Swapped(st)) ==> Suffix(st'.stack.rest, st.stack.rest.rest)
  {
    hide Run;
    RunPrepend(env, Swap, Compile(env, x), st);
    var q := Swapped(st);
    assert Live(q);
    MarkedRun(env, x, q, st');
  }

  // ---------------------------------------------------------------- instances

  function OrCInstance(a: nat, b: nat): Node {
    Binary(OrC, Atom(Pk(a)), Wrap(WrapV, Atom(Pk(b))))
  }

  /** or_c(pk(a),v:pk(b)) carries the o flag, yet the run with no signature for a and a signature for b
      consumes two inputs. */
  lemma OrCOneInputFails(env: Env, a: nat, b: nat, sig: Bytes)
    requires env.Valid() && env.sigOk(sig, env.key(b))
    ensures TypeOf(OrCInstance(a, b)) == Some(Type(V, false, true, false, false, false))
    ensures Run(env, Compile(env, OrCInstance(a, b)), State(Cons([], Cons(sig, Nil)), Nil, Nil))
            == Some(State(Nil, Nil, Nil))
  {
    OrCInstanceTyped(a, b);
    OrCInstanceRun(env, a, b, State(Cons([], Cons(sig, Nil)), Nil, Nil));
  }

  lemma OrCInstanceTyped(a: nat, b: nat)
    ensures TypeOf(OrCInstance(a, b)) == Some(Type(V, false, true, false, false, false))
  {
    assert TypeOf(Atom(Pk(b))) == LeafType(Pk(b)) && TypeOf(Atom(Pk(a))) == LeafType(Pk(a));
    assert TypeOf(Wrap(WrapV, Atom(Pk(b)))) == Some(Type(V, false, true, true, false, false));
  }

  lemma OrCInstanceScript(env: Env, a: nat, b: nat)
    ensures Compile(env, OrCInstance(a, b)) ==
            [Push(env.key(a)), CheckSig(false)] + [If(true)] + [Push(env.key(b)), CheckSig(true)] + [EndIf]
  {
    assert AddVerify([Push(env.key(b)), CheckSig(false)]) == [Push(env.key(b)), CheckSig(true)];
    assert Compile(env, Wrap(WrapV, Atom(Pk(b)))) == [Push(env.key(b)), CheckSig(true)];
  }

  lemma OrCInstanceRun(env: Env, a: nat, b: nat, st: State)
    requires env.Valid() && Live(st) && st.stack.Cons? && st.stack.top == [] && st.stack.rest.Cons?
    ensures Run(env, Compile(env, OrCInstance(a, b)), st) ==
            if env.sigOk(st.stack.rest.top, env.key(b)) then Some(st.(stack := st.stack.rest.rest)) else None
  {
    hide Compile, Run, Truthy, Does, ExecAll, ExecMain;
    var x, z := [Push(env.key(a)), CheckSig(false)], [Push(env.key(b)), CheckSig(true)];
    OrCInstanceScript(env, a, b);
    TruthyBool(false);
    DoesPlain(env, x);
    DoesPlain(env, z);
    OrCRun(env, x, PlainRel(env, x), z, PlainRel(env, z), st);
    CheckSigRun(env, a, st);
    var r := st.(stack := Cons([], st.stack.rest));
    assert Live(Enter(r));
    CheckSigVerifyRun(env, b, Enter(r));
  }

  lemma CheckSigRun(env: Env, key: nat, st: State)
    requires Live(st) && st.stack.Cons?
    ensures Run(env, [Push(env.key(key)), CheckSig(false)], st) ==
            Some(st.(stack := Cons(Bool(env.sigOk(st.stack.top, env.key(key))), st.stack.rest)))
  {
    hide Run, DecodeNum, EncodeNum;
    var x := [Push(env.key(key)), CheckSig(false)];
    assert x == [Push(env.key(key))] + [CheckSig(false)];
    ExecPrepend(env, Push(env.key(key)), [CheckSig(false)], st.stack);
    ExecOne(env, CheckSig(false), Cons(env.key(key), st.stack));
    RunPlain(env, x, st);
  }

  lemma CheckSigVerifyRun(env: Env, key: nat, st: State)
    requires Live(st) && st.stack.Cons?
    ensures Run(env, [Push(env.key(key)), CheckSig(true)], st) ==
            if env.sigOk(st.stack.top, env.key(key)) then Some(st.(stack := st.stack.rest)) else None
  {
    hide Run, DecodeNum, EncodeNum, Truthy;
    var x := [Push(env.key(key)), CheckSig(true)];
    assert x == [Push(env.key(key))] + [CheckSig(true)];
    ExecPrepend(env, Push(env.key(key)), [CheckSig(true)], st.stack);
    ExecOne(env, CheckSig(true), Cons(env.key(key), st.stack));
    TruthyBool(env.sigOk(st.stack.top, env.key(key)));
    RunPlain(env, x, st);
  }

  /** s:t:or_c(pk(a),v:pk(b)) is accepted with type W, yet where the old top is a signature for b and
      the input is empty, the run consumes both and leaves only its result. */
  lemma SwapOneInputFails(env: Env, a: nat, b: nat, top: Bytes, rest: Stack)
    requires env.Valid() && env.sigOk(top, env.key(b))
    ensures TypeOf(Wrap(WrapS, Wrap(WrapT, OrCInstance(a, b)))) == Some(Type(W, false, false, false, false, true))
    ensures !SwapsOne(Wrap(WrapS, Wrap(WrapT, OrCInstance(a, b))))
    ensures Run(env, Compile(env, Wrap(WrapS, Wrap(WrapT, OrCInstance(a, b)))),
                State(Cons(top, Cons([], rest)), Nil, Nil)) ==
            Some(State(Cons([1], rest), Nil, Nil))
  {
    SwapInstanceTyped(a, b);
    SwapInstanceRun(env, a, b, top, rest);
  }

  lemma SwapInstanceTyped(a: nat, b: nat)
    ensures TypeOf(Wrap(WrapS, Wrap(WrapT, OrCInstance(a, b)))) == Some(Type(W, false, false, false, false, true))
    ensures FixedType(Wrap(WrapT, OrCInstance(a, b))) == Some(Type(B, false, false, false, false, true))
  {
    OrCInstanceTyped(a, b);
    assert TypeOf(Wrap(WrapT, OrCInstance(a, b))) == Some(Type(B, false, true, false, false, true));
    assert FixedType(Atom(Pk(b))) == LeafType(Pk(b)) && FixedType(Atom(Pk(a))) == LeafType(Pk(a));
    assert FixedType(Wrap(WrapV, Atom(Pk(b)))) == Some(Type(V, false, true, true, false, false));
    assert FixedType(OrCInstance(a, b)) == Some(Type(V, false, false, false, false, false));
  }

  /** The instance takes the old top for the signature of b. */
  lemma SwapInstanceRun(env: Env, a: nat, b: nat, top: Bytes, rest: Stack)
    requires env.Valid()
    ensures Run(env, Compile(env, Wrap(WrapS, Wrap(WrapT, OrCInstance(a, b)))),
                State(Cons(top, Cons([], rest)), Nil, Nil)) ==
            if env.sigOk(top, env.key(b)) then Some(State(Cons([1], rest), Nil, Nil)) else None
  {
    var c := Compile(env, OrCInstance(a, b));
    assert Compile(env, Wrap(WrapS, Wrap(WrapT, OrCInstance(a, b)))) == [Swap] + (c + [Small(1)]);
    hide Compile, Run, Truthy, EncodePositive, DecodeNum, TypeOf, FixedType, WaysOf;
    var st := State(Cons(top, Cons([], rest)), Nil, Nil);
    var q := Swapped(st);
    RunPrepend(env, Swap, c + [Small(1)], st);
    RunAppend(env, c, [Small(1)], q);
    OrCInstanceRun(env, a, b, q);
    RunOne(env, Small(1), q.(stack := rest));
    SmallNumbers(1);
  }

  /** For the same reason a canonical satisfaction of it, no signature for a and a signature for b,
      does not run: beside an empty old top it aborts. */
  lemma CanonicalSwapFails(env: Env, g: Signer, a: nat, b: nat)
    requires env.Valid() && ElemOk(env, g, Signature(b))
    ensures WaysOf(Wrap(WrapS, Wrap(WrapT, OrCInstance(a, b)))).sat(Way([EmptyElem, Signature(b)], {}))
    ensures Supplied(env, g, Way([EmptyElem, Signature(b)], {}))
    ensures Run(env, Compile(env, Wrap(WrapS, Wrap(WrapT, OrCInstance(a, b)))),
                State(Cons([], On(Values(env, g, [EmptyElem, Signature(b)]), Nil)), Nil, Nil)) == None
  {
    SwapInstanceWay(a, b);
    var w := Values(env, g, [EmptyElem, Signature(b)]);
    assert w == [[], g.sig(b)];
    OnFew([], g.sig(b), Nil);
    SwapInstanceRun(env, a, b, [], Cons(g.sig(b), Nil));
  }

  lemma SwapInstanceWay(a: nat, b: nat)
    ensures WaysOf(Wrap(WrapS, Wrap(WrapT, OrCInstance(a, b)))).sat(Way([EmptyElem, Signature(b)], {}))
  {
    var x, z := Atom(Pk(a)), Wrap(WrapV, Atom(Pk(b)));
    var first, second := JustElem(EmptyElem), JustElem(Signature(b));
    assert WaysOf(Atom(Pk(b))).sat(second) && WaysOf(x).dsat(first);
    assert WaysOf(z).sat(second);
    assert Join(first, second) == Way([EmptyElem, Signature(b)], {});
    assert JoinOf(WaysOf(x).dsat, WaysOf(z).sat)(Join(first, second));
    assert WaysOf(OrCInstance(a, b)).sat(Join(first, second));
    assert WaysOf(Wrap(WrapT, OrCInstance(a, b))).sat(Join(first, second));
  }
}
