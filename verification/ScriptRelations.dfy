/** The effect of scripts on the main stack as relations, and how relations compose along the ways
    scripts are put together: sequences, IF/ELSE branches and straight-line code. */
module ScriptRelations {
  import opened Wrappers
  import opened BitcoinScript

  type Relation = (Stack, Stack) -> bool

  /** Where the surrounding branch is not taken, the script does nothing. */
  ghost predicate Skips(env: Env, s: Script) {
    forall st :: !Live(st) ==> Run(env, s, st) == Some(st)
  }

  /** Every run that does not abort restores the alternative stack and the conditions, and relates
      the stacks before and after by rel. */
  ghost predicate Does(env: Env, s: Script, rel: Relation) {
    && Skips(env, s)
    && forall st :: Live(st) && Run(env, s, st).Some? ==>
         var st' := Run(env, s, st).value;
         st'.alt == st.alt && st'.conds == st.conds && rel(st.stack, st'.stack)
  }

  function IfElseRel(neg: bool, a: Relation, b: Relation): Relation {
    (s: Stack, s': Stack) => s.Cons? && if Truthy(s.top) != neg then a(s.rest, s') else b(s.rest, s')
  }

  function IfThenRel(neg: bool, a: Relation): Relation {
    (s: Stack, s': Stack) => s.Cons? && if Truthy(s.top) != neg then a(s.rest, s') else s' == s.rest
  }

  // ---------------------------------------------------------------- straight-line code

  /** Opcodes that only touch the main stack. */
  predicate Plain(op: Op) {
    !op.If? && !op.Else? && !op.EndIf? && !op.ToAltStack? && !op.FromAltStack?
  }

  function ExecAll(env: Env, ops: Script, s: Stack): Option<Stack> {
    if ops == [] then Some(s)
    else
      var s' :- ExecMain(env, ops[0], s);
      ExecAll(env, ops[1..], s')
  }

  function PlainRel(env: Env, ops: Script): Relation {
    (s, s') => ExecAll(env, ops, s) == Some(s')
  }

  lemma {:induction false} RunPlain(env: Env, ops: Script, st: State)
    requires forall i :: 0 <= i < |ops| ==> Plain(ops[i])
    ensures !Live(st) ==> Run(env, ops, st) == Some(st)
    ensures Live(st) ==>
      var r := ExecAll(env, ops, st.stack);
      Run(env, ops, st) == if r.None? then None else Some(st.(stack := r.value))
    decreases ops
  {
    if ops != [] && Step(env, ops[0], st).Some? {
      RunPlain(env, ops[1..], Step(env, ops[0], st).value);
    }
  }

  lemma DoesPlain(env: Env, ops: Script)
    requires forall i :: 0 <= i < |ops| ==> Plain(ops[i])
    ensures Does(env, ops, PlainRel(env, ops))
  {
    forall st | !Live(st) ensures Run(env, ops, st) == Some(st) {
      RunPlain(env, ops, st);
    }
    forall st | Live(st) && Run(env, ops, st).Some?
      ensures var st' := Run(env, ops, st).value;
              st'.alt == st.alt && st'.conds == st.conds && PlainRel(env, ops)(st.stack, st'.stack)
    {
      RunPlain(env, ops, st);
    }
  }

  lemma ExecOne(env: Env, op: Op, s: Stack)
    ensures ExecAll(env, [op], s) == ExecMain(env, op, s)
  {
    var r := ExecMain(env, op, s);
    assert [op][1..] == [];
  }

  function OpRel(env: Env, op: Op): Relation {
    (s, s') => ExecMain(env, op, s) == Some(s')
  }

  lemma DoesOp(env: Env, op: Op)
    requires Plain(op)
    ensures Does(env, [op], OpRel(env, op))
  {
    DoesPlain(env, [op]);
    forall s ensures ExecAll(env, [op], s) == ExecMain(env, op, s) {
      ExecOne(env, op, s);
    }
  }

  // ---------------------------------------------------------------- sequences

  lemma DoesImplies(env: Env, x: Script, r: Relation, r': Relation)
    requires Does(env, x, r) && forall a, b :: r(a, b) ==> r'(a, b)
    ensures Does(env, x, r')
  {
  }

  lemma SkipsAppend(env: Env, x: Script, y: Script)
    requires Skips(env, x) && Skips(env, y)
    ensures Skips(env, x + y)
  {
    forall st | !Live(st) ensures Run(env, x + y, st) == Some(st) {
      RunAppend(env, x, y, st);
    }
  }

  lemma DoesAppend(env: Env, x: Script, rx: Relation, y: Script, ry: Relation, rel: Relation)
    requires Does(env, x, rx) && Does(env, y, ry)
    requires forall a, b, c :: rx(a, b) && ry(b, c) ==> rel(a, c)
    ensures Does(env, x + y, rel)
  {
    SkipsAppend(env, x, y);
    forall st | Live(st) && Run(env, x + y, st).Some?
      ensures var st' := Run(env, x + y, st).value;
              st'.alt == st.alt && st'.conds == st.conds && rel(st.stack, st'.stack)
    {
      RunAppend(env, x, y, st);
      var m := Run(env, x, st).value;
      assert rx(st.stack, m.stack) && Live(m);
    }
  }

  // ---------------------------------------------------------------- branches

  function IfElse(neg: bool, a: Script, b: Script): Script {
    [If(neg)] + a + [Else] + b + [EndIf]
  }

  function IfThen(neg: bool, a: Script): Script {
    [If(neg)] + a + [EndIf]
  }

  lemma RunIfElse(env: Env, neg: bool, a: Script, b: Script, st: State)
    ensures Run(env, IfElse(neg, a, b), st) ==
            Then(env, [EndIf], Then(env, b, Then(env, [Else], Then(env, a, Step(env, If(neg), st)))))
  {
    RunAppend(env, [If(neg)] + a + [Else] + b, [EndIf], st);
    RunAppend(env, [If(neg)] + a + [Else], b, st);
    RunAppend(env, [If(neg)] + a, [Else], st);
    RunPrepend(env, If(neg), a, st);
  }

  lemma RunIfThen(env: Env, neg: bool, a: Script, st: State)
    ensures Run(env, IfThen(neg, a), st) == Then(env, [EndIf], Then(env, a, Step(env, If(neg), st)))
  {
    RunAppend(env, [If(neg)] + a, [EndIf], st);
    RunPrepend(env, If(neg), a, st);
  }

  lemma StepElse(env: Env, c: bool, conds: List<bool>, s: Stack, alt: Stack)
    ensures Run(env, [Else], State(s, alt, Cons(c, conds))) == Some(State(s, alt, Cons(!c, conds)))
    ensures Run(env, [EndIf], State(s, alt, Cons(c, conds))) == Some(State(s, alt, conds))
  {
    RunOne(env, Else, State(s, alt, Cons(c, conds)));
    RunOne(env, EndIf, State(s, alt, Cons(c, conds)));
  }

  lemma SkipsIfElse(env: Env, neg: bool, a: Script, b: Script)
    requires Skips(env, a) && Skips(env, b)
    ensures Skips(env, IfElse(neg, a, b))
  {
    forall st | !Live(st) ensures Run(env, IfElse(neg, a, b), st) == Some(st) {
      RunIfElse(env, neg, a, b, st);
      StepElse(env, false, st.conds, st.stack, st.alt);
      StepElse(env, true, st.conds, st.stack, st.alt);
    }
  }

  lemma SkipsIfThen(env: Env, neg: bool, a: Script)
    requires Skips(env, a)
    ensures Skips(env, IfThen(neg, a))
  {
    forall st | !Live(st) ensures Run(env, IfThen(neg, a), st) == Some(st) {
      RunIfThen(env, neg, a, st);
      StepElse(env, false, st.conds, st.stack, st.alt);
    }
  }

  /** The state in which the taken branch of an IF starts. */
  function Enter(st: State): State
    requires st.stack.Cons?
  {
    State(st.stack.rest, st.alt, Cons(true, st.conds))
  }

  function Leave(r: Option<State>, conds: List<bool>): Option<State> {
    if r.None? then None else Some(r.value.(conds := conds))
  }

  lemma TakeIfElse(env: Env, neg: bool, a: Script, ra: Relation, b: Script, rb: Relation, st: State)
    requires Does(env, a, ra) && Does(env, b, rb) && Live(st)
    ensures Run(env, IfElse(neg, a, b), st) ==
            if st.stack.Nil? then None
            else Leave(Run(env, if Truthy(st.stack.top) != neg then a else b, Enter(st)), st.conds)
  {
    RunIfElse(env, neg, a, b, st);
    if st.stack.Cons? {
      assert Live(Enter(st));
      StepElse(env, false, st.conds, st.stack.rest, st.alt);
      var r := Run(env, if Truthy(st.stack.top) != neg then a else b, Enter(st));
      if r.Some? {
        StepElse(env, true, st.conds, r.value.stack, r.value.alt);
        StepElse(env, false, st.conds, r.value.stack, r.value.alt);
      }
    }
  }

  lemma TakeIfThen(env: Env, neg: bool, a: Script, ra: Relation, st: State)
    requires Does(env, a, ra) && Live(st)
    ensures Run(env, IfThen(neg, a), st) ==
            if st.stack.Nil? then None
            else if Truthy(st.stack.top) != neg then Leave(Run(env, a, Enter(st)), st.conds)
            else Some(st.(stack := st.stack.rest))
  {
    RunIfThen(env, neg, a, st);
    if st.stack.Cons? {
      assert Live(Enter(st));
      StepElse(env, false, st.conds, st.stack.rest, st.alt);
      var r := Run(env, a, Enter(st));
      if r.Some? {
        StepElse(env, true, st.conds, r.value.stack, r.value.alt);
      }
    }
  }

  lemma DoesIfElse(env: Env, neg: bool, a: Script, ra: Relation, b: Script, rb: Relation)
    requires Does(env, a, ra) && Does(env, b, rb)
    ensures Does(env, IfElse(neg, a, b), IfElseRel(neg, ra, rb))
  {
    SkipsIfElse(env, neg, a, b);
    forall st | Live(st) && Run(env, IfElse(neg, a, b), st).Some?
      ensures var st' := Run(env, IfElse(neg, a, b), st).value;
              st'.alt == st.alt && st'.conds == st.conds && IfElseRel(neg, ra, rb)(st.stack, st'.stack)
    {
      TakeIfElse(env, neg, a, ra, b, rb, st);
      assert Live(Enter(st));
    }
  }

  lemma DoesIfThen(env: Env, neg: bool, a: Script, ra: Relation)
    requires Does(env, a, ra)
    ensures Does(env, IfThen(neg, a), IfThenRel(neg, ra))
  {
    SkipsIfThen(env, neg, a);
    forall st | Live(st) && Run(env, IfThen(neg, a), st).Some?
      ensures var st' := Run(env, IfThen(neg, a), st).value;
              st'.alt == st.alt && st'.conds == st.conds && IfThenRel(neg, ra)(st.stack, st'.stack)
    {
      TakeIfThen(env, neg, a, ra, st);
      assert Live(Enter(st));
    }
  }
}
