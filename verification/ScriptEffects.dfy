/** Runs that are bound to succeed: what a script makes of the elements on top of the stack, whatever
    lies below them, and how that composes. */
module ScriptEffects {
  import opened Wrappers
  import opened BitcoinScript
  import opened Miniscript
  import opened ScriptNumbers
  import opened ScriptRelations
  import opened CombinatorSoundness

  /** Elements on a stack, the first one on top. */
  function On(w: seq<Bytes>, rest: Stack): Stack {
    if w == [] then rest else Cons(w[0], On(w[1..], rest))
  }

  lemma {:induction false} OnJoin(a: seq<Bytes>, b: seq<Bytes>, rest: Stack)
    ensures On(a + b, rest) == On(a, On(b, rest))
    decreases a
  {
    if a == [] {
      assert a + b == b;
    } else {
      assert (a + b)[1..] == a[1..] + b;
      OnJoin(a[1..], b, rest);
    }
  }

  lemma OnFew(a: Bytes, b: Bytes, rest: Stack)
    ensures On([], rest) == rest && On([a], rest) == Cons(a, rest) && On([a, b], rest) == Cons(a, Cons(b, rest))
  {
    assert [a][1..] == [] && [a, b][1..] == [b] && [b][1..] == [];
  }

  /** From the stack a the script leads to the stack b. */
  ghost predicate Reaches(env: Env, s: Script, a: Stack, b: Stack) {
    forall st :: Live(st) && st.stack == a ==> Run(env, s, st) == Some(st.(stack := b))
  }

  /** The script replaces the elements w on top of any stack by the elements o. */
  ghost predicate Effect(env: Env, s: Script, w: seq<Bytes>, o: seq<Bytes>) {
    forall rest :: Reaches(env, s, On(w, rest), On(o, rest))
  }

  lemma ReachAt(env: Env, s: Script, a: Stack, b: Stack, st: State)
    requires Reaches(env, s, a, b) && Live(st) && st.stack == a
    ensures Run(env, s, st) == Some(st.(stack := b))
  {
  }

  lemma ReachSeq(env: Env, x: Script, y: Script, a: Stack, b: Stack, c: Stack)
    requires Reaches(env, x, a, b) && Reaches(env, y, b, c)
    ensures Reaches(env, x + y, a, c)
  {
    hide Reaches;
    forall st | Live(st) && st.stack == a ensures Run(env, x + y, st) == Some(st.(stack := c)) {
      RunAppend(env, x, y, st);
      ReachAt(env, x, a, b, st);
      ReachAt(env, y, b, c, st.(stack := b));
    }
    ReachIntro(env, x + y, a, c);
  }

  lemma ReachIntro(env: Env, s: Script, a: Stack, b: Stack)
    requires forall st :: Live(st) && st.stack == a ==> Run(env, s, st) == Some(st.(stack := b))
    ensures Reaches(env, s, a, b)
  {
  }

  lemma EffectAt(env: Env, s: Script, w: seq<Bytes>, o: seq<Bytes>, rest: Stack)
    requires Effect(env, s, w, o)
    ensures Reaches(env, s, On(w, rest), On(o, rest))
  {
  }

  /** One script after the other: the second one finds the results of the first and further elements. */
  lemma EffectSeq(env: Env, x: Script, y: Script, w: seq<Bytes>, r: seq<Bytes>, more: seq<Bytes>, o: seq<Bytes>)
    requires Effect(env, x, w, r) && Effect(env, y, r + more, o)
    ensures Effect(env, x + y, w + more, o)
  {
    hide Reaches, On;
    forall rest ensures Reaches(env, x + y, On(w + more, rest), On(o, rest)) {
      OnJoin(w, more, rest);
      OnJoin(r, more, rest);
      EffectAt(env, x, w, r, On(more, rest));
      EffectAt(env, y, r + more, o, rest);
      ReachSeq(env, x, y, On(w + more, rest), On(r + more, rest), On(o, rest));
    }
  }

  /** Further elements below do not matter. */
  lemma EffectFrame(env: Env, s: Script, w: seq<Bytes>, o: seq<Bytes>, more: seq<Bytes>)
    requires Effect(env, s, w, o)
    ensures Effect(env, s, w + more, o + more)
  {
    hide Reaches, On;
    forall rest ensures Reaches(env, s, On(w + more, rest), On(o + more, rest)) {
      OnJoin(w, more, rest);
      OnJoin(o, more, rest);
      EffectAt(env, s, w, o, On(more, rest));
    }
  }

  lemma EffectPlain(env: Env, ops: Script, w: seq<Bytes>, o: seq<Bytes>)
    requires forall i :: 0 <= i < |ops| ==> Plain(ops[i])
    requires forall rest :: ExecAll(env, ops, On(w, rest)) == Some(On(o, rest))
    ensures Effect(env, ops, w, o)
  {
    hide On, ExecAll, ExecMain;
    forall rest ensures Reaches(env, ops, On(w, rest), On(o, rest)) {
      forall st | Live(st) && st.stack == On(w, rest) ensures Run(env, ops, st) == Some(st.(stack := On(o, rest))) {
        RunPlain(env, ops, st);
      }
      ReachIntro(env, ops, On(w, rest), On(o, rest));
    }
  }

  lemma EffectOp(env: Env, op: Op, w: seq<Bytes>, o: seq<Bytes>)
    requires Plain(op) && forall rest :: ExecMain(env, op, On(w, rest)) == Some(On(o, rest))
    ensures Effect(env, [op], w, o)
  {
    hide On, ExecMain, ExecAll;
    forall rest ensures ExecAll(env, [op], On(w, rest)) == Some(On(o, rest)) {
      ExecOne(env, op, On(w, rest));
    }
    EffectPlain(env, [op], w, o);
  }

  /** A script followed by one opcode that works on its results. */
  lemma EffectThenOp(env: Env, x: Script, op: Op, w: seq<Bytes>, r: seq<Bytes>, o: seq<Bytes>)
    requires Effect(env, x, w, r) && Plain(op) && forall rest :: ExecMain(env, op, On(r, rest)) == Some(On(o, rest))
    ensures Effect(env, x + [op], w, o)
  {
    hide Reaches, On, ExecMain;
    EffectOp(env, op, r, o);
    assert r + [] == r && w + [] == w;
    EffectSeq(env, x, [op], w, r, [], o);
  }

  // ---------------------------------------------------------------- branches

  lemma RunTaken(env: Env, neg: bool, a: Script, b: Script, st: State)
    requires Skips(env, a) && Skips(env, b) && Live(st) && st.stack.Cons?
    requires var x := if Truthy(st.stack.top) != neg then a else b;
             Run(env, x, Enter(st)).Some? && Run(env, x, Enter(st)).value.conds == Enter(st).conds
    ensures Run(env, IfElse(neg, a, b), st)
            == Leave(Run(env, if Truthy(st.stack.top) != neg then a else b, Enter(st)), st.conds)
  {
    hide Truthy;
    RunIfElse(env, neg, a, b, st);
    assert Live(Enter(st));
    StepElse(env, false, st.conds, st.stack.rest, st.alt);
    var r := Run(env, if Truthy(st.stack.top) != neg then a else b, Enter(st));
    StepElse(env, true, st.conds, r.value.stack, r.value.alt);
    StepElse(env, false, st.conds, r.value.stack, r.value.alt);
  }

  lemma ReachIfElse(env: Env, neg: bool, a: Script, b: Script, c: Bytes, s: Stack, t: Stack)
    requires Skips(env, a) && Skips(env, b) && Reaches(env, if Truthy(c) != neg then a else b, s, t)
    ensures Reaches(env, IfElse(neg, a, b), Cons(c, s), t)
  {
    hide Reaches, Truthy, IfElse, Skips;
    forall st | Live(st) && st.stack == Cons(c, s) ensures Run(env, IfElse(neg, a, b), st) == Some(st.(stack := t)) {
      assert Live(Enter(st));
      ReachAt(env, if Truthy(c) != neg then a else b, s, t, Enter(st));
      RunTaken(env, neg, a, b, st);
    }
    ReachIntro(env, IfElse(neg, a, b), Cons(c, s), t);
  }

  lemma EffectIfElse(env: Env, neg: bool, a: Script, b: Script, c: Bytes, w: seq<Bytes>, o: seq<Bytes>)
    requires Skips(env, a) && Skips(env, b) && Effect(env, if Truthy(c) != neg then a else b, w, o)
    ensures Effect(env, IfElse(neg, a, b), [c] + w, o)
  {
    hide Reaches, Truthy, IfElse, Skips, On;
    forall rest ensures Reaches(env, IfElse(neg, a, b), On([c] + w, rest), On(o, rest)) {
      OnJoin([c], w, rest);
      OnFew(c, c, On(w, rest));
      EffectAt(env, if Truthy(c) != neg then a else b, w, o, rest);
      ReachIfElse(env, neg, a, b, c, On(w, rest), On(o, rest));
    }
  }

  lemma ReachIfThen(env: Env, neg: bool, a: Script, c: Bytes, s: Stack, t: Stack)
    requires Skips(env, a) && (if Truthy(c) != neg then Reaches(env, a, s, t) else s == t)
    ensures Reaches(env, IfThen(neg, a), Cons(c, s), t)
  {
    hide Reaches, Truthy, Skips;
    forall st | Live(st) && st.stack == Cons(c, s) ensures Run(env, IfThen(neg, a), st) == Some(st.(stack := t)) {
      RunIfThen(env, neg, a, st);
      StepElse(env, true, st.conds, t, st.alt);
      if Truthy(c) != neg {
        assert Live(Enter(st));
        ReachAt(env, a, s, t, Enter(st));
      } else {
        SkipAt(env, a, State(s, st.alt, Cons(false, st.conds)));
        StepElse(env, false, st.conds, s, st.alt);
      }
    }
    ReachIntro(env, IfThen(neg, a), Cons(c, s), t);
  }

  lemma SkipAt(env: Env, a: Script, st: State)
    requires Skips(env, a) && !Live(st)
    ensures Run(env, a, st) == Some(st)
  {
  }

  lemma EffectIfThen(env: Env, neg: bool, a: Script, c: Bytes, w: seq<Bytes>, o: seq<Bytes>)
    requires Skips(env, a) && (if Truthy(c) != neg then Effect(env, a, w, o) else w == o)
    ensures Effect(env, IfThen(neg, a), [c] + w, o)
  {
    hide Reaches, Truthy, IfThen, Skips, On;
    forall rest ensures Reaches(env, IfThen(neg, a), On([c] + w, rest), On(o, rest)) {
      OnJoin([c], w, rest);
      OnFew(c, c, On(w, rest));
      if Truthy(c) != neg {
        EffectAt(env, a, w, o, rest);
      }
      ReachIfThen(env, neg, a, c, On(w, rest), On(o, rest));
    }
  }

  // ---------------------------------------------------------------- VERIFY and the alternative stack

  lemma EffectVerify(env: Env, x: Script, w: seq<Bytes>, v: Bytes)
    requires Effect(env, x, w, [v]) && Truthy(v)
    ensures Effect(env, AddVerify(x), w, [])
  {
    hide Reaches, AddVerify, Effect;
    forall rest ensures ExecMain(env, Verify, On([v], rest)) == Some(On([], rest)) {
      OnFew(v, v, rest);
    }
    EffectThenOp(env, x, Verify, w, [v], []);
    VerifyMerged(env, x, w, []);
  }

  lemma VerifyMerged(env: Env, x: Script, w: seq<Bytes>, o: seq<Bytes>)
    requires Effect(env, x + [Verify], w, o)
    ensures Effect(env, AddVerify(x), w, o)
  {
    hide On, AddVerify;
    forall st ensures Run(env, AddVerify(x), st) == Run(env, x + [Verify], st) {
      AddVerifyRun(env, x, st);
    }
  }

  lemma EffectWrapA(env: Env, x: Script, top: Bytes, w: seq<Bytes>, v: Bytes)
    requires Effect(env, x, w, [v])
    ensures Effect(env, WrapScript(WrapA, x), [top] + w, [top, v])
  {
    hide Reaches, WrapScript, On;
    forall rest ensures Reaches(env, WrapScript(WrapA, x), On([top] + w, rest), On([top, v], rest)) {
      OnJoin([top], w, rest);
      OnFew(top, v, On(w, rest));
      OnFew(top, v, rest);
      OnFew(v, v, rest);
      EffectAt(env, x, w, [v], rest);
      forall st | Live(st) && st.stack == Cons(top, On(w, rest))
        ensures Run(env, WrapScript(WrapA, x), st) == Some(st.(stack := Cons(top, Cons(v, rest))))
      {
        RunWrapA(env, x, st);
        var inner := State(On(w, rest), Cons(top, st.alt), st.conds);
        assert Live(inner);
        ReachAt(env, x, On(w, rest), Cons(v, rest), inner);
        RunOne(env, FromAltStack, inner.(stack := Cons(v, rest)));
      }
      ReachIntro(env, WrapScript(WrapA, x), Cons(top, On(w, rest)), Cons(top, Cons(v, rest)));
    }
  }
}
