/** What the type and the modifiers of a miniscript fragment announce about the stack, as a relation
    between the stack before and after a run. */
module StackShape {
  import opened Wrappers
  import opened BitcoinScript
  import opened Miniscript
  import opened ScriptRelations

  predicate UnitOk(t: Type, v: Bytes) {
    t.u && Truthy(v) ==> v == [1]
  }

  predicate TopNonEmpty(s: Stack) {
    s.Cons? && s.top != []
  }

  /** s' is what is left of s after some inputs have been consumed. */
  predicate Suffix(s': Stack, s: Stack) {
    s' == s || (s.Cons? && Suffix(s', s.rest))
  }

  /** Some inputs are gone from s and the others are untouched: with z exactly none, with o exactly one. */
  predicate Consumed(z: bool, o: bool, s: Stack, rest: Stack) {
    Suffix(rest, s) && (z ==> rest == s) && (o ==> s.Cons? && rest == s.rest)
  }

  predicate ShapeB(t: Type, s: Stack, s': Stack) {
    && s'.Cons? && Consumed(t.z, t.o, s, s'.rest)
    && UnitOk(t, s'.top) && (t.n && Truthy(s'.top) ==> TopNonEmpty(s))
  }

  predicate ShapeV(t: Type, s: Stack, s': Stack) {
    Consumed(t.z, t.o, s, s') && (t.n ==> TopNonEmpty(s))
  }

  /** v is one of the wallet's keys, or at least has the hash of one. */
  ghost predicate IsKey(env: Env, v: Bytes) {
    exists key :: v == env.key(key) || env.hash(Hash160, v) == env.hash(Hash160, env.key(key))
  }

  // The signature that the enclosing c: consumes counts as an input of a K.
  ghost predicate ShapeK(env: Env, t: Type, s: Stack, s': Stack) {
    && s'.Cons? && IsKey(env, s'.top) && !t.z && Consumed(t.o, false, s, s'.rest)
    && (t.n && s'.rest.Cons? && env.sigOk(s'.rest.top, s'.top) ==> TopNonEmpty(s))
  }

  predicate ShapeW(t: Type, s: Stack, s': Stack) {
    && s.Cons? && s'.Cons? && s'.rest.Cons? && !t.z && !t.o && !t.n
    && Consumed(false, false, s.rest, s'.rest.rest)
    && ((s'.top == s.top && UnitOk(t, s'.rest.top)) || (s'.rest.top == s.top && UnitOk(t, s'.top)))
  }

  /** A fragment of type t may turn the stack s into the stack s'. */
  ghost predicate Shape(env: Env, t: Type, s: Stack, s': Stack) {
    match t.base
    case B => ShapeB(t, s, s')
    case V => ShapeV(t, s, s')
    case K => ShapeK(env, t, s, s')
    case W => ShapeW(t, s, s')
  }

  ghost function TypeRel(env: Env, t: Type): Relation {
    (s, s') => Shape(env, t, s, s')
  }

  /** Every run of the script that does not abort does what the type t announces. */
  ghost predicate Sound(env: Env, t: Type, s: Script) {
    Does(env, s, TypeRel(env, t))
  }

  lemma SoundAt(env: Env, t: Type, s: Script, st: State, st': State)
    requires Sound(env, t, s) && Live(st) && Run(env, s, st) == Some(st')
    ensures st'.alt == st.alt && st'.conds == st.conds && Shape(env, t, st.stack, st'.stack)
  {
    assert TypeRel(env, t)(st.stack, st'.stack);
  }

  lemma {:induction false} SuffixTransitive(a: Stack, b: Stack, c: Stack)
    requires Suffix(a, b) && Suffix(b, c)
    ensures Suffix(a, c)
    decreases c
  {
    if b != c {
      SuffixTransitive(a, b, c.rest);
    }
  }

  /** The promises of t' about a fragment that starts on r, what is left of s, given that the
      fragment itself has type t. */
  predicate AllowsAfter(s: Stack, r: Stack, t: Type, t': Type) {
    && t.base == t'.base && t.base != W
    && (t'.z ==> t.z && r == s)
    && (t'.o ==> (t.o && r == s) || (t.z && s.Cons? && r == s.rest))
    && (t'.n ==> (t.n && r == s) || TopNonEmpty(s))
    && (t'.u ==> t.u)
  }

  lemma ShapeAfter(env: Env, t: Type, t': Type, s: Stack, r: Stack, s': Stack)
    requires Suffix(r, s) && Shape(env, t, r, s') && AllowsAfter(s, r, t, t')
    ensures Shape(env, t', s, s')
  {
    SuffixTransitive(if t.base == V then s' else s'.rest, r, s);
  }
}
