/** Soundness of the parser's miniscript types: any run of the script of a typed expression that
    does not abort changes the stack only as its type and modifiers announce, where the o flag of
    or_c is the one of BIP 379. Module OneInput says what the parser's own o flag means. */
module TypeSoundness {
  import opened Wrappers
  import opened BitcoinScript
  import opened Miniscript
  import opened ScriptNumbers
  import opened ScriptRelations
  import opened StackShape
  import opened CombinatorSoundness
  import opened LeafSoundness

  // ---------------------------------------------------------------- thresh

  predicate Exclusive(t: Type) {
    && (t.base == W ==> !t.z && !t.o && !t.n) && (t.base == K ==> !t.z && t.u) && (t.base == V ==> !t.d && !t.u)
    && !(t.z && t.o) && !(t.z && t.n)
  }

  lemma BinaryExclusive(op: BinOp, x: Type, y: Type)
    requires Exclusive(x) && Exclusive(y) && BinaryType(op, x, y).Some?
    ensures Exclusive(BinaryType(op, x, y).value) && Exclusive(FixedBinaryType(op, x, y).value)
  {
  }

  lemma WrapExclusive(w: Wrapper, x: Type)
    requires Exclusive(x) && WrapType(w, x).Some?
    ensures Exclusive(WrapType(w, x).value)
  {
  }

  lemma AndOrExclusive(x: Type, y: Type, z: Type)
    requires Exclusive(x) && Exclusive(y) && Exclusive(z) && AndOrType(x, y, z).Some?
    ensures Exclusive(AndOrType(x, y, z).value)
  {
  }

  /** A W promises nothing about what it consumes, a K does not claim to consume nothing and has u, a V has
      neither d nor u, and no fragment claims to consume no input and also one, or a non-empty one. */
  lemma {:induction false} FlagsExclusive(n: Node)
    requires TypeOf(n).Some?
    ensures Exclusive(TypeOf(n).value)
    decreases n
  {
    match n
    case Atom(_) =>
    case Wrap(w, x) =>
      FlagsExclusive(x);
      WrapExclusive(w, TypeOf(x).value);
    case Binary(op, x, y) =>
      FlagsExclusive(x);
      FlagsExclusive(y);
      BinaryExclusive(op, TypeOf(x).value, TypeOf(y).value);
    case AndOr(x, y, z) =>
      FlagsExclusive(x);
      FlagsExclusive(y);
      FlagsExclusive(z);
      AndOrExclusive(TypeOf(x).value, TypeOf(y).value, TypeOf(z).value);
    case Thresh(_, _) =>
  }

  /** The same with the corrected flags. */
  lemma {:induction false} FixedExclusive(n: Node)
    requires FixedType(n).Some?
    ensures Exclusive(FixedType(n).value)
    decreases n
  {
    match n
    case Atom(_) =>
    case Wrap(w, x) =>
      FixedExclusive(x);
      WrapExclusive(w, FixedType(x).value);
    case Binary(op, x, y) =>
      FixedExclusive(x);
      FixedExclusive(y);
      BinaryExclusive(op, FixedType(x).value, FixedType(y).value);
    case AndOr(x, y, z) =>
      FixedExclusive(x);
      FixedExclusive(y);
      FixedExclusive(z);
      AndOrExclusive(FixedType(x).value, FixedType(y).value, FixedType(z).value);
    case Thresh(_, _) =>
  }

  predicate NoFlags(t: Type) {
    !t.z && !t.o
  }

  lemma {:induction false} CountsZero(ts: seq<Type>)
    requires forall i :: 0 <= i < |ts| ==> NoFlags(ts[i])
    ensures CountZ(ts) == 0 && CountO(ts) == 0
    decreases ts
  {
    if ts != [] {
      CountsZero(ts[1..]);
    }
  }

  /** The flags z and o of thresh can be set only when it has a single child. */
  lemma ThreshFlags(k: nat, ts: seq<Type>, t: Type)
    requires ThreshType(k, ts) == Some(t) && |ts| >= 2 && forall i :: 0 <= i < |ts| ==> Exclusive(ts[i])
    ensures !t.z && !t.o
  {
    forall i | 1 <= i < |ts| ensures NoFlags(ts[i]) {
      assert ThreshChildOk(i == 0, ts[i]);
    }
    CountsZero(ts[1..]);
  }

  const SumType := Type(B, false, false, false, false, false)

  /** The type of the sum of some children: two or more make a B that promises nothing more. */
  function TypeOfSum(ts: seq<Type>): Type
    requires ts != []
  {
    if |ts| == 1 then ts[0] else SumType
  }

  ghost predicate AllSound(env: Env, ts: seq<Type>, xs: seq<Script>)
    requires |ts| == |xs|
  {
    xs == [] || (AllSound(env, ts[..|ts| - 1], xs[..|xs| - 1]) && Sound(env, ts[|ts| - 1], xs[|xs| - 1]))
  }

  lemma {:induction false} SumSound(env: Env, xs: seq<Script>, ts: seq<Type>)
    requires |xs| == |ts| >= 1 && AllSound(env, ts, xs)
    requires forall i :: 0 <= i < |ts| ==> ThreshChildOk(i == 0, ts[i])
    ensures Sound(env, TypeOfSum(ts), SumScript(xs))
    decreases xs
  {
    var m := |xs| - 1;
    if m >= 1 {
      SumSound(env, xs[..m], ts[..m]);
      AddSound(env, TypeOfSum(ts[..m]), SumScript(xs[..m]), ts[m], xs[m], SumType);
    }
  }

  function PushedOnRel(t: Type): Relation {
    (s: Stack, r: Stack) => r.Cons? && r.rest.Cons? && Consumed(t.z, t.o, s, r.rest.rest)
  }

  lemma ThresholdPushed(env: Env, tx: Type, x: Script, k: nat)
    requires Sound(env, tx, x) && tx.base == B
    ensures Does(env, x + [PushNum(k)], PushedOnRel(tx))
  {
    DoesPushNum(env, k);
    DoesAppend(env, x, TypeRel(env, tx), [PushNum(k)], PushedRel(), PushedOnRel(tx));
  }

  lemma ThresholdTestSound(env: Env, tx: Type, x: Script, k: nat, t: Type)
    requires Sound(env, tx, x) && tx.base == B
    requires t.base == B && !t.n && (t.z ==> tx.z) && (t.o ==> tx.o)
    ensures Sound(env, t, x + [PushNum(k), Equal(false)])
  {
    ThresholdPushed(env, tx, x, k);
    DoesOp(env, Equal(false));
    DoesAppend(env, x + [PushNum(k)], PushedOnRel(tx), [Equal(false)], OpRel(env, Equal(false)), TypeRel(env, t));
    assert x + [PushNum(k), Equal(false)] == x + [PushNum(k)] + [Equal(false)];
  }

  lemma ThreshSound(env: Env, k: nat, xs: seq<Script>, ts: seq<Type>, t: Type)
    requires |xs| == |ts| && ThreshType(k, ts) == Some(t) && forall i :: 0 <= i < |ts| ==> Exclusive(ts[i])
    requires AllSound(env, ts, xs)
    ensures Sound(env, t, ThreshScript(k, xs))
  {
    assert forall i :: 0 <= i < |ts| ==> ThreshChildOk(i == 0, ts[i]);
    if |xs| == 1 {
      assert ts[1..] == [];
      assert CountZ(ts[1..]) == 0 && CountO(ts[1..]) == 0;
    } else {
      ThreshFlags(k, ts, t);
    }
    SumSound(env, xs, ts);
    ThresholdTestSound(env, TypeOfSum(ts), SumScript(xs), k, t);
  }

  // ---------------------------------------------------------------- the theorem

  /** Every fragment whose flags can be corrected keeps the promises of the corrected flags. */
  lemma {:induction false} FragmentSound(env: Env, n: Node, t: Type)
    requires env.Valid() && FixedType(n) == Some(t)
    ensures Sound(env, t, Compile(env, n))
    decreases n, 1
  {
    match n
    case Atom(leaf) => LeafSound(env, leaf, t);
    case Wrap(w, x) =>
      FragmentSound(env, x, FixedType(x).value);
      WrapSound(env, FixedType(x).value, Compile(env, x), w, t);
    case Binary(op, x, y) =>
      FragmentSound(env, x, FixedType(x).value);
      FragmentSound(env, y, FixedType(y).value);
      BinarySound(env, FixedType(x).value, Compile(env, x), FixedType(y).value, Compile(env, y), op, t);
    case AndOr(x, y, z) =>
      FragmentSound(env, x, FixedType(x).value);
      FragmentSound(env, y, FixedType(y).value);
      FragmentSound(env, z, FixedType(z).value);
      AndOrSound(env, FixedType(x).value, Compile(env, x), FixedType(y).value, Compile(env, y), FixedType(z).value,
                 Compile(env, z), t);
    case Thresh(k, xs) =>
      var ts := FixedTypes(xs).value;
      FragmentsSound(env, xs, ts, |xs|);
      assert CompileAll(env, xs)[..|xs|] == CompileAll(env, xs) && ts[..|xs|] == ts;
      forall i | 0 <= i < |xs| ensures Exclusive(ts[i]) {
        FixedExclusive(xs[i]);
      }
      ThreshSound(env, k, CompileAll(env, xs), ts, t);
  }

  lemma {:induction false} FragmentsSound(env: Env, xs: seq<Node>, ts: seq<Type>, m: nat)
    requires env.Valid() && FixedTypes(xs) == Some(ts) && m <= |xs|
    ensures AllSound(env, ts[..m], CompileAll(env, xs)[..m])
    decreases xs, 0, m
  {
    hide Compile, FixedType, Sound;
    if m > 0 {
      FragmentsSound(env, xs, ts, m - 1);
      FragmentSound(env, xs[m - 1], ts[m - 1]);
      assert ts[..m][..m - 1] == ts[..m - 1];
      assert CompileAll(env, xs)[..m][..m - 1] == CompileAll(env, xs)[..m - 1];
    }
  }

  // ---------------------------------------------------------------- what the correction changes

  /** The types differ in the o flag at most. */
  predicate SameButO(t: Type, t': Type) {
    t' == t.(o := t'.o)
  }

  lemma {:induction false} CountsAlike(ts: seq<Type>, us: seq<Type>)
    requires |ts| == |us| && forall i :: 0 <= i < |ts| ==> SameButO(ts[i], us[i])
    ensures CountZ(ts) == CountZ(us)
    decreases ts
  {
    if ts != [] {
      CountsAlike(ts[1..], us[1..]);
    }
  }

  lemma ThreshAlike(k: nat, ts: seq<Type>, us: seq<Type>)
    requires |ts| == |us| && ThreshType(k, ts).Some? && forall i :: 0 <= i < |ts| ==> SameButO(ts[i], us[i])
    ensures ThreshType(k, us).Some? && SameButO(ThreshType(k, ts).value, ThreshType(k, us).value)
  {
    CountsAlike(ts, us);
    assert forall i :: 0 <= i < |ts| ==> ThreshChildOk(i == 0, ts[i]);
    assert forall i :: 0 <= i < |us| ==> ThreshChildOk(i == 0, us[i]);
  }

  lemma BinaryAlike(op: BinOp, x: Type, y: Type, x': Type, y': Type)
    requires SameButO(x, x') && SameButO(y, y') && BinaryType(op, x, y).Some?
    ensures FixedBinaryType(op, x', y').Some? && SameButO(BinaryType(op, x, y).value, FixedBinaryType(op, x', y').value)
  {
  }

  lemma AndOrAlike(x: Type, y: Type, z: Type, x': Type, y': Type, z': Type)
    requires SameButO(x, x') && SameButO(y, y') && SameButO(z, z') && AndOrType(x, y, z).Some?
    ensures AndOrType(x', y', z').Some? && SameButO(AndOrType(x, y, z).value, AndOrType(x', y', z').value)
  {
  }

  lemma WrapAlike(w: Wrapper, x: Type, x': Type)
    requires SameButO(x, x') && WrapType(w, x).Some?
    ensures WrapType(w, x').Some? <==> (w == WrapS ==> x'.o)
    ensures WrapType(w, x').Some? ==> SameButO(WrapType(w, x).value, WrapType(w, x').value)
  {
  }

  /** Every s: below is applied to an expression that really consumes one input. */
  predicate SwapsOne(n: Node)
    decreases n
  {
    match n
    case Atom(_) => true
    case Wrap(w, x) => SwapsOne(x) && (w == WrapS ==> FixedType(x).Some? && FixedType(x).value.o)
    case Binary(_, x, y) => SwapsOne(x) && SwapsOne(y)
    case AndOr(x, y, z) => SwapsOne(x) && SwapsOne(y) && SwapsOne(z)
    case Thresh(_, xs) => forall i :: 0 <= i < |xs| ==> SwapsOne(xs[i])
  }

  /** For an expression that the parser accepts, the flags can be corrected exactly if every s: is
      applied to an expression with a corrected o, and then all other flags stay as they are. */
  lemma {:induction false} CorrectedIff(n: Node)
    requires TypeOf(n).Some?
    ensures FixedType(n).Some? <==> SwapsOne(n)
    ensures FixedType(n).Some? ==> SameButO(TypeOf(n).value, FixedType(n).value)
    decreases n
  {
    hide WrapType, BinaryType, FixedBinaryType, AndOrType, ThreshType, LeafType;
    match n
    case Atom(_) =>
    case Wrap(w, x) =>
      CorrectedIff(x);
      if FixedType(x).Some? {
        WrapAlike(w, TypeOf(x).value, FixedType(x).value);
      }
    case Binary(op, x, y) =>
      CorrectedIff(x);
      CorrectedIff(y);
      if FixedType(x).Some? && FixedType(y).Some? {
        BinaryAlike(op, TypeOf(x).value, TypeOf(y).value, FixedType(x).value, FixedType(y).value);
      }
    case AndOr(x, y, z) =>
      CorrectedIff(x);
      CorrectedIff(y);
      CorrectedIff(z);
      if FixedType(x).Some? && FixedType(y).Some? && FixedType(z).Some? {
        AndOrAlike(TypeOf(x).value, TypeOf(y).value, TypeOf(z).value, FixedType(x).value, FixedType(y).value,
                   FixedType(z).value);
      }
    case Thresh(k, xs) =>
      forall i | 0 <= i < |xs|
        ensures FixedType(xs[i]).Some? <==> SwapsOne(xs[i])
        ensures FixedType(xs[i]).Some? ==> SameButO(TypesOf(xs).value[i], FixedType(xs[i]).value)
      {
        CorrectedIff(xs[i]);
      }
      if FixedTypes(xs).Some? {
        ThreshAlike(k, TypesOf(xs).value, FixedTypes(xs).value);
      }
  }

  /** Type soundness. In every run of the script of an accepted expression that does not abort, the
      alternative stack and the conditions are back to what they were and the main stack has changed
      as `Shape` says: a B leaves one value on the untouched rest, a V nothing, a K one key, a W one
      value beside the old top; z consumes exactly no input, u makes a true result exactly 1, n makes
      the top input non-empty, and the corrected o consumes exactly one input (for a K counting the
      signature). */
  lemma TypesAreSound(env: Env, n: Node, t: Type, st: State, st': State)
    requires env.Valid() && TypeOf(n) == Some(t) && SwapsOne(n)
    requires Live(st) && Run(env, Compile(env, n), st) == Some(st')
    ensures st'.alt == st.alt && st'.conds == st.conds
    ensures FixedType(n).Some? && Shape(env, t.(o := FixedType(n).value.o), st.stack, st'.stack)
  {
    CorrectedIff(n);
    var t' := FixedType(n).value;
    FragmentSound(env, n, t');
    assert TypeRel(env, t')(st.stack, st'.stack);
  }
}
