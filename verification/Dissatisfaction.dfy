/** The flag d: an expression that carries it can be dissatisfied without any signature, by a run that
    leaves the empty element. */
module Dissatisfaction {
  import opened Wrappers
  import opened BitcoinScript
  import opened Miniscript
  import opened ScriptNumbers
  import opened ScriptRelations
  import opened StackShape
  import opened TypeSoundness
  import opened Satisfaction
  import opened ScriptEffects
  import opened SatisfactionRuns
  import opened CanonicalRuns

  /** Something of the length of a preimage for every digest that is not its preimage. */
  type Decoy = (HashKind, Bytes) -> Bytes

  ghost predicate Misses(env: Env, decoy: Decoy) {
    forall kind, h :: |decoy(kind, h)| == 32 && env.hash(kind, decoy(kind, h)) != h
  }

  /** The elements of a witness have at most 520 bytes. */
  predicate Elements(w: seq<Bytes>) {
    forall i :: 0 <= i < |w| ==> |w[i]| <= 520
  }

  /** Empty elements instead of signatures, the key where it is asked for, and a decoy instead of a preimage. */
  function LeafDecoy(env: Env, decoy: Decoy, leaf: Leaf): seq<Bytes> {
    match leaf
    case PkK(_) => [[]]
    case Pk(_) => [[]]
    case PkH(key) => [env.key(key), []]
    case Pkh(key) => [env.key(key), []]
    case HashLock(kind, h) => [decoy(kind, h)]
    case Multi(k, _) => seq(k + 1, i => [])
    case _ => []
  }

  lemma LeafFails(env: Env, decoy: Decoy, leaf: Leaf) returns (w: seq<Bytes>)
    requires env.Valid() && Misses(env, decoy) && LeafType(leaf).Some? && LeafType(leaf).value.d
    ensures Succeeds(env, LeafType(leaf).value.base, LeafScript(env, leaf), w, false) && Elements(w)
    ensures w == LeafDecoy(env, decoy, leaf)
  {
    hide Succeeds;
    if leaf.HashLock? {
      w := [decoy(leaf.kind, leaf.h)];
      HashLockRuns(env, leaf.kind, leaf.h, decoy(leaf.kind, leaf.h));
    } else {
      var g := Signer(_ => [], (_, _) => []);
      var a :=
        match leaf
        case Zero => NoInputs
        case PkH(key) => Way([KeyBytes(key), EmptyElem], {})
        case Pkh(key) => Way([KeyBytes(key), EmptyElem], {})
        case Multi(k, _) => Way(Empties(k + 1), {})
        case _ => JustElem(EmptyElem);
      w := Values(env, g, a.w);
      LeafRuns(env, g, leaf, a, false);
    }
  }

  lemma WrapFails(env: Env, w: Wrapper, tx: Type, x: Script, t: Type, wx: seq<Bytes>) returns (r: seq<Bytes>)
    requires env.Valid() && Sound(env, tx, x) && WrapType(w, tx) == Some(t) && t.d
    requires (tx.d ==> Succeeds(env, tx.base, x, wx, false)) && Elements(wx)
    ensures Succeeds(env, t.base, WrapScript(w, x), r, false) && Elements(r)
  {
    hide Succeeds, Effect;
    r := wx;
    match w
    case WrapA => WrapARuns(env, x, wx, false);
    case WrapS => WrapSRuns(env, tx, x, wx, false);
    case WrapC => WrapCRuns(env, x, wx, false);
    case WrapN => WrapNRuns(env, x, wx, false);
    case WrapD =>
      r := [Bool(false)] + [];
      WrapDRuns(env, tx, x, [], false);
    case WrapJ =>
      r := [[]];
      WrapJRuns(env, tx, x, [[]], false);
    case WrapL =>
      r := [Bool(true)] + [];
      WrapLRuns(env, x, [], true, false);
    case WrapU =>
      r := [Bool(false)] + [];
      WrapURuns(env, x, [], true, false);
  }

  lemma BinaryFails(env: Env, op: BinOp, tx: Type, x: Script, ty: Type, y: Script, t: Type, wx: seq<Bytes>,
      wy: seq<Bytes>) returns (r: seq<Bytes>)
    requires env.Valid() && Sound(env, tx, x) && Sound(env, ty, y) && FixedBinaryType(op, tx, ty) == Some(t) && t.d
    requires (tx.d ==> Succeeds(env, tx.base, x, wx, false)) && (ty.d ==> Succeeds(env, ty.base, y, wy, false))
    requires Elements(wx) && Elements(wy)
    ensures Succeeds(env, t.base, BinaryScript(op, x, y), r, false) && Elements(r)
  {
    hide Succeeds, Effect;
    r := wx + wy;
    match op
    case AndB => BoolRuns(env, BoolAnd, x, y, wx, wy, false, false);
    case AndN =>
      ZeroRuns(env);
      AndOrRuns(env, B, x, y, [Small(0)], wx, [], false, false);
      assert x + [If(true)] + [Small(0)] + [Else] + y + [EndIf] == x + [If(true), Small(0), Else] + y + [EndIf];
      r := wx + [];
    case OrB => BoolRuns(env, BoolOr, x, y, wx, wy, false, false);
    case OrD => OrDRuns(env, x, y, wx, wy, false, false);
    case OrI =>
      r := [Bool(tx.d)] + if tx.d then wx else wy;
      OrIRuns(env, tx.base, x, y, if tx.d then wx else wy, tx.d, false);
  }

  /** What the flag d promises: some witness makes the script fail gracefully, leaving the empty
      element (for a K, a signature that does not fit the key), on top of any stack. */
  lemma {:induction false} Dissatisfiable(env: Env, decoy: Decoy, n: Node) returns (w: seq<Bytes>)
    requires env.Valid() && Misses(env, decoy) && FixedType(n).Some? && FixedType(n).value.d
    ensures Succeeds(env, FixedType(n).value.base, Compile(env, n), w, false) && Elements(w)
    decreases n
  {
    hide Succeeds, Sound, Misses;
    match n
    case Atom(leaf) => w := LeafFails(env, decoy, leaf);
    case Wrap(v, x) =>
      var wx: seq<Bytes> := [];
      if FixedType(x).value.d {
        wx := Dissatisfiable(env, decoy, x);
      }
      FragmentSound(env, x, FixedType(x).value);
      w := WrapFails(env, v, FixedType(x).value, Compile(env, x), FixedType(n).value, wx);
    case Binary(op, x, y) =>
      var wx: seq<Bytes>, wy: seq<Bytes> := [], [];
      if FixedType(x).value.d {
        wx := Dissatisfiable(env, decoy, x);
      }
      if FixedType(y).value.d {
        wy := Dissatisfiable(env, decoy, y);
      }
      FragmentSound(env, x, FixedType(x).value);
      FragmentSound(env, y, FixedType(y).value);
      w := BinaryFails(env, op, FixedType(x).value, Compile(env, x), FixedType(y).value, Compile(env, y),
                       FixedType(n).value, wx, wy);
    case AndOr(x, y, z) =>
      var wx := Dissatisfiable(env, decoy, x);
      var wz := Dissatisfiable(env, decoy, z);
      SkipsOf(env, y);
      SkipsOf(env, z);
      AndOrRuns(env, FixedType(z).value.base, Compile(env, x), Compile(env, y), Compile(env, z), wx, wz, false, false);
      w := wx + wz;
  }

  /** The flag d of the parser: an accepted expression of type B that carries it has a run that leaves
      exactly the empty element. */
  lemma DissatisfactionRuns(env: Env, decoy: Decoy, n: Node) returns (w: seq<Bytes>)
    requires env.Valid() && Misses(env, decoy) && TypeOf(n).Some? && SwapsOne(n)
    requires TypeOf(n).value.d && TypeOf(n).value.base == B
    ensures Run(env, Compile(env, n), State(On(w, Nil), Nil, Nil)) == Some(State(Cons([], Nil), Nil, Nil))
  {
    hide Compile, TypeOf, FixedType, Succeeds, On, Effect, SwapsOne, Misses, Truthy;
    CorrectedIff(n);
    w := Dissatisfiable(env, decoy, n);
    var v := ResultB(env, Compile(env, n), w, false);
    EffectAt(env, Compile(env, n), w, [v], Nil);
    OnFew(v, v, Nil);
    var st := State(On(w, Nil), Nil, Nil);
    assert Live(st);
    ReachAt(env, Compile(env, n), On(w, Nil), Cons(v, Nil), st);
  }
}
