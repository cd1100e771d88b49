/** The flags of the fragments without sub-expressions are exactly those that all their runs keep. */
module LeafExactness {
  import opened Wrappers
  import opened BitcoinScript
  import opened Miniscript
  import opened ScriptNumbers
  import opened ScriptRelations
  import opened StackShape
  import opened CombinatorSoundness
  import opened LeafSoundness
  import opened TypeSoundness
  import opened Satisfaction
  import opened ScriptEffects
  import opened SatisfactionRuns
  import opened CanonicalRuns
  import opened Dissatisfaction
  import opened SampleScripts

  // ---------------------------------------------------------------- fragments that push a constant

  function ConstantRel(v: Bytes): Relation {
    (s: Stack, s': Stack) => s' == Cons(v, s)
  }

  lemma ConstantSound(env: Env, t: Type, s: Script, v: Bytes)
    requires Does(env, s, ConstantRel(v)) && t.base == B && !t.o && UnitOk(t, v) && (t.n ==> !Truthy(v))
    ensures Sound(env, t, s)
  {
    hide Does, Truthy;
    forall a, b | ConstantRel(v)(a, b) ensures TypeRel(env, t)(a, b) {
    }
    DoesImplies(env, s, ConstantRel(v), TypeRel(env, t));
  }

  lemma ConstantUnbroken(env: Env, t: Type, s: Script, v: Bytes)
    requires Does(env, s, ConstantRel(v)) && t.base == B && !t.o && UnitOk(t, v) && (t.n ==> !Truthy(v))
    ensures !Breaks(env, t, s)
  {
    ConstantSound(env, t, s, v);
    SoundUnbroken(env, t, s);
  }

  lemma ConstantFailure(env: Env, s: Script, v: Bytes)
    requires Does(env, s, ConstantRel(v)) && Truthy(v)
    ensures !CanFail(env, B, s)
  {
    hide Effect, Succeeds, Truthy;
    OneGood();
    if CanFail(env, B, s) {
      var w :| Succeeds(env, B, s, w, false);
      var r := ResultB(env, s, w, false);
      EffectAt(env, s, w, [r], Nil);
      var st := State(On(w, Nil), Nil, Nil);
      ReachAt(env, s, On(w, Nil), On([r], Nil), st);
      OnFew(r, r, Nil);
    }
  }

  lemma ValueBreaks(env: Env, t: Type, s: Script, v: Bytes)
    requires t.base == B && Effect(env, s, [], [v]) && Truthy(v) && v != [1]
    ensures Breaks(env, t.(u := true), s)
  {
    hide Effect, Breaks;
    OnFew(v, v, Ground);
    BreakAt(env, t.(u := true), s, [], [v]);
  }

  /** Everything about a fragment that consumes nothing and leaves v. */
  lemma ConstantFlags(env: Env, t: Type, s: Script, v: Bytes)
    requires Does(env, s, ConstantRel(v)) && Effect(env, s, [], [v]) && |v| <= 4 && (v == [] || Truthy(v))
    requires t.base == B && t.z && !t.o && !t.n && (t.u ==> !Truthy(v) || v == [1])
    ensures !Breaks(env, t.(z := true), s) && Breaks(env, t.(o := true), s)
    ensures Breaks(env, t.(n := true), s) <==> v != []
    ensures Breaks(env, t.(u := true), s) <==> v != [] && v != [1]
    ensures CanFail(env, B, s) <==> v == []
  {
    hide Effect, Succeeds, Truthy, Breaks, Does;
    OneGood();
    SucceedsB(env, s, [], v != [], v);
    WitnessBreaks(env, t, s, [], v != []);
    ConstantUnbroken(env, t.(z := true), s, v);
    if v == [] {
      ConstantUnbroken(env, t.(n := true), s, v);
    } else {
      ConstantFailure(env, s, v);
    }
    if v == [] || v == [1] {
      ConstantUnbroken(env, t.(u := true), s, v);
    } else {
      ValueBreaks(env, t, s, v);
    }
  }

  lemma SmallDoes(env: Env, n: nat)
    requires n <= 1
    ensures Does(env, [Small(n)], ConstantRel(Bool(n == 1)))
  {
    hide Does;
    OneGood();
    DoesOp(env, Small(n));
    DoesImplies(env, [Small(n)], OpRel(env, Small(n)), ConstantRel(Bool(n == 1)));
  }

  lemma LockDoes(env: Env, m: nat, op: Op)
    requires m >= 1 && (op == Csv || op == Cltv)
    ensures Does(env, [PushNum(m), op], ConstantRel(EncodeNum(m)))
  {
    hide Does, EncodeNum, PushNum;
    PlainNum(m);
    DoesOp(env, PushNum(m));
    DoesOp(env, op);
    var v := EncodeNum(m);
    forall s, r, s' | OpRel(env, PushNum(m))(s, r) && OpRel(env, op)(r, s') ensures ConstantRel(v)(s, s') {
      PushNumExec(env, m, s);
    }
    DoesAppend(env, [PushNum(m)], OpRel(env, PushNum(m)), [op], OpRel(env, op), ConstantRel(v));
    assert [PushNum(m)] + [op] == [PushNum(m), op];
  }

  // ---------------------------------------------------------------- all fragments

  predicate IsConstant(leaf: Leaf) {
    leaf.Zero? || leaf.One? || leaf.Older? || leaf.After?
  }

  /** The element that such a fragment leaves. */
  function Left(leaf: Leaf): Bytes {
    match leaf
    case One => [1]
    case Older(m) => EncodeNum(m)
    case After(m) => EncodeNum(m)
    case _ => []
  }

  /** The timelock, if it is one, is met. */
  predicate Met(env: Env, leaf: Leaf) {
    match leaf
    case Older(m) => env.csvOk(EncodeNum(m))
    case After(m) => env.cltvOk(EncodeNum(m))
    case _ => true
  }

  lemma ConstantRuns(env: Env, leaf: Leaf)
    requires IsConstant(leaf) && LeafType(leaf).Some? && Met(env, leaf)
    ensures Does(env, LeafScript(env, leaf), ConstantRel(Left(leaf)))
    ensures Effect(env, LeafScript(env, leaf), [], [Left(leaf)])
    ensures |Left(leaf)| <= 4 && (Left(leaf) == [] || Truthy(Left(leaf)))
    ensures (Left(leaf) == [] <==> leaf.Zero?)
    ensures (Left(leaf) == [1] <==> leaf.One? || leaf == Older(1) || leaf == After(1))
  {
    hide Does, Effect, EncodeNum, Truthy, PushNum;
    OneGood();
    match leaf
    case Zero =>
      SmallDoes(env, 0);
      SmallEffect(env, 0);
    case One =>
      SmallDoes(env, 1);
      SmallEffect(env, 1);
    case Older(m) =>
      LockDoes(env, m, Csv);
      TimelockRuns(env, m, Csv);
      LockNumber(m);
    case After(m) =>
      LockDoes(env, m, Cltv);
      TimelockRuns(env, m, Cltv);
      LockNumber(m);
  }

  lemma LockNumber(m: nat)
    requires 1 <= m < 0x8000_0000
    ensures |EncodeNum(m)| <= 4 && Truthy(EncodeNum(m)) && EncodeNum(m) != [] && (EncodeNum(m) == [1] <==> m == 1)
  {
    hide EncodeNum, DecodeNum, Truthy;
    NumberRoundTrip(m);
    SmallNumbers(1);
    OneGood();
  }

  /** Every flag of a fragment without sub-expressions says exactly what its runs do, given that a timelock is met:
      z, o, n and u are set exactly if every run keeps them, but for n of 0, which no run of 0 can break, and u of
      older(1) and after(1), which leave exactly 1. */
  lemma LeafFlagsExact(env: Env, decoy: Decoy, leaf: Leaf, t: Type)
    requires env.Valid() && Misses(env, decoy) && LeafType(leaf) == Some(t) && Met(env, leaf)
    ensures t.z <==> !Breaks(env, t.(z := true), LeafScript(env, leaf))
    ensures t.o <==> !Breaks(env, t.(o := true), LeafScript(env, leaf))
    ensures t.n || leaf.Zero? <==> !Breaks(env, t.(n := true), LeafScript(env, leaf))
    ensures t.base == B ==>
      (t.u || leaf == Older(1) || leaf == After(1) <==> !Breaks(env, t.(u := true), LeafScript(env, leaf)))
  {
    hide Breaks, LeafScript, Effect, Does, Misses;
    if IsConstant(leaf) {
      ConstantRuns(env, leaf);
      ConstantFlags(env, t, LeafScript(env, leaf), Left(leaf));
    } else {
      ReadingFlags(env, decoy, leaf, t);
    }
  }

  /** The fragments that read inputs all have n, d and u. */
  lemma ReadingFlags(env: Env, decoy: Decoy, leaf: Leaf, t: Type)
    requires env.Valid() && Misses(env, decoy) && LeafType(leaf) == Some(t) && !IsConstant(leaf)
    ensures t.n && t.u && t.d
    ensures t.z <==> !Breaks(env, t.(z := true), LeafScript(env, leaf))
    ensures t.o <==> !Breaks(env, t.(o := true), LeafScript(env, leaf))
    ensures !Breaks(env, t.(n := true), LeafScript(env, leaf)) && !Breaks(env, t.(u := true), LeafScript(env, leaf))
  {
    hide Breaks, LeafScript, Succeeds, Sound, Misses;
    LeafSound(env, leaf, t);
    SoundUnbroken(env, t, LeafScript(env, leaf));
    assert t.(n := true) == t && t.(u := true) == t && (t.o ==> t.(o := true) == t);
    var w := LeafFails(env, decoy, leaf);
    WitnessBreaks(env, t, LeafScript(env, leaf), w, false);
  }

  /** d is set exactly if some witness dissatisfies the fragment, and then the witness without any signature that
      is written down in `LeafDecoy` does. */
  lemma LeafDExact(env: Env, decoy: Decoy, leaf: Leaf, t: Type)
    requires env.Valid() && Misses(env, decoy) && LeafType(leaf) == Some(t) && Met(env, leaf)
    ensures t.d <==> CanFail(env, t.base, LeafScript(env, leaf))
    ensures t.d ==> Succeeds(env, t.base, LeafScript(env, leaf), LeafDecoy(env, decoy, leaf), false)
  {
    hide LeafScript, Succeeds, Breaks, Effect, Does, Misses;
    if t.d {
      var w := LeafFails(env, decoy, leaf);
    } else {
      ConstantRuns(env, leaf);
      ConstantFlags(env, t, LeafScript(env, leaf), Left(leaf));
    }
  }

  // ---------------------------------------------------------------- which of these fragments are accepted

  /** A timelock is accepted exactly if its number is a true element that the interpreter can read as a number. */
  lemma TimelockAcceptsIff(m: nat)
    ensures LeafType(Older(m)).Some? <==> Good(EncodeNum(m), true)
    ensures LeafType(After(m)).Some? <==> Good(EncodeNum(m), true)
  {
    hide EncodeNum, Truthy;
    OneGood();
    if 1 <= m < 0x8000_0000 {
      LockNumber(m);
    } else if m >= 0x8000_0000 {
      FiveBytes(m);
    }
  }

  lemma FiveBytes(m: nat)
    requires m >= 0x8000_0000
    ensures |EncodeNum(m)| >= 5
  {
    ShorterBy(m);
    ShorterBy(m / 256);
    ShorterBy(m / 256 / 256);
    ShorterBy(m / 256 / 256 / 256);
    hide EncodePositive;
    assert m / 256 / 256 / 256 >= 0x80;
  }

  /** Digests have their fixed length. */
  ghost predicate FixedLengths(env: Env) {
    forall kind, b :: |env.hash(kind, b)| == DigestLength(kind)
  }

  /** The hash lock has a satisfaction in the given environment. */
  ghost predicate Opened(env: Env, kind: HashKind, h: Bytes) {
    FixedLengths(env) && exists w :: Succeeds(env, B, LeafScript(env, HashLock(kind, h)), w, true)
  }

  lemma OpenedLength(env: Env, kind: HashKind, h: Bytes)
    requires Opened(env, kind, h)
    ensures |h| == DigestLength(kind)
  {
    hide Succeeds, Effect, Truthy, ExecAll;
    var s := LeafScript(env, HashLock(kind, h));
    var w :| Succeeds(env, B, s, w, true);
    var v := ResultB(env, s, w, true);
    GoodTruth(v, true);
    EffectAt(env, s, w, [v], Nil);
    var st := State(On(w, Nil), Nil, Nil);
    ReachAt(env, s, On(w, Nil), On([v], Nil), st);
    OnFew(v, v, Nil);
    RunPlain(env, s, st);
    HashLockExec(env, kind, h, st.stack, Cons(v, Nil));
    OneGood();
  }

  /** An environment in which every string has the given digest. */
  function Constantly(kind: HashKind, h: Bytes): Env {
    Env(_ => [], (_, _) => false, (k, _) => if k == kind then h else seq(DigestLength(k), _ => 0), _ => false,
        _ => false)
  }

  /** A hash lock is accepted exactly if in some environment whose digests have their lengths it can be satisfied. */
  lemma HashLockAcceptsIff(kind: HashKind, h: Bytes)
    ensures LeafType(HashLock(kind, h)).Some? <==> exists env :: Opened(env, kind, h)
  {
    hide Succeeds, LeafScript;
    if |h| == DigestLength(kind) {
      var env := Constantly(kind, h);
      var p: Bytes := seq(32, _ => 0);
      HashLockRuns(env, kind, h, p);
      assert Opened(env, kind, h);
    }
    if env :| Opened(env, kind, h) {
      OpenedLength(env, kind, h);
    }
  }

  // ---------------------------------------------------------------- multi

  /** The interpreter reads the threshold that multi pushes as k, or aborts. */
  lemma ThresholdRead(env: Env, k: nat, s: Stack)
    ensures ExecMain(env, PushNum(k), s) == Some(Cons(EncodeNum(k), s))
    ensures DecodeNum(EncodeNum(k)) == Some(k) || (DecodeNum(EncodeNum(k)).None? && k > 16)
  {
    DecodeEncode(k);
    if 1 <= k <= 16 {
      SmallNumbers(k);
    }
  }

  /** What multi does with k signatures and n keys, whatever k is. */
  lemma MultiAny(env: Env, k: nat, keys: seq<nat>, s: Stack)
    requires |keys| <= MAX_PUBKEYS_PER_MULTISIG
    ensures ExecAll(env, LeafScript(env, Multi(k, keys)), s) ==
            var p := PopN(s, k);
            if k > |keys| || p.None? || p.value.1.Nil? || p.value.1.top != [] then None
            else Some(Cons(Bool(SigsMatch(env, p.value.0, KeysPopped(env, keys))), p.value.1.rest))
  {
    hide SigsMatch, EncodeNum, DecodeNum;
    var n := |keys|;
    var tail := [PushNum(n)] + [CheckMultisig(false)];
    assert LeafScript(env, Multi(k, keys)) == [PushNum(k)] + (PushKeys(env, keys) + tail);
    ExecPrepend(env, PushNum(k), PushKeys(env, keys) + tail, s);
    ThresholdRead(env, k, s);
    var s1 := Cons(EncodeNum(k), s);
    var s2 := KeysOnStack(env, keys, s1);
    ExecAppend(env, PushKeys(env, keys), tail, s1);
    ExecPushKeys(env, keys, s1);
    ExecPrepend(env, PushNum(n), [CheckMultisig(false)], s2);
    ThresholdRead(env, n, s2);
    ExecOne(env, CheckMultisig(false), Cons(EncodeNum(n), s2));
    PopKeys(env, keys, s1);
  }

  ghost predicate Completes(env: Env, s: Script) {
    exists a, b :: ExecAll(env, s, a) == Some(b)
  }

  /** multi of at most 16 keys is accepted exactly if it can complete and asks for a signature at all: the extra
      element alone does not satisfy it. */
  lemma MultiAcceptsIff(env: Env, k: nat, keys: seq<nat>)
    requires |keys| <= MAX_PUBKEYS_PER_MULTISIG
    ensures var s := LeafScript(env, Multi(k, keys));
            LeafType(Multi(k, keys)).Some? <==> Completes(env, s) && !Succeeds(env, B, s, [[]], true)
  {
    var s := LeafScript(env, Multi(k, keys));
    if k > |keys| {
      forall a ensures ExecAll(env, s, a).None? {
        MultiAny(env, k, keys, a);
      }
    } else if k == 0 {
      ExtraElement(env, keys);
    } else {
      MultiCompletes(env, k, keys);
      MultiNeedsMore(env, k, keys);
    }
  }

  lemma ExtraElement(env: Env, keys: seq<nat>)
    requires |keys| <= MAX_PUBKEYS_PER_MULTISIG
    ensures Succeeds(env, B, LeafScript(env, Multi(0, keys)), [[]], true)
  {
    hide Effect, Succeeds, On, LeafScript, ExecAll;
    var s := LeafScript(env, Multi(0, keys));
    MultiPlain(env, 0, keys);
    OneGood();
    var none: Bytes := [];
    forall rest ensures ExecAll(env, s, On([none], rest)) == Some(On([[1]], rest)) {
      OnFew(none, none, rest);
      OnFew([1], [1], rest);
      MultiAny(env, 0, keys, Cons(none, rest));
      assert PopN(Cons(none, rest), 0) == Some(([], Cons(none, rest)));
    }
    EffectPlain(env, s, [none], [[1]]);
    SucceedsB(env, s, [none], true, [1]);
  }

  lemma MultiPlain(env: Env, k: nat, keys: seq<nat>)
    ensures var s := LeafScript(env, Multi(k, keys)); forall i :: 0 <= i < |s| ==> Plain(s[i])
  {
    PushKeysPlain(env, keys);
    PlainNum(k);
    PlainNum(|keys|);
  }

  lemma MultiCompletes(env: Env, k: nat, keys: seq<nat>)
    requires 1 <= k <= |keys| <= MAX_PUBKEYS_PER_MULTISIG
    ensures Completes(env, LeafScript(env, Multi(k, keys)))
  {
    hide Effect, Succeeds, ExecAll, LeafScript;
    var s := LeafScript(env, Multi(k, keys));
    var sigs: seq<Bytes> := seq(k, _ => []);
    MultiRuns(env, k, keys, sigs);
    var sat := SigsMatch(env, sigs, KeysPopped(env, keys));
    var v := ResultB(env, s, sigs + [[]], sat);
    EffectAt(env, s, sigs + [[]], [v], Nil);
    var st := State(On(sigs + [[]], Nil), Nil, Nil);
    ReachAt(env, s, On(sigs + [[]], Nil), On([v], Nil), st);
    MultiPlain(env, k, keys);
    RunPlain(env, s, st);
  }

  lemma MultiNeedsMore(env: Env, k: nat, keys: seq<nat>)
    requires 1 <= k <= |keys| <= MAX_PUBKEYS_PER_MULTISIG
    ensures !Succeeds(env, B, LeafScript(env, Multi(k, keys)), [[]], true)
  {
    hide Effect, Succeeds, ExecAll, LeafScript;
    var s := LeafScript(env, Multi(k, keys));
    if Succeeds(env, B, s, [[]], true) {
      var v := ResultB(env, s, [[]], true);
      EffectAt(env, s, [[]], [v], Nil);
      var none: Bytes := [];
      OnFew(none, none, Nil);
      var st := State(Cons(none, Nil), Nil, Nil);
      ReachAt(env, s, Cons(none, Nil), On([v], Nil), st);
      MultiPlain(env, k, keys);
      RunPlain(env, s, st);
      MultiAny(env, k, keys, Cons(none, Nil));
    }
  }
}
