/** The fragments without sub-expressions keep the promises of their types. */
module LeafSoundness {
  import opened Wrappers
  import opened BitcoinScript
  import opened Miniscript
  import opened ScriptNumbers
  import opened ScriptRelations
  import opened StackShape
  import opened CombinatorSoundness

  lemma ExecPrepend(env: Env, op: Op, ops: Script, s: Stack)
    ensures ExecAll(env, [op] + ops, s) ==
            var r := ExecMain(env, op, s); if r.None? then None else ExecAll(env, ops, r.value)
  {
    assert ([op] + ops)[1..] == ops;
  }

  lemma OneSound(env: Env)
    ensures Sound(env, LeafType(One).value, [Small(1)])
  {
    DoesOp(env, Small(1));
    forall s, s' | OpRel(env, Small(1))(s, s') ensures TypeRel(env, LeafType(One).value)(s, s') {
      SmallNumbers(1);
    }
    DoesImplies(env, [Small(1)], OpRel(env, Small(1)), TypeRel(env, LeafType(One).value));
  }

  lemma PkKSound(env: Env, key: nat)
    requires env.Valid()
    ensures Sound(env, LeafType(PkK(key)).value, LeafScript(env, PkK(key)))
  {
    var op, t := Push(env.key(key)), LeafType(PkK(key)).value;
    DoesOp(env, op);
    forall s, s' | OpRel(env, op)(s, s') ensures TypeRel(env, t)(s, s') {
      assert IsKey(env, s'.top);
    }
    DoesImplies(env, [op], OpRel(env, op), TypeRel(env, t));
  }

  /** pk_h leaves the stack as it is, or aborts. */
  lemma PkHExec(env: Env, h: Bytes, s: Stack, s': Stack)
    requires ExecAll(env, [Dup, HashOp(Hash160), Push(h), Equal(true)], s) == Some(s')
    ensures s.Cons? && s' == s && env.hash(Hash160, s.top) == h
  {
    hide DecodeNum, EncodeNum, Truthy;
    assert [Dup, HashOp(Hash160), Push(h), Equal(true)] == [Dup] + ([HashOp(Hash160)] + ([Push(h)] + [Equal(true)]));
    ExecPrepend(env, Dup, [HashOp(Hash160)] + ([Push(h)] + [Equal(true)]), s);
    ExecPrepend(env, HashOp(Hash160), [Push(h)] + [Equal(true)], Cons(s.top, s));
    var d := env.hash(Hash160, s.top);
    ExecPrepend(env, Push(h), [Equal(true)], Cons(d, s));
    ExecOne(env, Equal(true), Cons(h, Cons(d, s)));
    TruthyBool(h == d);
  }

  lemma PkHSound(env: Env, key: nat)
    requires env.Valid()
    ensures Sound(env, LeafType(PkH(key)).value, LeafScript(env, PkH(key)))
  {
    var ops, t := LeafScript(env, PkH(key)), LeafType(PkH(key)).value;
    DoesPlain(env, ops);
    forall s, s' | PlainRel(env, ops)(s, s') ensures TypeRel(env, t)(s, s') {
      PkHExec(env, env.hash(Hash160, env.key(key)), s, s');
      assert Suffix(s.rest, s) && IsKey(env, s'.top);
    }
    DoesImplies(env, ops, PlainRel(env, ops), TypeRel(env, t));
  }

  lemma PkSound(env: Env, key: nat)
    requires env.Valid()
    ensures Sound(env, LeafType(Pk(key)).value, LeafScript(env, Pk(key)))
    ensures Sound(env, LeafType(Pkh(key)).value, LeafScript(env, Pkh(key)))
  {
    PkKSound(env, key);
    WrapCSound(env, LeafType(PkK(key)).value, LeafScript(env, PkK(key)), LeafType(Pk(key)).value);
    assert LeafScript(env, Pk(key)) == LeafScript(env, PkK(key)) + [CheckSig(false)];
    PkHSound(env, key);
    WrapCSound(env, LeafType(PkH(key)).value, LeafScript(env, PkH(key)), LeafType(Pkh(key)).value);
    assert LeafScript(env, Pkh(key)) == LeafScript(env, PkH(key)) + [CheckSig(false)];
  }

  /** One element more on an untouched stack. */
  function PushedRel(): Relation {
    (s: Stack, r: Stack) => r.Cons? && r.rest == s
  }

  lemma DoesPushNum(env: Env, m: nat)
    ensures Does(env, [PushNum(m)], PushedRel())
  {
    DoesOp(env, PushNum(m));
    DoesImplies(env, [PushNum(m)], OpRel(env, PushNum(m)), PushedRel());
  }

  lemma TimelockSound(env: Env, m: nat, op: Op)
    requires op == Csv || op == Cltv
    ensures Sound(env, Type(B, true, false, false, false, false), [PushNum(m), op])
  {
    var t := Type(B, true, false, false, false, false);
    DoesPushNum(env, m);
    DoesOp(env, op);
    DoesAppend(env, [PushNum(m)], PushedRel(), [op], OpRel(env, op), TypeRel(env, t));
    assert [PushNum(m), op] == [PushNum(m)] + [op];
  }

  /** SIZE 32 EQUALVERIFY leaves the stack as it is, or aborts. */
  lemma SizeCheckExec(env: Env, s: Stack, r: Stack)
    requires ExecAll(env, [Size] + ([PushNum(32)] + [Equal(true)]), s) == Some(r)
    ensures s.Cons? && s.top != [] && r == s
  {
    ExecPrepend(env, Size, [PushNum(32)] + [Equal(true)], s);
    var len := EncodeNum(|s.top|);
    ExecPrepend(env, PushNum(32), [Equal(true)], Cons(len, s));
    var thirtyTwo: Bytes := EncodePositive(32);
    ExecOne(env, Equal(true), Cons(thirtyTwo, Cons(len, s)));
    TruthyBool(thirtyTwo == len);
  }

  lemma DigestCheckExec(env: Env, kind: HashKind, h: Bytes, s: Stack, s': Stack)
    requires s.Cons? && ExecAll(env, [HashOp(kind)] + ([Push(h)] + [Equal(false)]), s) == Some(s')
    ensures s' == Cons(Bool(h == env.hash(kind, s.top)), s.rest)
  {
    ExecPrepend(env, HashOp(kind), [Push(h)] + [Equal(false)], s);
    var d := env.hash(kind, s.top);
    ExecPrepend(env, Push(h), [Equal(false)], Cons(d, s.rest));
    ExecOne(env, Equal(false), Cons(h, Cons(d, s.rest)));
  }

  lemma HashLockExec(env: Env, kind: HashKind, h: Bytes, s: Stack, s': Stack)
    requires ExecAll(env, [Size, PushNum(32), Equal(true), HashOp(kind), Push(h), Equal(false)], s) == Some(s')
    ensures s.Cons? && s.top != [] && s' == Cons(Bool(h == env.hash(kind, s.top)), s.rest)
  {
    var o1, o2 := [Size] + ([PushNum(32)] + [Equal(true)]), [HashOp(kind)] + ([Push(h)] + [Equal(false)]);
    assert [Size, PushNum(32), Equal(true), HashOp(kind), Push(h), Equal(false)] == o1 + o2;
    ExecAppend(env, o1, o2, s);
    SizeCheckExec(env, s, ExecAll(env, o1, s).value);
    DigestCheckExec(env, kind, h, s, s');
  }

  lemma HashLockSound(env: Env, kind: HashKind, h: Bytes)
    requires LeafType(HashLock(kind, h)).Some?
    ensures Sound(env, LeafType(HashLock(kind, h)).value, LeafScript(env, HashLock(kind, h)))
  {
    var ops, t := LeafScript(env, HashLock(kind, h)), LeafType(HashLock(kind, h)).value;
    DoesPlain(env, ops);
    forall s, s' | PlainRel(env, ops)(s, s') ensures TypeRel(env, t)(s, s') {
      HashLockExec(env, kind, h, s, s');
      assert Suffix(s.rest, s);
    }
    DoesImplies(env, ops, PlainRel(env, ops), TypeRel(env, t));
  }

  // ---------------------------------------------------------------- multi

  /** The keys in the order in which CHECKMULTISIG pops them, on top of s. */
  function KeysOnStack(env: Env, keys: seq<nat>, s: Stack): Stack {
    if keys == [] then s else KeysOnStack(env, keys[1..], Cons(env.key(keys[0]), s))
  }

  function KeysPopped(env: Env, keys: seq<nat>): (r: seq<Bytes>)
    ensures |r| == |keys|
  {
    if keys == [] then [] else KeysPopped(env, keys[1..]) + [env.key(keys[0])]
  }

  lemma {:induction false} PushKeysPlain(env: Env, keys: seq<nat>)
    ensures |PushKeys(env, keys)| == |keys|
    ensures forall i :: 0 <= i < |keys| ==> PushKeys(env, keys)[i] == Push(env.key(keys[i]))
    decreases keys
  {
    if keys != [] {
      PushKeysPlain(env, keys[1..]);
    }
  }

  lemma {:induction false} ExecAppend(env: Env, a: Script, b: Script, s: Stack)
    ensures ExecAll(env, a + b, s) ==
            var r := ExecAll(env, a, s); if r.None? then None else ExecAll(env, b, r.value)
    decreases a
  {
    if a == [] {
      assert a + b == b;
    } else {
      assert (a + b)[1..] == a[1..] + b;
      var r := ExecMain(env, a[0], s);
      if r.Some? {
        ExecAppend(env, a[1..], b, r.value);
      }
    }
  }

  lemma {:induction false} ExecPushKeys(env: Env, keys: seq<nat>, s: Stack)
    ensures ExecAll(env, PushKeys(env, keys), s) == Some(KeysOnStack(env, keys, s))
    decreases keys
  {
    if keys != [] {
      assert PushKeys(env, keys)[1..] == PushKeys(env, keys[1..]);
      ExecPushKeys(env, keys[1..], Cons(env.key(keys[0]), s));
    }
  }

  lemma {:induction false} PopAppend(s: Stack, m: nat, n: nat, es: seq<Bytes>, r: Stack)
    requires PopN(s, m) == Some((es, r))
    ensures PopN(s, m + n) ==
            var q := PopN(r, n); if q.None? then None else Some((es + q.value.0, q.value.1))
    decreases m
  {
    if m > 0 {
      var tail := PopN(s.rest, m - 1).value;
      PopAppend(s.rest, m - 1, n, tail.0, tail.1);
      var q := PopN(r, n);
      if q.Some? {
        assert [s.top] + (tail.0 + q.value.0) == es + q.value.0;
      }
    } else {
      var q := PopN(r, n);
      if q.Some? {
        assert es + q.value.0 == q.value.0;
      }
    }
  }

  lemma {:induction false} PopKeys(env: Env, keys: seq<nat>, s: Stack)
    ensures PopN(KeysOnStack(env, keys, s), |keys|) == Some((KeysPopped(env, keys), s))
    decreases keys
  {
    if keys != [] {
      var s1 := Cons(env.key(keys[0]), s);
      PopKeys(env, keys[1..], s1);
      PopAppend(KeysOnStack(env, keys, s), |keys| - 1, 1, KeysPopped(env, keys[1..]), s1);
      assert PopN(s1, 1) == Some(([s1.top] + [], s)) by {
        assert PopN(s1.rest, 0) == Some(([], s));
      }
      assert [s1.top] + [] == [env.key(keys[0])];
    }
  }

  lemma {:induction false} PopSuffix(s: Stack, n: nat)
    requires PopN(s, n).Some?
    ensures Suffix(PopN(s, n).value.1, s)
    decreases n
  {
    if n > 0 {
      PopSuffix(s.rest, n - 1);
    }
  }

  /** multi pops k signatures and the extra element, and tells whether the signatures match. */
  lemma MultiExec(env: Env, k: nat, keys: seq<nat>, s: Stack)
    requires 1 <= k <= |keys| <= MAX_PUBKEYS_PER_MULTISIG
    ensures ExecAll(env, LeafScript(env, Multi(k, keys)), s) ==
            var p := PopN(s, k);
            if p.None? || p.value.1.Nil? || p.value.1.top != [] then None
            else Some(Cons(Bool(SigsMatch(env, p.value.0, KeysPopped(env, keys))), p.value.1.rest))
  {
    var n := |keys|;
    SmallNumbers(k);
    SmallNumbers(n);
    var tail := [Small(n)] + [CheckMultisig(false)];
    assert LeafScript(env, Multi(k, keys)) == [Small(k)] + (PushKeys(env, keys) + tail);
    ExecPrepend(env, Small(k), PushKeys(env, keys) + tail, s);
    var s1 := Cons(EncodeNum(k), s);
    var s2 := KeysOnStack(env, keys, s1);
    ExecAppend(env, PushKeys(env, keys), tail, s1);
    ExecPushKeys(env, keys, s1);
    ExecPrepend(env, Small(n), [CheckMultisig(false)], s2);
    ExecOne(env, CheckMultisig(false), Cons(EncodeNum(n), s2));
    PopKeys(env, keys, s1);
  }

  lemma {:induction false} MatchedSigNonEmpty(env: Env, sigs: seq<Bytes>, keys: seq<Bytes>)
    requires env.Valid() && sigs != [] && SigsMatch(env, sigs, keys)
    ensures sigs[0] != []
    decreases keys
  {
    if !env.sigOk(sigs[0], keys[0]) {
      MatchedSigNonEmpty(env, sigs, keys[1..]);
    }
  }

  lemma MultiShape(env: Env, k: nat, keys: seq<nat>, s: Stack, s': Stack)
    requires env.Valid() && LeafType(Multi(k, keys)).Some?
    requires ExecAll(env, LeafScript(env, Multi(k, keys)), s) == Some(s')
    ensures ShapeB(LeafType(Multi(k, keys)).value, s, s')
  {
    MultiExec(env, k, keys, s);
    var p := PopN(s, k).value;
    PopSuffix(s, k);
    SuffixTransitive(s'.rest, p.1, s);
    TruthyBool(SigsMatch(env, p.0, KeysPopped(env, keys)));
    if SigsMatch(env, p.0, KeysPopped(env, keys)) {
      MatchedSigNonEmpty(env, p.0, KeysPopped(env, keys));
      assert p.0[0] == s.top;
    }
  }

  lemma MultiSound(env: Env, k: nat, keys: seq<nat>)
    requires env.Valid() && LeafType(Multi(k, keys)).Some?
    ensures Sound(env, LeafType(Multi(k, keys)).value, LeafScript(env, Multi(k, keys)))
  {
    var ops, t := LeafScript(env, Multi(k, keys)), LeafType(Multi(k, keys)).value;
    PushKeysPlain(env, keys);
    DoesPlain(env, ops);
    forall s, s' | PlainRel(env, ops)(s, s') ensures TypeRel(env, t)(s, s') {
      MultiShape(env, k, keys, s, s');
    }
    DoesImplies(env, ops, PlainRel(env, ops), TypeRel(env, t));
  }

  lemma LeafSound(env: Env, n: Leaf, t: Type)
    requires env.Valid() && LeafType(n) == Some(t)
    ensures Sound(env, t, LeafScript(env, n))
  {
    match n
    case Zero => PushZeroSound(env);
    case One => OneSound(env);
    case PkK(key) => PkKSound(env, key);
    case PkH(key) => PkHSound(env, key);
    case Pk(key) => PkSound(env, key);
    case Pkh(key) => PkSound(env, key);
    case Older(m) => TimelockSound(env, m, Csv);
    case After(m) => TimelockSound(env, m, Cltv);
    case HashLock(kind, h) => HashLockSound(env, kind, h);
    case Multi(k, keys) => MultiSound(env, k, keys);
  }
}
