/** Every canonical satisfaction satisfies, and every canonical dissatisfaction dissatisfies, the script
    of its expression. */
module CanonicalRuns {
  import opened Wrappers
  import opened BitcoinScript
  import opened Miniscript
  import opened ScriptNumbers
  import opened ScriptRelations
  import opened StackShape
  import opened LeafSoundness
  import opened TypeSoundness
  import opened Satisfaction
  import opened ScriptEffects
  import opened SatisfactionRuns

  // ---------------------------------------------------------------- leaves

  lemma PushEffect(env: Env, data: Bytes)
    ensures Effect(env, [Push(data)], [], [data])
  {
    hide On;
    forall rest ensures ExecMain(env, Push(data), On([], rest)) == Some(On([data], rest)) {
      OnFew(data, data, rest);
    }
    EffectOp(env, Push(data), [], [data]);
  }

  lemma EqualEffect(env: Env, a: Bytes)
    ensures Effect(env, [Equal(false)], [a, a], [[1]]) && Effect(env, [Equal(true)], [a, a], [])
  {
    hide On, Truthy;
    OneGood();
    forall rest
      ensures ExecMain(env, Equal(false), On([a, a], rest)) == Some(On([[1]], rest))
      ensures ExecMain(env, Equal(true), On([a, a], rest)) == Some(On([], rest))
    {
      OnFew(a, a, rest);
      OnFew([1], [1], rest);
    }
    EffectOp(env, Equal(false), [a, a], [[1]]);
    EffectOp(env, Equal(true), [a, a], []);
  }

  lemma HashEffect(env: Env, kind: HashKind, a: Bytes)
    ensures Effect(env, [HashOp(kind)], [a], [env.hash(kind, a)])
  {
    hide On;
    forall rest ensures ExecMain(env, HashOp(kind), On([a], rest)) == Some(On([env.hash(kind, a)], rest)) {
      OnFew(a, a, rest);
      OnFew(env.hash(kind, a), a, rest);
    }
    EffectOp(env, HashOp(kind), [a], [env.hash(kind, a)]);
  }

  /** Pushing data that equals the top element, and comparing. */
  lemma CompareEffect(env: Env, a: Bytes)
    ensures Effect(env, [Push(a), Equal(true)], [a], []) && Effect(env, [Push(a), Equal(false)], [a], [[1]])
  {
    hide Effect;
    PushEffect(env, a);
    EqualEffect(env, a);
    assert [a] + [a] == [a, a] && [] + [a] == [a];
    EffectSeq(env, [Push(a)], [Equal(true)], [], [a], [a], []);
    EffectSeq(env, [Push(a)], [Equal(false)], [], [a], [a], [[1]]);
    assert [Push(a)] + [Equal(true)] == [Push(a), Equal(true)] && [Push(a)] + [Equal(false)] == [Push(a), Equal(false)];
  }

  lemma PkKRuns(env: Env, key: nat, sig: Bytes, sat: bool)
    requires env.sigOk(sig, env.key(key)) == sat
    ensures Succeeds(env, K, [Push(env.key(key))], [sig], sat)
  {
    hide Effect;
    PushEffect(env, env.key(key));
    EffectFrame(env, [Push(env.key(key))], [], [env.key(key)], [sig]);
    assert [] + [sig] == [sig] && [env.key(key)] + [sig] == [env.key(key), sig];
    SucceedsAs(env, K, [Push(env.key(key))], [sig], sat, [env.key(key), sig]);
  }

  lemma PkHEffect(env: Env, k: Bytes)
    ensures Effect(env, [Dup, HashOp(Hash160), Push(env.hash(Hash160, k)), Equal(true)], [k], [k])
  {
    hide Effect;
    var h := env.hash(Hash160, k);
    DupEffect(env, k);
    HashEffect(env, Hash160, k);
    CompareEffect(env, h);
    assert [k] + [k] == [k, k] && [h] + [] == [h];
    assert [k] + [] == [k] && [] + [k] == [k];
    EffectSeq(env, [HashOp(Hash160)], [Push(h), Equal(true)], [k], [h], [], []);
    EffectFrame(env, [HashOp(Hash160)] + [Push(h), Equal(true)], [k], [], [k]);
    assert [k, k] + [] == [k, k];
    EffectSeq(env, [Dup], [HashOp(Hash160)] + [Push(h), Equal(true)], [k], [k, k], [], [k]);
    assert [Dup] + ([HashOp(Hash160)] + [Push(h), Equal(true)]) == [Dup, HashOp(Hash160), Push(h), Equal(true)];
  }

  lemma PkHRuns(env: Env, key: nat, sig: Bytes, sat: bool)
    requires env.sigOk(sig, env.key(key)) == sat
    ensures Succeeds(env, K, LeafScript(env, PkH(key)), [env.key(key), sig], sat)
  {
    hide Effect;
    var k := env.key(key);
    PkHEffect(env, k);
    EffectFrame(env, LeafScript(env, PkH(key)), [k], [k], [sig]);
    assert [k] + [sig] == [k, sig];
    SucceedsAs(env, K, LeafScript(env, PkH(key)), [k, sig], sat, [k, sig]);
  }

  lemma SizeIs32(env: Env, p: Bytes)
    requires |p| == 32
    ensures Effect(env, [Size], [p], [[32], p])
  {
    hide On;
    forall rest ensures ExecMain(env, Size, On([p], rest)) == Some(On([[32], p], rest)) {
      OnFew(p, p, rest);
      OnFew([32], p, rest);
    }
    EffectOp(env, Size, [p], [[32], p]);
  }

  lemma DigestEffect(env: Env, h: Bytes, d: Bytes)
    ensures Effect(env, [Push(h), Equal(false)], [d], [Bool(h == d)])
  {
    hide On;
    PushEffect(env, h);
    EffectFrame(env, [Push(h)], [], [h], [d]);
    assert [] + [d] == [d] && [h] + [d] == [h, d];
    forall rest ensures ExecMain(env, Equal(false), On([h, d], rest)) == Some(On([Bool(h == d)], rest)) {
      OnFew(h, d, rest);
      OnFew(Bool(h == d), d, rest);
    }
    EffectThenOp(env, [Push(h)], Equal(false), [d], [h, d], [Bool(h == d)]);
    assert [Push(h)] + [Equal(false)] == [Push(h), Equal(false)];
  }

  /** A hash lock tells for any 32 bytes whether they are the preimage. */
  lemma HashLockRuns(env: Env, kind: HashKind, h: Bytes, p: Bytes)
    requires |p| == 32
    ensures Succeeds(env, B, LeafScript(env, HashLock(kind, h)), [p], env.hash(kind, p) == h)
  {
    hide Effect;
    var d := env.hash(kind, p);
    SizeIs32(env, p);
    CompareEffect(env, [32]);
    DigestEffect(env, h, d);
    HashEffect(env, kind, p);
    var sized := [Size] + [Push([32]), Equal(true)];
    EffectFrame(env, [Push([32]), Equal(true)], [[32]], [], [p]);
    assert [[32]] + [p] == [[32], p] + [] && [] + [p] == [p] && [p] + [] == [p];
    EffectSeq(env, [Size], [Push([32]), Equal(true)], [p], [[32], p], [], [p]);
    EffectSeq(env, sized, [HashOp(kind)], [p], [p], [], [d]);
    assert [d] + [] == [d];
    EffectSeq(env, sized + [HashOp(kind)], [Push(h), Equal(false)], [p], [d], [], [Bool(h == d)]);
    assert PushNum(32) == Push([32]);
    assert sized + [HashOp(kind)] + [Push(h), Equal(false)] == LeafScript(env, HashLock(kind, h));
    OneGood();
    SucceedsB(env, LeafScript(env, HashLock(kind, h)), [p], d == h, Bool(h == d));
  }

  lemma TimelockRuns(env: Env, m: nat, op: Op)
    requires 1 <= m < 0x8000_0000 && (op == Csv || op == Cltv)
    requires if op == Csv then env.csvOk(EncodeNum(m)) else env.cltvOk(EncodeNum(m))
    ensures Succeeds(env, B, [PushNum(m), op], [], true) && Effect(env, [PushNum(m), op], [], [EncodeNum(m)])
  {
    hide On, EncodeNum, PushNum, Effect;
    var n := EncodeNum(m);
    NumberRoundTrip(m);
    PlainNum(m);
    forall rest ensures ExecMain(env, PushNum(m), On([], rest)) == Some(On([n], rest)) {
      OnFew(n, n, rest);
      PushNumExec(env, m, rest);
    }
    EffectOp(env, PushNum(m), [], [n]);
    forall rest ensures ExecMain(env, op, On([n], rest)) == Some(On([n], rest)) {
      OnFew(n, n, rest);
    }
    EffectThenOp(env, [PushNum(m)], op, [], [n], [n]);
    assert [PushNum(m)] + [op] == [PushNum(m), op];
    SucceedsB(env, [PushNum(m), op], [], true, n);
  }

  // ---------------------------------------------------------------- multi

  lemma {:induction false} PopOn(w: seq<Bytes>, rest: Stack)
    ensures PopN(On(w, rest), |w|) == Some((w, rest))
    decreases w
  {
    if w != [] {
      PopOn(w[1..], rest);
      assert [w[0]] + w[1..] == w;
    }
  }

  /** A further key at the end does not hurt, and takes a further signature. */
  lemma {:induction false} MatchMore(env: Env, sigs: seq<Bytes>, keys: seq<Bytes>, k: Bytes)
    requires SigsMatch(env, sigs, keys)
    ensures SigsMatch(env, sigs, keys + [k])
    decreases keys
  {
    if sigs != [] {
      assert (keys + [k])[1..] == keys[1..] + [k];
      if env.sigOk(sigs[0], keys[0]) {
        MatchMore(env, sigs[1..], keys[1..], k);
      } else {
        MatchMore(env, sigs, keys[1..], k);
      }
    }
  }

  lemma {:induction false} MatchOneMore(env: Env, sigs: seq<Bytes>, keys: seq<Bytes>, g: Bytes, k: Bytes)
    requires SigsMatch(env, sigs, keys) && env.sigOk(g, k)
    ensures SigsMatch(env, sigs + [g], keys + [k])
    decreases keys
  {
    var s, t := sigs + [g], keys + [k];
    if keys == [] {
      assert s == [g] && t == [k] && s[1..] == [];
    } else {
      assert t[1..] == keys[1..] + [k];
      if sigs == [] {
        assert s == [g] && s[1..] == [];
        MatchOneMore(env, [], keys[1..], g, k);
        assert [] + [g] == [g];
      } else {
        assert s[1..] == sigs[1..] + [g];
        if env.sigOk(sigs[0], keys[0]) {
          MatchOneMore(env, sigs[1..], keys[1..], g, k);
        } else {
          MatchOneMore(env, sigs, keys[1..], g, k);
        }
      }
    }
  }

  /** Valid signatures for k of the keys, in order, pass the check, whichever keys they also happen to fit. */
  lemma {:induction false} SigsPass(env: Env, g: Signer, keys: seq<nat>, k: nat, es: seq<Elem>)
    requires MultiSigs(keys, k, es) && forall i :: 0 <= i < |es| ==> ElemOk(env, g, es[i])
    ensures |es| == k && SigsMatch(env, Values(env, g, es), KeysPopped(env, keys))
    decreases keys, k
  {
    if keys != [] {
      var first := env.key(keys[0]);
      if MultiSigs(keys[1..], k, es) {
        SigsPass(env, g, keys[1..], k, es);
        MatchMore(env, Values(env, g, es), KeysPopped(env, keys[1..]), first);
      } else {
        var init, last := es[..|es| - 1], es[|es| - 1];
        SigsPass(env, g, keys[1..], k - 1, init);
        assert ElemOk(env, g, last);
        assert Value(env, g, last) == g.sig(keys[0]);
        MatchOneMore(env, Values(env, g, init), KeysPopped(env, keys[1..]), g.sig(keys[0]), first);
        assert Values(env, g, es) == Values(env, g, init) + [g.sig(keys[0])];
      }
    }
  }

  lemma MultiRuns(env: Env, k: nat, keys: seq<nat>, sigs: seq<Bytes>)
    requires 1 <= k <= |keys| <= MAX_PUBKEYS_PER_MULTISIG && |sigs| == k
    ensures Succeeds(env, B, LeafScript(env, Multi(k, keys)), sigs + [[]], SigsMatch(env, sigs, KeysPopped(env, keys)))
  {
    hide Truthy, SigsMatch, PopN;
    var ops, sat := LeafScript(env, Multi(k, keys)), SigsMatch(env, sigs, KeysPopped(env, keys));
    PushKeysPlain(env, keys);
    PlainNum(k);
    PlainNum(|keys|);
    forall rest ensures ExecAll(env, ops, On(sigs + [[]], rest)) == Some(On([Bool(sat)], rest)) {
      MultiOn(env, k, keys, sigs, rest);
    }
    EffectPlain(env, ops, sigs + [[]], [Bool(sat)]);
    OneGood();
    SucceedsB(env, ops, sigs + [[]], sat, Bool(sat));
  }

  lemma MultiOn(env: Env, k: nat, keys: seq<nat>, sigs: seq<Bytes>, rest: Stack)
    requires 1 <= k <= |keys| <= MAX_PUBKEYS_PER_MULTISIG && |sigs| == k
    ensures ExecAll(env, LeafScript(env, Multi(k, keys)), On(sigs + [[]], rest))
            == Some(On([Bool(SigsMatch(env, sigs, KeysPopped(env, keys)))], rest))
  {
    hide ExecAll, LeafScript, SigsMatch, On, PopN;
    OnJoin(sigs, [[]], rest);
    OnFew([], [], rest);
    PopOn(sigs, Cons([], rest));
    MultiExec(env, k, keys, On(sigs + [[]], rest));
    OnFew(Bool(SigsMatch(env, sigs, KeysPopped(env, keys))), [], rest);
  }

  lemma MultiLeafRuns(env: Env, g: Signer, k: nat, keys: seq<nat>, a: Way, sat: bool)
    requires env.Valid() && LeafType(Multi(k, keys)).Some? && LeafWays(Multi(k, keys), sat)(a) && Supplied(env, g, a)
    ensures Succeeds(env, B, LeafScript(env, Multi(k, keys)), Values(env, g, a.w), sat)
  {
    hide Succeeds, LeafScript, ElemOk, Value;
    if sat {
      var es :| MultiSigs(keys, k, es) && a == Way(es + [EmptyElem], {});
      assert forall i :: 0 <= i < |es| ==> a.w[i] == es[i];
      SigsPass(env, g, keys, k, es);
      EmptyValue(env, g);
      assert Values(env, g, a.w) == Values(env, g, es) + [[]];
      MultiRuns(env, k, keys, Values(env, g, es));
    } else {
      var sigs := seq(k, _ => []);
      NoMatch(env, sigs, KeysPopped(env, keys));
      EmptyValue(env, g);
      assert Values(env, g, a.w) == sigs + [[]];
      MultiRuns(env, k, keys, sigs);
    }
  }

  lemma EmptyValue(env: Env, g: Signer)
    ensures Value(env, g, EmptyElem) == []
  {
  }

  lemma NoMatch(env: Env, sigs: seq<Bytes>, keys: seq<Bytes>)
    requires env.Valid() && sigs != [] && sigs[0] == []
    ensures !SigsMatch(env, sigs, keys)
  {
    if SigsMatch(env, sigs, keys) {
      MatchedSigNonEmpty(env, sigs, keys);
    }
  }

  lemma KeyElems(env: Env, g: Signer, key: nat, sat: bool)
    requires env.Valid() && (sat ==> ElemOk(env, g, Signature(key)))
    ensures env.sigOk(Value(env, g, SigOrEmpty(key, sat)), env.key(key)) == sat
  {
  }

  lemma LeafRuns(env: Env, g: Signer, leaf: Leaf, a: Way, sat: bool)
    requires env.Valid() && LeafType(leaf).Some? && LeafWays(leaf, sat)(a) && Supplied(env, g, a)
    ensures Succeeds(env, LeafType(leaf).value.base, LeafScript(env, leaf), Values(env, g, a.w), sat)
  {
    hide Succeeds, Truthy, Good;
    var w := Values(env, g, a.w);
    match leaf
    case Zero =>
      ZeroRuns(env);
      assert w == [];
    case One =>
      OneRuns(env);
      assert w == [];
    case Older(m) =>
      assert Lock(false, m) in a.locks && w == [];
      TimelockRuns(env, m, Csv);
    case After(m) =>
      assert Lock(true, m) in a.locks && w == [];
      TimelockRuns(env, m, Cltv);
    case HashLock(kind, h) =>
      assert ElemOk(env, g, a.w[0]) && w == [g.preimage(kind, h)];
      HashLockRuns(env, kind, h, g.preimage(kind, h));
    case Multi(k, keys) =>
      MultiLeafRuns(env, g, k, keys, a, sat);
    case _ =>
      KeyLeafRuns(env, g, leaf, a, sat);
  }

  lemma OneRuns(env: Env)
    ensures Succeeds(env, B, [Small(1)], [], true)
  {
    hide Effect, Truthy, Skips;
    SmallEffect(env, 1);
    OneGood();
    SucceedsB(env, [Small(1)], [], true, [1]);
  }

  lemma KeyLeafRuns(env: Env, g: Signer, leaf: Leaf, a: Way, sat: bool)
    requires env.Valid() && (leaf.PkK? || leaf.PkH? || leaf.Pk? || leaf.Pkh?) && LeafWays(leaf, sat)(a)
             && Supplied(env, g, a)
    ensures Succeeds(env, LeafType(leaf).value.base, LeafScript(env, leaf), Values(env, g, a.w), sat)
  {
    hide Succeeds;
    var key := leaf.key;
    var e := SigOrEmpty(key, sat);
    var sig := Value(env, g, e);
    assert ElemOk(env, g, a.w[|a.w| - 1]) && a.w[|a.w| - 1] == e;
    KeyElems(env, g, key, sat);
    if leaf.PkK? || leaf.Pk? {
      assert Values(env, g, a.w) == [sig];
      PkKRuns(env, key, sig, sat);
      WrapCRuns(env, [Push(env.key(key))], [sig], sat);
      assert [Push(env.key(key))] + [CheckSig(false)] == [Push(env.key(key)), CheckSig(false)];
    } else {
      assert Values(env, g, a.w) == [env.key(key), sig];
      PkHRuns(env, key, sig, sat);
      var s := LeafScript(env, PkH(key));
      WrapCRuns(env, s, [env.key(key), sig], sat);
      assert s + [CheckSig(false)] == LeafScript(env, Pkh(key));
    }
  }

  // ---------------------------------------------------------------- the theorem

  /** The interpreter adds numbers of at most four bytes, which bounds the sum of thresh(). */
  predicate Counted(n: Node)
    decreases n
  {
    match n
    case Atom(_) => true
    case Wrap(_, x) => Counted(x)
    case Binary(_, x, y) => Counted(x) && Counted(y)
    case AndOr(x, y, z) => Counted(x) && Counted(y) && Counted(z)
    case Thresh(_, xs) => |xs| <= 0x7fff_ffff && forall i :: 0 <= i < |xs| ==> Counted(xs[i])
  }

  /** All the ways of an expression, given as its pair, run as they should on its script. */
  ghost predicate Runs(env: Env, g: Signer, base: Base, s: Script, p: Pair) {
    forall sat, a :: p.Of(sat)(a) && Supplied(env, g, a) ==> Succeeds(env, base, s, Values(env, g, a.w), sat)
  }

  lemma RunsAt(env: Env, g: Signer, base: Base, s: Script, p: Pair, sat: bool, a: Way)
    requires Runs(env, g, base, s, p) && p.Of(sat)(a) && Supplied(env, g, a)
    ensures Succeeds(env, base, s, Values(env, g, a.w), sat)
  {
  }

  lemma Parts(p: Ways, q: Ways, a: Way) returns (b: Way, c: Way)
    requires JoinOf(p, q)(a)
    ensures p(b) && q(c) && a == Join(b, c)
  {
    b, c :| p(b) && q(c) && a == Join(b, c);
  }

  lemma Inner(e: Elem, p: Ways, a: Way) returns (b: Way)
    requires PrefixedBy(e, p)(a)
    ensures p(b) && a == Prefixed(e, b)
  {
    b :| p(b) && a == Prefixed(e, b);
  }

  /** Two parts, one after the other on the stack. */
  lemma TwoParts(env: Env, g: Signer, baseX: Base, x: Script, px: Pair, sx: bool, baseY: Base, y: Script, py: Pair,
      sy: bool, a: Way) returns (b: Way, c: Way)
    requires Runs(env, g, baseX, x, px) && Runs(env, g, baseY, y, py) && JoinOf(px.Of(sx), py.Of(sy))(a)
             && Supplied(env, g, a)
    ensures Succeeds(env, baseX, x, Values(env, g, b.w), sx) && Succeeds(env, baseY, y, Values(env, g, c.w), sy)
    ensures Values(env, g, a.w) == Values(env, g, b.w) + Values(env, g, c.w)
  {
    hide Succeeds, Runs, Supplied, Values, JoinOf;
    b, c := Parts(px.Of(sx), py.Of(sy), a);
    SuppliedJoin(env, g, b, c);
    RunsAt(env, g, baseX, x, px, sx, b);
    RunsAt(env, g, baseY, y, py, sy, c);
  }

  lemma AndOrAll(env: Env, g: Signer, base: Base, x: Script, y: Script, z: Script, px: Pair, py: Pair, pz: Pair)
    requires base != W && Skips(env, y) && Skips(env, z)
    requires Runs(env, g, B, x, px) && Runs(env, g, base, y, py) && Runs(env, g, base, z, pz)
    ensures Runs(env, g, base, x + [If(true)] + z + [Else] + y + [EndIf], AndOrWays(px, py, pz))
  {
    hide Succeeds, Skips, Supplied, Values, JoinOf;
    var s := x + [If(true)] + z + [Else] + y + [EndIf];
    forall sat, a | AndOrWays(px, py, pz).Of(sat)(a) && Supplied(env, g, a)
      ensures Succeeds(env, base, s, Values(env, g, a.w), sat)
    {
      if sat && JoinOf(px.sat, py.sat)(a) {
        var b, c := TwoParts(env, g, B, x, px, true, base, y, py, sat, a);
        AndOrRuns(env, base, x, y, z, Values(env, g, b.w), Values(env, g, c.w), true, sat);
      } else {
        var b, c := TwoParts(env, g, B, x, px, false, base, z, pz, sat, a);
        AndOrRuns(env, base, x, y, z, Values(env, g, b.w), Values(env, g, c.w), false, sat);
      }
    }
  }

  lemma AndVAll(env: Env, g: Signer, base: Base, x: Script, y: Script, px: Pair, py: Pair)
    requires base != W && Runs(env, g, V, x, px) && Runs(env, g, base, y, py)
    ensures Runs(env, g, base, x + y, AndVWays(px, py))
  {
    hide Succeeds, Supplied, Values, JoinOf;
    forall sat, a | AndVWays(px, py).Of(sat)(a) && Supplied(env, g, a)
      ensures Succeeds(env, base, x + y, Values(env, g, a.w), sat)
    {
      var b, c := TwoParts(env, g, V, x, px, true, base, y, py, true, a);
      AndVRuns(env, base, x, y, Values(env, g, b.w), Values(env, g, c.w));
    }
  }

  lemma AndBAll(env: Env, g: Signer, x: Script, y: Script, px: Pair, py: Pair)
    requires Runs(env, g, B, x, px) && Runs(env, g, W, y, py)
    ensures Runs(env, g, B, x + y + [BoolAnd], AndBWays(px, py))
  {
    hide Succeeds, Supplied, Values, JoinOf;
    forall sat, a | AndBWays(px, py).Of(sat)(a) && Supplied(env, g, a)
      ensures Succeeds(env, B, x + y + [BoolAnd], Values(env, g, a.w), sat)
    {
      var b, c := TwoParts(env, g, B, x, px, sat, W, y, py, sat, a);
      BoolRuns(env, BoolAnd, x, y, Values(env, g, b.w), Values(env, g, c.w), sat, sat);
    }
  }

  lemma OrBAll(env: Env, g: Signer, x: Script, z: Script, px: Pair, pz: Pair)
    requires Runs(env, g, B, x, px) && Runs(env, g, W, z, pz)
    ensures Runs(env, g, B, x + z + [BoolOr], OrBWays(px, pz))
  {
    hide Succeeds, Supplied, Values, JoinOf;
    forall sat, a | OrBWays(px, pz).Of(sat)(a) && Supplied(env, g, a)
      ensures Succeeds(env, B, x + z + [BoolOr], Values(env, g, a.w), sat)
    {
      var sx := sat && !JoinOf(px.dsat, pz.sat)(a);
      var sz := sat && !sx;
      var b, c := TwoParts(env, g, B, x, px, sx, W, z, pz, sz, a);
      BoolRuns(env, BoolOr, x, z, Values(env, g, b.w), Values(env, g, c.w), sx, sz);
    }
  }

  lemma AndNAll(env: Env, g: Signer, x: Script, y: Script, px: Pair, py: Pair)
    requires Skips(env, y) && Runs(env, g, B, x, px) && Runs(env, g, B, y, py)
    ensures Runs(env, g, B, x + [If(true), Small(0), Else] + y + [EndIf], AndNWays(px, py))
  {
    hide Succeeds, Supplied, Values, JoinOf, Skips;
    var s := x + [If(true), Small(0), Else] + y + [EndIf];
    ZeroRuns(env);
    assert s == x + [If(true)] + [Small(0)] + [Else] + y + [EndIf];
    forall sat, a | AndNWays(px, py).Of(sat)(a) && Supplied(env, g, a)
      ensures Succeeds(env, B, s, Values(env, g, a.w), sat)
    {
      if sat {
        var b, c := TwoParts(env, g, B, x, px, true, B, y, py, true, a);
        AndOrRuns(env, B, x, y, [Small(0)], Values(env, g, b.w), Values(env, g, c.w), true, true);
      } else {
        RunsAt(env, g, B, x, px, false, a);
        assert Values(env, g, a.w) + [] == Values(env, g, a.w);
        AndOrRuns(env, B, x, y, [Small(0)], Values(env, g, a.w), [], false, false);
      }
    }
  }

  lemma OrCAll(env: Env, g: Signer, x: Script, z: Script, px: Pair, pz: Pair)
    requires Skips(env, z) && Runs(env, g, B, x, px) && Runs(env, g, V, z, pz)
    ensures Runs(env, g, V, x + [If(true)] + z + [EndIf], OrCWays(px, pz))
  {
    hide Succeeds, Supplied, Values, JoinOf, Skips;
    var s := x + [If(true)] + z + [EndIf];
    forall sat, a | OrCWays(px, pz).Of(sat)(a) && Supplied(env, g, a)
      ensures Succeeds(env, V, s, Values(env, g, a.w), sat)
    {
      if px.sat(a) {
        RunsAt(env, g, B, x, px, true, a);
        assert Values(env, g, a.w) + [] == Values(env, g, a.w);
        OrCRuns(env, x, z, Values(env, g, a.w), [], true);
      } else {
        var b, c := TwoParts(env, g, B, x, px, false, V, z, pz, true, a);
        OrCRuns(env, x, z, Values(env, g, b.w), Values(env, g, c.w), false);
      }
    }
  }

  lemma OrDAll(env: Env, g: Signer, x: Script, z: Script, px: Pair, pz: Pair)
    requires Skips(env, z) && Runs(env, g, B, x, px) && Runs(env, g, B, z, pz)
    ensures Runs(env, g, B, x + [IfDup, If(true)] + z + [EndIf], OrDWays(px, pz))
  {
    hide Succeeds, Supplied, Values, JoinOf, Skips;
    var s := x + [IfDup, If(true)] + z + [EndIf];
    forall sat, a | OrDWays(px, pz).Of(sat)(a) && Supplied(env, g, a)
      ensures Succeeds(env, B, s, Values(env, g, a.w), sat)
    {
      if sat && px.sat(a) {
        RunsAt(env, g, B, x, px, true, a);
        assert Values(env, g, a.w) + [] == Values(env, g, a.w);
        OrDRuns(env, x, z, Values(env, g, a.w), [], true, true);
      } else {
        var b, c := TwoParts(env, g, B, x, px, false, B, z, pz, sat, a);
        OrDRuns(env, x, z, Values(env, g, b.w), Values(env, g, c.w), false, sat);
      }
    }
  }

  /** One part behind a fixed element. */
  lemma OnePart(env: Env, g: Signer, base: Base, x: Script, px: Pair, sat: bool, e: Elem, a: Way) returns (b: Way)
    requires Runs(env, g, base, x, px) && PrefixedBy(e, px.Of(sat))(a) && Supplied(env, g, a)
    ensures Succeeds(env, base, x, Values(env, g, b.w), sat)
            && Values(env, g, a.w) == [Value(env, g, e)] + Values(env, g, b.w)
  {
    hide Succeeds, Runs, Supplied, Values, PrefixedBy;
    b := Inner(e, px.Of(sat), a);
    SuppliedPrefixed(env, g, e, b);
    RunsAt(env, g, base, x, px, sat, b);
  }

  lemma OrIAll(env: Env, g: Signer, base: Base, x: Script, z: Script, px: Pair, pz: Pair)
    requires base != W && Skips(env, x) && Skips(env, z) && Runs(env, g, base, x, px) && Runs(env, g, base, z, pz)
    ensures Runs(env, g, base, [If(false)] + x + [Else] + z + [EndIf], OrIWays(px, pz))
  {
    hide Succeeds, Supplied, Values, PrefixedBy, Skips;
    var s := [If(false)] + x + [Else] + z + [EndIf];
    forall sat, a | OrIWays(px, pz).Of(sat)(a) && Supplied(env, g, a)
      ensures Succeeds(env, base, s, Values(env, g, a.w), sat)
    {
      if PrefixedBy(OneElem, px.Of(sat))(a) {
        var b := OnePart(env, g, base, x, px, sat, OneElem, a);
        OrIRuns(env, base, x, z, Values(env, g, b.w), true, sat);
      } else {
        var b := OnePart(env, g, base, z, pz, sat, EmptyElem, a);
        OrIRuns(env, base, x, z, Values(env, g, b.w), false, sat);
      }
    }
  }

  // ---------------------------------------------------------------- wrappers

  lemma ValueSizes(env: Env, g: Signer, a: Way)
    requires env.Valid() && Supplied(env, g, a)
    ensures forall i :: 0 <= i < |a.w| ==> |Values(env, g, a.w)[i]| <= 520
  {
    forall i | 0 <= i < |a.w| ensures |Values(env, g, a.w)[i]| <= 520 {
      assert ElemOk(env, g, a.w[i]);
    }
  }

  lemma FixedElems(env: Env, g: Signer)
    ensures Values(env, g, JustElem(EmptyElem).w) == [Bool(false)]
            && Values(env, g, JustElem(OneElem).w) == [Bool(true)]
    ensures Value(env, g, EmptyElem) == Bool(false) && Value(env, g, OneElem) == Bool(true)
  {
  }

  /** Wrappers that leave the witness as it is. */
  lemma SameWitness(env: Env, g: Signer, tx: Type, x: Script, w: Wrapper, t: Type, a: Way, sat: bool)
    requires env.Valid() && Sound(env, tx, x) && WrapType(w, tx) == Some(t) && w !in {WrapD, WrapL, WrapU, WrapJ}
    requires Succeeds(env, tx.base, x, Values(env, g, a.w), sat) && (w in {WrapT, WrapV} ==> sat)
    ensures Succeeds(env, t.base, WrapScript(w, x), Values(env, g, a.w), sat)
  {
    hide Succeeds, Sound, Values, AddVerify;
    var v := Values(env, g, a.w);
    match w
    case WrapA => WrapARuns(env, x, v, sat);
    case WrapS => WrapSRuns(env, tx, x, v, sat);
    case WrapC => WrapCRuns(env, x, v, sat);
    case WrapT => WrapTRuns(env, x, v);
    case WrapV => WrapVRuns(env, x, v);
    case WrapN => WrapNRuns(env, x, v, sat);
  }

  lemma WrapDAll(env: Env, g: Signer, tx: Type, x: Script, px: Pair)
    requires Sound(env, tx, x) && Skips(env, x) && tx.base == V && tx.z && Runs(env, g, V, x, px)
    ensures Runs(env, g, B, WrapScript(WrapD, x), WrapWays(WrapD, px))
  {
    hide Succeeds, Supplied, Values, PrefixedBy, Skips, Sound, Value;
    var s := WrapScript(WrapD, x);
    FixedElems(env, g);
    forall sat, a | WrapWays(WrapD, px).Of(sat)(a) && Supplied(env, g, a)
      ensures Succeeds(env, B, s, Values(env, g, a.w), sat)
    {
      if sat {
        var b := OnePart(env, g, V, x, px, true, OneElem, a);
        WrapDRuns(env, tx, x, Values(env, g, b.w), true);
      } else {
        assert [Bool(false)] + [] == [Bool(false)];
        WrapDRuns(env, tx, x, [], false);
      }
    }
  }

  lemma WrapJAll(env: Env, g: Signer, tx: Type, x: Script, px: Pair)
    requires env.Valid() && Sound(env, tx, x) && Skips(env, x) && tx.base == B && tx.n && Runs(env, g, B, x, px)
    ensures Runs(env, g, B, WrapScript(WrapJ, x), WrapWays(WrapJ, px))
  {
    hide Succeeds, Supplied, Values, Skips, Sound, Value;
    var s := WrapScript(WrapJ, x);
    FixedElems(env, g);
    forall sat, a | WrapWays(WrapJ, px).Of(sat)(a) && Supplied(env, g, a)
      ensures Succeeds(env, B, s, Values(env, g, a.w), sat)
    {
      ValueSizes(env, g, a);
      if sat {
        RunsAt(env, g, B, x, px, true, a);
      }
      WrapJRuns(env, tx, x, Values(env, g, a.w), sat);
    }
  }

  lemma WrapLAll(env: Env, g: Signer, x: Script, px: Pair)
    requires Skips(env, x) && Runs(env, g, B, x, px)
    ensures Runs(env, g, B, WrapScript(WrapL, x), WrapWays(WrapL, px))
  {
    hide Succeeds, Supplied, Values, PrefixedBy, Skips, Value;
    var s := WrapScript(WrapL, x);
    FixedElems(env, g);
    forall sat, a | WrapWays(WrapL, px).Of(sat)(a) && Supplied(env, g, a)
      ensures Succeeds(env, B, s, Values(env, g, a.w), sat)
    {
      if PrefixedBy(EmptyElem, px.Of(sat))(a) {
        var b := OnePart(env, g, B, x, px, sat, EmptyElem, a);
        WrapLRuns(env, x, Values(env, g, b.w), false, sat);
      } else {
        assert [Bool(true)] + [] == [Bool(true)];
        WrapLRuns(env, x, [], true, false);
      }
    }
  }

  lemma WrapUAll(env: Env, g: Signer, x: Script, px: Pair)
    requires Skips(env, x) && Runs(env, g, B, x, px)
    ensures Runs(env, g, B, WrapScript(WrapU, x), WrapWays(WrapU, px))
  {
    hide Succeeds, Supplied, Values, PrefixedBy, Skips, Value;
    var s := WrapScript(WrapU, x);
    FixedElems(env, g);
    forall sat, a | WrapWays(WrapU, px).Of(sat)(a) && Supplied(env, g, a)
      ensures Succeeds(env, B, s, Values(env, g, a.w), sat)
    {
      if PrefixedBy(OneElem, px.Of(sat))(a) {
        var b := OnePart(env, g, B, x, px, sat, OneElem, a);
        WrapURuns(env, x, Values(env, g, b.w), false, sat);
      } else {
        assert [Bool(false)] + [] == [Bool(false)];
        WrapURuns(env, x, [], true, false);
      }
    }
  }

  lemma WrapAll(env: Env, g: Signer, tx: Type, x: Script, px: Pair, w: Wrapper, t: Type)
    requires env.Valid() && Sound(env, tx, x) && WrapType(w, tx) == Some(t) && Runs(env, g, tx.base, x, px)
    ensures Runs(env, g, t.base, WrapScript(w, x), WrapWays(w, px))
  {
    hide Succeeds, Supplied, Values, PrefixedBy, Skips, WrapScript;
    match w
    case WrapD => WrapDAll(env, g, tx, x, px);
    case WrapJ => WrapJAll(env, g, tx, x, px);
    case WrapL => WrapLAll(env, g, x, px);
    case WrapU => WrapUAll(env, g, x, px);
    case _ =>
      hide Sound;
      forall sat, a | WrapWays(w, px).Of(sat)(a) && Supplied(env, g, a)
        ensures Succeeds(env, t.base, WrapScript(w, x), Values(env, g, a.w), sat)
      {
        RunsAt(env, g, tx.base, x, px, sat, a);
        SameWitness(env, g, tx, x, w, t, a, sat);
      }
  }

  lemma BinaryAll(env: Env, g: Signer, tx: Type, x: Script, px: Pair, ty: Type, y: Script, py: Pair, op: BinOp, t: Type)
    requires Sound(env, tx, x) && Sound(env, ty, y) && FixedBinaryType(op, tx, ty) == Some(t)
    requires Runs(env, g, tx.base, x, px) && Runs(env, g, ty.base, y, py)
    ensures Runs(env, g, t.base, BinaryScript(op, x, y), BinaryWays(op, px, py))
  {
    hide Runs, Skips;
    match op
    case AndV => AndVAll(env, g, ty.base, x, y, px, py);
    case AndB => AndBAll(env, g, x, y, px, py);
    case AndN => AndNAll(env, g, x, y, px, py);
    case OrB => OrBAll(env, g, x, y, px, py);
    case OrC => OrCAll(env, g, x, y, px, py);
    case OrD => OrDAll(env, g, x, y, px, py);
    case OrI => OrIAll(env, g, ty.base, x, y, px, py);
  }

  // ---------------------------------------------------------------- thresh

  /** What beside a W results from a satisfaction is exactly 1 if the type says unit. */
  lemma UnitBeside(env: Env, t: Type, s: Script, w: seq<Bytes>, v: Bytes, below: bool)
    requires Sound(env, t, s) && t.base == W && t.u && SideEffect(env, s, w, v, below) && Truthy(v)
    ensures v == [1]
  {
    hide On, Effect, Truthy, SideEffect, Sound;
    var top := v + [0];
    SideAt(env, s, w, v, below, top);
    ShapeOfEffect(env, t, s, [top] + w, Beside(top, v, below));
    OnFew(top, v, Nil);
    OnFew(v, top, Nil);
    OnJoin([top], w, Nil);
    OnFew(top, top, On(w, Nil));
  }

  /** The first child alone. */
  lemma FirstRuns(env: Env, g: Signer, t: Type, x: Script, p: Pair, j: nat, a: Way)
    requires Sound(env, t, x) && ThreshChildOk(true, t) && Runs(env, g, B, x, p) && ThreshWays([p], j)(a)
             && Supplied(env, g, a)
    ensures j <= 1 && Effect(env, x, Values(env, g, a.w), [EncodeNum(j)])
  {
    hide Sound, Runs, Supplied, Values, Effect, Good, Truthy, EncodeNum;
    FirstWay(p, j, a);
    RunsAt(env, g, B, x, p, j == 1, a);
    var v := ResultB(env, x, Values(env, g, a.w), j == 1);
    GoodTruth(v, j == 1);
    OneGood();
    if j == 1 {
      UnitResult(env, t, x, Values(env, g, a.w), v);
    } else {
      EmptyResult(v);
    }
  }

  lemma EmptyResult(v: Bytes)
    ensures Good(v, false) ==> v == []
  {
  }

  lemma FirstWay(p: Pair, j: nat, a: Way)
    requires ThreshWays([p], j)(a)
    ensures j <= 1 && p.Of(j == 1)(a)
  {
    hide JoinOf;
    var none: seq<Pair> := [];
    assert [p][..0] == none;
    if JoinOf(ThreshWays(none, j), p.dsat)(a) {
      var b, c := Parts(ThreshWays(none, j), p.dsat, a);
      assert j == 0 && b == NoInputs;
      assert a == c by { JoinNothing(c); }
    } else {
      var b, c := Parts(ThreshWays(none, j - 1), p.sat, a);
      assert j == 1 && b == NoInputs;
      assert a == c by { JoinNothing(c); }
    }
  }

  lemma JoinNothing(c: Way)
    ensures Join(NoInputs, c) == c
  {
    assert [] + c.w == c.w && {} + c.locks == c.locks;
  }

  lemma LastWay(ps: seq<Pair>, j: nat, a: Way) returns (b: Way, c: Way, sat: bool)
    requires |ps| >= 1 && ThreshWays(ps, j)(a)
    ensures a == Join(b, c) && Tally(sat) <= j && ThreshWays(ps[..|ps| - 1], j - Tally(sat))(b)
            && ps[|ps| - 1].Of(sat)(c)
  {
    hide JoinOf;
    var init, last := ps[..|ps| - 1], ps[|ps| - 1];
    sat := !JoinOf(ThreshWays(init, j), last.dsat)(a);
    b, c := Parts(ThreshWays(init, j - Tally(sat)), last.Of(sat), a);
  }

  /** What thresh() needs to know of its children. */
  ghost predicate Children(env: Env, g: Signer, ts: seq<Type>, xs: seq<Script>, ps: seq<Pair>) {
    && |ts| == |xs| == |ps| <= 0x7fff_ffff
    && (forall i :: 0 <= i < |ts| ==> ThreshChildOk(i == 0, ts[i]))
    && (forall i :: 0 <= i < |ts| ==> Sound(env, ts[i], xs[i]))
    && (forall i :: 0 <= i < |ts| ==> Runs(env, g, ts[i].base, xs[i], ps[i]))
  }

  lemma {:induction false} SumRuns(env: Env, g: Signer, ts: seq<Type>, xs: seq<Script>, ps: seq<Pair>, m: nat, j: nat,
      a: Way)
    requires Children(env, g, ts, xs, ps) && 1 <= m <= |ts| && ThreshWays(ps[..m], j)(a) && Supplied(env, g, a)
    ensures j <= m && Effect(env, SumScript(xs[..m]), Values(env, g, a.w), [EncodeNum(j)])
    decreases m
  {
    hide Sound, Runs, Supplied, Values, Effect, Good, Truthy, EncodeNum, SumScript, ThreshWays, SideEffect, Succeeds;
    if m == 1 {
      assert ps[..1] == [ps[0]] && xs[..1] == [xs[0]];
      FirstRuns(env, g, ts[0], xs[0], ps[0], j, a);
      SumOne(xs[0]);
    } else {
      var b, c, sat := LastWay(ps[..m], j, a);
      assert ps[..m][..m - 1] == ps[..m - 1];
      SuppliedJoin(env, g, b, c);
      SumRuns(env, g, ts, xs, ps, m - 1, j - Tally(sat), b);
      RunsAt(env, g, W, xs[m - 1], ps[m - 1], sat, c);
      var v, below := ResultW(env, xs[m - 1], Values(env, g, c.w), sat);
      GoodTruth(v, sat);
      if sat {
        UnitBeside(env, ts[m - 1], xs[m - 1], Values(env, g, c.w), v, below);
      } else {
        EmptyResult(v);
      }
      AddRuns(env, SumScript(xs[..m - 1]), xs[m - 1], Values(env, g, b.w), Values(env, g, c.w), j - Tally(sat), sat,
              v, below);
      SumMore(xs, m);
    }
  }

  lemma SumOne(x: Script)
    ensures SumScript([x]) == x
  {
  }

  lemma SumMore(xs: seq<Script>, m: nat)
    requires 2 <= m <= |xs|
    ensures SumScript(xs[..m]) == SumScript(xs[..m - 1]) + xs[m - 1] + [Add]
  {
    assert xs[..m][..m - 1] == xs[..m - 1];
  }

  lemma ThreshAll(env: Env, g: Signer, k: nat, ts: seq<Type>, xs: seq<Script>, ps: seq<Pair>)
    requires Children(env, g, ts, xs, ps) && 1 <= k <= MAX_THRESHOLD && ts != []
    ensures Runs(env, g, B, ThreshScript(k, xs), Pair(ThreshWays(ps, k), ThreshWays(ps, 0)))
  {
    hide Succeeds, Supplied, Values, SumScript, ThreshWays, Children, Effect, EncodeNum, PushNum;
    var p := Pair(ThreshWays(ps, k), ThreshWays(ps, 0));
    ChildCount(env, g, ts, xs, ps);
    assert ps[..|ts|] == ps && xs[..|ts|] == xs;
    forall sat, a | p.Of(sat)(a) && Supplied(env, g, a)
      ensures Succeeds(env, B, ThreshScript(k, xs), Values(env, g, a.w), sat)
    {
      var j := if sat then k else 0;
      SumRuns(env, g, ts, xs, ps, |ts|, j, a);
      ThresholdRuns(env, SumScript(xs), Values(env, g, a.w), j, k);
    }
  }

  lemma ChildCount(env: Env, g: Signer, ts: seq<Type>, xs: seq<Script>, ps: seq<Pair>)
    requires Children(env, g, ts, xs, ps)
    ensures |ts| == |xs| == |ps| <= 0x7fff_ffff
  {
  }

  // ---------------------------------------------------------------- all expressions

  lemma {:induction false} AllRun(env: Env, g: Signer, n: Node)
    requires env.Valid() && FixedType(n).Some? && Counted(n)
    ensures Runs(env, g, FixedType(n).value.base, Compile(env, n), WaysOf(n))
    decreases n
  {
    hide Runs, Sound, Counted;
    Below(n);
    match n
    case Atom(leaf) =>
      LeafAll(env, g, leaf);
    case Wrap(w, x) =>
      FragmentSound(env, x, FixedType(x).value);
      AllRun(env, g, x);
      WrapAll(env, g, FixedType(x).value, Compile(env, x), WaysOf(x), w, FixedType(n).value);
    case Binary(op, x, y) =>
      FragmentSound(env, x, FixedType(x).value);
      FragmentSound(env, y, FixedType(y).value);
      AllRun(env, g, x);
      AllRun(env, g, y);
      BinaryAll(env, g, FixedType(x).value, Compile(env, x), WaysOf(x), FixedType(y).value, Compile(env, y),
                WaysOf(y), op, FixedType(n).value);
    case AndOr(x, y, z) =>
      AllRun(env, g, x);
      AllRun(env, g, y);
      AllRun(env, g, z);
      SkipsOf(env, y);
      SkipsOf(env, z);
      AndOrAll(env, g, FixedType(y).value.base, Compile(env, x), Compile(env, y), Compile(env, z), WaysOf(x),
               WaysOf(y), WaysOf(z));
    case Thresh(k, xs) =>
      var ts := FixedTypes(xs).value;
      forall i | 0 <= i < |xs|
        ensures Sound(env, ts[i], CompileAll(env, xs)[i])
                && Runs(env, g, ts[i].base, CompileAll(env, xs)[i], AllWaysOf(xs)[i])
      {
        FragmentSound(env, xs[i], ts[i]);
        AllRun(env, g, xs[i]);
      }
      assert Children(env, g, ts, CompileAll(env, xs), AllWaysOf(xs));
      ThreshAll(env, g, k, ts, CompileAll(env, xs), AllWaysOf(xs));
  }

  lemma SkipsOf(env: Env, n: Node)
    requires env.Valid() && FixedType(n).Some?
    ensures Skips(env, Compile(env, n))
  {
    FragmentSound(env, n, FixedType(n).value);
  }

  /** The conditions of the theorem pass on to the parts. */
  lemma Below(n: Node)
    requires FixedType(n).Some? && Counted(n)
    ensures match n
            case Atom(_) => true
            case Wrap(_, x) => Counted(x)
            case Binary(_, x, y) => Counted(x) && Counted(y)
            case AndOr(x, y, z) => Counted(x) && Counted(y) && Counted(z)
            case Thresh(_, xs) => |xs| <= 0x7fff_ffff && forall i :: 0 <= i < |xs| ==> Counted(xs[i])
  {
    hide FixedType;
  }

  lemma LeafAll(env: Env, g: Signer, leaf: Leaf)
    requires env.Valid() && LeafType(leaf).Some?
    ensures Runs(env, g, LeafType(leaf).value.base, LeafScript(env, leaf),
                 Pair(LeafWays(leaf, true), LeafWays(leaf, false)))
  {
    hide LeafType, LeafScript, LeafWays, Succeeds, Supplied, Values;
    forall sat, a | LeafWays(leaf, sat)(a) && Supplied(env, g, a)
      ensures Succeeds(env, LeafType(leaf).value.base, LeafScript(env, leaf), Values(env, g, a.w), sat)
    {
      LeafRuns(env, g, leaf, a, sat);
    }
  }

  /** A policy of type B, run as a witness script on any canonical satisfaction that the signer can
      provide, leaves exactly one element, which is true; on any canonical dissatisfaction it leaves
      exactly the empty element. */
  lemma CanonicalWaysRun(env: Env, g: Signer, n: Node, sat: bool, a: Way) returns (v: Bytes)
    requires env.Valid() && TypeOf(n).Some? && TypeOf(n).value.base == B && SwapsOne(n) && Counted(n)
    requires WaysOf(n).Of(sat)(a) && Supplied(env, g, a)
    ensures Run(env, Compile(env, n), State(On(Values(env, g, a.w), Nil), Nil, Nil))
            == Some(State(Cons(v, Nil), Nil, Nil))
    ensures if sat then Truthy(v) else v == []
  {
    hide Compile, TypeOf, FixedType, Runs, Supplied, Values, On, Effect, Truthy, WaysOf, SwapsOne, Counted;
    var w := Values(env, g, a.w);
    CorrectedIff(n);
    AllRun(env, g, n);
    RunsAt(env, g, B, Compile(env, n), WaysOf(n), sat, a);
    v := ResultB(env, Compile(env, n), w, sat);
    EffectAt(env, Compile(env, n), w, [v], Nil);
    OnFew(v, v, Nil);
    var st := State(On(w, Nil), Nil, Nil);
    assert Live(st);
    ReachAt(env, Compile(env, n), On(w, Nil), Cons(v, Nil), st);
  }
}
