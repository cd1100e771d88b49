/** The flag s of the analysis is sound: where it is set, every canonical satisfaction contains a
    signature. */
module SignatureFlags {
  import opened Wrappers
  import opened BitcoinScript
  import opened Miniscript
  import opened MiniscriptAnalysis
  import opened Satisfaction

  ghost predicate HasSignature(a: Way) {
    exists i :: 0 <= i < |a.w| && a.w[i].Signature?
  }

  ghost predicate AllSigned(p: Ways) {
    forall a :: p(a) ==> HasSignature(a)
  }

  lemma SignedJoin(p: Ways, q: Ways)
    requires AllSigned(p) || AllSigned(q)
    ensures AllSigned(JoinOf(p, q))
  {
    forall a | JoinOf(p, q)(a) ensures HasSignature(a) {
      var b, c :| p(b) && q(c) && a == Join(b, c);
      if AllSigned(p) {
        var i :| 0 <= i < |b.w| && b.w[i].Signature?;
        assert a.w[i].Signature?;
      } else {
        var i :| 0 <= i < |c.w| && c.w[i].Signature?;
        assert a.w[|b.w| + i].Signature?;
      }
    }
  }

  lemma SignedEither(p: Ways, q: Ways)
    requires AllSigned(p) && AllSigned(q)
    ensures AllSigned(Either(p, q))
  {
  }

  lemma SignedPrefixed(e: Elem, p: Ways)
    requires AllSigned(p)
    ensures AllSigned(PrefixedBy(e, p))
  {
    forall a | PrefixedBy(e, p)(a) ensures HasSignature(a) {
      var b :| p(b) && a == Prefixed(e, b);
      var i :| 0 <= i < |b.w| && b.w[i].Signature?;
      assert a.w[i + 1].Signature?;
    }
  }

  // ---------------------------------------------------------------- leaves

  lemma {:induction false} MultiSigsAre(keys: seq<nat>, k: nat, es: seq<Elem>)
    requires MultiSigs(keys, k, es)
    ensures |es| == k && forall i :: 0 <= i < |es| ==> es[i].Signature?
    decreases keys
  {
    if keys != [] {
      if MultiSigs(keys[1..], k, es) {
        MultiSigsAre(keys[1..], k, es);
      } else {
        MultiSigsAre(keys[1..], k - 1, es[..|es| - 1]);
        assert forall i :: 0 <= i < |es| - 1 ==> es[i] == es[..|es| - 1][i];
      }
    }
  }

  lemma SignedMulti(keys: seq<nat>, k: nat)
    requires k >= 1
    ensures AllSigned(MultiWays(keys, k))
  {
    forall a | MultiWays(keys, k)(a) ensures HasSignature(a) {
      var es :| MultiSigs(keys, k, es) && a == Way(es + [EmptyElem], {});
      MultiSigsAre(keys, k, es);
      assert a.w[0].Signature?;
    }
  }

  lemma SignedKey(key: nat)
    ensures AllSigned(Only(Way([Signature(key)], {})))
    ensures AllSigned(Only(Way([KeyBytes(key), Signature(key)], {})))
  {
    assert Way([Signature(key)], {}).w[0].Signature?;
    assert Way([KeyBytes(key), Signature(key)], {}).w[1].Signature?;
  }

  lemma LeafSigned(n: Leaf)
    requires LeafType(n).Some? && LeafInfo(n).s
    ensures AllSigned(LeafWays(n, true))
  {
    match n
    case PkK(key) => SignedKey(key);
    case PkH(key) => SignedKey(key);
    case Pk(key) => SignedKey(key);
    case Pkh(key) => SignedKey(key);
    case Multi(k, keys) => SignedMulti(keys, k);
    case _ =>
  }

  // ---------------------------------------------------------------- combinators

  lemma KeyBinaryParts(op: BinOp, x: Node, y: Node)
    requires TypeOf(Binary(op, x, y)).Some? && TypeOf(Binary(op, x, y)).value.base == K
    ensures TypeOf(x).Some? && TypeOf(y).Some? && (op == OrI || op == AndV)
    ensures TypeOf(y).value.base == K && (op == OrI ==> TypeOf(x).value.base == K)
  {
  }

  /** Satisfying a K always takes the signature that its c: will check. */
  lemma {:induction false} KeyTypeSigned(n: Node)
    requires TypeOf(n).Some? && TypeOf(n).value.base == K
    ensures AllSigned(WaysOf(n).sat)
    decreases n
  {
    hide AllSigned;
    match n
    case Atom(leaf) => LeafSigned(leaf);
    case Binary(op, x, y) =>
      KeyBinaryParts(op, x, y);
      KeyTypeSigned(y);
      if op == OrI {
        KeyTypeSigned(x);
      }
      SignedByParts(op, WaysOf(x), WaysOf(y));
    case AndOr(x, y, z) =>
      KeyTypeSigned(y);
      KeyTypeSigned(z);
      SignedJoin(WaysOf(x).sat, WaysOf(y).sat);
      SignedJoin(WaysOf(x).dsat, WaysOf(z).sat);
      SignedEither(JoinOf(WaysOf(x).sat, WaysOf(y).sat), JoinOf(WaysOf(x).dsat, WaysOf(z).sat));
    case Wrap(_, _) =>
    case Thresh(_, _) =>
  }

  lemma SignedByParts(op: BinOp, x: Pair, y: Pair)
    requires AllSigned(y.sat) && (op == OrI ==> AllSigned(x.sat))
    ensures op == OrI || op == AndV ==> AllSigned(BinaryWays(op, x, y).sat)
  {
    if op == OrI {
      SignedPrefixed(OneElem, x.sat);
      SignedPrefixed(EmptyElem, y.sat);
      SignedEither(PrefixedBy(OneElem, x.sat), PrefixedBy(EmptyElem, y.sat));
    } else {
      SignedJoin(x.sat, y.sat);
    }
  }

  ghost predicate Signed(x: Pair, i: ExtInfo) {
    i.s ==> AllSigned(x.sat)
  }

  lemma BinarySigned(op: BinOp, x: Pair, a: ExtInfo, y: Pair, b: ExtInfo)
    requires Signed(x, a) && Signed(y, b)
    ensures Signed(BinaryWays(op, x, y), BinaryInfo(op, a, b))
  {
    if BinaryInfo(op, a, b).s {
      match op
      case AndV => SignedJoin(x.sat, y.sat);
      case AndB => SignedJoin(x.sat, y.sat);
      case AndN => SignedJoin(x.sat, y.sat);
      case OrB =>
        SignedJoin(x.dsat, y.sat);
        SignedJoin(x.sat, y.dsat);
        SignedEither(JoinOf(x.dsat, y.sat), JoinOf(x.sat, y.dsat));
      case OrC =>
        SignedJoin(x.dsat, y.sat);
        SignedEither(x.sat, JoinOf(x.dsat, y.sat));
      case OrD =>
        SignedJoin(x.dsat, y.sat);
        SignedEither(x.sat, JoinOf(x.dsat, y.sat));
      case OrI =>
        SignedPrefixed(OneElem, x.sat);
        SignedPrefixed(EmptyElem, y.sat);
        SignedEither(PrefixedBy(OneElem, x.sat), PrefixedBy(EmptyElem, y.sat));
    }
  }

  lemma AndOrSigned(x: Pair, a: ExtInfo, y: Pair, b: ExtInfo, z: Pair, c: ExtInfo)
    requires Signed(x, a) && Signed(y, b) && Signed(z, c)
    ensures Signed(AndOrWays(x, y, z), AndOrInfo(a, b, c))
  {
    if AndOrInfo(a, b, c).s {
      SignedJoin(x.sat, y.sat);
      SignedJoin(x.dsat, z.sat);
      SignedEither(JoinOf(x.sat, y.sat), JoinOf(x.dsat, z.sat));
    }
  }

  lemma WrapSigned(w: Wrapper, x: Pair, a: ExtInfo)
    requires Signed(x, a) && (w == WrapC ==> AllSigned(x.sat))
    ensures Signed(WrapWays(w, x), WrapInfo(w, a))
  {
    if a.s {
      SignedPrefixed(OneElem, x.sat);
      SignedPrefixed(EmptyElem, x.sat);
    }
  }

  // ---------------------------------------------------------------- thresh

  ghost function CountUnsigned(xs: seq<Pair>): nat {
    if xs == [] then 0
    else CountUnsigned(xs[..|xs| - 1]) + if AllSigned(xs[|xs| - 1].sat) then 0 else 1
  }

  /** If more children are satisfied than can be satisfied without a signature, there is a signature. */
  lemma {:induction false} ThreshSigned(xs: seq<Pair>, j: nat)
    requires j > CountUnsigned(xs)
    ensures AllSigned(ThreshWays(xs, j))
    decreases xs
  {
    if xs != [] {
      var init, last := xs[..|xs| - 1], xs[|xs| - 1];
      ThreshSigned(init, j);
      SignedJoin(ThreshWays(init, j), last.dsat);
      if !AllSigned(last.sat) {
        ThreshSigned(init, j - 1);
      }
      SignedJoin(ThreshWays(init, j - 1), last.sat);
      SignedEither(JoinOf(ThreshWays(init, j), last.dsat), JoinOf(ThreshWays(init, j - 1), last.sat));
    }
  }

  ghost predicate EachSigned(xs: seq<Pair>, ts: seq<ExtInfo>)
    requires |xs| == |ts|
  {
    forall i :: 0 <= i < |xs| ==> Signed(xs[i], ts[i])
  }

  lemma {:induction false} UnsignedCount(k: nat, xs: seq<Pair>, ts: seq<ExtInfo>)
    requires |xs| == |ts| && EachSigned(xs, ts)
    ensures CountUnsigned(xs) <= |ts| - ThreshFold(k, ts).countS
    decreases xs
  {
    if xs != [] {
      UnsignedCount(k, xs[..|xs| - 1], ts[..|ts| - 1]);
    }
  }

  /** Where the analysis sets s, no canonical satisfaction does without a signature. */
  lemma {:induction false} SignatureFlagSound(n: Node, i: ExtInfo)
    requires TypeOf(n).Some? && Info(n) == Some(i)
    ensures i.s ==> AllSigned(WaysOf(n).sat)
    decreases n
  {
    match n
    case Atom(leaf) =>
      if i.s {
        LeafSigned(leaf);
      }
    case Wrap(w, x) =>
      SignatureFlagSound(x, Info(x).value);
      if w == WrapC {
        KeyTypeSigned(x);
      }
      WrapSigned(w, WaysOf(x), Info(x).value);
    case Binary(op, x, y) =>
      SignatureFlagSound(x, Info(x).value);
      SignatureFlagSound(y, Info(y).value);
      BinarySigned(op, WaysOf(x), Info(x).value, WaysOf(y), Info(y).value);
    case AndOr(x, y, z) =>
      SignatureFlagSound(x, Info(x).value);
      SignatureFlagSound(y, Info(y).value);
      SignatureFlagSound(z, Info(z).value);
      AndOrSigned(WaysOf(x), Info(x).value, WaysOf(y), Info(y).value, WaysOf(z), Info(z).value);
    case Thresh(k, xs) =>
      var ts := Infos(xs).value;
      forall m | 0 <= m < |xs| ensures Signed(AllWaysOf(xs)[m], ts[m]) {
        SignatureFlagSound(xs[m], ts[m]);
      }
      UnsignedCount(k, AllWaysOf(xs), ts);
      if i.s {
        ThreshSigned(AllWaysOf(xs), k);
      }
  }
}
