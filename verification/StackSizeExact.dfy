/** The stack sizes computed by the analysis are exact: the maximum number of witness elements over
    all canonical (dis)satisfactions, -1 where there are none, and saturating at 32767. */
module StackSizeExact {
  import opened Wrappers
  import opened BitcoinScript
  import opened Miniscript
  import opened MiniscriptAnalysis
  import opened Satisfaction

  function Clamp(n: nat): int16 {
    if n > INT16_MAX then INT16_MAX else n
  }

  /** v is the largest clamped witness length among the ways, or -1 if there are no ways. */
  ghost predicate MaxLen(ways: Ways, v: int16) {
    && v >= -1
    && (forall a :: ways(a) ==> v >= Clamp(|a.w|))
    && (v >= 0 ==> exists a :: ways(a) && Clamp(|a.w|) == v)
  }

  lemma MaxJoin(p: Ways, vp: int16, q: Ways, vq: int16)
    requires MaxLen(p, vp) && MaxLen(q, vq)
    ensures MaxLen(JoinOf(p, q), SumCheck(vp, vq))
  {
    var v := SumCheck(vp, vq);
    forall a | JoinOf(p, q)(a) ensures v >= Clamp(|a.w|) {
      var b, c :| p(b) && q(c) && a == Join(b, c);
      assert |Join(b, c).w| == |b.w| + |c.w|;
      assert vp >= Clamp(|b.w|) && vq >= Clamp(|c.w|);
    }
    if v >= 0 {
      var b :| p(b) && Clamp(|b.w|) == vp;
      var c :| q(c) && Clamp(|c.w|) == vq;
      assert JoinOf(p, q)(Join(b, c)) && Clamp(|Join(b, c).w|) == v;
    }
  }

  lemma MaxEither(p: Ways, vp: int16, q: Ways, vq: int16)
    requires MaxLen(p, vp) && MaxLen(q, vq)
    ensures MaxLen(Either(p, q), MaxCheck(vp, vq))
  {
    var v := MaxCheck(vp, vq);
    if v >= 0 {
      if v == vp {
        var b :| p(b) && Clamp(|b.w|) == vp;
        assert Either(p, q)(b);
      } else {
        var c :| q(c) && Clamp(|c.w|) == vq;
        assert Either(p, q)(c);
      }
    }
  }

  lemma MaxPrefixed(e: Elem, p: Ways, vp: int16)
    requires MaxLen(p, vp)
    ensures MaxLen(PrefixedBy(e, p), SumCheck(vp, 1))
  {
    var v := SumCheck(vp, 1);
    forall a | PrefixedBy(e, p)(a) ensures v >= Clamp(|a.w|) {
      var b :| p(b) && a == Prefixed(e, b);
      assert |Prefixed(e, b).w| == 1 + |b.w|;
      assert vp >= Clamp(|b.w|);
    }
    if v >= 0 {
      var b :| p(b) && Clamp(|b.w|) == vp;
      assert PrefixedBy(e, p)(Prefixed(e, b)) && Clamp(|Prefixed(e, b).w|) == v;
    }
  }

  lemma MaxOnly(b: Way)
    ensures MaxLen(Only(b), Clamp(|b.w|))
  {
    assert Only(b)(b);
  }

  lemma MaxNothing()
    ensures MaxLen(Nothing(), -1)
  {
  }

  // ---------------------------------------------------------------- the dynamic program

  ghost predicate Exact(x: Pair, ss: StackSize) {
    MaxLen(x.sat, ss.sat) && MaxLen(x.dsat, ss.dsat)
  }

  ghost predicate Empty(p: Ways) {
    forall a :: !p(a)
  }

  lemma EmptyJoin(p: Ways, q: Ways)
    requires Empty(p)
    ensures Empty(JoinOf(p, q))
  {
  }

  lemma EmptyEither(p: Ways, q: Ways)
    requires Empty(p) && Empty(q)
    ensures Empty(Either(p, q))
  {
  }

  lemma EmptyMax(p: Ways)
    requires Empty(p)
    ensures MaxLen(p, -1)
  {
  }

  lemma {:induction false} TooManySatisfied(xs: seq<Pair>, j: nat)
    requires j > |xs|
    ensures Empty(ThreshWays(xs, j))
    decreases xs
  {
    if xs != [] {
      var init, last := xs[..|xs| - 1], xs[|xs| - 1];
      TooManySatisfied(init, j);
      TooManySatisfied(init, j - 1);
      EmptyJoin(ThreshWays(init, j), last.dsat);
      EmptyJoin(ThreshWays(init, j - 1), last.sat);
      EmptyEither(JoinOf(ThreshWays(init, j), last.dsat), JoinOf(ThreshWays(init, j - 1), last.sat));
    }
  }

  /** One child more: either it is dissatisfied, or it is satisfied and one fewer of the others is. */
  lemma StepExact(p: Ways, v: int16, q: Ways, u: int16, last: Pair, c: StackSize)
    requires MaxLen(p, v) && MaxLen(q, u) && Exact(last, c)
    ensures MaxLen(Either(JoinOf(p, last.dsat), JoinOf(q, last.sat)), MaxCheck(SumCheck(v, c.dsat), SumCheck(u, c.sat)))
    ensures MaxLen(Either(JoinOf(p, last.dsat), Nothing()), SumCheck(v, c.dsat))
  {
    MaxJoin(p, v, last.dsat, c.dsat);
    MaxJoin(q, u, last.sat, c.sat);
    MaxEither(JoinOf(p, last.dsat), SumCheck(v, c.dsat), JoinOf(q, last.sat), SumCheck(u, c.sat));
    MaxNothing();
    MaxEither(JoinOf(p, last.dsat), SumCheck(v, c.dsat), Nothing(), -1);
  }

  lemma TableCell(cs: seq<StackSize>, j: nat, prev: seq<int16>, v: int16, u: int16)
    requires cs != [] && j <= |cs| && prev == ThreshSats(cs[..|cs| - 1])
    requires v == (if j < |cs| then prev[j] else -1) && u == prev[if j == 0 then 0 else j - 1]
    ensures ThreshSats(cs)[j] ==
            var c := cs[|cs| - 1];
            if j == 0 then SumCheck(v, c.dsat) else MaxCheck(SumCheck(v, c.dsat), SumCheck(u, c.sat))
  {
  }

  /** Cell j of the table is the maximum over all choices of j children to satisfy. */
  lemma {:induction false} ThreshTableExact(xs: seq<Pair>, cs: seq<StackSize>, j: nat)
    requires |xs| == |cs| && j <= |xs|
    requires forall i :: 0 <= i < |xs| ==> Exact(xs[i], cs[i])
    ensures MaxLen(ThreshWays(xs, j), ThreshSats(cs)[j])
    decreases xs
  {
    if xs == [] {
      MaxOnly(NoInputs);
    } else {
      hide MaxLen, Exact, SumCheck, MaxCheck, ThreshSats;
      var m := |xs| - 1;
      var init, last, prev := xs[..m], xs[m], ThreshSats(cs[..m]);
      var j' := if j == 0 then 0 else j - 1;
      ThreshTableExact(init, cs[..m], j');
      var v := if j <= m then prev[j] else -1;
      if j <= m {
        ThreshTableExact(init, cs[..m], j);
      } else {
        TooManySatisfied(init, j);
        EmptyMax(ThreshWays(init, j));
      }
      TableCell(cs, j, prev, v, prev[j']);
      StepExact(ThreshWays(init, j), v, ThreshWays(init, j'), prev[j'], last, cs[m]);
    }
  }

  /** A thresh whose children are exact is exact for dissatisfactions, and for satisfactions exactly
      if k is not larger than the number of its children: otherwise the table is read above its last
      cell, so that 0 is reported although there is no satisfaction. */
  lemma ThreshExactIff(k: nat, xs: seq<Pair>, cs: seq<StackSize>)
    requires |xs| == |cs| && forall m :: 0 <= m < |xs| ==> Exact(xs[m], cs[m])
    ensures MaxLen(ThreshWays(xs, 0), ThreshStackSize(k, cs).dsat)
    ensures MaxLen(ThreshWays(xs, k), ThreshStackSize(k, cs).sat) <==> k <= |xs|
  {
    ThreshTableExact(xs, cs, 0);
    if k <= |xs| {
      ThreshTableExact(xs, cs, k);
    } else {
      TooManySatisfied(xs, k);
    }
  }

  // ---------------------------------------------------------------- every expression

  lemma {:induction false} MultiSigsLength(keys: seq<nat>, k: nat, es: seq<Elem>)
    requires MultiSigs(keys, k, es)
    ensures |es| == k
    decreases keys
  {
    if keys != [] && !MultiSigs(keys[1..], k, es) {
      MultiSigsLength(keys[1..], k - 1, es[..|es| - 1]);
    } else if keys != [] {
      MultiSigsLength(keys[1..], k, es);
    }
  }

  lemma {:induction false} MultiSigsExist(keys: seq<nat>, k: nat) returns (es: seq<Elem>)
    requires k <= |keys|
    ensures MultiSigs(keys, k, es)
    decreases keys
  {
    if keys == [] {
      es := [];
    } else if k < |keys| {
      es := MultiSigsExist(keys[1..], k);
    } else {
      var es' := MultiSigsExist(keys[1..], k - 1);
      es := es' + [Signature(keys[0])];
      assert es[..|es| - 1] == es';
    }
  }

  lemma MultiExact(k: nat, keys: seq<nat>)
    requires 1 <= k <= |keys| <= MAX_PUBKEYS_PER_MULTISIG
    ensures MaxLen(MultiWays(keys, k), k + 1) && MaxLen(Only(Way(Empties(k + 1), {})), k + 1)
  {
    MaxOnly(Way(Empties(k + 1), {}));
    forall a | MultiWays(keys, k)(a) ensures Clamp(|a.w|) == k + 1 {
      var es :| MultiSigs(keys, k, es) && a == Way(es + [EmptyElem], {});
      MultiSigsLength(keys, k, es);
    }
    var es := MultiSigsExist(keys, k);
    assert MultiWays(keys, k)(Way(es + [EmptyElem], {}));
  }

  lemma KeyLeafExact(key: nat, e: Elem)
    ensures MaxLen(Only(Way([e], {})), 1) && MaxLen(Only(Way([KeyBytes(key), e], {})), 2)
  {
    MaxOnly(Way([e], {}));
    MaxOnly(Way([KeyBytes(key), e], {}));
  }

  lemma OneWayExact(w: Way, v: int16)
    requires v == Clamp(|w.w|)
    ensures Exact(Pair(Only(w), Nothing()), StackSize(v, -1))
    ensures Exact(Pair(Nothing(), Only(w)), StackSize(-1, v))
  {
    MaxOnly(w);
    MaxNothing();
  }

  lemma MultiLeafExact(k: nat, keys: seq<nat>)
    requires LeafType(Multi(k, keys)).Some?
    ensures Exact(Pair(MultiWays(keys, k), Only(Way(Empties(k + 1), {}))), LeafInfo(Multi(k, keys)).ss)
  {
    MultiExact(k, keys);
    assert LeafInfo(Multi(k, keys)).ss == StackSize(k + 1, k + 1);
  }

  lemma LeafExact(n: Leaf)
    requires LeafType(n).Some?
    ensures Exact(Pair(LeafWays(n, true), LeafWays(n, false)), LeafInfo(n).ss)
  {
    hide MaxLen;
    match n
    case Zero => OneWayExact(NoInputs, 0);
    case One => OneWayExact(NoInputs, 0);
    case PkK(key) => KeyLeafExact(key, Signature(key)); KeyLeafExact(key, EmptyElem);
    case PkH(key) => KeyLeafExact(key, Signature(key)); KeyLeafExact(key, EmptyElem);
    case Pk(key) => KeyLeafExact(key, Signature(key)); KeyLeafExact(key, EmptyElem);
    case Pkh(key) => KeyLeafExact(key, Signature(key)); KeyLeafExact(key, EmptyElem);
    case Older(m) => OneWayExact(Way([], {Lock(false, m)}), 0);
    case After(m) => OneWayExact(Way([], {Lock(true, m)}), 0);
    case HashLock(kind, h) => OneWayExact(JustElem(PreimageOf(kind, h)), 1);
    case Multi(k, keys) => MultiLeafExact(k, keys);
  }

  lemma AndOrExact(x: Pair, a: ExtInfo, y: Pair, b: ExtInfo, z: Pair, c: ExtInfo)
    requires Exact(x, a.ss) && Exact(y, b.ss) && Exact(z, c.ss)
    ensures Exact(AndOrWays(x, y, z), AndOrInfo(a, b, c).ss)
  {
    MaxJoin(x.sat, a.ss.sat, y.sat, b.ss.sat);
    MaxJoin(x.dsat, a.ss.dsat, z.sat, c.ss.sat);
    MaxEither(JoinOf(x.sat, y.sat), SumCheck(a.ss.sat, b.ss.sat), JoinOf(x.dsat, z.sat), SumCheck(a.ss.dsat, c.ss.sat));
    MaxJoin(x.dsat, a.ss.dsat, z.dsat, c.ss.dsat);
  }

  lemma AndExact(x: Pair, a: ExtInfo, y: Pair, b: ExtInfo)
    requires Exact(x, a.ss) && Exact(y, b.ss)
    ensures Exact(AndVWays(x, y), AndVInfo(a, b).ss)
    ensures Exact(AndBWays(x, y), AndBInfo(a, b).ss)
    ensures Exact(AndNWays(x, y), AndNInfo(a, b).ss)
  {
    MaxJoin(x.sat, a.ss.sat, y.sat, b.ss.sat);
    MaxJoin(x.dsat, a.ss.dsat, y.dsat, b.ss.dsat);
    MaxNothing();
  }

  lemma OrBExact(x: Pair, a: ExtInfo, z: Pair, c: ExtInfo)
    requires Exact(x, a.ss) && Exact(z, c.ss)
    ensures Exact(OrBWays(x, z), OrBInfo(a, c).ss)
  {
    MaxJoin(x.dsat, a.ss.dsat, z.sat, c.ss.sat);
    MaxJoin(x.sat, a.ss.sat, z.dsat, c.ss.dsat);
    MaxEither(JoinOf(x.dsat, z.sat), SumCheck(a.ss.dsat, c.ss.sat), JoinOf(x.sat, z.dsat),
              SumCheck(a.ss.sat, c.ss.dsat));
    MaxJoin(x.dsat, a.ss.dsat, z.dsat, c.ss.dsat);
  }

  lemma OrCDExact(x: Pair, a: ExtInfo, z: Pair, c: ExtInfo)
    requires Exact(x, a.ss) && Exact(z, c.ss)
    ensures Exact(OrCWays(x, z), OrCInfo(a, c).ss)
    ensures Exact(OrDWays(x, z), OrDInfo(a, c).ss)
  {
    MaxJoin(x.dsat, a.ss.dsat, z.sat, c.ss.sat);
    MaxEither(x.sat, a.ss.sat, JoinOf(x.dsat, z.sat), SumCheck(a.ss.dsat, c.ss.sat));
    MaxJoin(x.dsat, a.ss.dsat, z.dsat, c.ss.dsat);
    MaxNothing();
  }

  lemma OrIExact(x: Pair, a: ExtInfo, z: Pair, c: ExtInfo)
    requires Exact(x, a.ss) && Exact(z, c.ss)
    ensures Exact(OrIWays(x, z), OrIInfo(a, c).ss)
  {
    MaxPrefixed(OneElem, x.sat, a.ss.sat);
    MaxPrefixed(EmptyElem, z.sat, c.ss.sat);
    MaxEither(PrefixedBy(OneElem, x.sat), SumCheck(a.ss.sat, 1), PrefixedBy(EmptyElem, z.sat), SumCheck(c.ss.sat, 1));
    MaxPrefixed(OneElem, x.dsat, a.ss.dsat);
    MaxPrefixed(EmptyElem, z.dsat, c.ss.dsat);
    MaxEither(PrefixedBy(OneElem, x.dsat), SumCheck(a.ss.dsat, 1), PrefixedBy(EmptyElem, z.dsat),
              SumCheck(c.ss.dsat, 1));
  }

  lemma BinaryExact(op: BinOp, x: Pair, a: ExtInfo, y: Pair, b: ExtInfo)
    requires Exact(x, a.ss) && Exact(y, b.ss)
    ensures Exact(BinaryWays(op, x, y), BinaryInfo(op, a, b).ss)
  {
    match op
    case AndV => AndExact(x, a, y, b);
    case AndB => AndExact(x, a, y, b);
    case AndN => AndExact(x, a, y, b);
    case OrB => OrBExact(x, a, y, b);
    case OrC => OrCDExact(x, a, y, b);
    case OrD => OrCDExact(x, a, y, b);
    case OrI => OrIExact(x, a, y, b);
  }

  lemma WrapLUExact(x: Pair, a: ExtInfo, inside: Elem, outside: Elem)
    requires Exact(x, a.ss)
    ensures Exact(Pair(PrefixedBy(inside, x.sat), Either(Only(JustElem(outside)), PrefixedBy(inside, x.dsat))),
                  WrapLUInfo(a).ss)
  {
    MaxPrefixed(inside, x.sat, a.ss.sat);
    MaxOnly(JustElem(outside));
    MaxPrefixed(inside, x.dsat, a.ss.dsat);
    MaxEither(Only(JustElem(outside)), 1, PrefixedBy(inside, x.dsat), SumCheck(a.ss.dsat, 1));
  }

  lemma WrapExact(w: Wrapper, x: Pair, a: ExtInfo)
    requires Exact(x, a.ss)
    ensures Exact(WrapWays(w, x), WrapInfo(w, a).ss)
  {
    match w
    case WrapT => MaxNothing();
    case WrapV => MaxNothing();
    case WrapD => MaxPrefixed(OneElem, x.sat, a.ss.sat); MaxOnly(JustElem(EmptyElem));
    case WrapJ => MaxOnly(JustElem(EmptyElem));
    case WrapL => WrapLUExact(x, a, EmptyElem, OneElem);
    case WrapU => WrapLUExact(x, a, OneElem, EmptyElem);
    case _ =>
  }

  /** Every thresh asks for at most as many satisfied children as it has. */
  predicate ThresholdsReachable(n: Node)
    decreases n
  {
    match n
    case Atom(_) => true
    case Wrap(_, x) => ThresholdsReachable(x)
    case Binary(_, x, y) => ThresholdsReachable(x) && ThresholdsReachable(y)
    case AndOr(x, y, z) => ThresholdsReachable(x) && ThresholdsReachable(y) && ThresholdsReachable(z)
    case Thresh(k, xs) => k <= |xs| && forall i :: 0 <= i < |xs| ==> ThresholdsReachable(xs[i])
  }

  /** The stack sizes of the analysis are exact for every expression the parser accepts. */
  lemma {:induction false} StackSizesExact(n: Node, i: ExtInfo)
    requires TypeOf(n).Some? && Info(n) == Some(i) && ThresholdsReachable(n)
    ensures Exact(WaysOf(n), i.ss)
    decreases n
  {
    match n
    case Atom(leaf) => LeafExact(leaf);
    case Wrap(w, x) =>
      StackSizesExact(x, Info(x).value);
      WrapExact(w, WaysOf(x), Info(x).value);
    case Binary(op, x, y) =>
      StackSizesExact(x, Info(x).value);
      StackSizesExact(y, Info(y).value);
      BinaryExact(op, WaysOf(x), Info(x).value, WaysOf(y), Info(y).value);
    case AndOr(x, y, z) =>
      StackSizesExact(x, Info(x).value);
      StackSizesExact(y, Info(y).value);
      StackSizesExact(z, Info(z).value);
      AndOrExact(WaysOf(x), Info(x).value, WaysOf(y), Info(y).value, WaysOf(z), Info(z).value);
    case Thresh(k, xs) =>
      var ts := Infos(xs).value;
      forall m | 0 <= m < |xs| ensures Exact(AllWaysOf(xs)[m], Sizes(ts)[m]) {
        StackSizesExact(xs[m], ts[m]);
      }
      ThreshExactIff(k, AllWaysOf(xs), Sizes(ts));
  }

  /** thresh(2,pk(0)) is accepted and reported to be satisfied by no elements, and has no satisfaction. */
  lemma UnreachableThreshold()
    ensures var n := Thresh(2, [Atom(Pk(0))]);
            && TypeOf(n).Some? && Info(n).Some? && Info(n).value.ss.sat == 0
            && Empty(WaysOf(n).sat) && !Exact(WaysOf(n), Info(n).value.ss)
  {
    var xs := [Atom(Pk(0))];
    assert TypesOf(xs).Some? && Infos(xs).Some?;
    TooManySatisfied(AllWaysOf(xs), 2);
  }
}
