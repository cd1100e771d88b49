/** The timelock flags of the analysis are sound: g, h, i, j cover every timelock a satisfaction
    relies on, and where k is set no canonical satisfaction mixes height and time locks. */
module TimelockFlags {
  import opened Wrappers
  import opened BitcoinScript
  import opened Miniscript
  import opened MiniscriptAnalysis
  import opened Satisfaction

  predicate IsTime(l: Lock) {
    if l.absolute then IsAbsoluteTime(l.n) else IsRelativeTime(l.n)
  }

  /** No height lock and time lock of the same kind, relative or absolute, have to hold together. */
  ghost predicate MixFree(locks: set<Lock>) {
    forall l, m :: l in locks && m in locks && l.absolute == m.absolute ==> IsTime(l) == IsTime(m)
  }

  predicate Flagged(l: Lock, i: ExtInfo) {
    if l.absolute then (if IsTime(l) then i.i else i.j) else (if IsTime(l) then i.g else i.h)
  }

  ghost predicate Covers(p: Ways, i: ExtInfo) {
    forall a, l :: p(a) && l in a.locks ==> Flagged(l, i)
  }

  ghost predicate NoLocks(p: Ways) {
    forall a :: p(a) ==> a.locks == {}
  }

  ghost predicate NoMix(p: Ways) {
    forall a :: p(a) ==> MixFree(a.locks)
  }

  /** What the analysis promises about an expression with these ways. */
  ghost predicate Good(x: Pair, i: ExtInfo) {
    NoLocks(x.dsat) && Covers(x.sat, i) && (i.k ==> NoMix(x.sat))
  }

  predicate MoreFlags(i: ExtInfo, i': ExtInfo) {
    (i.g ==> i'.g) && (i.h ==> i'.h) && (i.i ==> i'.i) && (i.j ==> i'.j)
  }

  lemma CoversMore(p: Ways, i: ExtInfo, i': ExtInfo)
    requires Covers(p, i) && MoreFlags(i, i')
    ensures Covers(p, i')
  {
    forall a, l | p(a) && l in a.locks ensures Flagged(l, i') {
      assert Flagged(l, i);
    }
  }

  lemma SplitJoin(p: Ways, q: Ways, a: Way) returns (b: Way, c: Way)
    requires JoinOf(p, q)(a)
    ensures p(b) && q(c) && a.locks == b.locks + c.locks
  {
    b, c :| p(b) && q(c) && a == Join(b, c);
    assert Join(b, c).locks == b.locks + c.locks;
  }

  lemma NoLocksJoin(p: Ways, q: Ways)
    requires NoLocks(p) && NoLocks(q)
    ensures NoLocks(JoinOf(p, q))
  {
    forall a | JoinOf(p, q)(a) ensures a.locks == {} {
      var b, c := SplitJoin(p, q, a);
    }
  }

  lemma CoversJoin(p: Ways, q: Ways, i: ExtInfo)
    requires Covers(p, i) && Covers(q, i)
    ensures Covers(JoinOf(p, q), i)
  {
    forall a, l | JoinOf(p, q)(a) && l in a.locks ensures Flagged(l, i) {
      var b, c := SplitJoin(p, q, a);
    }
  }

  /** Joining with ways that need no locks. */
  lemma NoMixJoinFree(p: Ways, q: Ways)
    ensures NoLocks(p) && NoMix(q) ==> NoMix(JoinOf(p, q))
    ensures NoMix(p) && NoLocks(q) ==> NoMix(JoinOf(p, q))
  {
    forall a | JoinOf(p, q)(a)
      ensures NoLocks(p) && NoMix(q) ==> MixFree(a.locks)
      ensures NoMix(p) && NoLocks(q) ==> MixFree(a.locks)
    {
      var b, c := SplitJoin(p, q, a);
      assert NoLocks(p) ==> a.locks == c.locks;
      assert NoLocks(q) ==> a.locks == b.locks;
    }
  }

  lemma NoMixJoin(p: Ways, i: ExtInfo, q: Ways, j: ExtInfo)
    requires Covers(p, i) && Covers(q, j) && NoMix(p) && NoMix(q) && !MixesLocks(i, j)
    ensures NoMix(JoinOf(p, q))
  {
    forall a | JoinOf(p, q)(a) ensures MixFree(a.locks) {
      var b, c := SplitJoin(p, q, a);
      forall l, m | l in a.locks && m in a.locks && l.absolute == m.absolute ensures IsTime(l) == IsTime(m) {
        assert (l in b.locks ==> Flagged(l, i)) && (l in c.locks ==> Flagged(l, j));
        assert (m in b.locks ==> Flagged(m, i)) && (m in c.locks ==> Flagged(m, j));
      }
    }
  }

  lemma FreeCovered(p: Ways, i: ExtInfo)
    requires NoLocks(p)
    ensures Covers(p, i)
  {
  }

  lemma PrefixedLocks(e: Elem, p: Ways, i: ExtInfo)
    ensures NoLocks(p) ==> NoLocks(PrefixedBy(e, p))
    ensures Covers(p, i) ==> Covers(PrefixedBy(e, p), i)
    ensures NoMix(p) ==> NoMix(PrefixedBy(e, p))
  {
    forall a | PrefixedBy(e, p)(a) ensures exists b :: p(b) && b.locks == a.locks {
      var b :| p(b) && a == Prefixed(e, b);
      assert Prefixed(e, b).locks == b.locks;
    }
  }

  // ---------------------------------------------------------------- nodes

  /** Satisfying both parts. */
  lemma BothGood(x: Pair, a: ExtInfo, y: Pair, b: ExtInfo, i: ExtInfo)
    requires Good(x, a) && Good(y, b) && MoreFlags(a, i) && MoreFlags(b, i)
    ensures Covers(JoinOf(x.sat, y.sat), i)
    ensures a.k && b.k && !MixesLocks(a, b) ==> NoMix(JoinOf(x.sat, y.sat))
  {
    CoversMore(x.sat, a, i);
    CoversMore(y.sat, b, i);
    CoversJoin(x.sat, y.sat, i);
    if a.k && b.k && !MixesLocks(a, b) {
      NoMixJoin(x.sat, a, y.sat, b);
    }
  }

  /** Satisfying one part and dissatisfying the other. */
  lemma OneGood(x: Pair, z: Pair, c: ExtInfo, i: ExtInfo)
    requires NoLocks(x.dsat) && Good(z, c) && MoreFlags(c, i)
    ensures Covers(JoinOf(x.dsat, z.sat), i) && Covers(JoinOf(z.sat, x.dsat), i)
    ensures c.k ==> NoMix(JoinOf(x.dsat, z.sat)) && NoMix(JoinOf(z.sat, x.dsat))
  {
    CoversMore(z.sat, c, i);
    FreeCovered(x.dsat, i);
    CoversJoin(x.dsat, z.sat, i);
    CoversJoin(z.sat, x.dsat, i);
    NoMixJoinFree(x.dsat, z.sat);
    NoMixJoinFree(z.sat, x.dsat);
  }

  lemma AndOrGood(x: Pair, a: ExtInfo, y: Pair, b: ExtInfo, z: Pair, c: ExtInfo)
    requires Good(x, a) && Good(y, b) && Good(z, c)
    ensures Good(AndOrWays(x, y, z), AndOrInfo(a, b, c))
  {
    BothGood(x, a, y, b, AndOrInfo(a, b, c));
    OneGood(x, z, c, AndOrInfo(a, b, c));
    NoLocksJoin(x.dsat, z.dsat);
  }

  lemma AndGood(op: BinOp, x: Pair, a: ExtInfo, y: Pair, b: ExtInfo)
    requires Good(x, a) && Good(y, b) && (op == AndV || op == AndB || op == AndN)
    ensures Good(BinaryWays(op, x, y), BinaryInfo(op, a, b))
  {
    BothGood(x, a, y, b, BinaryInfo(op, a, b));
    NoLocksJoin(x.dsat, y.dsat);
  }

  lemma OrGood(op: BinOp, x: Pair, a: ExtInfo, z: Pair, c: ExtInfo)
    requires Good(x, a) && Good(z, c) && (op == OrB || op == OrC || op == OrD)
    ensures Good(BinaryWays(op, x, z), BinaryInfo(op, a, c))
  {
    var i := BinaryInfo(op, a, c);
    OneGood(x, z, c, i);
    OneGood(z, x, a, i);
    CoversMore(x.sat, a, i);
    NoLocksJoin(x.dsat, z.dsat);
  }

  lemma OrIGood(x: Pair, a: ExtInfo, z: Pair, c: ExtInfo)
    requires Good(x, a) && Good(z, c)
    ensures Good(OrIWays(x, z), OrIInfo(a, c))
  {
    var i := OrIInfo(a, c);
    CoversMore(x.sat, a, i);
    CoversMore(z.sat, c, i);
    PrefixedLocks(OneElem, x.sat, i);
    PrefixedLocks(EmptyElem, z.sat, i);
    PrefixedLocks(OneElem, x.dsat, i);
    PrefixedLocks(EmptyElem, z.dsat, i);
  }

  lemma BinaryGood(op: BinOp, x: Pair, a: ExtInfo, y: Pair, b: ExtInfo)
    requires Good(x, a) && Good(y, b)
    ensures Good(BinaryWays(op, x, y), BinaryInfo(op, a, b))
  {
    match op
    case AndV => AndGood(op, x, a, y, b);
    case AndB => AndGood(op, x, a, y, b);
    case AndN => AndGood(op, x, a, y, b);
    case OrB => OrGood(op, x, a, y, b);
    case OrC => OrGood(op, x, a, y, b);
    case OrD => OrGood(op, x, a, y, b);
    case OrI => OrIGood(x, a, y, b);
  }

  lemma ConstantLocks()
    ensures NoLocks(Nothing()) && NoLocks(Only(JustElem(EmptyElem))) && NoLocks(Only(JustElem(OneElem)))
  {
  }

  lemma EitherLocks(p: Ways, q: Ways)
    ensures NoLocks(p) && NoLocks(q) ==> NoLocks(Either(p, q))
  {
  }

  lemma WrapGood(w: Wrapper, x: Pair, a: ExtInfo)
    requires Good(x, a)
    ensures Good(WrapWays(w, x), WrapInfo(w, a))
  {
    hide ToU16, SumCheck, MaxCheck, Covers, NoLocks, NoMix;
    var i := WrapInfo(w, a);
    CoversMore(x.sat, a, i);
    ConstantLocks();
    var e := if w == WrapL then EmptyElem else OneElem;
    PrefixedLocks(e, x.sat, i);
    PrefixedLocks(e, x.dsat, i);
    EitherLocks(Only(JustElem(if w == WrapL then OneElem else EmptyElem)), PrefixedBy(e, x.dsat));
  }

  lemma LeafGood(n: Leaf)
    ensures Good(Pair(LeafWays(n, true), LeafWays(n, false)), LeafInfo(n))
  {
  }

  // ---------------------------------------------------------------- thresh

  ghost predicate EachGood(xs: seq<Pair>, ts: seq<ExtInfo>)
    requires |xs| == |ts|
  {
    forall m :: 0 <= m < |xs| ==> Good(xs[m], ts[m])
  }

  lemma {:induction false} NoneSatisfied(xs: seq<Pair>, ts: seq<ExtInfo>)
    requires |xs| == |ts| && EachGood(xs, ts)
    ensures NoLocks(ThreshWays(xs, 0))
    decreases xs
  {
    if xs != [] {
      var init, last := xs[..|xs| - 1], xs[|xs| - 1];
      NoneSatisfied(init, ts[..|ts| - 1]);
      NoLocksJoin(ThreshWays(init, 0), last.dsat);
    }
  }

  function FlagsOf(a: ThreshAcc): ExtInfo {
    ExtInfo(StackSize(0, 0), 0, 0, false, a.g, a.h, a.i, a.j, a.k, false)
  }

  /** One child more: either it is dissatisfied, or it is satisfied and one fewer of the others is. */
  lemma StepCovers(p: Ways, q: Ways, last: Pair, t: ExtInfo, i: ExtInfo)
    requires Good(last, t) && MoreFlags(t, i) && Covers(p, i) && Covers(q, i)
    ensures Covers(Either(JoinOf(p, last.dsat), JoinOf(q, last.sat)), i)
    ensures Covers(Either(JoinOf(p, last.dsat), Nothing()), i)
  {
    FreeCovered(last.dsat, i);
    CoversMore(last.sat, t, i);
    CoversJoin(p, last.dsat, i);
    CoversJoin(q, last.sat, i);
  }

  lemma {:induction false} ThreshCovers(kk: nat, xs: seq<Pair>, ts: seq<ExtInfo>, j: nat)
    requires |xs| == |ts| && EachGood(xs, ts)
    ensures Covers(ThreshWays(xs, j), FlagsOf(ThreshFold(kk, ts)))
    decreases xs
  {
    if xs != [] {
      hide Covers, Good;
      var m := |xs| - 1;
      var init, i, prev := xs[..m], FlagsOf(ThreshFold(kk, ts)), FlagsOf(ThreshFold(kk, ts[..m]));
      var j' := if j == 0 then 0 else j - 1;
      ThreshCovers(kk, init, ts[..m], j);
      ThreshCovers(kk, init, ts[..m], j');
      CoversMore(ThreshWays(init, j), prev, i);
      CoversMore(ThreshWays(init, j'), prev, i);
      StepCovers(ThreshWays(init, j), ThreshWays(init, j'), xs[m], ts[m], i);
    }
  }

  /** With a threshold of two or more, k excludes that both kinds occur anywhere below. */
  lemma {:induction false} FoldNoMix(kk: nat, ts: seq<ExtInfo>)
    requires kk >= 2 && ThreshFold(kk, ts).k
    ensures var a := ThreshFold(kk, ts); !(a.g && a.h) && !(a.i && a.j)
    decreases ts
  {
    if ts != [] {
      FoldNoMix(kk, ts[..|ts| - 1]);
    }
  }

  lemma CoveredNoMix(p: Ways, i: ExtInfo)
    requires Covers(p, i) && !(i.g && i.h) && !(i.i && i.j)
    ensures NoMix(p)
  {
    forall a | p(a) ensures MixFree(a.locks) {
      forall l, m | l in a.locks && m in a.locks && l.absolute == m.absolute ensures IsTime(l) == IsTime(m) {
        assert Flagged(l, i) && Flagged(m, i);
      }
    }
  }

  lemma {:induction false} OneSatisfied(kk: nat, xs: seq<Pair>, ts: seq<ExtInfo>)
    requires |xs| == |ts| && EachGood(xs, ts) && ThreshFold(kk, ts).k
    ensures NoMix(ThreshWays(xs, 1))
    decreases xs
  {
    if xs != [] {
      var m := |xs| - 1;
      var init, last := xs[..m], xs[m];
      OneSatisfied(kk, init, ts[..m]);
      NoMixJoinFree(ThreshWays(init, 1), last.dsat);
      NoneSatisfied(init, ts[..m]);
      NoMixJoinFree(ThreshWays(init, 0), last.sat);
    }
  }

  lemma ThreshGood(k: nat, xs: seq<Pair>, ts: seq<ExtInfo>, i: ExtInfo)
    requires |xs| == |ts| && EachGood(xs, ts) && ThreshInfo(k, ts) == Some(i) && k >= 1
    ensures Good(Pair(ThreshWays(xs, k), ThreshWays(xs, 0)), i)
  {
    NoneSatisfied(xs, ts);
    ThreshCovers(k, xs, ts, k);
    CoversMore(ThreshWays(xs, k), FlagsOf(ThreshFold(k, ts)), i);
    if i.k {
      if k >= 2 {
        FoldNoMix(k, ts);
        CoveredNoMix(ThreshWays(xs, k), i);
      } else {
        OneSatisfied(k, xs, ts);
      }
    }
  }

  lemma {:induction false} AllGood(n: Node, i: ExtInfo)
    requires TypeOf(n).Some? && Info(n) == Some(i)
    ensures Good(WaysOf(n), i)
    decreases n
  {
    match n
    case Atom(leaf) => LeafGood(leaf);
    case Wrap(w, x) =>
      AllGood(x, Info(x).value);
      WrapGood(w, WaysOf(x), Info(x).value);
    case Binary(op, x, y) =>
      AllGood(x, Info(x).value);
      AllGood(y, Info(y).value);
      BinaryGood(op, WaysOf(x), Info(x).value, WaysOf(y), Info(y).value);
    case AndOr(x, y, z) =>
      AllGood(x, Info(x).value);
      AllGood(y, Info(y).value);
      AllGood(z, Info(z).value);
      AndOrGood(WaysOf(x), Info(x).value, WaysOf(y), Info(y).value, WaysOf(z), Info(z).value);
    case Thresh(k, xs) =>
      var ts := Infos(xs).value;
      forall m | 0 <= m < |xs| ensures Good(AllWaysOf(xs)[m], ts[m]) {
        AllGood(xs[m], ts[m]);
      }
      ThreshGood(k, AllWaysOf(xs), ts, i);
  }

  /** Where the analysis sets k, no canonical satisfaction needs a height lock and a time lock of the
      same kind; and every lock it needs is announced by g, h, i or j. */
  lemma TimelockFlagsSound(n: Node, i: ExtInfo, a: Way)
    requires TypeOf(n).Some? && Info(n) == Some(i) && WaysOf(n).sat(a)
    ensures i.k ==> MixFree(a.locks)
    ensures forall l :: l in a.locks ==> Flagged(l, i)
  {
    AllGood(n, i);
  }
}
