/** What the timelock flags of the analysis say exactly: g, h, i and j which kinds of timelocks occur in an
    expression, and k whether a height lock and a time lock stand together in a conjunction. */
module TimelocksExact {
  import opened Wrappers
  import opened BitcoinScript
  import opened Miniscript
  import opened MiniscriptAnalysis
  import opened Satisfaction

  /** All timelocks of an expression. */
  function Locks(n: Node): set<Lock>
    decreases n, 1
  {
    match n
    case Atom(leaf) =>
      (match leaf
       case Older(m) => {Lock(false, m)}
       case After(m) => {Lock(true, m)}
       case _ => {})
    case Wrap(_, x) => Locks(x)
    case Binary(_, x, y) => Locks(x) + Locks(y)
    case AndOr(x, y, z) => Locks(x) + Locks(y) + Locks(z)
    case Thresh(_, xs) => AllLocks(xs)
  }

  function AllLocks(xs: seq<Node>): set<Lock>
    decreases xs, 0
  {
    if xs == [] then {} else Locks(xs[0]) + AllLocks(xs[1..])
  }

  /** The four kinds: bit 22 of a relative lock says that it is a time, and an absolute lock is one from
      500000000 on (BIP 68 and BIP 65). */
  datatype Kind = RelativeTime | RelativeHeight | AbsoluteTime | AbsoluteHeight

  function KindOf(l: Lock): Kind {
    if l.absolute then (if l.n < 500000000 then AbsoluteHeight else AbsoluteTime)
    else if l.n % 0x80_0000 < 0x40_0000 then RelativeHeight else RelativeTime
  }

  ghost predicate Occurs(n: Node, k: Kind) {
    exists l :: l in Locks(n) && KindOf(l) == k
  }

  function Flag(i: ExtInfo, k: Kind): bool {
    match k
    case RelativeTime => i.g
    case RelativeHeight => i.h
    case AbsoluteTime => i.i
    case AbsoluteHeight => i.j
  }

  lemma Bit22(m: nat)
    ensures IsRelativeTime(m) <==> m % 0x80_0000 >= 0x40_0000
  {
    var q, r := m / 0x80_0000, m % 0x80_0000;
    assert m == 2 * q * 0x40_0000 + r;
    assert m / 0x40_0000 == 2 * q + r / 0x40_0000;
  }

  lemma OneLock(leaf: Leaf, l: Lock, k: Kind)
    requires Locks(Atom(leaf)) == {l}
    ensures Occurs(Atom(leaf), k) <==> KindOf(l) == k
  {
    hide KindOf;
    assert l in Locks(Atom(leaf));
  }

  lemma LeafFlag(leaf: Leaf, k: Kind)
    ensures Flag(LeafInfo(leaf), k) <==> Occurs(Atom(leaf), k)
  {
    match leaf
    case Older(m) =>
      hide Occurs, IsRelativeTime;
      Bit22(m);
      OneLock(leaf, Lock(false, m), k);
    case After(m) =>
      hide Occurs;
      OneLock(leaf, Lock(true, m), k);
    case _ =>
  }

  lemma BinaryFlag(op: BinOp, a: ExtInfo, b: ExtInfo, k: Kind)
    ensures Flag(BinaryInfo(op, a, b), k) <==> Flag(a, k) || Flag(b, k)
  {
  }

  lemma WrapFlag(w: Wrapper, a: ExtInfo, k: Kind)
    ensures Flag(WrapInfo(w, a), k) == Flag(a, k)
  {
  }

  lemma AndOrFlag(a: ExtInfo, b: ExtInfo, c: ExtInfo, k: Kind)
    ensures Flag(AndOrInfo(a, b, c), k) <==> Flag(a, k) || Flag(b, k) || Flag(c, k)
  {
  }

  function FoldFlag(a: ThreshAcc, k: Kind): bool {
    match k
    case RelativeTime => a.g
    case RelativeHeight => a.h
    case AbsoluteTime => a.i
    case AbsoluteHeight => a.j
  }

  lemma {:induction false} FoldFlags(kk: nat, ts: seq<ExtInfo>, k: Kind)
    ensures FoldFlag(ThreshFold(kk, ts), k) <==> exists i :: 0 <= i < |ts| && Flag(ts[i], k)
    decreases ts
  {
    if ts != [] {
      var n := |ts| - 1;
      FoldFlags(kk, ts[..n], k);
      if FoldFlag(ThreshFold(kk, ts[..n]), k) {
        var i :| 0 <= i < n && Flag(ts[..n][i], k);
        assert Flag(ts[i], k);
      }
      if i :| 0 <= i < n && Flag(ts[i], k) {
        assert Flag(ts[..n][i], k);
      }
    }
  }

  lemma {:induction false} LocksOfAll(xs: seq<Node>, l: Lock)
    ensures l in AllLocks(xs) <==> exists i :: 0 <= i < |xs| && l in Locks(xs[i])
    decreases xs
  {
    if xs != [] {
      LocksOfAll(xs[1..], l);
      if l in AllLocks(xs[1..]) {
        var i :| 0 <= i < |xs| - 1 && l in Locks(xs[1..][i]);
        assert l in Locks(xs[i + 1]);
      }
      if i :| 0 <= i < |xs| && l in Locks(xs[i]) {
        assert i > 0 ==> l in Locks(xs[1..][i - 1]);
      }
    }
  }

  lemma ThreshOccurs(k: nat, xs: seq<Node>, kind: Kind)
    ensures Occurs(Thresh(k, xs), kind) <==> exists i :: 0 <= i < |xs| && Occurs(xs[i], kind)
  {
    if Occurs(Thresh(k, xs), kind) {
      var l :| l in AllLocks(xs) && KindOf(l) == kind;
      LocksOfAll(xs, l);
      var i :| 0 <= i < |xs| && l in Locks(xs[i]);
      assert Occurs(xs[i], kind);
    }
    if i :| 0 <= i < |xs| && Occurs(xs[i], kind) {
      var l :| l in Locks(xs[i]) && KindOf(l) == kind;
      LocksOfAll(xs, l);
    }
  }

  lemma PartsOccur(x: Node, y: Node, z: Node, op: BinOp, kind: Kind)
    ensures Occurs(Binary(op, x, y), kind) <==> Occurs(x, kind) || Occurs(y, kind)
    ensures Occurs(AndOr(x, y, z), kind) <==> Occurs(x, kind) || Occurs(y, kind) || Occurs(z, kind)
  {
    assert Locks(Binary(op, x, y)) == Locks(x) + Locks(y);
    assert Locks(AndOr(x, y, z)) == Locks(x) + Locks(y) + Locks(z);
  }

  /** Each of the flags g, h, i and j is set exactly if a timelock of its kind occurs in the expression. */
  lemma {:induction false} FlagsName(n: Node, i: ExtInfo, k: Kind)
    requires Info(n) == Some(i)
    ensures Flag(i, k) <==> Occurs(n, k)
    decreases n
  {
    hide Flag, WrapInfo, BinaryInfo, AndOrInfo, LeafInfo;
    match n
    case Atom(leaf) => LeafFlag(leaf, k);
    case Wrap(w, x) =>
      FlagsName(x, Info(x).value, k);
      WrapFlag(w, Info(x).value, k);
      assert Locks(n) == Locks(x);
    case Binary(op, x, y) =>
      FlagsName(x, Info(x).value, k);
      FlagsName(y, Info(y).value, k);
      BinaryFlag(op, Info(x).value, Info(y).value, k);
      PartsOccur(x, y, x, op, k);
    case AndOr(x, y, z) =>
      FlagsName(x, Info(x).value, k);
      FlagsName(y, Info(y).value, k);
      FlagsName(z, Info(z).value, k);
      AndOrFlag(Info(x).value, Info(y).value, Info(z).value, k);
      PartsOccur(x, y, z, AndV, k);
    case Thresh(kk, xs) =>
      var ts := Infos(xs).value;
      forall m | 0 <= m < |xs| ensures Flag(ts[m], k) <==> Occurs(xs[m], k) {
        FlagsName(xs[m], ts[m], k);
      }
      FoldFlags(kk, ts, k);
      ThreshFlag(kk, ts, k);
      ThreshOccurs(kk, xs, k);
  }

  lemma ThreshFlag(kk: nat, ts: seq<ExtInfo>, k: Kind)
    requires ThreshInfo(kk, ts).Some?
    ensures Flag(ThreshInfo(kk, ts).value, k) == FoldFlag(ThreshFold(kk, ts), k)
  {
    hide ThreshFold, ThreshStackSize;
  }

  // ---------------------------------------------------------------- mixed locks

  /** A time and a height of one kind, relative or absolute. */
  predicate Clash(a: Kind, b: Kind) {
    (a == RelativeTime && b == RelativeHeight) || (a == RelativeHeight && b == RelativeTime)
    || (a == AbsoluteTime && b == AbsoluteHeight) || (a == AbsoluteHeight && b == AbsoluteTime)
  }

  ghost predicate Clashing(x: Node, y: Node) {
    exists a, b :: Occurs(x, a) && Occurs(y, b) && Clash(a, b)
  }

  /** Somewhere in the expression a time lock and a height lock of one kind stand in two parts of a
      conjunction, or in a thresh() that asks for more than one of its children. */
  ghost predicate Mixed(n: Node)
    decreases n
  {
    match n
    case Atom(_) => false
    case Wrap(_, x) => Mixed(x)
    case Binary(op, x, y) =>
      Mixed(x) || Mixed(y) || ((op == AndV || op == AndB || op == AndN) && Clashing(x, y))
    case AndOr(x, y, z) => Mixed(x) || Mixed(y) || Mixed(z) || Clashing(x, y)
    case Thresh(k, xs) => (exists i :: 0 <= i < |xs| && Mixed(xs[i])) || (k >= 2 && Clashing(n, n))
  }

  ghost predicate FlagsClash(a: ExtInfo, b: ExtInfo) {
    exists j, k :: Flag(a, j) && Flag(b, k) && Clash(j, k)
  }

  lemma MixesIff(a: ExtInfo, b: ExtInfo)
    ensures MixesLocks(a, b) <==> FlagsClash(a, b)
  {
    if a.g && b.h {
      assert Flag(a, RelativeTime) && Flag(b, RelativeHeight) && Clash(RelativeTime, RelativeHeight);
    }
    if a.h && b.g {
      assert Flag(a, RelativeHeight) && Flag(b, RelativeTime) && Clash(RelativeHeight, RelativeTime);
    }
    if a.i && b.j {
      assert Flag(a, AbsoluteTime) && Flag(b, AbsoluteHeight) && Clash(AbsoluteTime, AbsoluteHeight);
    }
    if a.j && b.i {
      assert Flag(a, AbsoluteHeight) && Flag(b, AbsoluteTime) && Clash(AbsoluteHeight, AbsoluteTime);
    }
  }

  lemma ClashingIff(x: Node, a: ExtInfo, y: Node, b: ExtInfo)
    requires Info(x) == Some(a) && Info(y) == Some(b)
    ensures MixesLocks(a, b) <==> Clashing(x, y)
  {
    hide Info, Flag, Occurs, Clash, MixesLocks;
    MixesIff(a, b);
    forall k ensures (Flag(a, k) <==> Occurs(x, k)) && (Flag(b, k) <==> Occurs(y, k)) {
      FlagsName(x, a, k);
      FlagsName(y, b, k);
    }
  }

  lemma BinaryK(op: BinOp, a: ExtInfo, b: ExtInfo)
    ensures BinaryInfo(op, a, b).k <==>
            a.k && b.k && !((op == AndV || op == AndB || op == AndN) && MixesLocks(a, b))
  {
  }

  lemma OtherK(leaf: Leaf, w: Wrapper, a: ExtInfo, b: ExtInfo, c: ExtInfo)
    ensures LeafInfo(leaf).k && WrapInfo(w, a).k == a.k
    ensures AndOrInfo(a, b, c).k <==> a.k && b.k && c.k && !MixesLocks(a, b)
  {
  }

  /** The accumulated flags clash with themselves. */
  predicate FoldMixes(a: ThreshAcc) {
    (a.g && a.h) || (a.i && a.j)
  }

  lemma {:induction false} FoldK(kk: nat, ts: seq<ExtInfo>)
    ensures ThreshFold(kk, ts).k <==>
            (forall i :: 0 <= i < |ts| ==> ts[i].k) && !(kk >= 2 && FoldMixes(ThreshFold(kk, ts)))
    decreases ts
  {
    if ts != [] {
      var n := |ts| - 1;
      FoldK(kk, ts[..n]);
      assert forall i :: 0 <= i < n ==> ts[..n][i] == ts[i];
      assert (forall i :: 0 <= i < |ts| ==> ts[i].k) <==> ts[n].k && forall i :: 0 <= i < n ==> ts[..n][i].k;
    }
  }

  lemma ThreshK(kk: nat, ts: seq<ExtInfo>, i: ExtInfo)
    requires ThreshInfo(kk, ts) == Some(i)
    ensures i.k <==> (forall m :: 0 <= m < |ts| ==> ts[m].k) && !(kk >= 2 && MixesLocks(i, i))
  {
    hide ThreshFold, ThreshStackSize;
    FoldK(kk, ts);
  }

  /** The flag k is set exactly if no time lock and height lock of one kind stand together. */
  lemma {:induction false} KExact(n: Node, i: ExtInfo)
    requires Info(n) == Some(i)
    ensures i.k <==> !Mixed(n)
    decreases n
  {
    hide LeafInfo, WrapInfo, BinaryInfo, AndOrInfo, ThreshInfo, MixesLocks, Clashing;
    match n
    case Atom(leaf) => OtherK(leaf, WrapA, i, i, i);
    case Wrap(w, x) =>
      KExact(x, Info(x).value);
      OtherK(Zero, w, Info(x).value, i, i);
    case Binary(op, x, y) =>
      KExact(x, Info(x).value);
      KExact(y, Info(y).value);
      BinaryK(op, Info(x).value, Info(y).value);
      ClashingIff(x, Info(x).value, y, Info(y).value);
    case AndOr(x, y, z) =>
      KExact(x, Info(x).value);
      KExact(y, Info(y).value);
      KExact(z, Info(z).value);
      OtherK(Zero, WrapA, Info(x).value, Info(y).value, Info(z).value);
      ClashingIff(x, Info(x).value, y, Info(y).value);
    case Thresh(kk, xs) =>
      var ts := Infos(xs).value;
      forall m | 0 <= m < |xs| ensures ts[m].k <==> !Mixed(xs[m]) {
        KExact(xs[m], ts[m]);
      }
      ThreshK(kk, ts, i);
      ClashingIff(n, i, n, i);
  }
}
