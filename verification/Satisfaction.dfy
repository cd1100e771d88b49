/** The canonical satisfactions and dissatisfactions of miniscript expressions (BIP 379, table
    "Satisfaction and dissatisfaction"), with witness elements kept symbolic. */
module Satisfaction {
  import opened Wrappers
  import opened BitcoinScript
  import opened Miniscript

  datatype Elem =
    | Signature(key: nat)
    | KeyBytes(key: nat)
    | PreimageOf(kind: HashKind, h: Bytes)
    | EmptyElem
    | OneElem

  /** A timelock that has to hold: the argument of an after (absolute) or of an older. */
  datatype Lock = Lock(absolute: bool, n: nat)

  /** One way to (dis)satisfy an expression: the witness, first the element that ends on top of the
      stack, and the timelocks it relies on. */
  datatype Way = Way(w: seq<Elem>, locks: set<Lock>)

  function Join(a: Way, b: Way): Way {
    Way(a.w + b.w, a.locks + b.locks)
  }

  function Prefixed(e: Elem, a: Way): Way {
    Way([e] + a.w, a.locks)
  }

  function JustElem(e: Elem): Way {
    Way([e], {})
  }

  const NoInputs := Way([], {})

  // ---------------------------------------------------------------- sets of ways

  type Ways = Way -> bool

  ghost function JoinOf(p: Ways, q: Ways): Ways {
    a => exists b, c :: p(b) && q(c) && a == Join(b, c)
  }

  function Either(p: Ways, q: Ways): Ways {
    a => p(a) || q(a)
  }

  ghost function PrefixedBy(e: Elem, p: Ways): Ways {
    a => exists b :: p(b) && a == Prefixed(e, b)
  }

  function Only(b: Way): Ways {
    a => a == b
  }

  function Nothing(): Ways {
    _ => false
  }

  // ---------------------------------------------------------------- leaves

  function Empties(n: nat): seq<Elem> {
    seq(n, _ => EmptyElem)
  }

  /** es are signatures for k of the keys, in the order in which CHECKMULTISIG pops them. */
  ghost predicate MultiSigs(keys: seq<nat>, k: nat, es: seq<Elem>) {
    if keys == [] then k == 0 && es == []
    else
      || MultiSigs(keys[1..], k, es)
      || (k >= 1 && es != [] && es[|es| - 1] == Signature(keys[0]) && MultiSigs(keys[1..], k - 1, es[..|es| - 1]))
  }

  ghost function MultiWays(keys: seq<nat>, k: nat): Ways {
    a => exists es :: MultiSigs(keys, k, es) && a == Way(es + [EmptyElem], {})
  }

  function SigOrEmpty(key: nat, sat: bool): Elem {
    if sat then Signature(key) else EmptyElem
  }

  ghost function LeafWays(n: Leaf, sat: bool): Ways {
    match n
    case Zero => if sat then Nothing() else Only(NoInputs)
    case One => if sat then Only(NoInputs) else Nothing()
    case PkK(key) => Only(Way([SigOrEmpty(key, sat)], {}))
    case PkH(key) => Only(Way([KeyBytes(key), SigOrEmpty(key, sat)], {}))
    case Pk(key) => Only(Way([SigOrEmpty(key, sat)], {}))
    case Pkh(key) => Only(Way([KeyBytes(key), SigOrEmpty(key, sat)], {}))
    case Older(m) => if sat then Only(Way([], {Lock(false, m)})) else Nothing()
    case After(m) => if sat then Only(Way([], {Lock(true, m)})) else Nothing()
    case HashLock(kind, h) => if sat then Only(JustElem(PreimageOf(kind, h))) else Nothing()
    case Multi(k, keys) => if sat then MultiWays(keys, k) else Only(Way(Empties(k + 1), {}))
  }

  // ---------------------------------------------------------------- combinators, from the ways of the parts

  datatype Pair = Pair(sat: Ways, dsat: Ways) {
    function Of(s: bool): Ways {
      if s then sat else dsat
    }
  }

  ghost function AndOrWays(x: Pair, y: Pair, z: Pair): Pair {
    Pair(Either(JoinOf(x.sat, y.sat), JoinOf(x.dsat, z.sat)), JoinOf(x.dsat, z.dsat))
  }

  ghost function AndVWays(x: Pair, y: Pair): Pair {
    Pair(JoinOf(x.sat, y.sat), Nothing())
  }

  ghost function AndBWays(x: Pair, y: Pair): Pair {
    Pair(JoinOf(x.sat, y.sat), JoinOf(x.dsat, y.dsat))
  }

  ghost function AndNWays(x: Pair, y: Pair): Pair {
    Pair(JoinOf(x.sat, y.sat), x.dsat)
  }

  ghost function OrBWays(x: Pair, z: Pair): Pair {
    Pair(Either(JoinOf(x.dsat, z.sat), JoinOf(x.sat, z.dsat)), JoinOf(x.dsat, z.dsat))
  }

  ghost function OrCWays(x: Pair, z: Pair): Pair {
    Pair(Either(x.sat, JoinOf(x.dsat, z.sat)), Nothing())
  }

  ghost function OrDWays(x: Pair, z: Pair): Pair {
    Pair(Either(x.sat, JoinOf(x.dsat, z.sat)), JoinOf(x.dsat, z.dsat))
  }

  ghost function OrIWays(x: Pair, z: Pair): Pair {
    Pair(Either(PrefixedBy(OneElem, x.sat), PrefixedBy(EmptyElem, z.sat)),
         Either(PrefixedBy(OneElem, x.dsat), PrefixedBy(EmptyElem, z.dsat)))
  }

  ghost function BinaryWays(op: BinOp, x: Pair, y: Pair): Pair {
    match op
    case AndV => AndVWays(x, y)
    case AndB => AndBWays(x, y)
    case AndN => AndNWays(x, y)
    case OrB => OrBWays(x, y)
    case OrC => OrCWays(x, y)
    case OrD => OrDWays(x, y)
    case OrI => OrIWays(x, y)
  }

  ghost function WrapWays(w: Wrapper, x: Pair): Pair {
    match w
    case WrapA => x
    case WrapS => x
    case WrapC => x
    case WrapN => x
    case WrapT => Pair(x.sat, Nothing())
    case WrapV => Pair(x.sat, Nothing())
    case WrapD => Pair(PrefixedBy(OneElem, x.sat), Only(JustElem(EmptyElem)))
    case WrapJ => Pair(x.sat, Only(JustElem(EmptyElem)))
    case WrapL => Pair(PrefixedBy(EmptyElem, x.sat), Either(Only(JustElem(OneElem)), PrefixedBy(EmptyElem, x.dsat)))
    case WrapU => Pair(PrefixedBy(OneElem, x.sat), Either(Only(JustElem(EmptyElem)), PrefixedBy(OneElem, x.dsat)))
  }

  /** Exactly j of the expressions are satisfied and the others dissatisfied. */
  ghost function ThreshWays(xs: seq<Pair>, j: nat): Ways {
    if xs == [] then (if j == 0 then Only(NoInputs) else Nothing())
    else
      var init, last := xs[..|xs| - 1], xs[|xs| - 1];
      Either(JoinOf(ThreshWays(init, j), last.dsat),
             if j >= 1 then JoinOf(ThreshWays(init, j - 1), last.sat) else Nothing())
  }

  /** All the ways to satisfy and to dissatisfy an expression. */
  ghost function WaysOf(n: Node): Pair
    decreases n, 1
  {
    match n
    case Atom(leaf) => Pair(LeafWays(leaf, true), LeafWays(leaf, false))
    case Wrap(w, x) => WrapWays(w, WaysOf(x))
    case Binary(op, x, y) => BinaryWays(op, WaysOf(x), WaysOf(y))
    case AndOr(x, y, z) => AndOrWays(WaysOf(x), WaysOf(y), WaysOf(z))
    case Thresh(k, xs) => Pair(ThreshWays(AllWaysOf(xs), k), ThreshWays(AllWaysOf(xs), 0))
  }

  ghost function AllWaysOf(xs: seq<Node>): (r: seq<Pair>)
    ensures |r| == |xs| && forall i :: 0 <= i < |xs| ==> r[i] == WaysOf(xs[i])
    decreases xs, 0
  {
    if xs == [] then [] else [WaysOf(xs[0])] + AllWaysOf(xs[1..])
  }
}
