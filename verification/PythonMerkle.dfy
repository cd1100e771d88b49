/** The mutable Merkle tree of the Python client (bitcoin_client/ledger_bitcoin/merkle.py): nodes with
    parent, left and right pointers whose values are recomputed on the way to the root. */
module PythonMerkle {
  import opened Wrappers
  import opened Merkle

  class Node {
    var left: Node?
    var right: Node?
    var parent: Node?
    var value: Bytes

    constructor (left: Node?, right: Node?, parent: Node?, value: Bytes)
      ensures this.left == left && this.right == right && this.parent == parent && this.value == value
    {
      this.left, this.right, this.parent, this.value := left, right, parent, value;
    }
  }

  // ---------------------------------------------------------------- the shape of a tree

  /** The tree that the pointers describe. */
  datatype Shape = Tip(leaf: Node) | Fork(node: Node, l: Shape, r: Shape)

  ghost function Top(s: Shape): Node {
    if s.Tip? then s.leaf else s.node
  }

  ghost function Tips(s: Shape): (ns: seq<Node>)
    ensures ns != []
  {
    if s.Tip? then [s.leaf] else Tips(s.l) + Tips(s.r)
  }

  ghost function Forks(s: Shape): set<Node> {
    if s.Tip? then {} else {s.node} + Forks(s.l) + Forks(s.r)
  }

  ghost function Nodes(s: Shape): (ns: set<Node>)
    ensures Top(s) in ns
  {
    if s.Tip? then {s.leaf} else {s.node} + Nodes(s.l) + Nodes(s.r)
  }

  ghost predicate Distinct(s: Shape) {
    s.Fork? ==>
      s.node !in Nodes(s.l) && s.node !in Nodes(s.r) && Nodes(s.l) !! Nodes(s.r) && Distinct(s.l) && Distinct(s.r)
  }

  ghost predicate LeftComplete(s: Shape) {
    s.Fork? ==> |Tips(s.l)| == Split(|Tips(s)|) && LeftComplete(s.l) && LeftComplete(s.r)
  }

  lemma {:induction false} Members(s: Shape)
    ensures Forks(s) <= Nodes(s) && (forall n :: n in Tips(s) ==> n in Nodes(s))
    ensures forall n :: n in Nodes(s) ==> n in Forks(s) || n in Tips(s)
  {
    if s.Fork? {
      Members(s.l);
      Members(s.r);
    }
  }

  lemma {:induction false} TipsNotForks(s: Shape, n: Node)
    requires Distinct(s) && n in Tips(s)
    ensures n !in Forks(s)
  {
    if s.Fork? {
      Members(s.l);
      Members(s.r);
      if n in Tips(s.l) {
        TipsNotForks(s.l, n);
      } else {
        TipsNotForks(s.r, n);
      }
    }
  }

  lemma {:induction false} TipsDistinct(s: Shape, i: nat, j: nat)
    requires Distinct(s) && i < j < |Tips(s)|
    ensures Tips(s)[i] != Tips(s)[j]
  {
    var k := |Tips(s.l)|;
    Members(s.l);
    Members(s.r);
    if j < k {
      TipsDistinct(s.l, i, j);
    } else if i >= k {
      TipsDistinct(s.r, i - k, j - k);
    } else {
      assert Tips(s)[i] == Tips(s.l)[i] && Tips(s)[i] in Tips(s.l);
      assert Tips(s)[j] == Tips(s.r)[j - k] && Tips(s)[j] in Tips(s.r);
    }
  }

  /** The pointers below the top describe the shape. */
  ghost predicate Linked(s: Shape)
    requires Distinct(s)
    reads Nodes(s)`left, Nodes(s)`right, (Nodes(s) - {Top(s)})`parent
  {
    if s.Tip? then s.leaf.left == null && s.leaf.right == null
    else
      && s.node.left == Top(s.l) && s.node.right == Top(s.r)
      && Top(s.l).parent == s.node && Top(s.r).parent == s.node
      && Linked(s.l) && Linked(s.r)
  }

  /** The value of every inner node is the combination of its children. */
  ghost predicate AllCombined(c: Combine, s: Shape)
    reads Nodes(s)`value
  {
    s.Fork? ==>
      s.node.value == c(Top(s.l).value, Top(s.r).value) && AllCombined(c, s.l) && AllCombined(c, s.r)
  }

  ghost predicate Combined(c: Combine, n: Node)
    reads n, n.left, n.right
  {
    n.left != null && n.right != null && n.value == c(n.left.value, n.right.value)
  }

  ghost function Values(ns: seq<Node>): (vs: seq<Bytes>)
    reads (set n | n in ns)`value
    ensures |vs| == |ns| && forall i :: 0 <= i < |ns| ==> vs[i] == ns[i].value
  {
    if ns == [] then [] else Values(ns[..|ns| - 1]) + [ns[|ns| - 1].value]
  }

  /** The links, node by node. */
  lemma {:induction false} LinksOf(s: Shape, n: Node)
    requires Distinct(s) && Linked(s) && n in Forks(s)
    ensures n.left != null && n.right != null && n.left != n && n.right != n && n.left != n.right
    ensures n.left.parent == n && n.right.parent == n
  {
    Members(s.l);
    Members(s.r);
    if n in Forks(s.l) {
      LinksOf(s.l, n);
    } else if n in Forks(s.r) {
      LinksOf(s.r, n);
    }
  }

  lemma AllLinks(s: Shape)
    requires Distinct(s) && Linked(s)
    ensures forall n :: n in Forks(s) ==>
              && n.left != null && n.right != null && n.left != n && n.right != n
              && n.left.parent == n && n.right.parent == n
    ensures forall n :: n in Tips(s) ==> n in Nodes(s) && n !in Forks(s)
    ensures Forks(s) <= Nodes(s)
  {
    Members(s);
    forall n | n in Forks(s)
      ensures n.left != null && n.right != null && n.left != n && n.right != n && n.left.parent == n
              && n.right.parent == n
    {
      LinksOf(s, n);
    }
    forall n | n in Tips(s) ensures n !in Forks(s) {
      TipsNotForks(s, n);
    }
  }

  lemma {:induction false} CombinedEverywhere(c: Combine, s: Shape)
    requires Distinct(s) && Linked(s)
    ensures AllCombined(c, s) <==> forall n :: n in Forks(s) ==> Combined(c, n)
  {
    if s.Fork? {
      CombinedEverywhere(c, s.l);
      CombinedEverywhere(c, s.r);
      assert s.node in Forks(s);
    }
  }

  lemma ValuesSplit(a: seq<Node>, b: seq<Node>)
    ensures Values(a + b)[..|a|] == Values(a) && Values(a + b)[|a|..] == Values(b)
  {
  }

  /** A left-complete tree with combined values has the Merkle root of its leaves at the top. */
  lemma {:induction false} TopIsRoot(c: Combine, s: Shape)
    requires LeftComplete(s) && AllCombined(c, s)
    ensures Top(s).value == Root(c, Values(Tips(s)))
  {
    hide Split, Values;
    if s.Fork? {
      TopIsRoot(c, s.l);
      TopIsRoot(c, s.r);
      ValuesSplit(Tips(s.l), Tips(s.r));
    }
  }

  // ---------------------------------------------------------------- the way to the root

  /** The ancestors of tip i, from its parent to the top. */
  ghost function Trail(s: Shape, i: nat): seq<Node>
    requires i < |Tips(s)|
  {
    if s.Tip? then []
    else if i < |Tips(s.l)| then Trail(s.l, i) + [s.node]
    else Trail(s.r, i - |Tips(s.l)|) + [s.node]
  }

  /** Following the parent pointers from first leads through the trail and ends at null. */
  ghost predicate Chain(first: Node?, trail: seq<Node>, last: Node?)
    reads (set n | n in trail)`parent
  {
    && first == (if trail == [] then last else trail[0])
    && forall k :: 0 <= k < |trail| ==> trail[k].parent == Above(trail, k, last)
  }

  ghost function Above(trail: seq<Node>, k: nat, last: Node?): Node? {
    if k + 1 < |trail| then trail[k + 1] else last
  }

  lemma {:induction false} TrailIsChain(s: Shape, i: nat)
    requires Distinct(s) && Linked(s) && i < |Tips(s)|
    ensures Chain(Tips(s)[i].parent, Trail(s, i), Top(s).parent)
    ensures forall n :: n in Trail(s, i) ==> n in Forks(s)
  {
    if s.Fork? {
      if i < |Tips(s.l)| {
        TrailIsChain(s.l, i);
      } else {
        TrailIsChain(s.r, i - |Tips(s.l)|);
      }
    }
  }

  /** The values beside the way from tip i to the top. */
  ghost function Siblings(s: Shape, i: nat): (vs: seq<Bytes>)
    requires i < |Tips(s)|
    reads Nodes(s)`value
    ensures |vs| == |Trail(s, i)|
  {
    if s.Tip? then []
    else
      var k := |Tips(s.l)|;
      if i < k then Siblings(s.l, i) + [Top(s.r).value] else Siblings(s.r, i - k) + [Top(s.l).value]
  }

  /** The k-th sibling is the other child of the parent of the k-th node on the way. */
  lemma {:induction false} SiblingAt(s: Shape, i: nat, k: nat)
    requires Distinct(s) && Linked(s) && i < |Tips(s)| && k < |Trail(s, i)|
    ensures var up := Trail(s, i)[k];
            var node := if k == 0 then Tips(s)[i] else Trail(s, i)[k - 1];
            && up.left != null && up.right != null
            && if up.left == node then Siblings(s, i)[k] == up.right.value
               else up.right == node && Siblings(s, i)[k] == up.left.value
  {
    var m := |Tips(s.l)|;
    if i < m {
      TopOfTrail(s.l, i);
      if k < |Trail(s.l, i)| {
        SiblingAt(s.l, i, k);
      }
    } else {
      TopOfTrail(s.r, i - m);
      if k < |Trail(s.r, i - m)| {
        SiblingAt(s.r, i - m, k);
      }
    }
  }

  lemma TopOfTrail(s: Shape, i: nat)
    requires i < |Tips(s)|
    ensures Top(s) == if Trail(s, i) == [] then Tips(s)[i] else Trail(s, i)[|Trail(s, i)| - 1]
  {
  }

  lemma {:induction false} SiblingsArePath(c: Combine, s: Shape, i: nat)
    requires LeftComplete(s) && AllCombined(c, s) && i < |Tips(s)|
    ensures Siblings(s, i) == Path(c, Values(Tips(s)), i)
  {
    hide Split, Root, Values;
    if s.Fork? {
      TopIsRoot(c, s.l);
      TopIsRoot(c, s.r);
      ValuesSplit(Tips(s.l), Tips(s.r));
      if i < |Tips(s.l)| {
        SiblingsArePath(c, s.l, i);
      } else {
        SiblingsArePath(c, s.r, i - |Tips(s.l)|);
      }
    }
  }

  /** fix_up: recomputes the values on the way to the top. If only nodes on that way were off, every
      inner node is combined afterwards. */
  method FixUp(c: Combine, start: Node?, ghost forks: set<Node>, ghost trail: seq<Node>)
    requires Chain(start, trail, null) && forall n :: n in trail ==> n in forks
    requires forall n :: n in forks ==> n.left != null && n.right != null && n.left != n && n.right != n
    requires forall n :: n in forks ==> n.left.parent == n && n.right.parent == n
    requires forall n :: n in forks && n !in trail ==> Combined(c, n)
    modifies (set n | n in trail)`value
    ensures forall n :: n in forks ==> Combined(c, n)
  {
    var node := start;
    ghost var k := 0;
    while node != null
      invariant 0 <= k <= |trail| && node == if k < |trail| then trail[k] else null
      invariant forall n :: n in forks && n !in trail[k..] ==> Combined(c, n)
      decreases |trail| - k
    {
      assert node in forks && node.parent == Above(trail, k, null);
      assert trail[k..] == [node] + trail[k + 1..];
      assert forall n :: n in forks && (n.left == node || n.right == node) ==> n in trail[k + 1..];
      node.value := c(node.left.value, node.right.value);
      node := node.parent;
      k := k + 1;
    }
  }

  ghost predicate Loose(n: Node)
    reads n
  {
    n.left == null && n.right == null && n.parent == null
  }

  ghost function SetOf(ns: seq<Node>): set<Node> {
    set n | n in ns
  }

  ghost predicate AllLoose(ns: seq<Node>)
    reads SetOf(ns)
  {
    forall i :: 0 <= i < |ns| ==> Loose(ns[i])
  }

  ghost predicate NoRepeats(ns: seq<Node>) {
    forall i, j :: 0 <= i < j < |ns| ==> ns[i] != ns[j]
  }

  lemma SplitPart(leaves: seq<Node>, begin: nat, k: nat, size: nat)
    requires k <= size && begin + size <= |leaves|
    requires NoRepeats(leaves[begin..begin + size]) && AllLoose(leaves[begin..begin + size])
    ensures var a, b, part := leaves[begin..begin + k], leaves[begin + k..begin + size], leaves[begin..begin + size];
            && part == a + b && NoRepeats(a) && NoRepeats(b) && AllLoose(a) && AllLoose(b)
            && SetOf(a) !! SetOf(b) && SetOf(part) == SetOf(a) + SetOf(b)
  {
    var a, b, part := leaves[begin..begin + k], leaves[begin + k..begin + size], leaves[begin..begin + size];
    assert part == a + b;
    assert forall i :: 0 <= i < |a| ==> a[i] == part[i];
    assert forall i :: 0 <= i < |b| ==> b[i] == part[k + i];
  }

  /** make_tree: a left-complete tree on top of existing leaves. */
  method MakeTree(c: Combine, leaves: seq<Node>, begin: nat, size: nat)
      returns (root: Node, ghost s: Shape, ghost nodes: set<Node>)
    requires size >= 1 && begin + size <= |leaves| && NoRepeats(leaves[begin..begin + size])
    requires AllLoose(leaves[begin..begin + size])
    modifies SetOf(leaves[begin..begin + size])`parent
    ensures root == Top(s) && root.parent == null && Tips(s) == leaves[begin..begin + size]
    ensures nodes == Nodes(s) && fresh(nodes - SetOf(leaves[begin..begin + size]))
    ensures Distinct(s) && Linked(s) && LeftComplete(s) && AllCombined(c, s)
    decreases size
  {
    hide Split, NoRepeats, Distinct, Linked, LeftComplete, AllCombined, Nodes, Forks, Tips;
    if size == 1 {
      s := Tip(leaves[begin]);
      assert leaves[begin..begin + 1] == [leaves[begin]];
      TipTree(c, leaves[begin]);
      return leaves[begin], s, {leaves[begin]};
    }
    var k := Split(size);
    SplitPart(leaves, begin, k, size);
    ghost var sl, sr, nl, nr;
    var l, r;
    l, sl, nl := MakeTree(c, leaves, begin, k);
    ghost var b := SetOf(leaves[begin + k..begin + size]);
    assert nl !! b;
    r, sr, nr := MakeTree(c, leaves, begin + k, size - k);
    assert nl !! nr && Linked(sl) && AllCombined(c, sl);
    root, s, nodes := JoinTrees(c, l, r, sl, sr, nl, nr);
  }

  /** A new node on top of two trees. */
  method JoinTrees(c: Combine, l: Node, r: Node, ghost sl: Shape, ghost sr: Shape, ghost nl: set<Node>,
      ghost nr: set<Node>)
    returns (root: Node, ghost s: Shape, ghost nodes: set<Node>)
    requires Distinct(sl) && Linked(sl) && LeftComplete(sl) && AllCombined(c, sl) && l == Top(sl) && nl == Nodes(sl)
    requires Distinct(sr) && Linked(sr) && LeftComplete(sr) && AllCombined(c, sr) && r == Top(sr) && nr == Nodes(sr)
    requires nl !! nr && |Tips(sl)| == Split(|Tips(sl) + Tips(sr)|)
    modifies l`parent, r`parent
    ensures s == Fork(root, sl, sr) && fresh(root) && root.parent == null && Tips(s) == Tips(sl) + Tips(sr)
    ensures nodes == Nodes(s) == {root} + nl + nr
    ensures Distinct(s) && Linked(s) && LeftComplete(s) && AllCombined(c, s)
  {
    hide Split, Distinct, Linked, LeftComplete, AllCombined, Nodes, Tips;
    root := new Node(l, r, null, c(l.value, r.value));
    s := Fork(root, sl, sr);
    nodes := {root} + nl + nr;
    l.parent := root;
    r.parent := root;
    ForkTree(c, root, sl, sr);
  }

  lemma NoValues()
    ensures Values([]) == []
  {
  }

  /** Leaf nodes for a list of values. */
  method MakeLeaves(elements: seq<Bytes>) returns (leaves: seq<Node>)
    ensures NoRepeats(leaves) && AllLoose(leaves) && Values(leaves) == elements && fresh(SetOf(leaves))
  {
    hide Values;
    leaves := [];
    NoValues();
    var i := 0;
    while i < |elements|
      invariant 0 <= i <= |elements| && |leaves| == i && NoRepeats(leaves) && AllLoose(leaves)
      invariant fresh(SetOf(leaves)) && Values(leaves) == elements[..i]
    {
      ghost var before := Values(leaves);
      var n := new Node(null, null, null, elements[i]);
      assert Values(leaves) == before && n !in SetOf(leaves);
      assert SetOf(leaves + [n]) == SetOf(leaves) + {n};
      AppendValue(leaves, n);
      leaves := leaves + [n];
      i := i + 1;
    }
  }

  lemma TipTree(c: Combine, n: Node)
    requires Loose(n)
    ensures var s := Tip(n);
            && Distinct(s) && Linked(s) && LeftComplete(s) && AllCombined(c, s) && Nodes(s) == {n} && Tips(s) == [n]
  {
  }

  lemma ForkTree(c: Combine, n: Node, l: Shape, r: Shape)
    requires Distinct(l) && Linked(l) && LeftComplete(l) && AllCombined(c, l)
    requires Distinct(r) && Linked(r) && LeftComplete(r) && AllCombined(c, r)
    requires n !in Nodes(l) && n !in Nodes(r) && Nodes(l) !! Nodes(r)
    requires n.left == Top(l) && n.right == Top(r) && Top(l).parent == n && Top(r).parent == n
    requires n.value == c(Top(l).value, Top(r).value) && |Tips(l)| == Split(|Tips(l) + Tips(r)|)
    ensures var s := Fork(n, l, r);
            && Distinct(s) && Linked(s) && LeftComplete(s) && AllCombined(c, s)
            && Tips(s) == Tips(l) + Tips(r) && Nodes(s) == {n} + Nodes(l) + Nodes(r)
  {
  }

  lemma ForkLinks(n: Node, l: Shape, r: Shape)
    requires Distinct(l) && Linked(l) && Distinct(r) && Linked(r)
    requires n !in Nodes(l) && n !in Nodes(r) && Nodes(l) !! Nodes(r)
    requires n.left == Top(l) && n.right == Top(r) && Top(l).parent == n && Top(r).parent == n
    ensures var s := Fork(n, l, r);
            && Distinct(s) && Linked(s) && Tips(s) == Tips(l) + Tips(r)
            && Nodes(s) == {n} + Nodes(l) + Nodes(r) && Forks(s) == {n} + Forks(l) + Forks(r)
  {
  }

  /** Puts a new node between the root and its right subtree, with a new leaf as its other child. The
      value of the new node is computed later. */
  method InsertRight(root: Node, cur: Node, newLeaf: Node, ghost l: Shape, ghost r: Shape, ghost nl: set<Node>,
      ghost nr: set<Node>)
    returns (newNode: Node, ghost s: Shape, ghost nodes: set<Node>)
    requires Distinct(l) && Linked(l) && nl == Nodes(l) && Distinct(r) && Linked(r) && nr == Nodes(r) && nl !! nr
    requires root !in nl + nr && newLeaf !in nl + nr + {root} && Loose(newLeaf)
    requires root.left == Top(l) && Top(l).parent == root && root.parent == null && cur == Top(r)
    modifies root`right, cur`parent, newLeaf`parent
    ensures fresh(newNode) && root.right == newNode && newNode.parent == root && newNode.left == cur
            && newNode.right == newLeaf
    ensures s == Fork(root, l, Fork(newNode, r, Tip(newLeaf)))
            && nodes == Nodes(s) == {root, newNode, newLeaf} + nl + nr
    ensures Distinct(s) && Linked(s) && Linked(l) && Linked(r) && Tips(s) == Tips(l) + (Tips(r) + [newLeaf])
    ensures Forks(s) == {root, newNode} + Forks(l) + Forks(r)
  {
    hide Linked, Distinct, Nodes, Tips, Forks;
    newNode := new Node(cur, newLeaf, root, []);
    root.right := newNode;
    cur.parent := newNode;
    newLeaf.parent := newNode;
    ghost var tip := Tip(newLeaf);
    TipLinks(newLeaf);
    ghost var right := Fork(newNode, r, tip);
    ForkLinks(newNode, r, tip);
    s := Fork(root, l, right);
    ForkLinks(root, l, right);
    nodes := {root, newNode, newLeaf} + nl + nr;
  }

  lemma TipLinks(n: Node)
    requires n.left == null && n.right == null
    ensures var s := Tip(n); Distinct(s) && Linked(s) && Nodes(s) == {n} && Tips(s) == [n] && Forks(s) == {}
  {
  }

  // ---------------------------------------------------------------- sizes

  /** The number of one-bits. */
  function OneBits(n: nat): nat {
    if n == 0 then 0 else n % 2 + OneBits(n / 2)
  }

  lemma {:induction false} OneBitsOfTop(d: nat, r: nat)
    requires r < Pow2(d)
    ensures OneBits(Pow2(d) + r) == 1 + OneBits(r)
  {
    if d > 0 {
      OneBitsOfTop(d - 1, r / 2);
      assert (Pow2(d) + r) / 2 == Pow2(d - 1) + r / 2 && (Pow2(d) + r) % 2 == r % 2;
    }
  }

  /** Taking away the top bit of a size leaves one bit less; powers of two have a single one. */
  lemma OneBitsSplit(n: nat)
    requires n >= 1
    ensures IsPow2(n) <==> OneBits(n) == 1
    ensures n >= 2 && !IsPow2(n) ==> OneBits(n) == 1 + OneBits(n - Split(n))
  {
    CeilLgBounds(n);
    if IsPow2(n) {
      OneBitsOfTop(CeilLg(n), 0);
    } else {
      var d := CeilLg(n) - 1;
      OneBitsOfTop(d, n - Pow2(d));
      SomeBit(n - Pow2(d));
    }
  }

  lemma {:induction false} SomeBit(n: nat)
    ensures n > 0 ==> OneBits(n) > 0
  {
    if n > 1 {
      SomeBit(n / 2);
    }
  }

  /** Where a new leaf goes: above the whole tree if its size is a power of two, above its right part
      if that has such a size. */
  lemma NextSize(n: nat)
    requires n >= 1
    ensures IsPow2(n) ==> Split(n + 1) == n && CeilLg(n + 1) == CeilLg(n) + 1
    ensures !IsPow2(n) ==> n >= 2 && Split(n + 1) == Split(n) && CeilLg(n + 1) == CeilLg(n)
  {
    CeilLgBounds(n);
    if IsPow2(n) {
      CeilLgUnique(n + 1, CeilLg(n) + 1);
    } else {
      CeilLgUnique(n + 1, CeilLg(n));
    }
  }

  lemma ForkComplete(n: Node, l: Shape, r: Shape)
    requires LeftComplete(l) && LeftComplete(r) && |Tips(l)| == Split(|Tips(l)| + |Tips(r)|)
    ensures LeftComplete(Fork(n, l, r)) && |Tips(Fork(n, l, r))| == |Tips(l)| + |Tips(r)|
  {
    hide Split;
    assert |Tips(l) + Tips(r)| == |Tips(l)| + |Tips(r)|;
  }

  lemma TipComplete(leaf: Node)
    ensures LeftComplete(Tip(leaf)) && |Tips(Tip(leaf))| == 1
  {
  }

  lemma RightGrows(n: Node, l: Shape, m: Node, r: Shape, leaf: Node)
    requires LeftComplete(l) && LeftComplete(r) && |Tips(l)| == Split(|Tips(l)| + |Tips(r)|)
    requires !IsPow2(|Tips(l)| + |Tips(r)|) && IsPow2(|Tips(r)|)
    ensures LeftComplete(Fork(n, l, Fork(m, r, Tip(leaf))))
  {
    hide Split, IsPow2, CeilLg, LeftComplete, Tips;
    TipComplete(leaf);
    NextSize(|Tips(l)| + |Tips(r)|);
    NextSize(|Tips(r)|);
    ForkComplete(m, r, Tip(leaf));
    ForkComplete(n, l, Fork(m, r, Tip(leaf)));
  }

  lemma AppendTip(all: seq<Node>, l: seq<Node>, r: seq<Node>, leaf: Node)
    requires all != [] && all[..|all| - 1] == l + r && all[|all| - 1] == leaf
    ensures all == l + (r + [leaf]) && |all| - 1 == |l| + |r|
  {
  }

  /** The surgery on the right subtree with the values fixed up. */
  method GrowRight(
    c: Combine, root: Node, cur: Node, newLeaf: Node, ghost l: Shape, ghost r: Shape, ghost nl: set<Node>,
        ghost nr: set<Node>)
    returns (newNode: Node, ghost s: Shape, ghost all: set<Node>)
    requires Distinct(l) && Linked(l) && AllCombined(c, l) && nl == Nodes(l)
    requires Distinct(r) && Linked(r) && AllCombined(c, r) && nr == Nodes(r) && nl !! nr
    requires root !in nl + nr && newLeaf !in nl + nr + {root} && Loose(newLeaf) && root.parent == null
    requires root.left == Top(l) && cur == Top(r) && Top(l).parent == root
    requires LeftComplete(l) && LeftComplete(r) && |Tips(l)| == Split(|Tips(l)| + |Tips(r)|)
    requires !IsPow2(|Tips(l)| + |Tips(r)|) && IsPow2(|Tips(r)|)
    modifies root`right, root`value, cur`parent, newLeaf`parent
    ensures fresh(newNode) && all == Nodes(s) == {root, newNode, newLeaf} + nl + nr && Top(s) == root
    ensures Distinct(s) && Linked(s) && LeftComplete(s) && AllCombined(c, s)
            && Tips(s) == Tips(l) + (Tips(r) + [newLeaf])
  {
    hide Linked, Distinct, LeftComplete, AllCombined, Nodes, Tips, Forks, IsPow2, CeilLg, Split;
    newNode, s, all := InsertRight(root, cur, newLeaf, l, r, nl, nr);
    CombinedEverywhere(c, l);
    CombinedEverywhere(c, r);
    AllLinks(s);
    FixUp(c, newNode, Forks(s), [newNode, root]);
    CombinedEverywhere(c, s);
    RightGrows(root, l, newNode, r, newLeaf);
  }

  // ---------------------------------------------------------------- the class

  /** How an update ends: done, refused for the length of the hash, or stopped by an exception because
      the size has become a fraction. */
  datatype Outcome = Done | BadIndex | BadLength | NotAnInteger

  class MerkleTree {
    const c: Combine
    var leaves: seq<Node>
    var root: Node?
    var depth: Option<nat>
    ghost var shape: Option<Shape>
    ghost var nodes: set<Node>

    ghost predicate Valid()
      reads this, nodes
    {
      if leaves == [] then root == null && depth == None && shape == None && nodes == {}
      else shape.Some? && nodes == Nodes(shape.value) && Built(shape.value)
    }

    /** The fields describe the left-complete tree of the given shape, with combined values. */
    ghost predicate Built(s: Shape)
      reads this`leaves, this`root, this`depth, Nodes(s)
    {
      && leaves == Tips(s) && root == Top(s) && root.parent == null && depth == Some(CeilLg(|leaves|))
      && Distinct(s) && Linked(s) && LeftComplete(s) && AllCombined(c, s)
    }

    /** The list of leaf values that the tree is for. */
    ghost function Contents(): seq<Bytes>
      reads this, SetOf(leaves)`value
    {
      Values(leaves)
    }

    /** The root, which commits to the contents. */
    method RootHash() returns (h: Bytes)
      requires Valid()
      ensures h == if Contents() == [] then NIL else Root(c, Contents())
    {
      if root == null {
        return NIL;
      }
      TopIsRoot(c, shape.value);
      h := root.value;
    }

    method SetExisting(index: nat, x: Bytes)
      requires Valid() && index < |leaves|
      modifies nodes`value
      ensures Valid() && Contents() == old(Contents())[index := x]
    {
      hide Linked, Distinct, LeftComplete, AllCombined, Forks, Nodes, Tips, Trail;
      ghost var s := shape.value;
      ghost var trail := Trail(s, index);
      TrailIsChain(s, index);
      CombinedEverywhere(c, s);
      AllLinks(s);
      forall i | 0 <= i < |leaves| && i != index ensures leaves[i] != leaves[index] {
        TipsDistinct(s, if i < index then i else index, if i < index then index else i);
      }
      leaves[index].value := x;
      FixUp(c, leaves[index].parent, Forks(s), trail);
      CombinedEverywhere(c, s);
    }

    /** prove_leaf: collects the values of the siblings on the way to the top. */
    method ProveLeaf(index: nat) returns (proof: seq<Bytes>)
      requires Valid() && index < |leaves|
      ensures proof == Path(c, Contents(), index)
    {
      hide Linked, Distinct, LeftComplete, AllCombined, Forks, Nodes, Tips, Trail, Siblings;
      ghost var s := shape.value;
      ghost var trail := Trail(s, index);
      TrailIsChain(s, index);
      proof := [];
      var node := leaves[index];
      ghost var k := 0;
      while node.parent != null
        invariant 0 <= k <= |trail| && node == if k == 0 then leaves[index] else trail[k - 1]
        invariant Chain(leaves[index].parent, trail, null)
        invariant proof == Siblings(s, index)[..k]
        decreases |trail| - k
      {
        SiblingAt(s, index, k);
        var sibling := if node.parent.left == node then node.parent.right else node.parent.left;
        proof := proof + [sibling.value];
        node := node.parent;
        k := k + 1;
      }
      SiblingsArePath(c, s, index);
    }

    /** leaf_index: the first position of a hash among the leaves. */
    method LeafIndex(x: Bytes) returns (r: Option<nat>)
      ensures r.Some? ==> r.value < |leaves| && Contents()[r.value] == x && x !in Contents()[..r.value]
      ensures r.None? ==> x !in Contents()
    {
      var i := 0;
      while i < |leaves|
        invariant 0 <= i <= |leaves| && x !in Contents()[..i]
      {
        if leaves[i].value == x {
          return Some(i);
        }
        i := i + 1;
      }
      r := None;
    }

    /** The new leaf and the whole tree become the children of a new root. */
    method AddAboveRoot(newLeaf: Node)
      requires shape.Some? && nodes == Nodes(shape.value) && |leaves| >= 2 && leaves[|leaves| - 1] == newLeaf
      requires Standing(shape.value, leaves[..|leaves| - 1]) && IsPow2(|leaves| - 1)
      requires newLeaf !in nodes && Loose(newLeaf)
      modifies this`root, this`depth, this`shape, this`nodes, root`parent, newLeaf`parent
      ensures Valid() && shape.Some? && nodes == old(nodes) + {newLeaf} + {root} && fresh(root)
    {
      hide Linked, Distinct, LeftComplete, AllCombined, Nodes, Tips;
      ghost var s, tip := shape.value, Tip(newLeaf);
      NextSize(|leaves| - 1);
      TipTree(c, newLeaf);
      ghost var s', nodes';
      root, s', nodes' := JoinTrees(c, root, newLeaf, s, tip, nodes, {newLeaf});
      depth := Some(depth.value + 1);
      shape, nodes := Some(s'), nodes';
      assert leaves == leaves[..|leaves| - 1] + [newLeaf];
    }

    /** The new leaf and the right part become the children of a new right part. */
    method AddAboveRight(newLeaf: Node, ghost l: Shape, ghost r: Shape, ghost nl: set<Node>, ghost nr: set<Node>)
      requires |leaves| >= 2 && leaves[|leaves| - 1] == newLeaf && root != null
      requires Distinct(l) && Linked(l) && AllCombined(c, l) && nl == Nodes(l)
      requires Distinct(r) && Linked(r) && AllCombined(c, r) && nr == Nodes(r) && nl !! nr
      requires root !in nl + nr && newLeaf !in nl + nr + {root} && Loose(newLeaf) && root.parent == null
      requires root.left == Top(l) && root.right == Top(r) && Top(l).parent == root
      requires leaves[..|leaves| - 1] == Tips(l) + Tips(r) && depth == Some(CeilLg(|leaves| - 1))
      requires LeftComplete(l) && LeftComplete(r)
      requires |Tips(l)| == Split(|leaves| - 1) && !IsPow2(|leaves| - 1) && IsPow2(|Tips(r)|)
      modifies this`shape, this`nodes, root`right, root`value, root.right`parent, newLeaf`parent
      ensures Valid() && fresh(nodes - {root, newLeaf} - nl - nr)
    {
      hide Linked, Distinct, LeftComplete, AllCombined, Nodes, Tips, Forks, IsPow2, CeilLg, Split;
      AppendTip(leaves, Tips(l), Tips(r), newLeaf);
      NextSize(|leaves| - 1);
      var newNode;
      ghost var s, all;
      newNode, s, all := GrowRight(c, root, root.right, newLeaf, l, r, nl, nr);
      shape, nodes := Some(s), all;
    }

    method AttachRight(newLeaf: Node)
      requires shape.Some? && nodes == Nodes(shape.value) && |leaves| >= 3 && leaves[|leaves| - 1] == newLeaf
      requires Standing(shape.value, leaves[..|leaves| - 1]) && !IsPow2(|leaves| - 1)
      requires IsPow2(|leaves| - 1 - Split(|leaves| - 1)) && newLeaf !in nodes && Loose(newLeaf)
      modifies this`shape, this`nodes, nodes, newLeaf`parent
      ensures Valid() && forall n :: n in leaves ==> n.value == old(n.value)
    {
      hide Distinct, Linked, LeftComplete, AllCombined, Tips, Forks, Nodes, IsPow2, CeilLg, Split;
      ghost var s := shape.value;
      AllLinks(s);
      ForkParts(c, s);
      AddAboveRight(newLeaf, s.l, s.r, Nodes(s.l), Nodes(s.r));
    }

    /** A tree over all leaves but the last one, which has been appended to the list only. */
    ghost predicate Standing(s: Shape, tips: seq<Node>)
      reads this, Nodes(s)
    {
      && tips == Tips(s) && root == Top(s) && root.parent == null && depth == Some(CeilLg(|tips|))
      && Distinct(s) && Linked(s) && LeftComplete(s) && AllCombined(c, s)
    }

    /** add: appends a leaf. The size of the left subtree is halved with a division that leaves the
        integers, so that a second step down raises an exception after the leaf is in the list. */
    method Add(x: Bytes) returns (r: Outcome)
      requires Valid()
      modifies this, nodes
      ensures r == if |x| != 32 then BadLength else if OneBits(old(|leaves|)) <= 2 then Done else NotAnInteger
      ensures r == Done ==> Valid() && Contents() == old(Contents()) + [x]
      ensures r == BadLength ==> Valid() && Contents() == old(Contents())
      ensures r == NotAnInteger ==>
              root == old(root) && |leaves| == old(|leaves|) + 1 && leaves[..old(|leaves|)] == old(leaves)
    {
      hide Linked, Distinct, LeftComplete, AllCombined, Tips, Forks, Nodes, IsPow2, CeilLg, Split, OneBits, Values;
      if |x| != 32 {
        return BadLength;
      }
      ghost var before := leaves;
      var newLeaf := new Node(null, null, null, x);
      leaves := leaves + [newLeaf];
      assert leaves[..|leaves| - 1] == before;
      if |leaves| == 1 {
        root, depth := newLeaf, Some(0);
        TipTree(c, newLeaf);
        shape, nodes := Some(Tip(newLeaf)), {newLeaf};
        LgOne();
        return Done;
      }
      var cur, steps := Descend(root, |leaves| - 1, depth.value);
      if steps == 2 {
        return NotAnInteger;
      }
      if steps == 0 {
        AddAboveRoot(newLeaf);
      } else {
        AttachRight(newLeaf);
      }
      assert forall n :: n in before ==> n in leaves && n.value == old(n.value);
      assert Values(before) == old(Contents());
      AppendValue(before, newLeaf);
      r := Done;
    }

    /** set: changes a leaf, or appends one if the index is the number of leaves. */
    method Set(index: nat, x: Bytes) returns (r: Outcome)
      requires Valid()
      modifies this, nodes
      ensures r == if index > old(|leaves|) then BadIndex
                   else if |x| != 32 then BadLength
                   else if index < old(|leaves|) || OneBits(index) <= 2 then Done
                   else NotAnInteger
      ensures r == Done ==> Valid()
      ensures r == Done && index < old(|leaves|) ==> Contents() == old(Contents())[index := x]
      ensures r == Done && index == old(|leaves|) ==> Contents() == old(Contents()) + [x]
      ensures r == BadIndex || r == BadLength ==> Valid() && Contents() == old(Contents())
    {
      if index > |leaves| {
        return BadIndex;
      }
      if |x| != 32 {
        return BadLength;
      }
      if index == |leaves| {
        r := Add(x);
      } else {
        SetExisting(index, x);
        r := Done;
      }
    }

    constructor (c: Combine, elements: seq<Bytes>)
      ensures this.c == c && Valid() && Contents() == elements && fresh(nodes)
    {
      hide Distinct, Linked, LeftComplete, AllCombined, Nodes, Tips, NoRepeats, CeilLg, Values;
      var ls := MakeLeaves(elements);
      assert ls[0..|ls|] == ls;
      var top: Node? := null;
      ghost var s, ns := None, {};
      if |ls| > 0 {
        ghost var t;
        top, t, ns := MakeTree(c, ls, 0, |ls|);
        s := Some(t);
      }
      assert Values(ls) == elements;
      this.c, leaves, root, shape, nodes := c, ls, top, s, ns;
      depth := if |ls| > 0 then Some(CeilLg(|ls|)) else None;
    }
  }

  lemma ForkParts(c: Combine, s: Shape)
    requires Distinct(s) && Linked(s) && LeftComplete(s) && AllCombined(c, s) && |Tips(s)| >= 2
    ensures s.Fork? && Tips(s) == Tips(s.l) + Tips(s.r) && |Tips(s.l)| == Split(|Tips(s)|)
    ensures Distinct(s.l) && Linked(s.l) && LeftComplete(s.l) && AllCombined(c, s.l)
    ensures Distinct(s.r) && Linked(s.r) && LeftComplete(s.r) && AllCombined(c, s.r)
    ensures Nodes(s) == {s.node} + Nodes(s.l) + Nodes(s.r) && Nodes(s.l) !! Nodes(s.r)
    ensures s.node !in Nodes(s.l) + Nodes(s.r) && s.node in Forks(s)
    ensures s.node.left == Top(s.l) && s.node.right == Top(s.r) && Top(s.l).parent == s.node
    ensures |Tips(s.r)| == |Tips(s)| - Split(|Tips(s)|)
  {
    hide Split;
  }

  lemma AppendValue(ns: seq<Node>, n: Node)
    ensures Values(ns + [n]) == Values(ns) + [n.value]
  {
    assert (ns + [n])[..|ns|] == ns;
  }

  lemma LgOne()
    ensures CeilLg(1) == 0 && OneBits(0) == 0
  {
  }

  /** The loop of add, which looks for a subtree on the right whose size is a power of two: 0 or 1 steps
      down, or 2 if it would have to go further, which it cannot. */
  method Descend(root: Node, n: nat, depth: nat) returns (cur: Node?, steps: nat)
    requires n >= 1 && depth == CeilLg(n)
    ensures steps == if OneBits(n) == 1 then 0 else if OneBits(n) == 2 then 1 else 2
    ensures OneBits(n) >= 1 && (steps == 0 ==> IsPow2(n) && cur == root)
    ensures steps == 1 ==> n >= 2 && !IsPow2(n) && IsPow2(n - Split(n)) && cur == root.right
  {
    var leftSize := if depth == 0 then 0 else Pow2(depth - 1);
    var curSize: nat := n;
    cur, steps := root, 0;
    OneBitsSplit(n);
    PowerOfTwoTest(n);
    SomeBit(n);
    while BitAnd(curSize, curSize - 1) != 0
      invariant curSize >= 1 && steps <= 1 && (BitAnd(curSize, curSize - 1) == 0 <==> OneBits(curSize) == 1)
      invariant steps == 0 ==> curSize == n && cur == root
      invariant steps == 1 ==> n >= 2 && !IsPow2(n) && curSize == n - Split(n) && cur == root.right
      invariant OneBits(n) == OneBits(curSize) + steps && OneBits(curSize) >= 1
      decreases 1 - steps
    {
      if steps == 1 {
        return cur, 2;
      }
      cur := cur.right;
      curSize := curSize - leftSize;
      steps := steps + 1;
      OneBitsSplit(curSize);
      PowerOfTwoTest(curSize);
    }
    OneBitsSplit(curSize);
  }

  lemma SevenHasThreeBits()
    ensures OneBits(7) == 3
  {
    assert OneBits(3) == 2;
  }

  /** An eighth leaf cannot be added to a tree of seven. */
  method AddToSeven(c: Combine, elements: seq<Bytes>, x: Bytes) returns (r: Outcome)
    requires |elements| == 7 && |x| == 32
    ensures r == NotAnInteger
  {
    hide OneBits, Values;
    var tree := new MerkleTree(c, elements);
    assert |tree.leaves| == 7;
    SevenHasThreeBits();
    r := tree.Add(x);
  }
}
