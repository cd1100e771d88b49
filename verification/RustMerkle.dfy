/** The immutable Merkle tree of the Rust client (bitcoin_client_rs/src/merkle.rs). */
module RustMerkle {
  import opened Wrappers
  import opened Merkle

  datatype Tree = Node(value: Bytes, left: Tree, right: Tree, height: nat) | Leaf(index: nat)

  function Height(t: Tree): nat {
    match t
    case Node(_, _, _, h) => h
    case Leaf(_) => 0
  }

  function Value(t: Tree, leaves: seq<Bytes>): Option<Bytes> {
    match t
    case Node(v, _, _, _) => Some(v)
    case Leaf(i) => if i < |leaves| then Some(leaves[i]) else None
  }

  /** Tree::new; there is no tree of size 0. */
  function New(c: Combine, leaves: seq<Bytes>, start: nat, size: nat): (t: Tree)
    requires size >= 1 && start + size <= |leaves|
    ensures Value(t, leaves).Some?
    decreases size
  {
    if size == 1 then Leaf(start)
    else
      var k := Split(size);
      var l, r := New(c, leaves, start, k), New(c, leaves, start + k, size - k);
      Node(c(Value(l, leaves).value, Value(r, leaves).value), l, r, Height(l) + 1)
  }

  /** get_proof steers by 2^height of the left subtree. */
  function GetProof(t: Tree, leaves: seq<Bytes>, index: nat): seq<Bytes> {
    match t
    case Leaf(_) => []
    case Node(_, l, r, _) =>
      var m := Pow2(Height(l));
      var rest, sibling := if index < m then GetProof(l, leaves, index) else GetProof(r, leaves, index - m),
                           if index < m then r else l;
      rest + if Value(sibling, leaves).Some? then [Value(sibling, leaves).value] else []
  }

  // ---------------------------------------------------------------- the loops

  method FloorLg(n: nat) returns (r: nat)
    requires n > 0
    ensures Pow2(r) <= n < Pow2(r + 1)
  {
    r := 0;
    var t := 1;
    while 2 * t <= n
      invariant t == Pow2(r) <= n
      decreases n - t
    {
      t := t * 2;
      r := r + 1;
    }
  }

  method PowerOf2(n: nat) returns (p: nat)
    ensures p == Pow2(n)
  {
    p := 1;
    for i := 0 to n
      invariant p == Pow2(i)
    {
      p := p * 2;
    }
  }

  method LargestPowerOf2LessThan(n: nat) returns (k: nat)
    requires n > 1
    ensures k == Split(n)
  {
    if n == 2 {
      return 1;
    }
    PowerOfTwoTest(n);
    CeilLgBounds(n);
    if BitAnd(n, n - 1) == 0 {
      k := n / 2;
      assert Pow2(CeilLg(n)) == 2 * Pow2(CeilLg(n) - 1);
    } else {
      var r := FloorLg(n);
      k := PowerOf2(r);
      if k == n {
        CeilLgUnique(n, r);
      } else {
        SplitUnique(n, r);
      }
    }
  }

  // ---------------------------------------------------------------- agreement with RFC 6962

  lemma {:induction false} NewRoot(c: Combine, leaves: seq<Bytes>, start: nat, size: nat)
    requires size >= 1 && start + size <= |leaves|
    ensures Value(New(c, leaves, start, size), leaves) == Some(Root(c, leaves[start..start + size]))
    decreases size
  {
    hide Split, CeilLg;
    if size > 1 {
      var k := Split(size);
      var part := leaves[start..start + size];
      NewRoot(c, leaves, start, k);
      NewRoot(c, leaves, start + k, size - k);
      assert part[..k] == leaves[start..start + k] && part[k..] == leaves[start + k..start + size];
    }
  }

  lemma SplitOfPow2(d: nat)
    requires d > 0
    ensures Split(Pow2(d)) == Pow2(d - 1)
  {
    SplitUnique(Pow2(d), d - 1);
  }

  /** A tree over 2^d leaves has height d. */
  lemma {:induction false} CompleteHeight(c: Combine, leaves: seq<Bytes>, start: nat, d: nat)
    requires start + Pow2(d) <= |leaves|
    ensures Height(New(c, leaves, start, Pow2(d))) == d
    decreases d
  {
    if d > 0 {
      SplitOfPow2(d);
      CompleteHeight(c, leaves, start, d - 1);
    }
  }

  /** The height of the left subtree tells its size. */
  lemma LeftSize(c: Combine, leaves: seq<Bytes>, start: nat, size: nat)
    requires size >= 2 && start + size <= |leaves|
    ensures Pow2(Height(New(c, leaves, start, Split(size)))) == Split(size)
  {
    CeilLgBounds(size);
    CompleteHeight(c, leaves, start, CeilLg(size) - 1);
  }

  /** The proof of the Rust client is the audit path. */
  lemma {:induction false} GetProofIsPath(c: Combine, leaves: seq<Bytes>, start: nat, size: nat, i: nat)
    requires i < size && start + size <= |leaves|
    ensures GetProof(New(c, leaves, start, size), leaves, i) == Path(c, leaves[start..start + size], i)
    decreases size
  {
    hide Split, Root, Pow2, CeilLg, Value;
    if size > 1 {
      var k := Split(size);
      var part := leaves[start..start + size];
      assert part[..k] == leaves[start..start + k] && part[k..] == leaves[start + k..start + size];
      LeftSize(c, leaves, start, size);
      NewRoot(c, leaves, start, k);
      NewRoot(c, leaves, start + k, size - k);
      if i < k {
        GetProofIsPath(c, leaves, start, k, i);
      } else {
        GetProofIsPath(c, leaves, start + k, size - k, i - k);
      }
    }
  }
}
