/** Merkle trees of section 2.1 of RFC 6962, with the combination of two hashes as a parameter: root,
    audit path, the directions from the root to a leaf, and folding a path along directions. */
module Merkle {
  import opened Wrappers

  type Combine = (Bytes, Bytes) -> Bytes

  predicate IsHash(h: Bytes) {
    |h| == 32
  }

  predicate AreHashes(hs: seq<Bytes>) {
    forall i :: 0 <= i < |hs| ==> IsHash(hs[i])
  }

  const NIL: Bytes := [0, 0, 0, 0, 0, 0, 0, 0, 0, 0, 0, 0, 0, 0, 0, 0, 0, 0, 0, 0, 0, 0, 0, 0, 0, 0, 0, 0, 0, 0, 0, 0]

  /** Everything combines to a hash. */
  ghost predicate MakesHashes(c: Combine) {
    forall a, b :: IsHash(c(a, b))
  }

  /** No two of these finitely many pairs combine to the same hash. */
  ghost predicate Apart(c: Combine, pairs: set<(Bytes, Bytes)>) {
    forall p, q :: p in pairs && q in pairs && c(p.0, p.1) == c(q.0, q.1) ==> p == q
  }

  // ---------------------------------------------------------------- powers of two

  /** The least r with n <= 2^r. */
  function CeilLg(n: nat): nat
    requires n >= 1
  {
    if n == 1 then 0 else 1 + CeilLg((n + 1) / 2)
  }

  lemma {:induction false} CeilLgBounds(n: nat)
    requires n >= 1
    ensures n <= Pow2(CeilLg(n)) && (n > 1 ==> CeilLg(n) > 0 && Pow2(CeilLg(n) - 1) < n)
  {
    if n > 1 {
      CeilLgBounds((n + 1) / 2);
    }
  }

  lemma {:induction false} Pow2Monotone(a: nat, b: nat)
    requires a <= b
    ensures Pow2(a) <= Pow2(b)
  {
    if a < b {
      Pow2Monotone(a, b - 1);
    }
  }

  /** The bounds determine the logarithm. */
  lemma CeilLgUnique(n: nat, r: nat)
    requires n >= 1 && n <= Pow2(r) && (r > 0 ==> Pow2(r - 1) < n)
    ensures CeilLg(n) == r
  {
    CeilLgBounds(n);
    if CeilLg(n) < r {
      Pow2Monotone(CeilLg(n), r - 1);
    } else if r < CeilLg(n) {
      Pow2Monotone(r, CeilLg(n) - 1);
    }
  }

  /** The largest power of two below n. */
  function Split(n: nat): (k: nat)
    requires n >= 2
    ensures 1 <= k < n <= 2 * k
  {
    CeilLgBounds(n);
    Pow2(CeilLg(n) - 1)
  }

  lemma SplitUnique(n: nat, d: nat)
    requires Pow2(d) < n <= 2 * Pow2(d)
    ensures Split(n) == Pow2(d)
  {
    CeilLgUnique(n, d + 1);
  }

  function BitAnd(a: nat, b: nat): nat {
    if a == 0 || b == 0 then 0 else 2 * BitAnd(a / 2, b / 2) + (a % 2) * (b % 2)
  }

  /** Testing the top bit of an index below 2^(d+1) tells on which side of 2^d it is. */
  lemma {:induction false} TopBit(i: nat, d: nat)
    requires i < 2 * Pow2(d)
    ensures BitAnd(i, Pow2(d)) != 0 <==> i >= Pow2(d)
  {
    if d > 0 && i > 0 {
      TopBit(i / 2, d - 1);
      assert Pow2(d) / 2 == Pow2(d - 1) && Pow2(d) % 2 == 0;
    }
  }

  predicate IsPow2(n: nat) {
    n >= 1 && Pow2(CeilLg(n)) == n
  }

  lemma {:induction false} BitAndZero(a: nat)
    ensures BitAnd(a, a) == a && BitAnd(a, 0) == 0
  {
    if a > 0 {
      BitAndZero(a / 2);
    }
  }

  /** n & (n - 1) is 0 exactly for powers of two. */
  lemma {:induction false} PowerOfTwoTest(n: nat)
    requires n >= 1
    ensures BitAnd(n, n - 1) == 0 <==> IsPow2(n)
  {
    if n > 1 {
      if n % 2 == 0 {
        PowerOfTwoTest(n / 2);
        assert (n - 1) / 2 == n / 2 - 1 && (n + 1) / 2 == n / 2;
      } else {
        BitAndZero(n / 2);
        assert (n - 1) / 2 == n / 2;
        CeilLgBounds(n);
        assert Pow2(CeilLg(n)) == 2 * Pow2(CeilLg(n) - 1);
      }
    }
  }

  // ---------------------------------------------------------------- trees

  function Root(c: Combine, leaves: seq<Bytes>): Bytes
    requires leaves != []
    decreases |leaves|
  {
    if |leaves| == 1 then leaves[0]
    else
      var k := Split(|leaves|);
      c(Root(c, leaves[..k]), Root(c, leaves[k..]))
  }

  /** The pairs that are combined in the tree. */
  function TreePairs(c: Combine, leaves: seq<Bytes>): set<(Bytes, Bytes)>
    requires leaves != []
    decreases |leaves|
  {
    if |leaves| == 1 then {}
    else
      var k := Split(|leaves|);
      TreePairs(c, leaves[..k]) + TreePairs(c, leaves[k..]) + {(Root(c, leaves[..k]), Root(c, leaves[k..]))}
  }

  /** The audit path of leaf i, from the leaf to the root. */
  function Path(c: Combine, leaves: seq<Bytes>, i: nat): seq<Bytes>
    requires i < |leaves|
    decreases |leaves|
  {
    if |leaves| == 1 then []
    else
      var k := Split(|leaves|);
      if i < k then Path(c, leaves[..k], i) + [Root(c, leaves[k..])]
      else Path(c, leaves[k..], i - k) + [Root(c, leaves[..k])]
  }

  /** The turns from the root to leaf i of n; true is right. */
  function Directions(n: nat, i: nat): seq<bool>
    requires i < n
    decreases n
  {
    if n == 1 then []
    else
      var k := Split(n);
      if i < k then [false] + Directions(k, i) else [true] + Directions(n - k, i - k)
  }

  /** Folds a path, given from the leaf to the root, along turns given from the root to the leaf. */
  function Fold(c: Combine, h: Bytes, proof: seq<Bytes>, turns: seq<bool>): Bytes
    requires |proof| == |turns|
    decreases |turns|
  {
    if turns == [] then h
    else
      var sub := Fold(c, h, proof[..|proof| - 1], turns[1..]);
      if turns[0] then c(proof[|proof| - 1], sub) else c(sub, proof[|proof| - 1])
  }

  /** The pairs that are combined while a path is folded. */
  function FoldPairs(c: Combine, h: Bytes, proof: seq<Bytes>, turns: seq<bool>): set<(Bytes, Bytes)>
    requires |proof| == |turns|
    decreases |turns|
  {
    if turns == [] then {}
    else
      var last := proof[|proof| - 1];
      var sub := Fold(c, h, proof[..|proof| - 1], turns[1..]);
      FoldPairs(c, h, proof[..|proof| - 1], turns[1..]) + {if turns[0] then (last, sub) else (sub, last)}
  }

  /** The hash of the subtree that the first p turns lead to. */
  function NodeAt(c: Combine, leaves: seq<Bytes>, i: nat, p: nat): Bytes
    requires i < |leaves| && p <= |Directions(|leaves|, i)|
    decreases |leaves|
  {
    if p == 0 then Root(c, leaves)
    else
      var k := Split(|leaves|);
      if i < k then NodeAt(c, leaves[..k], i, p - 1) else NodeAt(c, leaves[k..], i - k, p - 1)
  }

  lemma FoldExtend(c: Combine, h: Bytes, proof: seq<Bytes>, turns: seq<bool>, sibling: Bytes, right: bool)
    requires |proof| == |turns|
    ensures Fold(c, h, proof + [sibling], [right] + turns) ==
            var sub := Fold(c, h, proof, turns);
            if right then c(sibling, sub) else c(sub, sibling)
  {
    assert (proof + [sibling])[..|proof|] == proof && ([right] + turns)[1..] == turns;
  }

  /** The audit path has one hash per turn and folds to the root. */
  lemma {:induction false} PathFolds(c: Combine, leaves: seq<Bytes>, i: nat)
    requires i < |leaves|
    ensures |Path(c, leaves, i)| == |Directions(|leaves|, i)|
    ensures Fold(c, leaves[i], Path(c, leaves, i), Directions(|leaves|, i)) == Root(c, leaves)
    decreases |leaves|
  {
    hide Split, Fold;
    if |leaves| > 1 {
      var k := Split(|leaves|);
      var left, right := leaves[..k], leaves[k..];
      if i < k {
        PathFolds(c, left, i);
        FoldExtend(c, leaves[i], Path(c, left, i), Directions(k, i), Root(c, right), false);
      } else {
        PathFolds(c, right, i - k);
        FoldExtend(c, leaves[i], Path(c, right, i - k), Directions(|right|, i - k), Root(c, left), true);
      }
    } else {
      FoldNothing(c, leaves[i]);
    }
  }

  lemma FoldNothing(c: Combine, h: Bytes)
    ensures Fold(c, h, [], []) == h
  {
  }

  lemma {:induction false} RootIsHash(c: Combine, leaves: seq<Bytes>)
    requires leaves != [] && AreHashes(leaves) && MakesHashes(c)
    ensures IsHash(Root(c, leaves))
  {
  }

  lemma HashParts(hs: seq<Bytes>, k: nat)
    requires k <= |hs| && AreHashes(hs)
    ensures AreHashes(hs[..k]) && AreHashes(hs[k..])
  {
  }

  lemma ApartSubset(c: Combine, small: set<(Bytes, Bytes)>, large: set<(Bytes, Bytes)>)
    requires small <= large && Apart(c, large)
    ensures Apart(c, small)
  {
  }

  /** If a fold ends in a combination that it does not collide with, the fold without its last step
      ends in the part it turns to. */
  lemma LastStep(c: Combine, h: Bytes, proof: seq<Bytes>, turns: seq<bool>, l: Bytes, r: Bytes)
    requires |proof| == |turns| > 0 && Fold(c, h, proof, turns) == c(l, r)
    requires Apart(c, {(l, r)} + FoldPairs(c, h, proof, turns))
    ensures Fold(c, h, proof[..|proof| - 1], turns[1..]) == if turns[0] then r else l
  {
    var last, sub := proof[|proof| - 1], Fold(c, h, proof[..|proof| - 1], turns[1..]);
    var p := if turns[0] then (last, sub) else (sub, last);
    assert p in FoldPairs(c, h, proof, turns) && c(p.0, p.1) == c(l, r);
    assert p == (l, r);
  }

  lemma FirstTurnOf(n: nat, i: nat, turns: seq<bool>)
    requires i < n && turns <= Directions(n, i) && turns != []
    ensures n > 1 && turns[0] == (i >= Split(n))
    ensures turns[1..] <= if i < Split(n) then Directions(Split(n), i) else Directions(n - Split(n), i - Split(n))
  {
    hide Split;
    assert turns[0] == Directions(n, i)[0];
    assert forall k :: 0 <= k < |turns| - 1 ==> turns[1..][k] == Directions(n, i)[1..][k];
  }

  lemma Unfold(c: Combine, leaves: seq<Bytes>, i: nat, p: nat)
    requires i < |leaves| && |leaves| > 1 && 0 < p <= |Directions(|leaves|, i)|
    ensures var k := Split(|leaves|);
            && Root(c, leaves) == c(Root(c, leaves[..k]), Root(c, leaves[k..]))
            && p - 1 <= (if i < k then |Directions(k, i)| else |Directions(|leaves| - k, i - k)|)
            && NodeAt(c, leaves, i, p) ==
               if i < k then NodeAt(c, leaves[..k], i, p - 1) else NodeAt(c, leaves[k..], i - k, p - 1)
  {
    hide Split;
  }

  lemma TreeParts(c: Combine, leaves: seq<Bytes>)
    requires |leaves| > 1
    ensures var k := Split(|leaves|);
            && TreePairs(c, leaves[..k]) <= TreePairs(c, leaves) && TreePairs(c, leaves[k..]) <= TreePairs(c, leaves)
            && (Root(c, leaves[..k]), Root(c, leaves[k..])) in TreePairs(c, leaves)
  {
    hide Split;
  }

  lemma FoldParts(c: Combine, h: Bytes, proof: seq<Bytes>, turns: seq<bool>)
    requires |proof| == |turns| > 0
    ensures FoldPairs(c, h, proof[..|proof| - 1], turns[1..]) <= FoldPairs(c, h, proof, turns)
  {
  }

  lemma {:induction false} TurnsSound(c: Combine, leaves: seq<Bytes>, i: nat, h: Bytes, proof: seq<Bytes>,
      turns: seq<bool>)
    requires i < |leaves| && |proof| == |turns| && turns <= Directions(|leaves|, i)
    requires Apart(c, TreePairs(c, leaves) + FoldPairs(c, h, proof, turns))
             && Fold(c, h, proof, turns) == Root(c, leaves)
    ensures h == NodeAt(c, leaves, i, |proof|)
    decreases |leaves|
  {
    hide Split, Apart, Fold, Directions, Root, NodeAt, TreePairs, FoldPairs;
    if proof == [] {
      FoldNothing(c, h);
      TopNode(c, leaves, i);
    } else {
      FirstTurnOf(|leaves|, i, turns);
      var k, p := Split(|leaves|), |proof|;
      var left, right, rest := leaves[..k], leaves[k..], proof[..p - 1];
      var all := TreePairs(c, leaves) + FoldPairs(c, h, proof, turns);
      Unfold(c, leaves, i, p);
      TreeParts(c, leaves);
      FoldParts(c, h, proof, turns);
      ApartSubset(c, {(Root(c, left), Root(c, right))} + FoldPairs(c, h, proof, turns), all);
      LastStep(c, h, proof, turns, Root(c, left), Root(c, right));
      if i < k {
        ApartSubset(c, TreePairs(c, left) + FoldPairs(c, h, rest, turns[1..]), all);
        TurnsSound(c, left, i, h, rest, turns[1..]);
      } else {
        ApartSubset(c, TreePairs(c, right) + FoldPairs(c, h, rest, turns[1..]), all);
        TurnsSound(c, right, i - k, h, rest, turns[1..]);
      }
    }
  }

  lemma TopNode(c: Combine, leaves: seq<Bytes>, i: nat)
    requires i < |leaves|
    ensures NodeAt(c, leaves, i, 0) == Root(c, leaves)
  {
  }

  /** A proof along the first p turns that folds to the root is for the subtree at depth p, unless two
      of the pairs that are combined in the tree and along the proof collide. */
  lemma ProofSound(c: Combine, leaves: seq<Bytes>, i: nat, h: Bytes, proof: seq<Bytes>)
    requires i < |leaves| && |proof| <= |Directions(|leaves|, i)|
    requires Apart(c, TreePairs(c, leaves) + FoldPairs(c, h, proof, Directions(|leaves|, i)[..|proof|]))
    requires Fold(c, h, proof, Directions(|leaves|, i)[..|proof|]) == Root(c, leaves)
    ensures h == NodeAt(c, leaves, i, |proof|)
  {
    TurnsSound(c, leaves, i, h, proof, Directions(|leaves|, i)[..|proof|]);
  }

  lemma {:induction false} NodeAtLeaf(c: Combine, leaves: seq<Bytes>, i: nat)
    requires i < |leaves|
    ensures NodeAt(c, leaves, i, |Directions(|leaves|, i)|) == leaves[i]
    decreases |leaves|
  {
    if |leaves| > 1 {
      var k := Split(|leaves|);
      if i < k {
        NodeAtLeaf(c, leaves[..k], i);
      } else {
        NodeAtLeaf(c, leaves[k..], i - k);
      }
    }
  }

  /** A proof of full length that folds to the root carries the leaf at that index. */
  lemma FullProofSound(c: Combine, leaves: seq<Bytes>, i: nat, h: Bytes, proof: seq<Bytes>)
    requires i < |leaves| && |proof| == |Directions(|leaves|, i)|
    requires Apart(c, TreePairs(c, leaves) + FoldPairs(c, h, proof, Directions(|leaves|, i)))
    requires Fold(c, h, proof, Directions(|leaves|, i)) == Root(c, leaves)
    ensures h == leaves[i]
  {
    var turns := Directions(|leaves|, i);
    assert turns[..|proof|] == turns;
    ProofSound(c, leaves, i, h, proof);
    NodeAtLeaf(c, leaves, i);
  }

  lemma {:induction false} CeilLgAtMost(n: nat, d: nat)
    requires 1 <= n <= Pow2(d)
    ensures CeilLg(n) <= d
  {
    CeilLgBounds(n);
    if CeilLg(n) > d {
      Pow2Monotone(d, CeilLg(n) - 1);
    }
  }

  /** The way to a leaf has at most ceil(log2(n)) turns. */
  lemma {:induction false} PathLength(n: nat, i: nat, d: nat)
    requires i < n <= Pow2(d)
    ensures |Directions(n, i)| <= d
    decreases n
  {
    if n > 1 {
      CeilLgBounds(n);
      CeilLgAtMost(n, d);
      var k := Split(n);
      Pow2Monotone(CeilLg(n) - 1, d - 1);
      if i < k {
        PathLength(k, i, d - 1);
      } else {
        PathLength(n - k, i - k, d - 1);
      }
    }
  }

  lemma {:induction false} PathIsHashes(c: Combine, leaves: seq<Bytes>, i: nat)
    requires i < |leaves| && AreHashes(leaves) && MakesHashes(c)
    ensures AreHashes(Path(c, leaves, i))
    decreases |leaves|
  {
    hide Split, MakesHashes;
    if |leaves| > 1 {
      var k := Split(|leaves|);
      HashParts(leaves, k);
      RootIsHash(c, leaves[..k]);
      RootIsHash(c, leaves[k..]);
      if i < k {
        PathIsHashes(c, leaves[..k], i);
      } else {
        PathIsHashes(c, leaves[k..], i - k);
      }
    }
  }
}
