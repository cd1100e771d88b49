/** Merkle trees over lists of byte strings, with the hash function as a parameter: element hashes,
    roots of lists, and commitments to maps from keys to values. */
module HashedLists {
  import opened Wrappers
  import opened Merkle
  import opened Streaming

  type HashFn = Bytes -> Bytes

  /** Hashes have 32 bytes. */
  ghost predicate Sized(h: HashFn) {
    forall b :: |h(b)| == 32
  }

  /** Among these finitely many strings no two have the same hash, and none has the hash of all zeros. */
  ghost predicate Free(h: HashFn, strings: set<Bytes>) {
    && (forall a, b :: a in strings && b in strings && h(a) == h(b) ==> a == b)
    && forall a :: a in strings ==> h(a) != NIL
  }

  function ElementHash(h: HashFn, e: Bytes): Bytes {
    h([0] + e)
  }

  function CombineOf(h: HashFn): Combine {
    (l, r) => h([1] + l + r)
  }

  function LeafHashes(h: HashFn, es: seq<Bytes>): (hs: seq<Bytes>)
    ensures |hs| == |es| && forall i :: 0 <= i < |es| ==> hs[i] == ElementHash(h, es[i])
  {
    seq(|es|, i requires 0 <= i < |es| => ElementHash(h, es[i]))
  }

  /** The root of a list of leaf hashes; the empty list has the root of 32 zeros. */
  function RootOf(h: HashFn, leaves: seq<Bytes>): Bytes {
    if leaves == [] then NIL else Root(CombineOf(h), leaves)
  }

  /** The strings that are hashed for the tree of a list: each element behind a 0, and behind a 1 the
      two hashes of each inner node. */
  function Preimages(h: HashFn, es: seq<Bytes>): set<Bytes>
    decreases |es|
  {
    if es == [] then {}
    else if |es| == 1 then {[0] + es[0]}
    else
      var k := Split(|es|);
      Preimages(h, es[..k]) + Preimages(h, es[k..]) + {InnerPreimage(h, es)}
  }

  function InnerPreimage(h: HashFn, es: seq<Bytes>): Bytes
    requires |es| > 1
  {
    var k := Split(|es|);
    [1] + RootOf(h, LeafHashes(h, es[..k])) + RootOf(h, LeafHashes(h, es[k..]))
  }

  lemma FreeSubset(h: HashFn, small: set<Bytes>, large: set<Bytes>)
    requires small <= large && Free(h, large)
    ensures Free(h, small)
  {
  }

  lemma SameHash(h: HashFn, strings: set<Bytes>, a: Bytes, b: Bytes)
    requires Free(h, strings) && a in strings && b in strings && h(a) == h(b)
    ensures a == b
  {
  }

  lemma CombineMakesHashes(h: HashFn)
    requires Sized(h)
    ensures MakesHashes(CombineOf(h))
  {
  }

  /** Pairs of a 32-byte string and another string, as one string each. */
  function PairStrings(pairs: set<(Bytes, Bytes)>): set<Bytes> {
    set p | p in pairs :: [1] + p.0 + p.1
  }

  /** Where the strings behind them are free of collisions, pairs are apart. */
  lemma PairsApart(h: HashFn, pairs: set<(Bytes, Bytes)>)
    requires Free(h, PairStrings(pairs)) && forall p :: p in pairs ==> |p.0| == 32
    ensures Apart(CombineOf(h), pairs)
  {
    forall p, q | p in pairs && q in pairs && CombineOf(h)(p.0, p.1) == CombineOf(h)(q.0, q.1) ensures p == q {
      SameHash(h, PairStrings(pairs), [1] + p.0 + p.1, [1] + q.0 + q.1);
      SameHalves(p.0, p.1, q.0, q.1);
    }
  }

  lemma LeavesAreHashes(h: HashFn, es: seq<Bytes>)
    requires Sized(h)
    ensures AreHashes(LeafHashes(h, es))
  {
  }

  lemma RootLength(h: HashFn, es: seq<Bytes>)
    requires Sized(h)
    ensures |RootOf(h, LeafHashes(h, es))| == 32
  {
    hide Sized, LeafHashes;
    LeavesAreHashes(h, es);
    CombineMakesHashes(h);
    if LeafHashes(h, es) != [] {
      RootIsHash(CombineOf(h), LeafHashes(h, es));
    }
  }

  lemma HashesOfPart(h: HashFn, es: seq<Bytes>, k: nat)
    requires k <= |es|
    ensures LeafHashes(h, es)[..k] == LeafHashes(h, es[..k]) && LeafHashes(h, es)[k..] == LeafHashes(h, es[k..])
  {
  }

  lemma {:induction false} ElementHashed(h: HashFn, es: seq<Bytes>, i: nat)
    requires i < |es|
    ensures [0] + es[i] in Preimages(h, es)
    decreases |es|
  {
    hide Split, InnerPreimage;
    if |es| > 1 {
      var k := Split(|es|);
      if i < k {
        ElementHashed(h, es[..k], i);
      } else {
        ElementHashed(h, es[k..], i - k);
      }
    }
  }

  /** The root is the hash of a string that was hashed. */
  lemma RootHashed(h: HashFn, es: seq<Bytes>)
    requires es != []
    ensures |es| == 1 ==> [0] + es[0] in Preimages(h, es) && RootOf(h, LeafHashes(h, es)) == h([0] + es[0])
    ensures |es| > 1 ==>
            InnerPreimage(h, es) in Preimages(h, es) && RootOf(h, LeafHashes(h, es)) == h(InnerPreimage(h, es))
  {
    if |es| > 1 {
      HashesOfPart(h, es, Split(|es|));
    }
  }

  /** Which string has the root as its hash. */
  function RootPreimage(h: HashFn, es: seq<Bytes>): Bytes
    requires es != []
  {
    if |es| == 1 then [0] + es[0] else InnerPreimage(h, es)
  }

  lemma InnerParts(h: HashFn, a: seq<Bytes>, b: seq<Bytes>)
    requires Sized(h) && |a| > 1 && |b| > 1 && InnerPreimage(h, a) == InnerPreimage(h, b)
    ensures var j, k := Split(|a|), Split(|b|);
            && RootOf(h, LeafHashes(h, a[..j])) == RootOf(h, LeafHashes(h, b[..k]))
            && RootOf(h, LeafHashes(h, a[j..])) == RootOf(h, LeafHashes(h, b[k..]))
  {
    hide Split, RootOf, LeafHashes, Sized;
    var j, k := Split(|a|), Split(|b|);
    RootLength(h, a[..j]);
    RootLength(h, b[..k]);
    SameHalves(RootOf(h, LeafHashes(h, a[..j])), RootOf(h, LeafHashes(h, a[j..])),
               RootOf(h, LeafHashes(h, b[..k])), RootOf(h, LeafHashes(h, b[k..])));
  }

  lemma SameHalves(a: Bytes, b: Bytes, x: Bytes, y: Bytes)
    requires |a| == |x| && [1] + a + b == [1] + x + y
    ensures a == x && b == y
  {
    var p, q := [1] + a + b, [1] + x + y;
    assert a == p[1..1 + |a|] && x == q[1..1 + |a|];
    assert b == p[1 + |a|..] && y == q[1 + |a|..];
  }

  lemma PartsHashed(h: HashFn, es: seq<Bytes>)
    requires |es| > 1
    ensures var k := Split(|es|);
            Preimages(h, es[..k]) <= Preimages(h, es) && Preimages(h, es[k..]) <= Preimages(h, es)
  {
    hide Split;
  }

  /** The root of a list determines the list, whatever its length, unless two of the strings hashed for
      the two trees collide. */
  lemma {:induction false} RootUnique(h: HashFn, a: seq<Bytes>, b: seq<Bytes>)
    requires Sized(h) && Free(h, Preimages(h, a) + Preimages(h, b))
    requires RootOf(h, LeafHashes(h, a)) == RootOf(h, LeafHashes(h, b))
    ensures a == b
    decreases |a| + |b|
  {
    hide Split, Sized, RootOf, LeafHashes, Free, Preimages, InnerPreimage;
    if a == [] || b == [] {
      OnlyEmptyIsNil(h, a, b);
    } else {
      var all := Preimages(h, a) + Preimages(h, b);
      RootHashed(h, a);
      RootHashed(h, b);
      SameHash(h, all, RootPreimage(h, a), RootPreimage(h, b));
      if |a| == 1 || |b| == 1 {
        SameTags(h, a, b);
      } else {
        var j, k := Split(|a|), Split(|b|);
        InnerParts(h, a, b);
        PartsHashed(h, a);
        PartsHashed(h, b);
        FreeSubset(h, Preimages(h, a[..j]) + Preimages(h, b[..k]), all);
        FreeSubset(h, Preimages(h, a[j..]) + Preimages(h, b[k..]), all);
        RootUnique(h, a[..j], b[..k]);
        RootUnique(h, a[j..], b[k..]);
        assert a == a[..j] + a[j..] && b == b[..k] + b[k..];
      }
    }
  }

  lemma OnlyEmptyIsNil(h: HashFn, a: seq<Bytes>, b: seq<Bytes>)
    requires Free(h, Preimages(h, a) + Preimages(h, b)) && RootOf(h, LeafHashes(h, a)) == RootOf(h, LeafHashes(h, b))
    requires a == [] || b == []
    ensures a == b
  {
    hide LeafHashes, Preimages, InnerPreimage;
    assert RootOf(h, LeafHashes(h, a)) == NIL;
    if a != [] {
      RootHashed(h, a);
    }
    if b != [] {
      RootHashed(h, b);
    }
  }

  /** The byte before the hashed string tells elements from inner nodes. */
  lemma SameTags(h: HashFn, a: seq<Bytes>, b: seq<Bytes>)
    requires a != [] && b != [] && (|a| == 1 || |b| == 1) && RootPreimage(h, a) == RootPreimage(h, b)
    ensures a == b
  {
    assert RootPreimage(h, a)[0] == RootPreimage(h, b)[0];
    assert a[0] == ([0] + a[0])[1..] && b[0] == ([0] + b[0])[1..];
  }

  // ---------------------------------------------------------------- maps

  /** Lexicographic order of byte strings. */
  predicate Less(a: Bytes, b: Bytes) {
    b != [] && (a == [] || a[0] < b[0] || (a[0] == b[0] && Less(a[1..], b[1..])))
  }

  predicate Sorted(ks: seq<Bytes>) {
    forall i, j :: 0 <= i < j < |ks| ==> Less(ks[i], ks[j])
  }

  lemma {:induction false} LessTotal(a: Bytes, b: Bytes)
    ensures a != b ==> Less(a, b) || Less(b, a)
    ensures Less(a, b) ==> a != b && !Less(b, a)
    decreases |a|
  {
    if a != [] && b != [] {
      LessTotal(a[1..], b[1..]);
      assert a == [a[0]] + a[1..] && b == [b[0]] + b[1..];
    }
  }

  lemma {:induction false} LessTransitive(a: Bytes, b: Bytes, c: Bytes)
    requires Less(a, b) && Less(b, c)
    ensures Less(a, c)
    decreases |a|
  {
    if a != [] && a[0] == b[0] && b[0] == c[0] {
      LessTransitive(a[1..], b[1..], c[1..]);
    }
  }

  /** The keys of a map in order. */
  ghost predicate KeysInOrder(m: map<Bytes, Bytes>, ks: seq<Bytes>) {
    Sorted(ks) && forall k :: k in m <==> k in ks
  }

  function ValuesOf(m: map<Bytes, Bytes>, ks: seq<Bytes>): (vs: seq<Bytes>)
    requires forall k :: k in ks ==> k in m
    ensures |vs| == |ks| && forall i :: 0 <= i < |ks| ==> vs[i] == m[ks[i]]
  {
    seq(|ks|, i requires 0 <= i < |ks| => m[ks[i]])
  }

  lemma FirstOfSorted(a: seq<Bytes>, b: seq<Bytes>)
    requires Sorted(a) && Sorted(b) && a != [] && b != [] && forall k :: k in a <==> k in b
    ensures a[0] == b[0] && forall k :: k in a[1..] <==> k in b[1..]
  {
    assert a[0] in a && b[0] in b;
    var i :| 0 <= i < |b| && b[i] == a[0];
    var j :| 0 <= j < |a| && a[j] == b[0];
    LessTotal(a[0], b[0]);
    forall k | k in a[1..] ensures k in b[1..] {
      assert k in a && k != a[0] by { LessTotal(a[0], k); }
    }
    forall k | k in b[1..] ensures k in a[1..] {
      assert k in b && k != b[0] by { LessTotal(b[0], k); }
    }
  }

  /** The order of the keys is determined by the map, so any two clients list them alike. */
  lemma {:induction false} SortedUnique(a: seq<Bytes>, b: seq<Bytes>)
    requires Sorted(a) && Sorted(b) && forall k :: k in a <==> k in b
    ensures a == b
    decreases |a|
  {
    assert a != [] ==> a[0] in a;
    assert b != [] ==> b[0] in b;
    if a != [] {
      FirstOfSorted(a, b);
      SortedUnique(a[1..], b[1..]);
      assert a == [a[0]] + a[1..] && b == [b[0]] + b[1..];
    }
  }

  // ---------------------------------------------------------------- commitments

  /** The number of entries, the root of the keys and the root of the values; None from 2^64 entries on. */
  function Commitment(h: HashFn, m: map<Bytes, Bytes>, ks: seq<Bytes>): Option<Bytes>
    requires forall k :: k in ks ==> k in m
  {
    var size :- WriteVarint(|ks|);
    Some(size + (RootOf(h, LeafHashes(h, ks)) + RootOf(h, LeafHashes(h, ValuesOf(m, ks)))))
  }

  /** How a commitment is read: a number and two hashes, with nothing behind them. */
  function ReadCommitment(t: Bytes): Option<(nat, Bytes, Bytes)> {
    var r :- ReadVarint(t);
    if |r.1| != 64 then None else Some((r.0, r.1[..32], r.1[32..]))
  }

  lemma CommitmentReadBack(h: HashFn, m: map<Bytes, Bytes>, ks: seq<Bytes>)
    requires Sized(h) && (forall k :: k in ks ==> k in m) && Commitment(h, m, ks).Some?
    ensures ReadCommitment(Commitment(h, m, ks).value) ==
            Some((|ks|, RootOf(h, LeafHashes(h, ks)), RootOf(h, LeafHashes(h, ValuesOf(m, ks)))))
  {
    hide Sized, RootOf, LeafHashes, WriteVarint, ReadVarint;
    var a, b := RootOf(h, LeafHashes(h, ks)), RootOf(h, LeafHashes(h, ValuesOf(m, ks)));
    RootLength(h, ks);
    RootLength(h, ValuesOf(m, ks));
    VarintRoundTrip(|ks|, a + b);
    assert (a + b)[..32] == a && (a + b)[32..] == b;
  }

  /** The strings that are hashed for a commitment. */
  function CommittedStrings(h: HashFn, m: map<Bytes, Bytes>, ks: seq<Bytes>): set<Bytes>
    requires forall k :: k in ks ==> k in m
  {
    Preimages(h, ks) + Preimages(h, ValuesOf(m, ks))
  }

  /** A commitment determines the map, unless two of the strings hashed for it collide. */
  lemma CommitmentUnique(h: HashFn, m: map<Bytes, Bytes>, ks: seq<Bytes>, m': map<Bytes, Bytes>, ks': seq<Bytes>)
    requires Sized(h) && KeysInOrder(m, ks) && KeysInOrder(m', ks')
    requires Free(h, CommittedStrings(h, m, ks) + CommittedStrings(h, m', ks'))
    requires Commitment(h, m, ks).Some? && Commitment(h, m, ks) == Commitment(h, m', ks')
    ensures m == m'
  {
    hide Sized, Free, Sorted, RootOf, LeafHashes, Preimages;
    var all := CommittedStrings(h, m, ks) + CommittedStrings(h, m', ks');
    CommitmentReadBack(h, m, ks);
    CommitmentReadBack(h, m', ks');
    FreeSubset(h, Preimages(h, ks) + Preimages(h, ks'), all);
    RootUnique(h, ks, ks');
    FreeSubset(h, Preimages(h, ValuesOf(m, ks)) + Preimages(h, ValuesOf(m', ks')), all);
    RootUnique(h, ValuesOf(m, ks), ValuesOf(m', ks'));
    forall k | k in m ensures k in m' && m[k] == m'[k] {
      var i :| 0 <= i < |ks| && ks[i] == k;
      assert ValuesOf(m, ks)[i] == ValuesOf(m', ks')[i];
    }
    assert forall k :: k in m' ==> k in m;
  }

  // ---------------------------------------------------------------- the assumptions can be met

  /** A hash function for an example: the length and the first 31 bytes. */
  function ToyHash(b: Bytes): Bytes {
    [|b| % 255 + 1] + if |b| < 31 then b + seq(31 - |b|, _ => 0) else b[..31]
  }

  lemma ToySized()
    ensures Sized(ToyHash)
  {
  }

  lemma ToyHead(b: Bytes)
    ensures ToyHash(b)[0] == |b| % 255 + 1 && ToyHash(b) != NIL
  {
    assert ToyHash(b)[0] != NIL[0];
  }

  /** For a list of two different elements of at most 29 bytes the example has no collisions. */
  lemma ToyFree(a: Bytes, b: Bytes)
    requires |a| < 30 && |b| < 30 && a != b
    ensures Free(ToyHash, Preimages(ToyHash, [a, b]))
  {
    hide ToyHash, Preimages, InnerPreimage;
    var x, y := [0] + a, [0] + b;
    var z := InnerPreimage(ToyHash, [a, b]);
    ToyStrings(a, b);
    assert x[1..] == a && y[1..] == b;
    ToyApart(x, y);
    ToyHead(x);
    ToyHead(y);
    ToyHead(z);
  }

  lemma ToyApart(x: Bytes, y: Bytes)
    requires |x| < 31 && |y| < 31 && x != y
    ensures ToyHash(x) != ToyHash(y)
  {
    if |x| == |y| {
      var i :| 0 <= i < |x| && x[i] != y[i];
      assert ToyHash(x)[1 + i] == x[i] && ToyHash(y)[1 + i] == y[i];
    } else {
      assert ToyHash(x)[0] != ToyHash(y)[0];
    }
  }

  lemma ToyStrings(a: Bytes, b: Bytes)
    ensures var z := InnerPreimage(ToyHash, [a, b]);
            Preimages(ToyHash, [a, b]) == {[0] + a, [0] + b, z} && |z| == 65
  {
    assert Split(2) == 1;
    assert [a, b][..1] == [a] && [a, b][1..] == [b];
    ToySized();
    RootLength(ToyHash, [a]);
    RootLength(ToyHash, [b]);
  }
}
