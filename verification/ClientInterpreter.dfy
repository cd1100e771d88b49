/** The interpreter of client commands in Python (bitcoin_client/ledger_bitcoin/client_command.py). A
    known tree is held as the list of its leaf hashes; module PythonMerkle has the tree itself. */
module ClientInterpreter {
  import opened Wrappers
  import opened Merkle
  import opened Streaming
  import opened HashedLists
  import opened ClientProtocol
  import opened ClientKnowledge

  // ---------------------------------------------------------------- sorting

  function Insert(ks: seq<Bytes>, k: Bytes): seq<Bytes> {
    if ks == [] || Less(k, ks[0]) then [k] + ks else [ks[0]] + Insert(ks[1..], k)
  }

  lemma {:induction false} InsertSorted(ks: seq<Bytes>, k: Bytes)
    requires Sorted(ks) && k !in ks
    ensures Sorted(Insert(ks, k)) && forall x :: x in Insert(ks, k) <==> x == k || x in ks
    decreases |ks|
  {
    if ks == [] {
    } else if Less(k, ks[0]) {
      var r := [k] + ks;
      forall j | 0 <= j < |ks| ensures Less(k, ks[j]) {
        if j > 0 {
          LessTransitive(k, ks[0], ks[j]);
        }
      }
      assert forall j :: 0 < j < |r| ==> r[j] == ks[j - 1];
    } else {
      InsertSorted(ks[1..], k);
      LessTotal(k, ks[0]);
      var rest := Insert(ks[1..], k);
      var r := [ks[0]] + rest;
      assert ks == [ks[0]] + ks[1..];
      assert forall j :: 0 < j < |r| ==> r[j] == rest[j - 1];
      forall j | 0 <= j < |rest| ensures Less(ks[0], rest[j]) {
        assert rest[j] in rest;
        if rest[j] != k {
          assert rest[j] in ks[1..];
          var n :| 0 <= n < |ks[1..]| && ks[1..][n] == rest[j];
          assert ks[n + 1] == rest[j];
        }
      }
    }
  }

  /** The keys of a map in order. */
  method SortKeys(m: map<Bytes, Bytes>) returns (ks: seq<Bytes>)
    ensures KeysInOrder(m, ks)
  {
    ks := [];
    var rest := m.Keys;
    while rest != {}
      invariant Sorted(ks) && rest <= m.Keys && forall k :: k in ks <==> k in m && k !in rest
      decreases |rest|
    {
      var k :| k in rest;
      InsertSorted(ks, k);
      ks := Insert(ks, k);
      rest := rest - {k};
    }
  }

  lemma FlattenNext(q: seq<Bytes>, n: nat)
    requires n < |q|
    ensures Flatten(q[..n + 1]) == Flatten(q[..n]) + q[n]
  {
    FlattenAppend(q[..n], [q[n]]);
    assert q[..n + 1] == q[..n] + [q[n]];
    assert Flatten([q[n]]) == q[n] + Flatten([]);
  }

  /** get_merkleized_map_commitment: what commits to a map, which is determined by its keys in order. */
  method GetMerkleizedMapCommitment(h: HashFn, m: map<Bytes, Bytes>) returns (t: Option<Bytes>)
    ensures exists ks :: KeysInOrder(m, ks)
    ensures forall ks :: KeysInOrder(m, ks) ==> t == Commitment(h, m, ks)
  {
    hide Sorted;
    var keys := SortKeys(m);
    t := Commitment(h, m, keys);
    forall ks | KeysInOrder(m, ks) ensures t == Commitment(h, m, ks) {
      SortedUnique(ks, keys);
    }
  }

  // ---------------------------------------------------------------- the interpreter

  /** Every element of the queue is non-empty and fits into one answer. */
  ghost predicate Fits(queue: seq<Bytes>) {
    forall i :: 0 <= i < |queue| ==> 1 <= |queue[i]| <= 253
  }

  lemma PathsFit(h: HashFn, es: seq<Bytes>, i: nat)
    requires Sized(h) && i < |es|
    ensures Fits(Path(CombineOf(h), LeafHashes(h, es), i))
  {
    hide Sized;
    CombineMakesHashes(h);
    LeavesAreHashes(h, es);
    PathIsHashes(CombineOf(h), LeafHashes(h, es), i);
    var proof := Path(CombineOf(h), LeafHashes(h, es), i);
    assert forall k :: 0 <= k < |proof| ==> IsHash(proof[k]);
  }

  lemma ProofFits(h: HashFn, ls: seq<seq<Bytes>>, root: Bytes, i: nat)
    requires Sized(h) && root in TreeMap(h, ls) && i < |TreeMap(h, ls)[root]|
    ensures Fits(Path(CombineOf(h), TreeMap(h, ls)[root], i))
  {
    hide Sized, Fits, TreeMap, Path;
    TreeMapHas(h, ls, root);
    var l :| l in ls && HasRoot(h, l, root) && TreeMap(h, ls)[root] == LeafHashes(h, l);
    PathsFit(h, l, i);
  }

  lemma OneString(h: HashFn, ps: seq<Bytes>, p: Bytes)
    ensures PreimageMap(h, ps + [p]) == PreimageMap(h, ps)[h(p) := p]
  {
    assert (ps + [p])[..|ps|] == ps;
  }

  lemma OneList(h: HashFn, ls: seq<seq<Bytes>>, es: seq<Bytes>)
    ensures TreeMap(h, ls + [es]) == TreeMap(h, ls)[RootOf(h, LeafHashes(h, es)) := LeafHashes(h, es)]
  {
    assert (ls + [es])[..|ls|] == ls;
  }

  class Interpreter {
    const hash: HashFn
    var knownPreimages: map<Bytes, Bytes>
    var knownTrees: map<Bytes, seq<Bytes>>
    var yielded: seq<Bytes>
    var queue: seq<Bytes>
    ghost var facts: seq<Fact>

    /** The dictionaries are those of the registrations. */
    ghost predicate Valid()
      reads this
    {
      && Sized(hash) && Fits(queue)
      && knownPreimages == PreimageMap(hash, StringsOf(facts)) && knownTrees == TreeMap(hash, ListsOf(facts))
    }

    function Look(): Lookups
      reads this
    {
      MapLook(knownPreimages, knownTrees)
    }

    constructor (hash: HashFn)
      requires Sized(hash)
      ensures Valid() && queue == [] && yielded == [] && facts == []
    {
      this.hash, knownPreimages, knownTrees, yielded, queue, facts := hash, map[], map[], [], [], [];
    }

    method AddKnownPreimage(element: Bytes)
      requires Valid()
      modifies `knownPreimages, `facts
      ensures Valid() && facts == old(facts) + [Element(element)]
    {
      hide Sized, Fits, PreimageMap, TreeMap, StringsOf, ListsOf;
      OneMore(hash, facts, Element(element));
      OneString(hash, StringsOf(facts), element);
      assert ListsOf(facts) + [] == ListsOf(facts);
      knownPreimages := knownPreimages[hash(element) := element];
      facts := facts + [Element(element)];
    }

    /** The loop over the elements of a list. */
    method AddElements(elements: seq<Bytes>)
      requires Valid()
      modifies `knownPreimages
      ensures knownPreimages == PreimageMap(hash, StringsOf(facts) + Prefixed(elements))
    {
      hide Sized, Fits, PreimageMap, TreeMap, StringsOf, ListsOf, Prefixed;
      var i := 0;
      ghost var before, added := StringsOf(facts), Prefixed(elements);
      assert before + added[..0] == before;
      while i < |elements|
        invariant 0 <= i <= |elements| && knownPreimages == PreimageMap(hash, before + added[..i])
      {
        OneString(hash, before + added[..i], [0] + elements[i]);
        assert before + added[..i] + [added[i]] == before + added[..i + 1];
        knownPreimages := knownPreimages[hash([0] + elements[i]) := [0] + elements[i]];
        i := i + 1;
      }
      assert added[..i] == added;
    }

    /** add_known_list. */
    method AddKnownList(elements: seq<Bytes>)
      requires Valid()
      modifies `knownPreimages, `knownTrees, `facts
      ensures Valid() && facts == old(facts) + [List(elements)]
    {
      hide Sized, Fits, PreimageMap, TreeMap, StringsOf, ListsOf, Prefixed, RootOf, LeafHashes;
      AddElements(elements);
      var leaves := LeafHashes(hash, elements);
      OneMore(hash, facts, List(elements));
      OneList(hash, ListsOf(facts), elements);
      knownTrees := knownTrees[RootOf(hash, leaves) := leaves];
      facts := facts + [List(elements)];
    }

    /** add_known_mapping: the keys in order, and their values, are registered as lists. */
    method AddKnownMapping(m: map<Bytes, Bytes>) returns (keys: seq<Bytes>)
      requires Valid()
      modifies `knownPreimages, `knownTrees, `facts
      ensures Valid() && KeysInOrder(m, keys)
      ensures facts == old(facts) + [List(keys), List(ValuesOf(m, keys))]
    {
      hide Sized, Fits, PreimageMap, TreeMap, StringsOf, ListsOf, Sorted;
      keys := SortKeys(m);
      AddKnownList(keys);
      AddKnownList(ValuesOf(m, keys));
    }

    /** Valid interpreters look things up in their registrations. */
    lemma LooksUpFacts()
      requires Valid()
      ensures Look() == PythonLook(hash, facts)
    {
    }

    // -------------------------------------------------------------- commands

    method GetPreimage(body: Bytes) returns (r: Option<Bytes>)
      requires Valid()
      modifies `queue
      ensures Valid() && Reply(r, queue, yielded) == RespondPreimage(Look(), old(queue), yielded, body)
    {
      hide Sized, PreimageMap, TreeMap, WriteVarint;
      if |body| != 33 || body[0] != 0 {
        return None;
      }
      if body[1..] !in knownPreimages {
        return None;
      }
      var p := knownPreimages[body[1..]];
      var length := WriteVarint(|p|);
      if length.None? {
        return None;
      }
      var payload := Min(255 - |length.value| - 1, |p|);
      if payload < |p| {
        queue := queue + Singles(p[payload..]);
      } else {
        assert queue + Singles(p[payload..]) == queue;
      }
      r := Some(length.value + [payload] + p[..payload]);
    }

    method GetMerkleLeafProof(body: Bytes) returns (r: Option<Bytes>)
      requires Valid()
      modifies `queue
      ensures Valid() && Reply(r, queue, yielded) == RespondProof(hash, Look(), old(queue), yielded, body)
    {
      hide Sized, PreimageMap, TreeMap, ReadVarint, Path, Flatten;
      if |body| < 32 {
        return None;
      }
      var root := body[..32];
      var size := ReadVarint(body[32..]);
      if size.None? {
        return None;
      }
      var index := ReadVarint(size.value.1);
      if index.None? || index.value.1 != [] {
        return None;
      }
      if root !in knownTrees {
        return None;
      }
      var leaves, i := knownTrees[root], index.value.0;
      if i >= size.value.0 || |leaves| != size.value.0 {
        return None;
      }
      if |queue| != 0 {
        return None;
      }
      var proof := Path(CombineOf(hash), leaves, i);
      ProofFits(hash, ListsOf(facts), root, i);
      if |proof| > 255 {
        return None;
      }
      var now := Min((255 - 32 - 1 - 1) / 32, |proof|);
      var leftover := |proof| - now;
      if leftover > 0 {
        queue := queue + proof[|proof| - leftover..];
      }
      r := Some(leaves[i] + [|proof|] + [now] + Flatten(proof[..now]));
    }

    method GetMerkleLeafIndex(body: Bytes) returns (r: Option<Bytes>)
      ensures Reply(r, queue, yielded) == RespondIndex(Look(), queue, yielded, body)
    {
      hide WriteVarint;
      if |body| != 64 {
        return None;
      }
      if body[..32] !in knownTrees {
        return None;
      }
      var leaves := knownTrees[body[..32]];
      var i, found := FindLeaf(leaves, body[32..]);
      var v := WriteVarint(i);
      if v.None? {
        return None;
      }
      r := Some([if found then 1 else 0] + v.value);
    }

    /** GET_MORE_ELEMENTS: pops elements as long as they fit. */
    method GetMoreElements() returns (r: Option<Bytes>)
      requires Valid()
      modifies `queue
      ensures Valid() && Reply(r, queue, yielded) == RespondMore(old(queue), yielded)
    {
      hide Sized, PreimageMap, TreeMap, Fitting;
      if |queue| == 0 {
        return None;
      }
      var e := |queue[0]|;
      if exists i | 0 <= i < |queue| :: |queue[i]| != e {
        return None;
      }
      var response: Bytes, n := [], 0;
      while |queue| > 0 && |response| + e <= 253
        invariant n <= |old(queue)| && queue == old(queue)[n..] && response == Flatten(old(queue)[..n])
                  && |response| == n * e
        invariant n * e <= 253
        decreases |queue|
      {
        FlattenNext(old(queue), n);
        Distribute(n, e);
        response := response + queue[0];
        queue := queue[1..];
        n := n + 1;
      }
      FittingUnique(|old(queue)|, e, n);
      r := Some([n, e] + response);
    }

    method Yield(body: Bytes) returns (r: Option<Bytes>)
      modifies `yielded
      ensures yielded == old(yielded) + [body] && r == Some([])
    {
      yielded := yielded + [body];
      r := Some([]);
    }

    /** execute: the answer and the state after it are those of the protocol. */
    method Execute(request: Bytes) returns (r: Option<Bytes>)
      requires Valid()
      modifies `queue, `yielded
      ensures Valid() && Reply(r, queue, yielded)
              == Respond(hash, PythonLook(hash, facts), old(queue), old(yielded), request)
    {
      hide Sized, PreimageMap, TreeMap, RespondPreimage, RespondIndex, RespondProof, RespondMore, MapLook;
      LooksUpFacts();
      if |request| == 0 {
        return None;
      }
      var code, body := request[0], request[1..];
      if code == YIELD {
        r := Yield(body);
      } else if code == GET_PREIMAGE {
        r := GetPreimage(body);
      } else if code == GET_MERKLE_LEAF_INDEX {
        r := GetMerkleLeafIndex(body);
      } else if code == GET_MERKLE_LEAF_PROOF {
        r := GetMerkleLeafProof(body);
      } else if code == GET_MORE_ELEMENTS && |request| == 1 {
        r := GetMoreElements();
      } else {
        r := None;
      }
    }
  }

  lemma FittingUnique(m: nat, e: nat, n: nat)
    requires 1 <= e && n <= m && n * e <= 253 && (n < m ==> (n + 1) * e > 253)
    ensures n == Fitting(m, e) && n <= 253
  {
    var k := Fitting(m, e);
    if k < n {
      Scale(k + 1, n, e);
    } else if n < k {
      Scale(n + 1, k, e);
    }
    Scale(1, e, n);
  }

  /** leaf_index: the first position, or 0 and not found. */
  method FindLeaf(leaves: seq<Bytes>, x: Bytes) returns (i: nat, found: bool)
    ensures IndexOf(leaves, x) == if found then Some(i) else None
    ensures !found ==> i == 0
  {
    i := 0;
    while i < |leaves|
      invariant 0 <= i <= |leaves| && x !in leaves[..i]
    {
      if leaves[i] == x {
        IndexIsFirst(leaves, x, i);
        return i, true;
      }
      assert leaves[..i + 1] == leaves[..i] + [leaves[i]];
      i := i + 1;
    }
    assert leaves[..|leaves|] == leaves;
    return 0, false;
  }

  lemma IndexIsFirst(leaves: seq<Bytes>, x: Bytes, i: nat)
    requires i < |leaves| && leaves[i] == x && x !in leaves[..i]
    ensures IndexOf(leaves, x) == Some(i)
  {
    assert leaves[i] in leaves;
  }
}
