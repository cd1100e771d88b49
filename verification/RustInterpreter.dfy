/** The interpreter of client commands in Rust (bitcoin_client_rs/src/interpreter.rs). Known preimages
    and trees are vectors that are searched from the front. */
module RustInterpreter {
  import opened Wrappers
  import opened Merkle
  import opened Streaming
  import opened HashedLists
  import opened ClientProtocol
  import opened ClientKnowledge
  import C = ClientInterpreter

  lemma OneString(h: HashFn, ps: seq<Bytes>, p: Bytes)
    ensures PreimagePairs(h, ps + [p]) == PreimagePairs(h, ps) + [(h(p), p)]
  {
  }

  lemma OneList(h: HashFn, ls: seq<seq<Bytes>>, es: seq<Bytes>)
    ensures TreeVector(h, ls + [es]) == TreeVector(h, ls) + [LeafHashes(h, es)]
  {
  }

  class Interpreter {
    const hash: HashFn
    var yielded: seq<Bytes>
    var queue: seq<Bytes>
    var knownPreimages: seq<(Bytes, Bytes)>
    var trees: seq<seq<Bytes>>
    ghost var facts: seq<Fact>

    /** The vectors are those of the registrations. */
    ghost predicate Valid()
      reads this
    {
      && Sized(hash) && C.Fits(queue)
      && knownPreimages == PreimagePairs(hash, StringsOf(facts)) && trees == TreeVector(hash, ListsOf(facts))
    }

    function Look(): Lookups
      reads this
    {
      VectorLook(hash, knownPreimages, trees)
    }

    constructor (hash: HashFn)
      requires Sized(hash)
      ensures Valid() && queue == [] && yielded == [] && facts == []
    {
      this.hash, yielded, queue, knownPreimages, trees, facts := hash, [], [], [], [], [];
    }

    method AddKnownPreimage(element: Bytes)
      requires Valid()
      modifies `knownPreimages, `facts
      ensures Valid() && facts == old(facts) + [Element(element)]
    {
      hide Sized, C.Fits, PreimagePairs, TreeVector, StringsOf, ListsOf;
      OneMore(hash, facts, Element(element));
      OneString(hash, StringsOf(facts), element);
      assert ListsOf(facts) + [] == ListsOf(facts);
      knownPreimages := knownPreimages + [(hash(element), element)];
      facts := facts + [Element(element)];
    }

    /** The loop over the elements of a list. */
    method AddElements(elements: seq<Bytes>) returns (leaves: seq<Bytes>)
      requires Valid()
      modifies `knownPreimages
      ensures knownPreimages == PreimagePairs(hash, StringsOf(facts) + Prefixed(elements))
              && leaves == LeafHashes(hash, elements)
    {
      hide Sized, C.Fits, PreimagePairs, TreeVector, StringsOf, ListsOf, Prefixed;
      leaves := [];
      var i := 0;
      ghost var before, added := StringsOf(facts), Prefixed(elements);
      assert before + added[..0] == before;
      while i < |elements|
        invariant 0 <= i <= |elements| && knownPreimages == PreimagePairs(hash, before + added[..i])
        invariant |leaves| == i && forall j :: 0 <= j < i ==> leaves[j] == ElementHash(hash, elements[j])
      {
        var preimage := [0] + elements[i];
        OneString(hash, before + added[..i], preimage);
        assert before + added[..i] + [added[i]] == before + added[..i + 1];
        knownPreimages := knownPreimages + [(hash(preimage), preimage)];
        leaves := leaves + [hash(preimage)];
        i := i + 1;
      }
      assert added[..i] == added;
    }

    /** add_known_list. There is no tree for the empty list: the source panics then. */
    method AddKnownList(elements: seq<Bytes>) returns (root: Option<Bytes>)
      requires Valid()
      modifies `knownPreimages, `trees, `facts
      ensures Valid() && root == if elements == [] then None else Some(RootOf(hash, LeafHashes(hash, elements)))
      ensures facts == if elements == [] then old(facts) else old(facts) + [List(elements)]
    {
      hide Sized, C.Fits, PreimagePairs, TreeVector, StringsOf, ListsOf, Prefixed, RootOf;
      if elements == [] {
        return None;
      }
      var leaves := AddElements(elements);
      OneMore(hash, facts, List(elements));
      OneList(hash, ListsOf(facts), elements);
      trees := trees + [leaves];
      facts := facts + [List(elements)];
      root := Some(RootOf(hash, leaves));
    }

    /** add_known_mapping, for a mapping without repeated keys; it panics for the empty one. */
    method AddKnownMapping(m: map<Bytes, Bytes>) returns (ok: bool, keys: seq<Bytes>)
      requires Valid()
      modifies `knownPreimages, `trees, `facts
      ensures Valid() && KeysInOrder(m, keys) && ok == (keys != [])
      ensures facts == if ok then old(facts) + [List(keys), List(ValuesOf(m, keys))] else old(facts)
    {
      hide Sized, C.Fits, PreimagePairs, TreeVector, StringsOf, ListsOf, Sorted;
      keys := C.SortKeys(m);
      if keys == [] {
        return false, keys;
      }
      var _ := AddKnownList(keys);
      var _ := AddKnownList(ValuesOf(m, keys));
      ok := true;
    }

    /** Valid interpreters look things up in their registrations. */
    lemma LooksUpFacts()
      requires Valid()
      ensures Look() == RustLook(hash, facts)
    {
    }

    /** get_more_elements: counts the elements that fit and keeps the others. */
    method GetMoreElements() returns (r: Option<Bytes>)
      requires Valid()
      modifies `queue
      ensures Valid() && Reply(r, queue, yielded) == RespondMore(old(queue), yielded)
    {
      hide Sized, PreimagePairs, TreeVector;
      if queue == [] {
        return None;
      }
      var e := |queue[0]|;
      if exists i | 0 <= i < |queue| :: |queue[i]| != e {
        return None;
      }
      var response: Bytes, n: nat := [], 0;
      for i := 0 to |queue|
        invariant queue == old(queue) && n <= i && response == Flatten(queue[..n]) && |response| == n * e
                  && n * e <= 253
        invariant n < i ==> (n + 1) * e > 253
      {
        Distribute(n, e);
        if |response| + e <= 253 {
          assert n == i;
          FlattenAppend(queue[..n], [queue[i]]);
          assert queue[..n + 1] == queue[..n] + [queue[i]];
          assert Flatten([queue[i]]) == queue[i] + Flatten([]);
          response := response + queue[i];
          n := n + 1;
        }
      }
      C.FittingUnique(|queue|, e, n);
      queue := queue[n..];
      r := Some([n, e] + response);
    }

    /** get_merkle_leaf_proof: the first six hashes in the answer, the others in the queue. */
    method GetMerkleLeafProof(body: Bytes) returns (r: Option<Bytes>)
      requires Valid()
      modifies `queue
      ensures Valid() && Reply(r, queue, yielded) == RustProof(hash, Look(), old(queue), yielded, body)
    {
      hide Sized, PreimagePairs, TreeVector, ReadShortest, Path;
      if queue != [] {
        return None;
      }
      if |body| < 34 {
        return None;
      }
      var size := ReadShortest(body[32..]);
      if size.None? {
        return None;
      }
      var index := ReadShortest(size.value.1);
      if index.None? || index.value.1 != [] {
        return None;
      }
      var tree := FindTree(hash, trees, body[..32]);
      if tree.None? {
        return None;
      }
      var leaves, i := tree.value, index.value.0;
      if i >= size.value.0 || |leaves| != size.value.0 {
        return None;
      }
      var proof := Path(CombineOf(hash), leaves, i);
      FoundFits(hash, ListsOf(facts), body[..32], i);
      if |proof| > 255 {
        return None;
      }
      var first: Bytes, n := [], 0;
      for k := 0 to |proof|
        invariant n == Min(6, k) && first == Flatten(proof[..n]) && queue == proof[n..k]
      {
        if k < 6 {
          FlattenAppend(proof[..k], [proof[k]]);
          assert proof[..k + 1] == proof[..k] + [proof[k]];
          assert Flatten([proof[k]]) == proof[k] + Flatten([]);
          first := first + proof[k];
          n := n + 1;
        } else {
          queue := queue + [proof[k]];
        }
      }
      r := Some(leaves[i] + [|proof|] + [n] + first);
    }

    method GetMerkleLeafIndex(body: Bytes) returns (r: Option<Bytes>)
      ensures Reply(r, queue, yielded) == RustIndex(Look(), queue, yielded, body)
    {
      hide WriteVarint;
      if |body| < 64 {
        return None;
      }
      var tree := FindTree(hash, trees, body[..32]);
      if tree.None? {
        return None;
      }
      var i, found := C.FindLeaf(tree.value, body[32..64]);
      if !found || WriteVarint(i).None? {
        return None;
      }
      r := Some([1] + WriteVarint(i).value);
    }

    method GetPreimage(body: Bytes) returns (r: Option<Bytes>)
      requires Valid()
      modifies `queue
      ensures Valid() && Reply(r, queue, yielded) == RespondPreimage(Look(), old(queue), yielded, body)
    {
      hide Sized, PreimagePairs, TreeVector, WriteVarint;
      if |body| != 33 || body[0] != 0 {
        return None;
      }
      var known := FindPreimage(knownPreimages, body[1..]);
      if known.None? || WriteVarint(|known.value|).None? {
        return None;
      }
      var p, length := known.value, WriteVarint(|known.value|).value;
      var max := 255 - |length| - 1;
      var payload := if |p| > max then max else |p|;
      var k := payload;
      while k < |p|
        invariant payload <= k <= |p| && queue == old(queue) + Singles(p[payload..k]) && C.Fits(queue)
      {
        assert Singles(p[payload..k + 1]) == Singles(p[payload..k]) + [[p[k]]];
        queue := queue + [[p[k]]];
        k := k + 1;
      }
      assert p[payload..k] == p[payload..];
      r := Some(length + [payload] + p[..payload]);
    }

    /** execute: the answer and the state after it are those of the protocol. */
    method Execute(request: Bytes) returns (r: Option<Bytes>)
      requires Valid()
      modifies `queue, `yielded
      ensures Valid() && Reply(r, queue, yielded)
              == RustRespond(hash, RustLook(hash, facts), old(queue), old(yielded), request)
    {
      hide Sized, PreimagePairs, TreeVector, RespondPreimage, RustIndex, RustProof, RespondMore, VectorLook;
      LooksUpFacts();
      if request == [] {
        return None;
      }
      var code, body := request[0], request[1..];
      if code == YIELD {
        yielded := yielded + [body];
        r := Some([]);
      } else if code == GET_PREIMAGE {
        r := GetPreimage(body);
      } else if code == GET_MERKLE_LEAF_PROOF {
        r := GetMerkleLeafProof(body);
      } else if code == GET_MERKLE_LEAF_INDEX {
        r := GetMerkleLeafIndex(body);
      } else if code == GET_MORE_ELEMENTS {
        r := GetMoreElements();
      } else {
        r := None;
      }
    }
  }

  lemma FoundFits(h: HashFn, ls: seq<seq<Bytes>>, root: Bytes, i: nat)
    requires Sized(h) && FindTree(h, TreeVector(h, ls), root).Some? && i < |FindTree(h, TreeVector(h, ls), root).value|
    ensures C.Fits(Path(CombineOf(h), FindTree(h, TreeVector(h, ls), root).value, i))
  {
    hide Sized, C.Fits, TreeVector, FindTree, Path;
    VectorHas(h, ls, root);
    var l :| l in ls && HasRoot(h, l, root) && FindTree(h, TreeVector(h, ls), root).value == LeafHashes(h, l);
    C.PathsFit(h, l, i);
  }
}
