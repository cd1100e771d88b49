/** What a client answers to the requests of the device, as a function of what it knows, of its queue
    and of the request: once for the Python client and once for the Rust client. */
module ClientProtocol {
  import opened Wrappers
  import opened Merkle
  import opened Streaming
  import opened HashedLists
  import DeviceMerkle

  const YIELD: byte := 0x10
  const GET_PREIMAGE: byte := 0x40
  const GET_MERKLE_LEAF_PROOF: byte := 0x41
  const GET_MERKLE_LEAF_INDEX: byte := 0x42
  const GET_MORE_ELEMENTS: byte := 0xa0

  /** What a client knows: preimages by hash, and the leaf hashes of trees by root. */
  datatype Lookups = Lookups(preimage: Bytes -> Option<Bytes>, tree: Bytes -> Option<seq<Bytes>>)

  /** An answer, None for an exception, with the queue and the yielded values after it. */
  datatype Reply = Reply(answer: Option<Bytes>, queue: seq<Bytes>, yielded: seq<Bytes>)

  function IndexOf(leaves: seq<Bytes>, x: Bytes): (r: Option<nat>)
    ensures r.Some? ==> r.value < |leaves| && leaves[r.value] == x && x !in leaves[..r.value]
    ensures r.None? <==> x !in leaves
  {
    if leaves == [] then None
    else
      var n := |leaves| - 1;
      assert leaves == leaves[..n] + [leaves[n]];
      var r := IndexOf(leaves[..n], x);
      if r.Some? then assert leaves[..n][..r.value] == leaves[..r.value]; r
      else if leaves[n] == x then Some(n) else None
  }

  // ---------------------------------------------------------------- the Python client

  function RespondPreimage(look: Lookups, q: seq<Bytes>, y: seq<Bytes>, body: Bytes): Reply {
    var refused := Reply(None, q, y);
    if |body| != 33 || body[0] != 0 || look.preimage(body[1..]).None? then refused
    else
      var r := PreimageAnswer(look.preimage(body[1..]).value);
      if r.None? then refused else Reply(Some(r.value.answer), q + r.value.queue, y)
  }

  function ProveLeaf(h: HashFn, look: Lookups, q: seq<Bytes>, y: seq<Bytes>, root: Bytes, size: nat,
      index: nat): Reply {
    var refused := Reply(None, q, y);
    if look.tree(root).None? then refused
    else
      var leaves := look.tree(root).value;
      if index >= size || |leaves| != size || q != [] then refused
      else
        var r := ProofAnswer(leaves[index], Path(CombineOf(h), leaves, index));
        if r.None? then refused else Reply(Some(r.value.answer), r.value.queue, y)
  }

  function RespondProof(h: HashFn, look: Lookups, q: seq<Bytes>, y: seq<Bytes>, body: Bytes): Reply {
    var refused := Reply(None, q, y);
    if |body| < 32 then refused
    else
      var size := ReadVarint(body[32..]);
      if size.None? then refused
      else
        var index := ReadVarint(size.value.1);
        if index.None? || index.value.1 != [] then refused
        else ProveLeaf(h, look, q, y, body[..32], size.value.0, index.value.0)
  }

  function RespondIndex(look: Lookups, q: seq<Bytes>, y: seq<Bytes>, body: Bytes): Reply {
    var refused := Reply(None, q, y);
    if |body| != 64 || look.tree(body[..32]).None? then refused
    else
      var i := IndexOf(look.tree(body[..32]).value, body[32..]);
      var v := WriteVarint(if i.Some? then i.value else 0);
      if v.None? then refused else Reply(Some([if i.Some? then 1 else 0] + v.value), q, y)
  }

  function RespondMore(q: seq<Bytes>, y: seq<Bytes>): Reply {
    var r := MoreAnswer(q);
    if r.None? then Reply(None, q, y) else Reply(Some(r.value.answer), r.value.queue, y)
  }

  function Respond(h: HashFn, look: Lookups, q: seq<Bytes>, y: seq<Bytes>, request: Bytes): Reply {
    if request == [] then Reply(None, q, y)
    else
      var code, body := request[0], request[1..];
      if code == YIELD then Reply(Some([]), q, y + [body])
      else if code == GET_PREIMAGE then RespondPreimage(look, q, y, body)
      else if code == GET_MERKLE_LEAF_INDEX then RespondIndex(look, q, y, body)
      else if code == GET_MERKLE_LEAF_PROOF then RespondProof(h, look, q, y, body)
      else if code == GET_MORE_ELEMENTS && body == [] then RespondMore(q, y)
      else Reply(None, q, y)
  }

  // ---------------------------------------------------------------- the Rust client

  /** Only the shortest encoding of a number is read. */
  function ReadShortest(b: Bytes): Option<(nat, Bytes)> {
    var r :- ReadVarint(b);
    var v :- WriteVarint(r.0);
    if v + r.1 == b then Some(r) else None
  }

  function RustProof(h: HashFn, look: Lookups, q: seq<Bytes>, y: seq<Bytes>, body: Bytes): Reply {
    var refused := Reply(None, q, y);
    if q != [] || |body| < 34 then refused
    else
      var size := ReadShortest(body[32..]);
      if size.None? then refused
      else
        var index := ReadShortest(size.value.1);
        if index.None? || index.value.1 != [] then refused
        else ProveLeaf(h, look, q, y, body[..32], size.value.0, index.value.0)
  }

  /** A hash that is not a leaf is an error here, and bytes after the first 64 are ignored. */
  function RustIndex(look: Lookups, q: seq<Bytes>, y: seq<Bytes>, body: Bytes): Reply {
    var refused := Reply(None, q, y);
    if |body| < 64 || look.tree(body[..32]).None? then refused
    else
      var i := IndexOf(look.tree(body[..32]).value, body[32..64]);
      if i.None? || WriteVarint(i.value).None? then refused
      else Reply(Some([1] + WriteVarint(i.value).value), q, y)
  }

  function RustRespond(h: HashFn, look: Lookups, q: seq<Bytes>, y: seq<Bytes>, request: Bytes): Reply {
    if request == [] then Reply(None, q, y)
    else
      var code, body := request[0], request[1..];
      if code == YIELD then Reply(Some([]), q, y + [body])
      else if code == GET_PREIMAGE then RespondPreimage(look, q, y, body)
      else if code == GET_MERKLE_LEAF_INDEX then RustIndex(look, q, y, body)
      else if code == GET_MERKLE_LEAF_PROOF then RustProof(h, look, q, y, body)
      else if code == GET_MORE_ELEMENTS then RespondMore(q, y)
      else Reply(None, q, y)
  }

  // ---------------------------------------------------------------- requests of the device

  function PreimageRequest(hash: Bytes): Bytes {
    [GET_PREIMAGE, 0] + hash
  }

  function IndexRequest(root: Bytes, leaf: Bytes): Bytes {
    [GET_MERKLE_LEAF_INDEX] + root + leaf
  }

  function ProofRequest(root: Bytes, size: nat, index: nat): Option<Bytes> {
    var s :- WriteVarint(size);
    var i :- WriteVarint(index);
    Some([GET_MERKLE_LEAF_PROOF] + root + s + i)
  }

  lemma ReadShortestWritten(n: nat, rest: Bytes)
    requires WriteVarint(n).Some?
    ensures ReadVarint(WriteVarint(n).value + rest) == Some((n, rest))
    ensures ReadShortest(WriteVarint(n).value + rest) == Some((n, rest))
  {
    VarintRoundTrip(n, rest);
  }

  /** Both clients read the numbers of a proof request, in the form in which the device writes them. */
  lemma ProofRequestRead(h: HashFn, look: Lookups, q: seq<Bytes>, y: seq<Bytes>, root: Bytes, size: nat, index: nat)
    requires |root| == 32 && ProofRequest(root, size, index).Some?
    ensures Respond(h, look, q, y, ProofRequest(root, size, index).value) == ProveLeaf(h, look, q, y, root, size, index)
    ensures RustRespond(h, look, q, y, ProofRequest(root, size, index).value) ==
            if q != [] then Reply(None, q, y) else ProveLeaf(h, look, q, y, root, size, index)
  {
    hide ProveLeaf, ReadVarint, ReadShortest, WriteVarint;
    var s, i := WriteVarint(size).value, WriteVarint(index).value;
    var request := ProofRequest(root, size, index).value;
    var body := request[1..];
    assert body == root + (s + i) && body[..32] == root && body[32..] == s + i;
    ReadShortestWritten(size, i);
    ReadShortestWritten(index, []);
    assert i + [] == i;
  }

  // ---------------------------------------------------------------- looking up a committed value

  /** The client can answer for a list of elements: it has the tree, and every element with its prefix. */
  ghost predicate Knows(h: HashFn, look: Lookups, es: seq<Bytes>) {
    && look.tree(RootOf(h, LeafHashes(h, es))) == Some(LeafHashes(h, es))
    && forall i :: 0 <= i < |es| ==> look.preimage(ElementHash(h, es[i])) == Some([0] + es[i])
  }

  lemma IndexOfKey(h: HashFn, ks: seq<Bytes>, i: nat)
    requires Free(h, Preimages(h, ks)) && Sorted(ks) && i < |ks|
    ensures IndexOf(LeafHashes(h, ks), ElementHash(h, ks[i])) == Some(i)
  {
    hide Free, Preimages, Less, IndexOf;
    var hs, x := LeafHashes(h, ks), ElementHash(h, ks[i]);
    assert hs[i] in hs;
    var r := IndexOf(hs, x).value;
    ElementHashed(h, ks, i);
    ElementHashed(h, ks, r);
    SameHash(h, Preimages(h, ks), [0] + ks[i], [0] + ks[r]);
    assert ks[i] == ([0] + ks[i])[1..] && ks[r] == ([0] + ks[r])[1..];
    LessTotal(ks[r], ks[i]);
  }

  /** The leaf index of a key on the root of the keys. */
  lemma KeyFound(h: HashFn, look: Lookups, q: seq<Bytes>, y: seq<Bytes>, ks: seq<Bytes>, i: nat)
    requires Sized(h) && Free(h, Preimages(h, ks)) && Knows(h, look, ks) && Sorted(ks) && i < |ks|
             && WriteVarint(i).Some?
    ensures Respond(h, look, q, y, IndexRequest(RootOf(h, LeafHashes(h, ks)), ElementHash(h, ks[i]))) ==
            Reply(Some([1] + WriteVarint(i).value), q, y)
  {
    hide Free, Preimages, Sorted, RootOf, IndexOf, WriteVarint;
    var root, leaf := RootOf(h, LeafHashes(h, ks)), ElementHash(h, ks[i]);
    RootLength(h, ks);
    IndexOfKey(h, ks, i);
    var body := IndexRequest(root, leaf)[1..];
    assert body == root + leaf && body[..32] == root && body[32..] == leaf;
  }

  /** The messages in which the device receives a queue. */
  function Messages(queue: seq<Bytes>, e: nat): seq<seq<Bytes>>
    requires 1 <= e <= 253 && Uniform(queue, e)
    decreases |queue|
  {
    if queue == [] then []
    else
      var n := Fitting(|queue|, e);
      [queue[..n]] + Messages(queue[n..], e)
  }

  lemma {:induction false} MessagesOfDrain(queue: seq<Bytes>, e: nat)
    requires 1 <= e <= 253 && Uniform(queue, e)
    ensures |Messages(queue, e)| == |Drain(queue, e)| && DeviceMerkle.Concat(Messages(queue, e)) == queue
    ensures forall i :: 0 <= i < |Drain(queue, e)| ==> MoreElements(Drain(queue, e)[i]) == Some(Messages(queue, e)[i])
    ensures forall m :: m in Messages(queue, e) ==> m != []
    decreases |queue|
  {
    hide MoreAnswer, MoreElements, Fitting;
    if queue != [] {
      DrainStep(queue, e);
      var n := Fitting(|queue|, e);
      MessagesOfDrain(queue[n..], e);
      assert queue == queue[..n] + queue[n..];
      assert Messages(queue, e)[1..] == Messages(queue[n..], e);
    }
  }

  /** What the device has received for a leaf when the client has answered and the queue is drained. */
  function Received(leaf: Bytes, proof: seq<Bytes>): DeviceMerkle.Answer
    requires |proof| <= 255 && Uniform(proof, 32)
  {
    var k := Min(6, |proof|);
    DeviceMerkle.Answer(leaf, |proof|, [proof[..k]] + Messages(proof[k..], 32))
  }

  lemma ReceivedMessages(leaf: Bytes, proof: seq<Bytes>)
    requires |proof| <= 255 && Uniform(proof, 32)
    ensures var r := Received(leaf, proof);
            && r.messages != [] && DeviceMerkle.Concat(r.messages) == proof
            && if proof == [] then r.messages == [[]] else forall m :: m in r.messages ==> m != []
  {
    var k := Min(6, |proof|);
    MessagesOfDrain(proof[k..], 32);
    var r := Received(leaf, proof);
    assert r.messages[1..] == Messages(proof[k..], 32);
    assert DeviceMerkle.Concat(r.messages) == proof[..k] + proof[k..] == proof;
  }

  lemma PathFits(h: HashFn, es: seq<Bytes>, i: nat)
    requires Sized(h) && i < |es| <= Pow2(255)
    ensures var proof := Path(CombineOf(h), LeafHashes(h, es), i);
            |proof| <= 255 && Uniform(proof, 32) && (proof == [] <==> |es| == 1)
  {
    hide Sized, MakesHashes;
    var c, leaves := CombineOf(h), LeafHashes(h, es);
    CombineMakesHashes(h);
    LeavesAreHashes(h, es);
    PathIsHashes(c, leaves, i);
    PathFolds(c, leaves, i);
    PathLength(|leaves|, i, 255);
    WayLength(|leaves|, i);
    assert forall k :: 0 <= k < |Path(c, leaves, i)| ==> IsHash(Path(c, leaves, i)[k]);
  }

  lemma ReceivedAccepted(h: HashFn, es: seq<Bytes>, i: nat)
    requires Sized(h) && i < |es| <= Pow2(255)
    ensures var leaves := LeafHashes(h, es);
            var proof := Path(CombineOf(h), leaves, i);
            && |proof| <= 255 && Uniform(proof, 32)
            && DeviceMerkle.Accepts(CombineOf(h), Root(CombineOf(h), leaves), |leaves|, i, Received(leaves[i], proof))
  {
    hide Sized, Path, Root;
    var c, leaves := CombineOf(h), LeafHashes(h, es);
    PathFits(h, es, i);
    ReceivedMessages(leaves[i], Path(c, leaves, i));
    DeviceMerkle.AuditPathAccepted(c, leaves, i, Received(leaves[i], Path(c, leaves, i)));
  }

  lemma WayLength(n: nat, i: nat)
    requires i < n
    ensures Directions(n, i) == [] <==> n == 1
  {
  }

  /** The proof of a value on the root of the values: the client answers, and what the device has
      received in the end is accepted and carries the hash of the value. */
  lemma ValueProved(h: HashFn, look: Lookups, y: seq<Bytes>, vs: seq<Bytes>, i: nat)
    requires Sized(h) && Knows(h, look, vs) && i < |vs| <= Pow2(255)
    requires ProofRequest(RootOf(h, LeafHashes(h, vs)), |vs|, i).Some?
    ensures var leaves := LeafHashes(h, vs);
            var root, proof := RootOf(h, leaves), Path(CombineOf(h), leaves, i);
            && |proof| <= 255 && Uniform(proof, 32)
            && ProofAnswer(leaves[i], proof).Some?
            && Respond(h, look, [], y, ProofRequest(root, |vs|, i).value) ==
               Reply(Some(ProofAnswer(leaves[i], proof).value.answer), ProofAnswer(leaves[i], proof).value.queue, y)
            && DeviceMerkle.Accepts(CombineOf(h), root, |vs|, i, Received(leaves[i], proof))
            && Received(leaves[i], proof).hash == ElementHash(h, vs[i])
  {
    RootLength(h, vs);
    ReceivedAccepted(h, vs, i);
    ProofRequestRead(h, look, [], y, RootOf(h, LeafHashes(h, vs)), |vs|, i);
  }

  /** The preimage of the hash of a value. */
  lemma PreimageFound(h: HashFn, look: Lookups, y: seq<Bytes>, vs: seq<Bytes>, i: nat)
    requires Sized(h) && Knows(h, look, vs) && i < |vs| && PreimageAnswer([0] + vs[i]).Some?
    ensures var r := PreimageAnswer([0] + vs[i]).value;
            Respond(h, look, [], y, PreimageRequest(ElementHash(h, vs[i]))) == Reply(Some(r.answer), r.queue, y)
  {
    var x := ElementHash(h, vs[i]);
    var body := PreimageRequest(x)[1..];
    assert body == [0] + x && body[1..] == x;
  }

  /** The three steps of a lookup of the i-th key: its leaf index on the root of the keys, the proof of
      the value at that index on the root of the values, and the preimage of the hash proved. */
  ghost predicate FindsValue(h: HashFn, look: Lookups, y: seq<Bytes>, m: map<Bytes, Bytes>, ks: seq<Bytes>, i: nat)
    requires i < |ks| && forall k :: k in ks ==> k in m
  {
    var vs := ValuesOf(m, ks);
    var keysRoot, valuesRoot, leaf := RootOf(h, LeafHashes(h, ks)), RootOf(h, LeafHashes(h, vs)),
        ElementHash(h, m[ks[i]]);
    var proof := Path(CombineOf(h), LeafHashes(h, vs), i);
    && WriteVarint(i).Some?
    && Respond(h, look, [], y, IndexRequest(keysRoot, ElementHash(h, ks[i]))).answer == Some([1] + WriteVarint(i).value)
    && ProofRequest(valuesRoot, |ks|, i).Some?
    && |proof| <= 255 && Uniform(proof, 32) && ProofAnswer(leaf, proof).Some?
    && Respond(h, look, [], y, ProofRequest(valuesRoot, |ks|, i).value).answer
       == Some(ProofAnswer(leaf, proof).value.answer)
    && DeviceMerkle.Accepts(CombineOf(h), valuesRoot, |ks|, i, Received(leaf, proof))
    && PreimageAnswer([0] + m[ks[i]]).Some?
    && Respond(h, look, [], y, PreimageRequest(leaf)).answer == Some(PreimageAnswer([0] + m[ks[i]]).value.answer)
  }

  /** For a known map, whatever else the client knows, the lookup of a key gives exactly its value. */
  lemma CommittedLookup(h: HashFn, look: Lookups, y: seq<Bytes>, m: map<Bytes, Bytes>, ks: seq<Bytes>, i: nat)
    requires Sized(h) && Free(h, Preimages(h, ks)) && KeysInOrder(m, ks) && i < |ks| < 0x1_0000_0000_0000_0000
    requires Knows(h, look, ks) && Knows(h, look, ValuesOf(m, ks))
    requires PreimageAnswer([0] + m[ks[i]]).Some?
    ensures FindsValue(h, look, y, m, ks, i)
  {
    hide Sized, Free, Preimages, Respond, ProofAnswer, PreimageAnswer, Received, RootOf, Path, Sorted, Knows;
    var vs := ValuesOf(m, ks);
    PowersOfTwo();
    KeyFound(h, look, [], y, ks, i);
    ValueProved(h, look, y, vs, i);
    PreimageFound(h, look, y, vs, i);
  }

  lemma PowersOfTwo()
    ensures 0x1_0000_0000_0000_0000 <= Pow2(255)
  {
    assert Pow2(8) == 256;
    assert Pow2(16) == 256 * Pow2(8);
    assert Pow2(24) == 256 * Pow2(16);
    assert Pow2(32) == 256 * Pow2(24);
    assert Pow2(40) == 256 * Pow2(32);
    assert Pow2(48) == 256 * Pow2(40);
    assert Pow2(56) == 256 * Pow2(48);
    assert Pow2(64) == 256 * Pow2(56);
    Pow2Monotone(64, 255);
  }
}
