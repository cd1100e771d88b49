/** What the two clients know after the same registrations, and how they answer the same requests. The
    Python client keeps dictionaries, in which the last registration under a key counts; the Rust client
    keeps vectors, in which the first one counts. */
module ClientKnowledge {
  import opened Wrappers
  import opened Merkle
  import opened Streaming
  import opened HashedLists
  import opened ClientProtocol

  // ---------------------------------------------------------------- registrations

  /** A single preimage or a list of elements was registered. */
  datatype Fact = Element(e: Bytes) | List(es: seq<Bytes>)

  function Prefixed(es: seq<Bytes>): (ps: seq<Bytes>)
    ensures |ps| == |es| && forall i :: 0 <= i < |es| ==> ps[i] == [0] + es[i]
  {
    seq(|es|, i requires 0 <= i < |es| => [0] + es[i])
  }

  /** The preimages that were stored, in order. */
  function StringsOf(facts: seq<Fact>): seq<Bytes> {
    if facts == [] then []
    else
      var last := facts[|facts| - 1];
      StringsOf(facts[..|facts| - 1]) + if last.Element? then [last.e] else Prefixed(last.es)
  }

  function ListsOf(facts: seq<Fact>): seq<seq<Bytes>> {
    if facts == [] then []
    else
      var last := facts[|facts| - 1];
      ListsOf(facts[..|facts| - 1]) + if last.Element? then [] else [last.es]
  }

  /** All the strings that were hashed. */
  function Hashed(h: HashFn, facts: seq<Fact>): set<Bytes> {
    if facts == [] then {}
    else
      var last := facts[|facts| - 1];
      Hashed(h, facts[..|facts| - 1]) + if last.Element? then {last.e} else Preimages(h, last.es)
  }

  lemma OneMore(h: HashFn, facts: seq<Fact>, f: Fact)
    ensures StringsOf(facts + [f]) == StringsOf(facts) + if f.Element? then [f.e] else Prefixed(f.es)
    ensures ListsOf(facts + [f]) == ListsOf(facts) + if f.Element? then [] else [f.es]
    ensures Hashed(h, facts + [f]) == Hashed(h, facts) + if f.Element? then {f.e} else Preimages(h, f.es)
  {
    assert (facts + [f])[..|facts|] == facts;
  }

  /** Every stored preimage was hashed. */
  lemma {:induction false} StringsHashed(h: HashFn, facts: seq<Fact>, p: Bytes)
    requires p in StringsOf(facts)
    ensures p in Hashed(h, facts)
    decreases |facts|
  {
    hide Preimages;
    var n := |facts| - 1;
    if p in StringsOf(facts[..n]) {
      StringsHashed(h, facts[..n], p);
    } else if facts[n].List? {
      var i :| 0 <= i < |facts[n].es| && p == Prefixed(facts[n].es)[i];
      ElementHashed(h, facts[n].es, i);
    }
  }

  lemma {:induction false} ListsHashed(h: HashFn, facts: seq<Fact>, es: seq<Bytes>)
    requires es in ListsOf(facts)
    ensures Preimages(h, es) <= Hashed(h, facts)
    ensures forall i :: 0 <= i < |es| ==> [0] + es[i] in StringsOf(facts)
    decreases |facts|
  {
    hide Preimages;
    var n := |facts| - 1;
    if es in ListsOf(facts[..n]) {
      ListsHashed(h, facts[..n], es);
    } else {
      assert facts[n] == List(es);
      forall i | 0 <= i < |es| ensures [0] + es[i] in StringsOf(facts) {
        assert Prefixed(es)[i] in Prefixed(es);
      }
    }
  }

  lemma {:induction false} ListRegistered(facts: seq<Fact>, es: seq<Bytes>)
    requires List(es) in facts
    ensures es in ListsOf(facts)
    decreases |facts|
  {
    var n := |facts| - 1;
    if facts[n] != List(es) {
      assert List(es) in facts[..n];
      ListRegistered(facts[..n], es);
    }
  }

  // ---------------------------------------------------------------- dictionaries

  function PreimageMap(h: HashFn, ps: seq<Bytes>): map<Bytes, Bytes> {
    if ps == [] then map[] else PreimageMap(h, ps[..|ps| - 1])[h(ps[|ps| - 1]) := ps[|ps| - 1]]
  }

  function TreeMap(h: HashFn, ls: seq<seq<Bytes>>): map<Bytes, seq<Bytes>> {
    if ls == [] then map[]
    else
      var leaves := LeafHashes(h, ls[|ls| - 1]);
      TreeMap(h, ls[..|ls| - 1])[RootOf(h, leaves) := leaves]
  }

  function MapLook(preimages: map<Bytes, Bytes>, trees: map<Bytes, seq<Bytes>>): Lookups {
    Lookups(k => if k in preimages then Some(preimages[k]) else None, k => if k in trees then Some(trees[k]) else None)
  }

  function PythonLook(h: HashFn, facts: seq<Fact>): Lookups {
    MapLook(PreimageMap(h, StringsOf(facts)), TreeMap(h, ListsOf(facts)))
  }

  lemma {:induction false} MapHas(h: HashFn, ps: seq<Bytes>, k: Bytes)
    ensures k in PreimageMap(h, ps) <==> exists p :: p in ps && h(p) == k
    ensures k in PreimageMap(h, ps) ==> PreimageMap(h, ps)[k] in ps && h(PreimageMap(h, ps)[k]) == k
    decreases |ps|
  {
    if ps != [] {
      var n := |ps| - 1;
      MapHas(h, ps[..n], k);
      assert ps == ps[..n] + [ps[n]];
      if k in PreimageMap(h, ps) {
        assert PreimageMap(h, ps)[k] in ps;
      }
    }
  }

  ghost predicate HasRoot(h: HashFn, es: seq<Bytes>, root: Bytes) {
    RootOf(h, LeafHashes(h, es)) == root
  }

  lemma {:induction false} TreeMapHas(h: HashFn, ls: seq<seq<Bytes>>, k: Bytes)
    ensures k in TreeMap(h, ls) <==> exists l :: l in ls && HasRoot(h, l, k)
    ensures k in TreeMap(h, ls) ==> exists l :: l in ls && HasRoot(h, l, k) && TreeMap(h, ls)[k] == LeafHashes(h, l)
    decreases |ls|
  {
    hide RootOf, LeafHashes;
    if ls != [] {
      var n := |ls| - 1;
      TreeMapHas(h, ls[..n], k);
      assert ls == ls[..n] + [ls[n]];
      if HasRoot(h, ls[n], k) {
        assert ls[n] in ls && TreeMap(h, ls)[k] == LeafHashes(h, ls[n]);
      } else if k in TreeMap(h, ls[..n]) {
        var l :| l in ls[..n] && HasRoot(h, l, k) && TreeMap(h, ls[..n])[k] == LeafHashes(h, l);
        assert l in ls;
      }
    }
  }

  // ---------------------------------------------------------------- vectors

  function FindPreimage(ps: seq<(Bytes, Bytes)>, k: Bytes): Option<Bytes> {
    if ps == [] then None else if ps[0].0 == k then Some(ps[0].1) else FindPreimage(ps[1..], k)
  }

  function FindTree(h: HashFn, trees: seq<seq<Bytes>>, root: Bytes): Option<seq<Bytes>> {
    if trees == [] then None else if RootOf(h, trees[0]) == root then Some(trees[0]) else FindTree(h, trees[1..], root)
  }

  function VectorLook(h: HashFn, ps: seq<(Bytes, Bytes)>, trees: seq<seq<Bytes>>): Lookups {
    Lookups(k => FindPreimage(ps, k), r => FindTree(h, trees, r))
  }

  function PreimagePairs(h: HashFn, ps: seq<Bytes>): seq<(Bytes, Bytes)> {
    seq(|ps|, i requires 0 <= i < |ps| => (h(ps[i]), ps[i]))
  }

  function TreeVector(h: HashFn, ls: seq<seq<Bytes>>): seq<seq<Bytes>> {
    seq(|ls|, i requires 0 <= i < |ls| => LeafHashes(h, ls[i]))
  }

  function RustLook(h: HashFn, facts: seq<Fact>): Lookups {
    VectorLook(h, PreimagePairs(h, StringsOf(facts)), TreeVector(h, ListsOf(facts)))
  }

  lemma {:induction false} PairsHave(h: HashFn, ps: seq<Bytes>, k: Bytes)
    ensures FindPreimage(PreimagePairs(h, ps), k).Some? <==> exists p :: p in ps && h(p) == k
    ensures FindPreimage(PreimagePairs(h, ps), k).Some? ==>
            FindPreimage(PreimagePairs(h, ps), k).value in ps && h(FindPreimage(PreimagePairs(h, ps), k).value) == k
    decreases |ps|
  {
    if ps != [] {
      PairsHave(h, ps[1..], k);
      assert PreimagePairs(h, ps)[1..] == PreimagePairs(h, ps[1..]);
      assert ps == [ps[0]] + ps[1..];
      if FindPreimage(PreimagePairs(h, ps), k).Some? {
        assert FindPreimage(PreimagePairs(h, ps), k).value in ps;
      }
    }
  }

  lemma {:induction false} VectorHas(h: HashFn, ls: seq<seq<Bytes>>, k: Bytes)
    ensures FindTree(h, TreeVector(h, ls), k).Some? <==> exists l :: l in ls && HasRoot(h, l, k)
    ensures FindTree(h, TreeVector(h, ls), k).Some? ==>
            exists l :: l in ls && HasRoot(h, l, k) && FindTree(h, TreeVector(h, ls), k).value == LeafHashes(h, l)
    decreases |ls|
  {
    hide RootOf, LeafHashes;
    if ls != [] {
      VectorHas(h, ls[1..], k);
      assert TreeVector(h, ls)[1..] == TreeVector(h, ls[1..]);
      assert ls == [ls[0]] + ls[1..];
      var found := FindTree(h, TreeVector(h, ls), k);
      if HasRoot(h, ls[0], k) {
        assert ls[0] in ls && found == Some(LeafHashes(h, ls[0]));
      } else if found.Some? {
        var l :| l in ls[1..] && HasRoot(h, l, k) && found.value == LeafHashes(h, l);
        assert l in ls;
      }
    }
  }

  // ---------------------------------------------------------------- the same knowledge

  lemma SameRoot(h: HashFn, facts: seq<Fact>, a: seq<Bytes>, b: seq<Bytes>, root: Bytes)
    requires Sized(h) && Free(h, Hashed(h, facts)) && a in ListsOf(facts) && b in ListsOf(facts)
    requires HasRoot(h, a, root) && HasRoot(h, b, root)
    ensures a == b
  {
    hide Sized, Free, RootOf, LeafHashes, Preimages;
    ListsHashed(h, facts, a);
    ListsHashed(h, facts, b);
    FreeSubset(h, Preimages(h, a) + Preimages(h, b), Hashed(h, facts));
    RootUnique(h, a, b);
  }

  lemma PreimagesAlike(h: HashFn, facts: seq<Fact>, k: Bytes)
    requires Free(h, Hashed(h, facts))
    ensures PythonLook(h, facts).preimage(k) == RustLook(h, facts).preimage(k)
  {
    hide Free, Hashed, StringsOf, ListsOf, PreimageMap, PreimagePairs, FindPreimage, TreeMap, TreeVector, FindTree;
    var ps := StringsOf(facts);
    MapHas(h, ps, k);
    PairsHave(h, ps, k);
    if k in PreimageMap(h, ps) {
      var a, b := PreimageMap(h, ps)[k], FindPreimage(PreimagePairs(h, ps), k).value;
      StringsHashed(h, facts, a);
      StringsHashed(h, facts, b);
      SameHash(h, Hashed(h, facts), a, b);
    }
  }

  lemma TreesAlike(h: HashFn, facts: seq<Fact>, k: Bytes)
    requires Sized(h) && Free(h, Hashed(h, facts))
    ensures PythonLook(h, facts).tree(k) == RustLook(h, facts).tree(k)
  {
    hide Sized, Free, Hashed, StringsOf, ListsOf, PreimageMap, PreimagePairs, FindPreimage, TreeMap, TreeVector,
         FindTree;
    hide HasRoot, LeafHashes;
    var ls := ListsOf(facts);
    TreeMapHas(h, ls, k);
    VectorHas(h, ls, k);
    if k in TreeMap(h, ls) {
      var a :| a in ls && HasRoot(h, a, k) && TreeMap(h, ls)[k] == LeafHashes(h, a);
      var b :| b in ls && HasRoot(h, b, k) && FindTree(h, TreeVector(h, ls), k).value == LeafHashes(h, b);
      SameRoot(h, facts, a, b, k);
    }
  }

  /** After the same registrations both clients know the same, unless two of the strings hashed collide. */
  lemma KnowAlike(h: HashFn, facts: seq<Fact>)
    requires Sized(h) && Free(h, Hashed(h, facts))
    ensures Alike(PythonLook(h, facts), RustLook(h, facts))
  {
    hide Sized, Free, Hashed, PythonLook, RustLook;
    forall k
      ensures PythonLook(h, facts).preimage(k) == RustLook(h, facts).preimage(k)
      ensures PythonLook(h, facts).tree(k) == RustLook(h, facts).tree(k)
    {
      PreimagesAlike(h, facts, k);
      TreesAlike(h, facts, k);
    }
  }

  ghost predicate Alike(a: Lookups, b: Lookups) {
    (forall k :: a.preimage(k) == b.preimage(k)) && forall k :: a.tree(k) == b.tree(k)
  }

  /** A registered list is known as it is, whatever else was registered before and after it, unless two
      of the strings hashed collide. */
  lemma RegisteredIsKnown(h: HashFn, facts: seq<Fact>, es: seq<Bytes>)
    requires Sized(h) && Free(h, Hashed(h, facts)) && List(es) in facts
    ensures Knows(h, PythonLook(h, facts), es) && Knows(h, RustLook(h, facts), es)
  {
    hide Sized, Free, Hashed, StringsOf, ListsOf, RootOf, LeafHashes, PreimageMap, TreeMap, RustLook;
    ListRegistered(facts, es);
    ListsHashed(h, facts, es);
    var ls, root := ListsOf(facts), RootOf(h, LeafHashes(h, es));
    assert HasRoot(h, es, root);
    TreeMapHas(h, ls, root);
    var a :| a in ls && HasRoot(h, a, root) && TreeMap(h, ls)[root] == LeafHashes(h, a);
    SameRoot(h, facts, a, es, root);
    forall i | 0 <= i < |es| ensures PythonLook(h, facts).preimage(ElementHash(h, es[i])) == Some([0] + es[i]) {
      var k, p := ElementHash(h, es[i]), [0] + es[i];
      MapHas(h, StringsOf(facts), k);
      var b := PreimageMap(h, StringsOf(facts))[k];
      StringsHashed(h, facts, b);
      StringsHashed(h, facts, p);
      SameHash(h, Hashed(h, facts), b, p);
    }
    KnowAlike(h, facts);
  }

  /** After a mapping was registered, whatever else was, the lookup of each of its keys gives its value. */
  lemma MappingLookup(h: HashFn, facts: seq<Fact>, y: seq<Bytes>, m: map<Bytes, Bytes>, ks: seq<Bytes>, i: nat)
    requires Sized(h) && Free(h, Hashed(h, facts)) && KeysInOrder(m, ks) && i < |ks| < 0x1_0000_0000_0000_0000
    requires List(ks) in facts && List(ValuesOf(m, ks)) in facts && PreimageAnswer([0] + m[ks[i]]).Some?
    ensures FindsValue(h, PythonLook(h, facts), y, m, ks, i) && FindsValue(h, RustLook(h, facts), y, m, ks, i)
  {
    hide Sized, Free, Hashed, Preimages, FindsValue, PythonLook, RustLook, Knows, Sorted, PreimageAnswer;
    RegisteredIsKnown(h, facts, ks);
    RegisteredIsKnown(h, facts, ValuesOf(m, ks));
    ListRegistered(facts, ks);
    ListsHashed(h, facts, ks);
    FreeSubset(h, Preimages(h, ks), Hashed(h, facts));
    CommittedLookup(h, PythonLook(h, facts), y, m, ks, i);
    CommittedLookup(h, RustLook(h, facts), y, m, ks, i);
  }

  /** The assumption on the hash can be met: an example with one list of two elements. */
  lemma ToyFacts(a: Bytes, b: Bytes)
    requires |a| < 30 && |b| < 30 && a != b
    ensures Sized(ToyHash) && Free(ToyHash, Hashed(ToyHash, [List([a, b])]))
  {
    hide ToyHash, Preimages, Free, Sized;
    ToySized();
    ToyFree(a, b);
    var none: seq<Fact> := [];
    var one := [List([a, b])];
    assert one[..0] == none && Hashed(ToyHash, none) == {};
    assert Hashed(ToyHash, one) == {} + Preimages(ToyHash, [a, b]);
    assert {} + Preimages(ToyHash, [a, b]) == Preimages(ToyHash, [a, b]);
  }

  // ---------------------------------------------------------------- the same answers

  /** What the device asks. */
  datatype Request =
    | Yield(data: Bytes)
    | Preimage(hash: Bytes)
    | Index(root: Bytes, leaf: Bytes)
    | Proof(root: Bytes, size: nat, index: nat)
    | More

  predicate Proper(r: Request) {
    match r
    case Yield(_) => true
    case Preimage(hash) => IsHash(hash)
    case Index(root, leaf) => IsHash(root) && IsHash(leaf)
    case Proof(root, size, index) => IsHash(root) && ProofRequest(root, size, index).Some?
    case More => true
  }

  function Encoded(r: Request): Bytes
    requires Proper(r)
  {
    match r
    case Yield(data) => [YIELD] + data
    case Preimage(hash) => PreimageRequest(hash)
    case Index(root, leaf) => IndexRequest(root, leaf)
    case Proof(root, size, index) => ProofRequest(root, size, index).value
    case More => [GET_MORE_ELEMENTS]
  }

  /** The requests in bytes, as the client commands are specified. */
  lemma RequestsSpelled(r: Request)
    requires Proper(r)
    ensures match r
            case Yield(data) => Encoded(r) == [0x10] + data
            case Preimage(hash) => Encoded(r) == [0x40, 0x00] + hash
            case Proof(root, size, index) =>
              && WriteVarint(size).Some? && WriteVarint(index).Some?
              && Encoded(r) == [0x41] + root + WriteVarint(size).value + WriteVarint(index).value
            case Index(root, leaf) => Encoded(r) == [0x42] + root + leaf
            case More => Encoded(r) == [0xa0]
  {
  }

  /** The index of a hash is asked for that is not a leaf of a tree that is known. */
  predicate NotFound(look: Lookups, r: Request) {
    r.Index? && look.tree(r.root).Some? && r.leaf !in look.tree(r.root).value
  }

  /** The answers of the Python client to a sequence of requests, each with the state after it. */
  function PythonRun(h: HashFn, look: Lookups, q: seq<Bytes>, y: seq<Bytes>, rs: seq<Request>): (replies: seq<Reply>)
    requires forall i :: 0 <= i < |rs| ==> Proper(rs[i])
    ensures |replies| == |rs|
    decreases |rs|
  {
    if rs == [] then []
    else
      var a := Respond(h, look, q, y, Encoded(rs[0]));
      [a] + PythonRun(h, look, a.queue, a.yielded, rs[1..])
  }

  function RustRun(h: HashFn, look: Lookups, q: seq<Bytes>, y: seq<Bytes>, rs: seq<Request>): (replies: seq<Reply>)
    requires forall i :: 0 <= i < |rs| ==> Proper(rs[i])
    ensures |replies| == |rs|
    decreases |rs|
  {
    if rs == [] then []
    else
      var a := RustRespond(h, look, q, y, Encoded(rs[0]));
      [a] + RustRun(h, look, a.queue, a.yielded, rs[1..])
  }

  /** Two replies leave the same state, and differ in the answer exactly where a leaf is not found: there
      the Python client says so and the Rust client fails. */
  predicate SameBut(notFound: bool, python: Reply, rust: Reply) {
    && python.queue == rust.queue && python.yielded == rust.yielded
    && (python.answer == rust.answer <==> !notFound)
    && (notFound ==> python.answer == Some([0, 0]) && rust.answer == None)
  }

  lemma IndexStep(h: HashFn, a: Lookups, b: Lookups, q: seq<Bytes>, y: seq<Bytes>, root: Bytes, leaf: Bytes)
    requires IsHash(root) && IsHash(leaf) && a.tree(root) == b.tree(root)
    ensures SameBut(NotFound(b, Index(root, leaf)), Respond(h, a, q, y, IndexRequest(root, leaf)),
                    RustRespond(h, b, q, y, IndexRequest(root, leaf)))
  {
    var body := IndexRequest(root, leaf)[1..];
    assert body == root + leaf;
    assert body[..32] == root && body[32..64] == leaf && body[32..] == leaf;
    assert [0] + WriteVarint(0).value == [0, 0];
  }

  lemma ProofStep(h: HashFn, a: Lookups, b: Lookups, q: seq<Bytes>, y: seq<Bytes>, root: Bytes, size: nat, index: nat)
    requires IsHash(root) && ProofRequest(root, size, index).Some? && a.tree(root) == b.tree(root)
    ensures Respond(h, a, q, y, ProofRequest(root, size, index).value) ==
            RustRespond(h, b, q, y, ProofRequest(root, size, index).value)
  {
    hide Respond, RustRespond, ProofRequest, ProofAnswer, Path;
    ProofRequestRead(h, a, q, y, root, size, index);
    ProofRequestRead(h, b, q, y, root, size, index);
  }

  lemma PreimageStep(h: HashFn, a: Lookups, b: Lookups, q: seq<Bytes>, y: seq<Bytes>, hash: Bytes)
    requires IsHash(hash) && a.preimage(hash) == b.preimage(hash)
    ensures Respond(h, a, q, y, PreimageRequest(hash)) == RustRespond(h, b, q, y, PreimageRequest(hash))
  {
    var body := PreimageRequest(hash)[1..];
    assert body == [0] + hash && body[1..] == hash;
  }

  lemma AlikeStep(h: HashFn, a: Lookups, b: Lookups, q: seq<Bytes>, y: seq<Bytes>, r: Request)
    requires Alike(a, b) && Proper(r)
    ensures SameBut(NotFound(b, r), Respond(h, a, q, y, Encoded(r)), RustRespond(h, b, q, y, Encoded(r)))
  {
    match r
    case Yield(data) =>
      assert Encoded(r)[1..] == data;
    case Preimage(hash) =>
      PreimageStep(h, a, b, q, y, hash);
    case Index(root, leaf) =>
      IndexStep(h, a, b, q, y, root, leaf);
    case Proof(root, size, index) =>
      ProofStep(h, a, b, q, y, root, size, index);
    case More =>
  }

  lemma {:induction false} RunsAlike(h: HashFn, a: Lookups, b: Lookups, q: seq<Bytes>, y: seq<Bytes>,
      rs: seq<Request>, k: nat)
    requires Alike(a, b) && k < |rs| && forall i :: 0 <= i < |rs| ==> Proper(rs[i])
    ensures SameBut(NotFound(b, rs[k]), PythonRun(h, a, q, y, rs)[k], RustRun(h, b, q, y, rs)[k])
    decreases |rs|
  {
    hide Respond, RustRespond, Encoded, Alike, NotFound;
    AlikeStep(h, a, b, q, y, rs[0]);
    if k > 0 {
      var x := Respond(h, a, q, y, Encoded(rs[0]));
      RunsAlike(h, a, b, x.queue, x.yielded, rs[1..], k - 1);
    }
  }

  /** After the same registrations, and over every sequence of requests of the device, both clients have
      the same queue and the same yielded values, and give the same answers, except exactly where the
      index of a hash is asked for that is not a leaf. */
  lemma AnswersAlike(h: HashFn, facts: seq<Fact>, q: seq<Bytes>, y: seq<Bytes>, rs: seq<Request>, k: nat)
    requires Sized(h) && Free(h, Hashed(h, facts))
    requires k < |rs| && forall i :: 0 <= i < |rs| ==> Proper(rs[i])
    ensures SameBut(NotFound(RustLook(h, facts), rs[k]), PythonRun(h, PythonLook(h, facts), q, y, rs)[k],
                    RustRun(h, RustLook(h, facts), q, y, rs)[k])
  {
    hide Sized, Free, Hashed, PythonLook, RustLook, NotFound, PythonRun, RustRun, SameBut, Proper;
    KnowAlike(h, facts);
    RunsAlike(h, PythonLook(h, facts), RustLook(h, facts), q, y, rs, k);
  }
}
