/** Whole exchanges between the device and a client: a request, followed by GET_MORE_ELEMENTS until nothing
    is left, over the runs of both clients. */
module ClientSessions {
  import opened Wrappers
  import opened Merkle
  import opened Streaming
  import opened HashedLists
  import opened ClientProtocol
  import opened ClientKnowledge
  import DeviceMerkle

  // ---------------------------------------------------------------- runs

  predicate AllProper(rs: seq<Request>) {
    forall i :: 0 <= i < |rs| ==> Proper(rs[i])
  }

  /** The queue and the yielded values after a run. */
  function QueueAfter(q: seq<Bytes>, run: seq<Reply>): seq<Bytes> {
    if run == [] then q else run[|run| - 1].queue
  }

  function YieldedAfter(y: seq<Bytes>, run: seq<Reply>): seq<Bytes> {
    if run == [] then y else run[|run| - 1].yielded
  }

  lemma {:induction false} RunJoin(h: HashFn, look: Lookups, q: seq<Bytes>, y: seq<Bytes>, a: seq<Request>,
      b: seq<Request>)
    requires AllProper(a) && AllProper(b)
    ensures AllProper(a + b)
    ensures var run := PythonRun(h, look, q, y, a);
            PythonRun(h, look, q, y, a + b) == run + PythonRun(h, look, QueueAfter(q, run), YieldedAfter(y, run), b)
    decreases |a|
  {
    hide Respond, Encoded, Proper;
    if a == [] {
      assert a + b == b;
    } else {
      assert a == [a[0]] + a[1..];
      var r := Respond(h, look, q, y, Encoded(a[0]));
      RunJoin(h, look, r.queue, r.yielded, a[1..], b);
      assert (a + b)[0] == a[0] && (a + b)[1..] == a[1..] + b;
      var run, rest := PythonRun(h, look, q, y, a), PythonRun(h, look, r.queue, r.yielded, a[1..]);
      assert run == [r] + rest;
      assert QueueAfter(q, run) == QueueAfter(r.queue, rest) && YieldedAfter(y, run) == YieldedAfter(r.yielded, rest);
    }
  }

  /** Where no index of a hash is asked for that is not a leaf, the two clients run alike. */
  lemma {:induction false} SameRun(h: HashFn, a: Lookups, b: Lookups, q: seq<Bytes>, y: seq<Bytes>, rs: seq<Request>)
    requires Alike(a, b) && AllProper(rs) && forall i :: 0 <= i < |rs| ==> !NotFound(b, rs[i])
    ensures PythonRun(h, a, q, y, rs) == RustRun(h, b, q, y, rs)
    decreases |rs|
  {
    hide Respond, RustRespond, Encoded, Alike, NotFound, Proper;
    if rs != [] {
      AlikeStep(h, a, b, q, y, rs[0]);
      var r := Respond(h, a, q, y, Encoded(rs[0]));
      SameRun(h, a, b, r.queue, r.yielded, rs[1..]);
    }
  }

  // ---------------------------------------------------------------- the answers of a run

  /** Every reply has an answer, of at most 255 bytes. */
  predicate Answered255(run: seq<Reply>) {
    forall i :: 0 <= i < |run| ==> run[i].answer.Some? && |run[i].answer.value| <= 255
  }

  function AnswersOf(run: seq<Reply>): (r: seq<Bytes>)
    requires Answered255(run)
    ensures |r| == |run| && forall i :: 0 <= i < |run| ==> r[i] == run[i].answer.value
  {
    seq(|run|, i requires 0 <= i < |run| => run[i].answer.value)
  }

  function Mores(n: nat): (rs: seq<Request>)
    ensures |rs| == n && AllProper(rs)
  {
    seq(n, _ => More)
  }

  lemma MoreStep(h: HashFn, look: Lookups, q: seq<Bytes>, y: seq<Bytes>)
    requires MoreAnswer(q).Some?
    ensures Respond(h, look, q, y, Encoded(More))
            == Reply(Some(MoreAnswer(q).value.answer), MoreAnswer(q).value.queue, y)
  {
    hide MoreAnswer;
  }

  lemma OneMoreRun(h: HashFn, look: Lookups, q: seq<Bytes>, y: seq<Bytes>, n: nat)
    requires MoreAnswer(q).Some? && n > 0
    ensures var r := MoreAnswer(q).value;
            PythonRun(h, look, q, y, Mores(n)) ==
            [Reply(Some(r.answer), r.queue, y)] + PythonRun(h, look, r.queue, y, Mores(n - 1))
  {
    hide MoreAnswer, Respond, Encoded;
    MoreStep(h, look, q, y);
    assert Mores(n)[0] == More && Mores(n)[1..] == Mores(n - 1);
  }

  /** Asking for more until the queue is empty gives the answers of Drain, and leaves the queue empty. */
  lemma {:induction false} DrainRun(h: HashFn, look: Lookups, q: seq<Bytes>, y: seq<Bytes>, e: nat)
    requires 1 <= e <= 253 && Uniform(q, e)
    ensures var run := PythonRun(h, look, q, y, Mores(|Drain(q, e)|));
            && Answered255(run) && AnswersOf(run) == Drain(q, e)
            && QueueAfter(q, run) == [] && YieldedAfter(y, run) == y
    decreases |q|
  {
    hide Fitting, MoreElements, MoreAnswer, Mores, Respond, Encoded, PythonRun, Drain, Answered255, AnswersOf;
    if q == [] {
      NothingDrained(h, look, y, e);
    } else {
      DrainStep(q, e);
      var r := MoreAnswer(q).value;
      DrainRun(h, look, r.queue, y, e);
      DrainUnfolds(q, e);
      OneMoreRun(h, look, q, y, |Drain(q, e)|);
      JoinedAnswers(Reply(Some(r.answer), r.queue, y), PythonRun(h, look, r.queue, y, Mores(|Drain(r.queue, e)|)));
    }
  }

  lemma NothingDrained(h: HashFn, look: Lookups, y: seq<Bytes>, e: nat)
    requires 1 <= e <= 253
    ensures Drain([], e) == [] && PythonRun(h, look, [], y, Mores(0)) == [] && Answered255([]) && AnswersOf([]) == []
  {
  }

  lemma DrainUnfolds(q: seq<Bytes>, e: nat)
    requires 1 <= e <= 253 && Uniform(q, e) && q != [] && MoreAnswer(q).Some? && Uniform(MoreAnswer(q).value.queue, e)
    ensures Drain(q, e) == [MoreAnswer(q).value.answer] + Drain(MoreAnswer(q).value.queue, e)
  {
    hide MoreAnswer;
  }

  lemma JoinedAnswers(a: Reply, run: seq<Reply>)
    requires a.answer.Some? && |a.answer.value| <= 255 && Answered255(run)
    ensures Answered255([a] + run) && AnswersOf([a] + run) == [a.answer.value] + AnswersOf(run)
  {
  }

  // ---------------------------------------------------------------- preimages

  /** The preimage that the device puts together from the answers of a run. */
  function PreimageIn(answers: seq<Bytes>): Option<Bytes> {
    if answers == [] then None
    else
      var (total, first) :- FirstBytes(answers[0]);
      var es :- AllElements(answers[1..]);
      if |first + Flatten(es)| == total then Some(first + Flatten(es)) else None
  }

  /** The request for a preimage, and as many requests for more as its length asks for. */
  function PreimageRequests(hash: Bytes, p: Bytes): (rs: seq<Request>)
    requires IsHash(hash) && PreimageAnswer(p).Some?
    ensures AllProper(rs)
  {
    [Preimage(hash)] + Mores(|Drain(PreimageAnswer(p).value.queue, 1)|)
  }

  lemma FirstReply(h: HashFn, look: Lookups, q: seq<Bytes>, y: seq<Bytes>, r: Request, rs: seq<Request>)
    requires Proper(r) && AllProper(rs)
    ensures var a := Respond(h, look, q, y, Encoded(r));
            PythonRun(h, look, q, y, [r] + rs) == [a] + PythonRun(h, look, a.queue, a.yielded, rs)
  {
    hide Respond, Encoded, Proper;
    assert ([r] + rs)[0] == r && ([r] + rs)[1..] == rs;
  }

  /** A request whose answer leaves a queue, and the requests for more that empty it. */
  lemma QueueSession(h: HashFn, look: Lookups, y: seq<Bytes>, r: Request, answer: Bytes, queue: seq<Bytes>, e: nat)
    requires Proper(r) && Respond(h, look, [], y, Encoded(r)) == Reply(Some(answer), queue, y) && |answer| <= 255
    requires 1 <= e <= 253 && Uniform(queue, e)
    ensures var run := PythonRun(h, look, [], y, [r] + Mores(|Drain(queue, e)|));
            && Answered255(run) && AnswersOf(run) == [answer] + Drain(queue, e)
            && QueueAfter([], run) == [] && YieldedAfter(y, run) == y
  {
    hide Respond, Encoded, PythonRun, Mores, Drain, Proper;
    var mores := Mores(|Drain(queue, e)|);
    FirstReply(h, look, [], y, r, mores);
    DrainRun(h, look, queue, y, e);
    hide Answered255, AnswersOf;
    JoinedAnswers(Reply(Some(answer), queue, y), PythonRun(h, look, queue, y, mores));
  }

  lemma PreimageReply(h: HashFn, look: Lookups, y: seq<Bytes>, hash: Bytes, p: Bytes)
    requires IsHash(hash) && look.preimage(hash) == Some(p) && PreimageAnswer(p).Some?
    ensures Respond(h, look, [], y, Encoded(Preimage(hash)))
         == Reply(Some(PreimageAnswer(p).value.answer), PreimageAnswer(p).value.queue, y)
  {
    hide PreimageAnswer;
    var body := PreimageRequest(hash)[1..];
    assert body == [0] + hash && body[1..] == hash;
  }

  lemma PreimageRead(p: Bytes)
    requires PreimageAnswer(p).Some?
    ensures var r := PreimageAnswer(p).value; PreimageIn([r.answer] + Drain(r.queue, 1)) == Some(p)
  {
    hide PreimageAnswer, Drain, AllElements, FirstBytes;
    var r := PreimageAnswer(p).value;
    PreimageReassembled(p);
    assert ([r.answer] + Drain(r.queue, 1))[1..] == Drain(r.queue, 1);
  }

  /** From an empty queue, the request for a known preimage and the requests for more give answers from which
      exactly the preimage is put together, and leave the queue empty. */
  lemma PreimageSession(h: HashFn, look: Lookups, y: seq<Bytes>, hash: Bytes, p: Bytes)
    requires IsHash(hash) && look.preimage(hash) == Some(p) && PreimageAnswer(p).Some?
    ensures var run := PythonRun(h, look, [], y, PreimageRequests(hash, p));
            && Answered255(run) && PreimageIn(AnswersOf(run)) == Some(p)
            && QueueAfter([], run) == [] && YieldedAfter(y, run) == y
  {
    hide Respond, Encoded, PythonRun, Mores, Drain, PreimageIn, Answered255, AnswersOf, QueueAfter, YieldedAfter,
         PreimageAnswer;
    var r := PreimageAnswer(p).value;
    PreimageReply(h, look, y, hash, p);
    QueueSession(h, look, y, Preimage(hash), r.answer, r.queue, 1);
    PreimageRead(p);
  }

  // ---------------------------------------------------------------- proofs

  function AllMessages(answers: seq<Bytes>): Option<seq<seq<Bytes>>> {
    if answers == [] then Some([])
    else
      var es :- MoreElements(answers[0]);
      var rest :- AllMessages(answers[1..]);
      Some([es] + rest)
  }

  /** What the device has received for a proof after the answers of a run. */
  function ProofIn(answers: seq<Bytes>): Option<DeviceMerkle.Answer> {
    if answers == [] then None
    else
      var (leaf, size, first) :- FirstHashes(answers[0]);
      var rest :- AllMessages(answers[1..]);
      Some(DeviceMerkle.Answer(leaf, size, [first] + rest))
  }

  lemma {:induction false} MessagesAre(answers: seq<Bytes>, messages: seq<seq<Bytes>>)
    requires |answers| == |messages|
    requires forall i :: 0 <= i < |answers| ==> MoreElements(answers[i]) == Some(messages[i])
    ensures AllMessages(answers) == Some(messages)
    decreases |answers|
  {
    hide MoreElements;
    if answers != [] {
      MessagesAre(answers[1..], messages[1..]);
      assert messages == [messages[0]] + messages[1..];
    }
  }

  function ProofRequests(root: Bytes, size: nat, index: nat, proof: seq<Bytes>): (rs: seq<Request>)
    requires IsHash(root) && ProofRequest(root, size, index).Some? && Uniform(proof, 32) && |proof| <= 255
    ensures AllProper(rs)
  {
    [Proof(root, size, index)] + Mores(|Drain(proof[Min(6, |proof|)..], 32)|)
  }

  /** From an empty queue, the request for the proof of a leaf and the requests for more give answers from
      which exactly the leaf and its audit path are put together, which the device accepts; and they leave
      the queue empty. */
  lemma ProofSession(h: HashFn, look: Lookups, y: seq<Bytes>, es: seq<Bytes>, i: nat)
    requires Sized(h) && Knows(h, look, es) && i < |es| <= Pow2(255)
    requires ProofRequest(RootOf(h, LeafHashes(h, es)), |es|, i).Some?
    ensures var leaves := LeafHashes(h, es);
            var root, proof := RootOf(h, leaves), Path(CombineOf(h), leaves, i);
            && IsHash(root) && Uniform(proof, 32) && |proof| <= 255
            && var run := PythonRun(h, look, [], y, ProofRequests(root, |es|, i, proof));
            && Answered255(run) && ProofIn(AnswersOf(run)) == Some(Received(leaves[i], proof))
            && DeviceMerkle.Concat(Received(leaves[i], proof).messages) == proof
            && DeviceMerkle.Accepts(CombineOf(h), root, |es|, i, Received(leaves[i], proof))
            && QueueAfter([], run) == [] && YieldedAfter(y, run) == y
  {
    hide Sized, Knows, Path, RootOf, Respond, Encoded, ProofAnswer, Mores, Drain, PythonRun, ProofIn, Answered255,
         AnswersOf, QueueAfter, YieldedAfter, Received, DeviceMerkle.Accepts, DeviceMerkle.Concat;
    var leaves := LeafHashes(h, es);
    var root, proof := RootOf(h, leaves), Path(CombineOf(h), leaves, i);
    RootLength(h, es);
    ValueProved(h, look, y, es, i);
    LeafIsHash(h, es, i);
    ReceivedMessages(leaves[i], proof);
    ProofRead(leaves[i], proof);
    ProofEncoded(root, |es|, i);
    QueueSession(h, look, y, Proof(root, |es|, i), ProofAnswer(leaves[i], proof).value.answer,
                 proof[Min(6, |proof|)..], 32);
  }

  lemma ProofRead(leaf: Bytes, proof: seq<Bytes>)
    requires |leaf| == 32 && Uniform(proof, 32) && |proof| <= 255
    ensures ProofAnswer(leaf, proof).Some? && |ProofAnswer(leaf, proof).value.answer| <= 255
    ensures ProofAnswer(leaf, proof).value.queue == proof[Min(6, |proof|)..]
    ensures ProofIn([ProofAnswer(leaf, proof).value.answer] + Drain(proof[Min(6, |proof|)..], 32))
         == Some(Received(leaf, proof))
  {
    hide Drain, FirstHashes, Messages;
    var r, queue := ProofAnswer(leaf, proof).value, proof[Min(6, |proof|)..];
    ProofReassembled(leaf, proof);
    MessagesOfDrain(queue, 32);
    MessagesAre(Drain(queue, 32), Messages(queue, 32));
    assert ([r.answer] + Drain(queue, 32))[1..] == Drain(queue, 32);
  }

  lemma ProofEncoded(root: Bytes, size: nat, index: nat)
    requires Proper(Proof(root, size, index))
    ensures Encoded(Proof(root, size, index)) == ProofRequest(root, size, index).value
  {
  }

  lemma LeafIsHash(h: HashFn, es: seq<Bytes>, i: nat)
    requires Sized(h) && i < |es|
    ensures |LeafHashes(h, es)[i]| == 32
  {
  }

  // ---------------------------------------------------------------- the lookup of a key

  /** A run that leaves the queue empty and yields nothing, with an answer to every request. */
  predicate Quiet(run: seq<Reply>, y: seq<Bytes>) {
    Answered255(run) && QueueAfter([], run) == [] && YieldedAfter(y, run) == y
  }

  lemma QuietJoin(h: HashFn, look: Lookups, y: seq<Bytes>, a: seq<Request>, b: seq<Request>)
    requires AllProper(a) && AllProper(b)
    requires Quiet(PythonRun(h, look, [], y, a), y) && Quiet(PythonRun(h, look, [], y, b), y)
    ensures AllProper(a + b) && Quiet(PythonRun(h, look, [], y, a + b), y)
    ensures PythonRun(h, look, [], y, a + b) == PythonRun(h, look, [], y, a) + PythonRun(h, look, [], y, b)
  {
    hide PythonRun, Proper;
    RunJoin(h, look, [], y, a, b);
  }

  /** The requests for the value of the i-th key: its index, the proof of the key at this index, the proof of
      the value at this index, and the preimage of the hash that was proved. */
  datatype Lookup = Lookup(index: seq<Request>, key: seq<Request>, value: seq<Request>, preimage: seq<Request>)
  {
    function All(): seq<Request> {
      index + key + value + preimage
    }
  }

  /** Every list that a map commits to has a root of 32 bytes, and proofs that can be asked for. */
  ghost predicate Askable(h: HashFn, es: seq<Bytes>, i: nat)
    requires i < |es|
  {
    var leaves := LeafHashes(h, es);
    var root, proof := RootOf(h, leaves), Path(CombineOf(h), leaves, i);
    && IsHash(root) && IsHash(leaves[i]) && ProofRequest(root, |es|, i).Some? && Uniform(proof, 32) && |proof| <= 255
  }

  ghost function ElementProof(h: HashFn, es: seq<Bytes>, i: nat): (rs: seq<Request>)
    requires i < |es| && Askable(h, es, i)
    ensures AllProper(rs)
  {
    var leaves := LeafHashes(h, es);
    ProofRequests(RootOf(h, leaves), |es|, i, Path(CombineOf(h), leaves, i))
  }

  ghost function LookupOf(h: HashFn, m: map<Bytes, Bytes>, ks: seq<Bytes>, i: nat): (r: Lookup)
    requires i < |ks| && (forall k :: k in ks ==> k in m) && PreimageAnswer([0] + m[ks[i]]).Some?
    requires Askable(h, ks, i) && Askable(h, ValuesOf(m, ks), i)
    ensures AllProper(r.index) && AllProper(r.key) && AllProper(r.value) && AllProper(r.preimage)
  {
    var vs := ValuesOf(m, ks);
    Lookup([Index(RootOf(h, LeafHashes(h, ks)), LeafHashes(h, ks)[i])], ElementProof(h, ks, i), ElementProof(h, vs, i),
           PreimageRequests(LeafHashes(h, vs)[i], [0] + vs[i]))
  }

  /** The device has received an accepted proof of the i-th element of the list. */
  ghost predicate Proves(h: HashFn, es: seq<Bytes>, i: nat, answers: seq<Bytes>)
    requires i < |es|
  {
    var r := ProofIn(answers);
    r.Some? && r.value.hash == ElementHash(h, es[i])
    && DeviceMerkle.Accepts(CombineOf(h), RootOf(h, LeafHashes(h, es)), |es|, i, r.value)
  }

  /** Each part of the run has given the device what it asked for. */
  ghost predicate FindsInRun(h: HashFn, m: map<Bytes, Bytes>, ks: seq<Bytes>, i: nat, l: Lookup, run: seq<Reply>)
    requires i < |ks| && (forall k :: k in ks ==> k in m) && |run| == |l.All()| && Answered255(run)
  {
    var a, b, c := |l.index|, |l.index| + |l.key|, |l.index| + |l.key| + |l.value|;
    var answers := AnswersOf(run);
    && WriteVarint(i).Some? && answers[..a] == [[1] + WriteVarint(i).value]
    && Proves(h, ks, i, answers[a..b]) && Proves(h, ValuesOf(m, ks), i, answers[b..c])
    && PreimageIn(answers[c..]) == Some([0] + m[ks[i]])
  }

  lemma IndexSession(h: HashFn, look: Lookups, y: seq<Bytes>, ks: seq<Bytes>, i: nat)
    requires Sized(h) && Free(h, Preimages(h, ks)) && Knows(h, look, ks) && Sorted(ks) && i < |ks|
    requires WriteVarint(i).Some? && Proper(Index(RootOf(h, LeafHashes(h, ks)), LeafHashes(h, ks)[i]))
    ensures PythonRun(h, look, [], y, [Index(RootOf(h, LeafHashes(h, ks)), LeafHashes(h, ks)[i])])
         == [Reply(Some([1] + WriteVarint(i).value), [], y)]
    ensures |WriteVarint(i).value| <= 9
  {
    hide Sized, Free, Preimages, Knows, Sorted, RootOf, Respond, WriteVarint;
    var r := Index(RootOf(h, LeafHashes(h, ks)), LeafHashes(h, ks)[i]);
    VarintLength(i);
    KeyFound(h, look, [], y, ks, i);
    FirstReply(h, look, [], y, r, []);
    assert [r] + [] == [r];
  }

  lemma VarintLength(n: nat)
    requires WriteVarint(n).Some?
    ensures |WriteVarint(n).value| <= 9
  {
  }

  lemma CanAsk(h: HashFn, es: seq<Bytes>, i: nat)
    requires Sized(h) && i < |es| < 0x1_0000_0000_0000_0000
    ensures Askable(h, es, i) && WriteVarint(i).Some?
    ensures IsHash(LeafHashes(h, es)[i]) && Proper(Index(RootOf(h, LeafHashes(h, es)), LeafHashes(h, es)[i]))
  {
    hide Sized, Path, RootOf;
    PowersOfTwo();
    PathFits(h, es, i);
    RootLength(h, es);
    LeafIsHash(h, es, i);
  }

  lemma ProofQuiet(h: HashFn, look: Lookups, y: seq<Bytes>, es: seq<Bytes>, i: nat)
    requires Sized(h) && Knows(h, look, es) && i < |es| < 0x1_0000_0000_0000_0000 && Askable(h, es, i)
    ensures var run := PythonRun(h, look, [], y, ElementProof(h, es, i));
            Quiet(run, y) && Proves(h, es, i, AnswersOf(run))
  {
    hide Sized, Knows, Path, RootOf, PythonRun, ProofIn, DeviceMerkle.Accepts, ProofRequests;
    PowersOfTwo();
    ProofSession(h, look, y, es, i);
  }

  lemma PreimageQuiet(h: HashFn, look: Lookups, y: seq<Bytes>, es: seq<Bytes>, i: nat)
    requires Knows(h, look, es) && i < |es| && IsHash(LeafHashes(h, es)[i]) && PreimageAnswer([0] + es[i]).Some?
    ensures var run := PythonRun(h, look, [], y, PreimageRequests(LeafHashes(h, es)[i], [0] + es[i]));
            Quiet(run, y) && PreimageIn(AnswersOf(run)) == Some([0] + es[i])
  {
    hide RootOf, PythonRun, PreimageAnswer, PreimageIn, PreimageRequests;
    PreimageSession(h, look, y, LeafHashes(h, es)[i], [0] + es[i]);
  }

  lemma SplitAnswers(a: seq<Reply>, b: seq<Reply>, c: seq<Reply>, d: seq<Reply>)
    requires Answered255(a) && Answered255(b) && Answered255(c) && Answered255(d)
    ensures Answered255(a + b + c + d)
    ensures var t := AnswersOf(a + b + c + d);
            && t[..|a|] == AnswersOf(a) && t[|a|..|a| + |b|] == AnswersOf(b)
            && t[|a| + |b|..|a| + |b| + |c|] == AnswersOf(c) && t[|a| + |b| + |c|..] == AnswersOf(d)
  {
  }

  lemma QuietFour(h: HashFn, look: Lookups, y: seq<Bytes>, a: seq<Request>, b: seq<Request>, c: seq<Request>,
      d: seq<Request>)
    requires AllProper(a) && AllProper(b) && AllProper(c) && AllProper(d)
    requires Quiet(PythonRun(h, look, [], y, a), y) && Quiet(PythonRun(h, look, [], y, b), y)
    requires Quiet(PythonRun(h, look, [], y, c), y) && Quiet(PythonRun(h, look, [], y, d), y)
    ensures AllProper(a + b + c + d) && Quiet(PythonRun(h, look, [], y, a + b + c + d), y)
    ensures PythonRun(h, look, [], y, a + b + c + d)
         == PythonRun(h, look, [], y, a) + PythonRun(h, look, [], y, b) + PythonRun(h, look, [], y, c)
            + PythonRun(h, look, [], y, d)
  {
    hide PythonRun, AllProper, Quiet;
    QuietJoin(h, look, y, a, b);
    QuietJoin(h, look, y, a + b, c);
    QuietJoin(h, look, y, a + b + c, d);
  }

  lemma QuietAnswers(run: seq<Reply>, y: seq<Bytes>)
    requires Quiet(run, y)
    ensures Answered255(run)
  {
  }

  /** The parts of a run, put together. */
  lemma FoundInParts(h: HashFn, m: map<Bytes, Bytes>, ks: seq<Bytes>, i: nat, l: Lookup, a: seq<Reply>, b: seq<Reply>,
      c: seq<Reply>, d: seq<Reply>)
    requires i < |ks| && (forall k :: k in ks ==> k in m) && WriteVarint(i).Some?
    requires Answered255(a) && Answered255(b) && Answered255(c) && Answered255(d)
    requires |l.index| == |a| && |l.key| == |b| && |l.value| == |c| && |l.preimage| == |d|
    requires AnswersOf(a) == [[1] + WriteVarint(i).value] && Proves(h, ks, i, AnswersOf(b))
    requires Proves(h, ValuesOf(m, ks), i, AnswersOf(c)) && PreimageIn(AnswersOf(d)) == Some([0] + m[ks[i]])
    ensures Answered255(a + b + c + d) && FindsInRun(h, m, ks, i, l, a + b + c + d)
  {
    hide Proves, PreimageIn, Answered255, AnswersOf, WriteVarint;
    SplitAnswers(a, b, c, d);
  }

  /** The whole lookup of a key of a known map, over one run of the client from an empty queue. */
  lemma LookupSession(h: HashFn, look: Lookups, y: seq<Bytes>, m: map<Bytes, Bytes>, ks: seq<Bytes>, i: nat)
    requires Sized(h) && Free(h, Preimages(h, ks)) && KeysInOrder(m, ks) && i < |ks| < 0x1_0000_0000_0000_0000
    requires Knows(h, look, ks) && Knows(h, look, ValuesOf(m, ks)) && PreimageAnswer([0] + m[ks[i]]).Some?
    ensures Askable(h, ks, i) && Askable(h, ValuesOf(m, ks), i)
    ensures var l := LookupOf(h, m, ks, i);
            && AllProper(l.All())
            && var run := PythonRun(h, look, [], y, l.All());
            Quiet(run, y) && FindsInRun(h, m, ks, i, l, run)
  {
    hide Sized, Free, Preimages, Knows, RootOf, Path, PythonRun, PreimageAnswer, Proves, PreimageIn, ElementProof,
         PreimageRequests, WriteVarint, Sorted, Askable, Proper, Quiet, FindsInRun, Answered255;
    var vs := ValuesOf(m, ks);
    CanAsk(h, ks, i);
    CanAsk(h, vs, i);
    var l := LookupOf(h, m, ks, i);
    var a, b := PythonRun(h, look, [], y, l.index), PythonRun(h, look, [], y, l.key);
    var c, d := PythonRun(h, look, [], y, l.value), PythonRun(h, look, [], y, l.preimage);
    IndexSession(h, look, y, ks, i);
    QuietReply(a, [1] + WriteVarint(i).value, y);
    ProofQuiet(h, look, y, ks, i);
    ProofQuiet(h, look, y, vs, i);
    PreimageQuiet(h, look, y, vs, i);
    QuietFour(h, look, y, l.index, l.key, l.value, l.preimage);
    QuietAnswers(b, y);
    QuietAnswers(c, y);
    QuietAnswers(d, y);
    FoundInParts(h, m, ks, i, l, a, b, c, d);
  }

  lemma QuietReply(run: seq<Reply>, answer: Bytes, y: seq<Bytes>)
    requires run == [Reply(Some(answer), [], y)] && |answer| <= 255
    ensures Quiet(run, y) && Answered255(run) && AnswersOf(run) == [answer]
  {
  }

  // ---------------------------------------------------------------- both clients

  lemma LookupFound(h: HashFn, look: Lookups, m: map<Bytes, Bytes>, ks: seq<Bytes>, i: nat)
    requires i < |ks| && (forall k :: k in ks ==> k in m) && PreimageAnswer([0] + m[ks[i]]).Some?
    requires Askable(h, ks, i) && Askable(h, ValuesOf(m, ks), i) && Knows(h, look, ks)
    ensures forall k :: 0 <= k < |LookupOf(h, m, ks, i).All()| ==> !NotFound(look, LookupOf(h, m, ks, i).All()[k])
  {
    hide Askable, RootOf, PreimageAnswer;
    var l := LookupOf(h, m, ks, i);
    assert LeafHashes(h, ks)[i] in LeafHashes(h, ks);
    NoIndexIn(l.key);
    NoIndexIn(l.value);
    NoIndexIn(l.preimage);
  }

  lemma NoIndexIn(rs: seq<Request>)
    requires rs != [] && !rs[0].Index? && rs[1..] == Mores(|rs| - 1)
    ensures forall k :: 0 <= k < |rs| ==> !rs[k].Index?
  {
    forall k | 0 < k < |rs| ensures !rs[k].Index? {
      assert rs[k] == rs[1..][k - 1];
    }
  }

  /** After a mapping was registered, whatever else was, the device gets the value of each of its keys from
      either client, over the same run. */
  lemma MappingSession(h: HashFn, facts: seq<Fact>, y: seq<Bytes>, m: map<Bytes, Bytes>, ks: seq<Bytes>, i: nat)
    requires Sized(h) && Free(h, Hashed(h, facts)) && KeysInOrder(m, ks) && i < |ks| < 0x1_0000_0000_0000_0000
    requires List(ks) in facts && List(ValuesOf(m, ks)) in facts && PreimageAnswer([0] + m[ks[i]]).Some?
    ensures Askable(h, ks, i) && Askable(h, ValuesOf(m, ks), i)
    ensures var l := LookupOf(h, m, ks, i);
            && AllProper(l.All())
            && var run := PythonRun(h, PythonLook(h, facts), [], y, l.All());
            && Quiet(run, y) && FindsInRun(h, m, ks, i, l, run)
            && run == RustRun(h, RustLook(h, facts), [], y, l.All())
  {
    hide Sized, Free, Hashed, Preimages, PythonLook, RustLook, Knows, Sorted, PreimageAnswer, Askable, LookupOf, Quiet,
         FindsInRun, PythonRun, RustRun, NotFound, Proper, Alike;
    RegisteredIsKnown(h, facts, ks);
    RegisteredIsKnown(h, facts, ValuesOf(m, ks));
    ListRegistered(facts, ks);
    ListsHashed(h, facts, ks);
    FreeSubset(h, Preimages(h, ks), Hashed(h, facts));
    LookupSession(h, PythonLook(h, facts), y, m, ks, i);
    KnowAlike(h, facts);
    LookupFound(h, RustLook(h, facts), m, ks, i);
    SameRun(h, PythonLook(h, facts), RustLook(h, facts), [], y, LookupOf(h, m, ks, i).All());
  }

  // ---------------------------------------------------------------- what is yielded

  /** The data of the YIELD requests, in order. */
  function YieldedData(rs: seq<Request>): seq<Bytes> {
    if rs == [] then [] else (if rs[0].Yield? then [rs[0].data] else []) + YieldedData(rs[1..])
  }

  /** One request: only YIELD adds to the yielded values, its own data, and it leaves the queue alone. */
  lemma YieldStep(h: HashFn, look: Lookups, q: seq<Bytes>, y: seq<Bytes>, r: Request)
    requires Proper(r)
    ensures Respond(h, look, q, y, Encoded(r)).yielded == y + YieldedData([r])
    ensures RustRespond(h, look, q, y, Encoded(r)).yielded == y + YieldedData([r])
    ensures r.Yield? ==> Respond(h, look, q, y, Encoded(r)) == Reply(Some([]), q, y + [r.data])
  {
    hide ReadVarint, WriteVarint, MoreAnswer, PreimageAnswer, ProofAnswer, IndexOf, Path, Sized;
    assert [r][1..] == [];
    var e := Encoded(r);
    if r.Yield? {
      assert e[0] == YIELD && e[1..] == r.data;
    }
  }

  /** Over every sequence of requests both clients have yielded exactly the data of the YIELD requests, in order. */
  lemma {:induction false} YieldedExactly(h: HashFn, look: Lookups, q: seq<Bytes>, y: seq<Bytes>, rs: seq<Request>)
    requires AllProper(rs)
    ensures YieldedAfter(y, PythonRun(h, look, q, y, rs)) == y + YieldedData(rs)
    ensures YieldedAfter(y, RustRun(h, look, q, y, rs)) == y + YieldedData(rs)
    decreases |rs|
  {
    hide Respond, RustRespond, Encoded, Proper;
    if rs != [] {
      var a, b := Respond(h, look, q, y, Encoded(rs[0])), RustRespond(h, look, q, y, Encoded(rs[0]));
      YieldStep(h, look, q, y, rs[0]);
      assert YieldedData([rs[0]]) == if rs[0].Yield? then [rs[0].data] else [];
      YieldedExactly(h, look, a.queue, a.yielded, rs[1..]);
      YieldedExactly(h, look, b.queue, b.yielded, rs[1..]);
      assert a.yielded + YieldedData(rs[1..]) == y + YieldedData(rs);
    }
  }
}
