/** The answers of the client to the device: their layout, how an answer that does not fit into 255
    bytes is spread over several messages, and how the device puts it together again. */
module Streaming {
  import opened Wrappers
  import P = Psbt

  const MAX_ANSWER := 255

  // ---------------------------------------------------------------- numbers of variable length

  function Little(n: nat, k: nat): (b: Bytes)
    ensures |b| == k
  {
    if k == 0 then [] else [n % 256] + Little(n / 256, k - 1)
  }

  /** The variable-length integer of the Bitcoin protocol; None from 2^64 on. */
  function WriteVarint(n: nat): (r: Option<Bytes>)
    ensures r.Some? ==> 1 <= |r.value| <= 9
  {
    if n <= 0xfc then Some([n])
    else if n <= 0xffff then Some([0xfd] + Little(n, 2))
    else if n <= 0xffff_ffff then Some([0xfe] + Little(n, 4))
    else if n <= 0xffff_ffff_ffff_ffff then Some([0xff] + Little(n, 8))
    else None
  }

  function ReadVarint(b: Bytes): Option<(nat, Bytes)> {
    if b == [] then None
    else
      var k := if b[0] == 253 then 2 else if b[0] == 254 then 4 else if b[0] == 255 then 8 else 0;
      if k == 0 then Some((b[0], b[1..]))
      else if |b| < 1 + k then None
      else Some((P.LittleEndian(b[1..1 + k]), b[1 + k..]))
  }

  lemma {:induction false} LittleValue(n: nat, k: nat)
    requires n < P.Pow256(k)
    ensures P.LittleEndian(Little(n, k)) == n
  {
    if k > 0 {
      LittleValue(n / 256, k - 1);
      assert Little(n, k)[1..] == Little(n / 256, k - 1);
    }
  }

  lemma ReadLittle(tag: byte, n: nat, k: nat, rest: Bytes)
    requires n < P.Pow256(k) && ((tag == 253 && k == 2) || (tag == 254 && k == 4) || (tag == 255 && k == 8))
    ensures ReadVarint([tag] + Little(n, k) + rest) == Some((n, rest))
  {
    var b := [tag] + Little(n, k) + rest;
    assert b[1..1 + k] == Little(n, k) && b[1 + k..] == rest;
    LittleValue(n, k);
  }

  lemma Powers()
    ensures P.Pow256(2) == 0x1_0000 && P.Pow256(4) == 0x1_0000_0000 && P.Pow256(8) == 0x1_0000_0000_0000_0000
  {
    assert P.Pow256(8) == 256 * (256 * (256 * (256 * P.Pow256(4))));
  }

  lemma VarintRoundTrip(n: nat, rest: Bytes)
    ensures WriteVarint(n).Some? ==> ReadVarint(WriteVarint(n).value + rest) == Some((n, rest))
  {
    Powers();
    if n <= 0xfc {
      assert ([n] + rest)[1..] == rest;
    } else if n <= 0xffff {
      ReadLittle(253, n, 2, rest);
    } else if n <= 0xffff_ffff {
      ReadLittle(254, n, 4, rest);
    } else if n <= 0xffff_ffff_ffff_ffff {
      ReadLittle(255, n, 8, rest);
    }
  }

  /** Of all the ways to spell a number, the one that is written is the shortest, and the only one of its length. */
  lemma VarintShortest(b: Bytes, n: nat)
    requires ReadVarint(b) == Some((n, []))
    ensures WriteVarint(n).Some? && |WriteVarint(n).value| <= |b|
    ensures |WriteVarint(n).value| == |b| ==> WriteVarint(n).value == b
  {
    Powers();
    var k := |b| - 1;
    if k > 0 {
      assert b[1..1 + k] == b[1..] && b == [b[0]] + b[1..];
      LittleUnique(b[1..]);
    }
  }

  lemma {:induction false} LittleUnique(b: Bytes)
    ensures Little(P.LittleEndian(b), |b|) == b
    decreases b
  {
    if b != [] {
      LittleUnique(b[1..]);
      assert b == [b[0]] + b[1..];
    }
  }

  // ---------------------------------------------------------------- answers and their rest

  /** An answer and the elements that are left for later. */
  datatype Answered = Answered(answer: Bytes, queue: seq<Bytes>)

  function Min(a: nat, b: nat): nat {
    if a < b then a else b
  }

  function Flatten(es: seq<Bytes>): Bytes {
    if es == [] then [] else es[0] + Flatten(es[1..])
  }

  function Singles(b: Bytes): (es: seq<Bytes>)
    ensures |es| == |b| && forall i :: 0 <= i < |b| ==> es[i] == [b[i]]
  {
    seq(|b|, i requires 0 <= i < |b| => [b[i]])
  }

  predicate Uniform(queue: seq<Bytes>, e: nat) {
    forall i :: 0 <= i < |queue| ==> |queue[i]| == e
  }

  /** The length, the number of bytes that follow, and as many bytes as fit. */
  function PreimageAnswer(p: Bytes): (r: Option<Answered>)
    ensures r.Some? ==> |r.value.answer| <= MAX_ANSWER && Uniform(r.value.queue, 1)
    ensures r.Some? && r.value.queue != [] ==> |r.value.answer| == MAX_ANSWER
  {
    var length :- WriteVarint(|p|);
    var k := Min(MAX_ANSWER - |length| - 1, |p|);
    Some(Answered(length + [k] + p[..k], Singles(p[k..])))
  }

  /** The leaf, the length of the proof, the number of hashes that follow, and as many as fit. */
  function ProofAnswer(leaf: Bytes, proof: seq<Bytes>): Option<Answered> {
    var k := Min(6, |proof|);
    if |proof| > 255 then None
    else Some(Answered(leaf + [|proof|] + [k] + Flatten(proof[..k]), proof[k..]))
  }

  /** The number of elements, their common length, and as many elements as fit. */
  function MoreAnswer(queue: seq<Bytes>): Option<Answered> {
    if queue == [] || !Uniform(queue, |queue[0]|) then None
    else
      var e := |queue[0]|;
      var n := Fitting(|queue|, e);
      if n > 255 || e > 255 then None else Some(Answered([n, e] + Flatten(queue[..n]), queue[n..]))
  }

  /** How many of m elements of length e fit into 253 bytes. */
  function Fitting(m: nat, e: nat): (n: nat)
    ensures n <= m && (1 <= e <= 253 && m > 0 ==> n > 0) && n * e <= 253
    ensures n < m ==> (n + 1) * e > 253
  {
    if e == 0 then m else if m * e <= 253 then m
    else
      assert 253 / e < m by {
        if 253 / e >= m {
          Scale(m, 253 / e, e);
        }
      }
      253 / e
  }

  lemma Scale(a: nat, b: nat, e: nat)
    requires a <= b
    ensures a * e <= b * e
  {
  }

  // ---------------------------------------------------------------- the device's side

  /** The elements of an answer to GET_MORE_ELEMENTS. */
  function MoreElements(answer: Bytes): Option<seq<Bytes>> {
    if |answer| < 2 then None
    else
      var n: nat, e: nat := answer[0], answer[1];
      Cut(answer[2..], n, e)
  }

  /** n pieces of e bytes each, if that is all there is. */
  function Cut(b: Bytes, n: nat, e: nat): Option<seq<Bytes>>
    decreases n
  {
    if n == 0 then (if b == [] then Some([]) else None)
    else if |b| < e then None
    else
      var rest :- Cut(b[e..], n - 1, e);
      Some([b[..e]] + rest)
  }

  /** The total length and the first bytes in an answer to GET_PREIMAGE. */
  function FirstBytes(answer: Bytes): Option<(nat, Bytes)> {
    var (total, rest) :- ReadVarint(answer);
    if rest == [] then None
    else
      var k: nat := rest[0];
      if |rest| != 1 + k then None else Some((total, rest[1..]))
  }

  /** The leaf, the length of the proof and its first hashes in an answer to GET_MERKLE_LEAF_PROOF. */
  function FirstHashes(answer: Bytes): Option<(Bytes, nat, seq<Bytes>)> {
    if |answer| < 34 then None
    else
      var k: nat := answer[33];
      var hashes :- Cut(answer[34..], k, 32);
      Some((answer[..32], answer[32], hashes))
  }

  lemma Distribute(m: nat, e: nat)
    ensures m * e + e == (m + 1) * e
  {
  }

  lemma {:induction false} FlattenLength(es: seq<Bytes>, e: nat)
    requires Uniform(es, e)
    ensures |Flatten(es)| == |es| * e
    decreases |es|
  {
    if es != [] {
      FlattenLength(es[1..], e);
      Distribute(|es| - 1, e);
    }
  }

  lemma {:induction false} CutFlatten(es: seq<Bytes>, e: nat)
    requires Uniform(es, e)
    ensures Cut(Flatten(es), |es|, e) == Some(es)
    decreases |es|
  {
    if es != [] {
      var rest := es[1..];
      CutFlatten(rest, e);
      assert es == [es[0]] + rest;
      assert Flatten(es)[..e] == es[0] && Flatten(es)[e..] == Flatten(rest);
    }
  }

  lemma {:induction false} FlattenSingles(b: Bytes)
    ensures Flatten(Singles(b)) == b
    decreases |b|
  {
    if b != [] {
      FlattenSingles(b[1..]);
      assert Singles(b)[1..] == Singles(b[1..]);
    }
  }

  lemma {:induction false} FlattenAppend(a: seq<Bytes>, b: seq<Bytes>)
    ensures Flatten(a + b) == Flatten(a) + Flatten(b)
    decreases |a|
  {
    if a == [] {
      assert a + b == b;
    } else {
      FlattenAppend(a[1..], b);
      assert (a + b)[1..] == a[1..] + b;
    }
  }

  // ---------------------------------------------------------------- nothing is lost

  /** The answers to repeated GET_MORE_ELEMENTS until the queue is empty. */
  function Drain(queue: seq<Bytes>, e: nat): seq<Bytes>
    requires 1 <= e <= 253 && Uniform(queue, e)
    decreases |queue|
  {
    if queue == [] then []
    else
      DrainStep(queue, e);
      [MoreAnswer(queue).value.answer] + Drain(MoreAnswer(queue).value.queue, e)
  }

  /** A round sends as many elements as fit, at least one, in at most 255 bytes, and leaves the others. */
  lemma DrainStep(queue: seq<Bytes>, e: nat)
    requires 1 <= e <= 253 && Uniform(queue, e) && queue != []
    ensures MoreAnswer(queue).Some?
    ensures var r, n := MoreAnswer(queue).value, Fitting(|queue|, e);
            && 0 < n <= |queue| && r.queue == queue[n..] && Uniform(r.queue, e)
            && |r.answer| <= MAX_ANSWER && MoreElements(r.answer) == Some(queue[..n])
  {
    var n := Fitting(|queue|, e);
    CutFlatten(queue[..n], e);
    FlattenLength(queue[..n], e);
    var answer: Bytes := [n, e] + Flatten(queue[..n]);
    assert answer[2..] == Flatten(queue[..n]);
  }

  /** The elements of all answers, in order. */
  function AllElements(answers: seq<Bytes>): Option<seq<Bytes>> {
    if answers == [] then Some([])
    else
      var es :- MoreElements(answers[0]);
      var rest :- AllElements(answers[1..]);
      Some(es + rest)
  }

  /** Every answer has at most 255 bytes. */
  predicate AllFit(answers: seq<Bytes>) {
    answers == [] || (|answers[0]| <= MAX_ANSWER && AllFit(answers[1..]))
  }

  /** The answers carry exactly the queue, each of them in at most 255 bytes, and there are no more
      of them than elements. */
  lemma {:induction false} DrainComplete(queue: seq<Bytes>, e: nat)
    requires 1 <= e <= 253 && Uniform(queue, e)
    ensures AllElements(Drain(queue, e)) == Some(queue)
    ensures |Drain(queue, e)| <= |queue| && AllFit(Drain(queue, e))
    decreases |queue|
  {
    hide MoreAnswer, MoreElements, Fitting;
    if queue != [] {
      DrainStep(queue, e);
      var r, n := MoreAnswer(queue).value, Fitting(|queue|, e);
      DrainComplete(r.queue, e);
      assert Drain(queue, e)[1..] == Drain(r.queue, e);
      assert queue == queue[..n] + queue[n..];
    }
  }

  lemma FirstBytesRead(total: nat, part: Bytes)
    requires WriteVarint(total).Some? && |part| <= 255
    ensures FirstBytes(WriteVarint(total).value + ([|part|] + part)) == Some((total, part))
  {
    hide WriteVarint, ReadVarint;
    VarintRoundTrip(total, [|part|] + part);
    assert ([|part|] + part)[1..] == part;
  }

  lemma PreimageParts(p: Bytes) returns (k: nat)
    requires PreimageAnswer(p).Some?
    ensures k <= |p| && k <= 255 && WriteVarint(|p|).Some?
    ensures PreimageAnswer(p).value == Answered(WriteVarint(|p|).value + ([|p[..k]|] + p[..k]), Singles(p[k..]))
  {
    var length := WriteVarint(|p|).value;
    hide WriteVarint, Singles;
    k := Min(MAX_ANSWER - |length| - 1, |p|);
    assert length + [k] + p[..k] == length + ([k] + p[..k]);
  }

  /** A preimage of any length is put together again from the first answer and the later ones. */
  lemma PreimageReassembled(p: Bytes)
    requires PreimageAnswer(p).Some?
    ensures var r := PreimageAnswer(p).value;
            && FirstBytes(r.answer).Some? && FirstBytes(r.answer).value.0 == |p|
            && AllElements(Drain(r.queue, 1)).Some?
            && FirstBytes(r.answer).value.1 + Flatten(AllElements(Drain(r.queue, 1)).value) == p
  {
    hide PreimageAnswer, WriteVarint, FirstBytes, Flatten, AllElements, Drain, Singles;
    var k := PreimageParts(p);
    FirstBytesRead(|p|, p[..k]);
    DrainComplete(PreimageAnswer(p).value.queue, 1);
    FlattenSingles(p[k..]);
    assert p[..k] + p[k..] == p;
  }

  /** A proof is put together again from the first answer and the later ones. */
  lemma ProofReassembled(leaf: Bytes, proof: seq<Bytes>)
    requires |leaf| == 32 && Uniform(proof, 32) && |proof| <= 255
    ensures ProofAnswer(leaf, proof).Some?
    ensures var r := ProofAnswer(leaf, proof).value;
            && |r.answer| <= MAX_ANSWER && Uniform(r.queue, 32) && (r.queue != [] ==> |r.answer| + 32 > MAX_ANSWER)
            && FirstHashes(r.answer) == Some((leaf, |proof|, proof[..Min(6, |proof|)]))
            && AllElements(Drain(r.queue, 32)) == Some(proof[Min(6, |proof|)..])
  {
    var k := Min(6, |proof|);
    var r := ProofAnswer(leaf, proof).value;
    CutFlatten(proof[..k], 32);
    FlattenLength(proof[..k], 32);
    var head: Bytes := leaf + [|proof|] + [k];
    assert r.answer == head + Flatten(proof[..k]);
    assert r.answer[34..] == Flatten(proof[..k]) && r.answer[..32] == leaf;
    DrainComplete(r.queue, 32);
  }
}
