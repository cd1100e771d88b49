/** How the device checks a Merkle proof: the arithmetic of directions (src/common/merkle.c) and the
    loop that folds a proof arriving in several messages (src/handler/lib/get_merkle_leaf_hash.c). */
module DeviceMerkle {
  import opened Wrappers
  import opened Merkle

  const MAX_SIZE := 0x8000_0000

  /** The 32-bit counter of ceil_lg after r rounds of its loop. */
  function Counter(r: nat): nat {
    if r == 0 then 1 else 2 * Counter(r - 1) % 0x1_0000_0000
  }

  lemma LargestPower()
    ensures Pow2(31) == MAX_SIZE
  {
    assert Pow2(8) == 0x100;
    assert Pow2(16) == 0x1_0000;
    assert Pow2(24) == 0x100_0000;
  }

  lemma NextCounter(c: nat, r: nat)
    requires r > 0 && c == (if r - 1 < 32 then Pow2(r - 1) else 0)
    ensures 2 * c % 0x1_0000_0000 == if r < 32 then Pow2(r) else 0
  {
    var p := Pow2(r);
    assert r - 1 < 32 ==> 2 * c == p;
    LargestPower();
    hide Pow2;
    if r < 32 {
      Pow2Monotone(r, 31);
      assert p <= MAX_SIZE;
    } else if r == 32 {
      assert c == MAX_SIZE;
    }
  }

  lemma {:induction false} CounterIs(r: nat)
    ensures Counter(r) == if r < 32 then Pow2(r) else 0
  {
    if r > 0 {
      CounterIs(r - 1);
      hide Pow2;
      NextCounter(Counter(r - 1), r);
    }
  }

  lemma CounterBound(r: nat)
    ensures Counter(r) <= MAX_SIZE
  {
    hide Counter, Pow2;
    CounterIs(r);
    LargestPower();
    if r < 32 {
      Pow2Monotone(r, 31);
    }
  }

  /** The loop of ceil_lg, which runs as long as its counter is below n, ends for the sizes up to 2^31 and
      for no others. */
  lemma CeilLgEndsIff(n: nat)
    ensures (exists r: nat :: Counter(r) >= n) <==> n <= MAX_SIZE
  {
    hide Counter, Pow2;
    forall r: nat ensures Counter(r) <= MAX_SIZE {
      CounterBound(r);
    }
    CounterIs(31);
    LargestPower();
  }

  /** ceil_lg, for the sizes where its loop ends. */
  method ComputeCeilLg(n: nat) returns (r: nat)
    requires 1 <= n <= MAX_SIZE
    ensures r == CeilLg(n)
  {
    r := 0;
    var t := 1;
    while t < n
      invariant t == Pow2(r) && (r > 0 ==> Pow2(r - 1) < n)
      decreases n - t
    {
      t := 2 * t;
      r := r + 1;
    }
    CeilLgUnique(n, r);
  }

  /** The i-th turn on the way from the root to the leaf, -1 if there is none. */
  function IthDirection(size: nat, index: nat, i: nat): int {
    if size <= 1 || index >= size then -1
    else if i < |Directions(size, index)| then (if Directions(size, index)[i] then 1 else 0)
    else -1
  }

  /** The bit test on the index decides the first turn, and the rest is the way in that subtree. */
  lemma FirstTurn(size: nat, index: nat, depth: nat)
    requires index < size && size > 1 && depth == CeilLg(size)
    ensures depth > 0 && 1 <= Pow2(depth - 1) < size
    ensures BitAnd(index, Pow2(depth - 1)) != 0 <==> index >= Pow2(depth - 1)
    ensures Directions(size, index) == var mask := Pow2(depth - 1);
            if index >= mask then [true] + Directions(size - mask, index - mask) else [false] + Directions(mask, index)
  {
    CeilLgBounds(size);
    TopBit(index, depth - 1);
  }

  /** merkle_get_ith_direction: walks down the tree by arithmetic on its size. */
  method GetIthDirection(size: nat, index: nat, i: nat) returns (r: int)
    requires size <= MAX_SIZE
    ensures r == IthDirection(size, index, i)
  {
    hide Directions, CeilLg, Pow2, BitAnd;
    if size <= 1 || index >= size {
      return -1;
    }
    var sz: nat, idx: nat, n: nat := size, index, 0;
    ghost var turns := Directions(size, index);
    while sz > 1
      invariant 1 <= sz <= size && idx < sz && n <= i && n <= |turns|
      invariant turns[n..] == Directions(sz, idx)
      decreases sz
    {
      var depth := ComputeCeilLg(sz);
      FirstTurn(sz, idx, depth);
      var mask := Pow2(depth - 1);
      var isRight := BitAnd(idx, mask) != 0;
      assert turns[n..][0] == isRight;
      if n == i {
        return if isRight then 1 else 0;
      }
      assert turns[n + 1..] == turns[n..][1..];
      n := n + 1;
      if isRight {
        sz, idx := sz - mask, idx - mask;
      } else {
        sz := mask;
      }
    }
    NoTurns(idx);
    r := -1;
  }

  lemma NoTurns(index: nat)
    requires index < 1
    ensures Directions(1, index) == []
  {
  }

  // ---------------------------------------------------------------- proof verification

  /** What the client sends: a hash, the announced length of the proof, and the messages that the
      proof arrives in. The list ends where the client stops answering. */
  datatype Answer = Answer(hash: Bytes, proofSize: byte, messages: seq<seq<Bytes>>)

  /** The proof gathered from messages until it has the announced length; None if a message has too
      many hashes or the client stops answering before that. */
  function Gather(messages: seq<seq<Bytes>>, got: seq<Bytes>, need: nat): Option<seq<Bytes>>
    decreases |messages|
  {
    if messages == [] || |got| + |messages[0]| > need then None
    else
      var now := got + messages[0];
      if |now| == need then Some(now) else Gather(messages[1..], now, need)
  }

  /** The turns that a proof of length p is folded along; None if the way to the leaf is shorter. */
  function Turns(size: nat, index: nat, p: nat): (r: Option<seq<bool>>)
    ensures r.Some? ==> |r.value| == p
  {
    if p == 0 then Some([])
    else if index < size && p <= |Directions(size, index)| then Some(Directions(size, index)[..p])
    else None
  }

  /** The answer is accepted: the gathered proof folds to the root. */
  predicate Accepts(c: Combine, root: Bytes, size: nat, index: nat, a: Answer) {
    var proof, turns := Gather(a.messages, [], a.proofSize), Turns(size, index, a.proofSize);
    proof.Some? && turns.Some? && |proof.value| == a.proofSize && Fold(c, a.hash, proof.value, turns.value) == root
  }

  /** Folds the hashes of one message; false if there is no turn for one of them. */
  method FoldMessage(
    c: Combine, size: nat, index: nat, p: nat, ghost h: Bytes, ghost got: seq<Bytes>, gotSize: nat,
        message: seq<Bytes>, cur: Bytes)
    returns (ok: bool, r: Bytes)
    requires size <= MAX_SIZE && gotSize == |got| && gotSize + |message| <= p
    requires Folded(c, h, Turns(size, index, p), got, cur)
    ensures ok == (message == [] || Turns(size, index, p).Some?)
    ensures ok ==> Folded(c, h, Turns(size, index, p), got + message, r)
  {
    r := cur;
    ghost var turns := Turns(size, index, p);
    assert got + message[..0] == got;
    for k := 0 to |message|
      invariant k > 0 ==> turns.Some?
      invariant Folded(c, h, turns, got + message[..k], r)
    {
      var direction := GetIthDirection(size, index, p - (gotSize + k) - 1);
      if direction == -1 {
        return false, r;
      }
      FoldMore(c, h, turns.value, got + message[..k], message[k], r);
      assert got + message[..k] + [message[k]] == got + message[..k + 1];
      r := if direction == 0 then c(r, message[k]) else c(message[k], r);
    }
    assert message[..|message|] == message;
    ok := true;
  }

  /** r is the hash so far: the last turns undone with the hashes got, if there are turns at all. */
  ghost predicate Folded(c: Combine, h: Bytes, turns: Option<seq<bool>>, got: seq<Bytes>, r: Bytes) {
    if turns.None? then got == [] && r == h
    else |got| <= |turns.value| && r == Fold(c, h, got, turns.value[|turns.value| - |got|..])
  }

  lemma FoldMore(c: Combine, h: Bytes, turns: seq<bool>, got: seq<Bytes>, next: Bytes, r: Bytes)
    requires |got| < |turns| && Folded(c, h, Some(turns), got, r)
    ensures Folded(c, h, Some(turns), got + [next], if turns[|turns| - |got| - 1] then c(next, r) else c(r, next))
  {
    var k := |turns| - |got|;
    assert turns[k - 1..] == [turns[k - 1]] + turns[k..];
    FoldExtend(c, h, got, turns[k..], next, turns[k - 1]);
  }

  /** call_get_merkle_leaf_hash: the hash sent by the client, if its proof is accepted. */
  method GetMerkleLeafHash(c: Combine, root: Bytes, size: nat, index: nat, a: Answer) returns (r: Option<Bytes>)
    requires size <= MAX_SIZE
    ensures r == if Accepts(c, root, size, index, a) then Some(a.hash) else None
  {
    var cur, n, step := a.hash, 0, 0;
    ghost var got: seq<Bytes> := [];
    ghost var turns := Turns(size, index, a.proofSize);
    while true
      invariant n <= |a.messages| && step == |got| <= a.proofSize
      invariant Gather(a.messages, [], a.proofSize) == Gather(a.messages[n..], got, a.proofSize)
      invariant Folded(c, a.hash, turns, got, cur)
      decreases |a.messages| - n
    {
      if n == |a.messages| || step + |a.messages[n]| > a.proofSize {
        return None;
      }
      assert a.messages[n..][1..] == a.messages[n + 1..];
      var ok;
      ok, cur := FoldMessage(c, size, index, a.proofSize, a.hash, got, step, a.messages[n], cur);
      if !ok {
        return None;
      }
      got := got + a.messages[n];
      step := step + |a.messages[n]|;
      if step == a.proofSize {
        break;
      }
      n := n + 1;
    }
    assert turns.Some? ==> turns.value[0..] == turns.value;
    r := if root == cur then Some(a.hash) else None;
  }

  /** The pairs that are combined while the answer is checked. */
  function CheckedPairs(c: Combine, size: nat, index: nat, a: Answer): set<(Bytes, Bytes)> {
    var proof, turns := Gather(a.messages, [], a.proofSize), Turns(size, index, a.proofSize);
    if proof.Some? && turns.Some? && |proof.value| == a.proofSize then FoldPairs(c, a.hash, proof.value, turns.value)
      else {}
  }

  /** An accepted answer carries the hash at the depth of its proof on the way to the leaf, unless two
      of the pairs combined in the tree and in the check collide; with a proof as long as that way it
      carries the leaf. */
  lemma AcceptedIsCommitted(c: Combine, leaves: seq<Bytes>, index: nat, a: Answer)
    requires index < |leaves| && Accepts(c, Root(c, leaves), |leaves|, index, a)
    requires Apart(c, TreePairs(c, leaves) + CheckedPairs(c, |leaves|, index, a))
    ensures a.proofSize <= |Directions(|leaves|, index)| && a.hash == NodeAt(c, leaves, index, a.proofSize)
    ensures a.proofSize == |Directions(|leaves|, index)| ==> a.hash == leaves[index]
  {
    hide Apart, TreePairs, FoldPairs;
    var proof := Gather(a.messages, [], a.proofSize).value;
    var turns: seq<bool> := [];
    assert a.proofSize == 0 ==> Directions(|leaves|, index)[..0] == turns;
    ProofSound(c, leaves, index, a.hash, proof);
    NodeAtLeaf(c, leaves, index);
  }

  lemma {:induction false} GatherAll(messages: seq<seq<Bytes>>, got: seq<Bytes>, proof: seq<Bytes>)
    requires messages != [] && |got| < |proof| && Concat(messages) == proof[|got|..] && got == proof[..|got|]
    requires forall m :: m in messages ==> m != []
    ensures Gather(messages, got, |proof|) == Some(proof)
    decreases |messages|
  {
    var now := got + messages[0];
    var tail := messages[1..];
    assert Concat(messages) == messages[0] + Concat(tail);
    assert now == proof[..|now|];
    assert Concat(tail) == proof[|now|..];
    if tail == [] {
      assert |now| == |proof| && proof[..|proof|] == proof;
    } else {
      assert forall m :: m in tail ==> m in messages;
      assert tail[0] == messages[1] && messages[1] in messages;
      assert |Concat(tail)| >= |tail[0]|;
      GatherAll(tail, now, proof);
    }
  }

  function Concat(messages: seq<seq<Bytes>>): seq<Bytes> {
    if messages == [] then [] else messages[0] + Concat(messages[1..])
  }

  /** The audit path of a client is accepted, however it is cut into messages of which only the first
      may be empty, and only for an empty path. */
  lemma AuditPathAccepted(c: Combine, leaves: seq<Bytes>, index: nat, a: Answer)
    requires index < |leaves| && a.hash == leaves[index] && a.proofSize == |Path(c, leaves, index)|
    requires a.messages != [] && Concat(a.messages) == Path(c, leaves, index)
    requires if |leaves| == 1 then a.messages == [[]] else forall m :: m in a.messages ==> m != []
    ensures Accepts(c, Root(c, leaves), |leaves|, index, a)
  {
    PathFolds(c, leaves, index);
    var proof, turns := Path(c, leaves, index), Directions(|leaves|, index);
    if |leaves| == 1 {
      FoldNothing(c, a.hash);
    } else {
      assert turns != [] && turns[..|turns|] == turns;
      assert proof[0..] == proof && proof[..0] == [];
      GatherAll(a.messages, [], proof);
    }
  }
}
