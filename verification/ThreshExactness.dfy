/** The flags of thresh: z and o are exactly those that its children's types allow, n is left out although it
    holds under a condition on the threshold, and d and u are left out although they always hold. */
module ThreshExactness {
  import opened Wrappers
  import opened BitcoinScript
  import opened Miniscript
  import opened ScriptNumbers
  import opened ScriptRelations
  import opened StackShape
  import opened CombinatorSoundness
  import opened LeafSoundness
  import opened TypeSoundness
  import opened ScriptEffects
  import opened SatisfactionRuns
  import opened UnsignedRuns
  import opened SampleScripts
  import opened RuleExactness
  import opened RuleAcceptance

  ghost predicate AllKeep(env: Env, ts: seq<Type>, xs: seq<Script>) {
    |xs| == |ts| && forall i :: 0 <= i < |ts| ==> Keeps(env, ts[i], xs[i])
  }

  /** Some scripts that keep the promises of the children's types break those of t under thresh. */
  ghost predicate ThreshFails(env: Env, k: nat, ts: seq<Type>, t: Type) {
    exists xs :: AllKeep(env, ts, xs) && Breaks(env, t, ThreshScript(k, xs))
  }

  predicate Typed(k: nat, ts: seq<Type>, t: Type) {
    ThreshType(k, ts) == Some(t) && forall i :: 0 <= i < |ts| ==> Exclusive(ts[i])
  }

  // ---------------------------------------------------------------- runs with chosen outcomes

  /** The last k children are true, on witnesses that begin with an empty element, and the others false. */
  function LastWish(n: nat, k: nat, i: nat): Wish {
    if i + k < n then No else OnEmpty
  }

  lemma {:induction false} LastSatisfied(n: nat, k: nat, m: nat)
    requires m <= n
    ensures Satisfied(seq(m, i requires 0 <= i < m => LastWish(n, k, i) != No))
            == if m + k <= n then 0 else if k <= n then m + k - n else m
    decreases m
  {
    var sats := seq(m, i requires 0 <= i < m => LastWish(n, k, i) != No);
    if m > 0 {
      LastSatisfied(n, k, m - 1);
      assert sats[..m - 1] == seq(m - 1, i requires 0 <= i < m - 1 => LastWish(n, k, i) != No);
    }
  }

  lemma {:induction false} JoinedFirst(ws: seq<seq<Bytes>>)
    requires forall i :: 0 <= i < |ws| ==> ws[i] == [] || ws[i][0] == []
    ensures Joined(ws) == [] || Joined(ws)[0] == []
    decreases ws
  {
    if ws != [] {
      JoinedFirst(ws[..|ws| - 1]);
    }
  }

  /** Children of the given types, of which the last j are satisfied. */
  lemma ThreshRun(env: Env, sig: Bytes, k: nat, ts: seq<Type>, t: Type, j: nat)
      returns (xs: seq<Script>, w: seq<Bytes>)
    requires env.Valid() && Signs(env, sig) && Typed(k, ts, t) && j <= |ts| && j < 0x7fff_ffff
    requires j == |ts| ==> !ts[0].n
    ensures AllKeep(env, ts, xs) && Succeeds(env, B, ThreshScript(k, xs), w, j == k) && (w == [] || w[0] == [])
    ensures if |ts| == 1 then |w| == Count(ts[0], 2) else |w| >= 2
  {
    hide Succeeds, ThreshScript, Sample, ThreshType, Keeps;
    var n := |ts|;
    xs := seq(n, i requires 0 <= i < n => Sample(env, ts[i], 2, LastWish(n, j, i)));
    var ws := seq(n, i requires 0 <= i < n => SampleWitness(sig, ts[i], 2, LastWish(n, j, i)));
    var sats := seq(n, i requires 0 <= i < n => LastWish(n, j, i) != No);
    Children(k, ts, t);
    forall i | 0 <= i < n
      ensures Keeps(env, ts[i], xs[i]) && Sound(env, ts[i], xs[i])
      ensures Succeeds(env, ts[i].base, xs[i], ws[i], sats[i]) && (ws[i] == [] || ws[i][0] == [])
    {
      SampleKeeps(env, ts[i], 2, LastWish(n, j, i));
      KeepsSkips(env, ts[i], xs[i]);
      SampleRuns(env, sig, ts[i], 2, LastWish(n, j, i));
    }
    LastSatisfied(n, j, n);
    assert Outcomes(env, ts, xs, ws, sats);
    ThreshOutcome(env, k, ts, xs, ws, sats);
    JoinedFirst(ws);
    w := Joined(ws);
    if n == 1 {
      assert ws == [ws[0]];
      OneJoined(ws[0], true);
    } else {
      assert |ws[n - 1]| == 2;
    }
  }

  lemma Children(k: nat, ts: seq<Type>, t: Type)
    requires Typed(k, ts, t)
    ensures ts != [] && 1 <= k <= MAX_THRESHOLD && forall i :: 0 <= i < |ts| ==> ThreshChildOk(i == 0, ts[i])
    ensures if |ts| == 1 then t.z == ts[0].z && t.o == ts[0].o else !t.z && !t.o
    ensures t.base == B && !t.n && !t.d && !t.u
  {
    if |ts| == 1 {
      assert ts[1..] == [];
      assert CountZ(ts[1..]) == 0 && CountO(ts[1..]) == 0;
    } else {
      ThreshFlags(k, ts, t);
    }
  }

  lemma ThreshBreaks(env: Env, k: nat, ts: seq<Type>, t: Type, xs: seq<Script>)
    requires AllKeep(env, ts, xs) && Breaks(env, t, ThreshScript(k, xs))
    ensures ThreshFails(env, k, ts, t)
  {
  }

  lemma ThreshInputs(env: Env, sig: Bytes, k: nat, ts: seq<Type>, t: Type)
    requires env.Valid() && Signs(env, sig) && Typed(k, ts, t)
    ensures !t.z ==> ThreshFails(env, k, ts, t.(z := true))
    ensures !t.o ==> ThreshFails(env, k, ts, t.(o := true))
  {
    hide Succeeds, ThreshScript, Typed, Breaks, AllKeep, ThreshFails;
    Children(k, ts, t);
    var xs, w := ThreshRun(env, sig, k, ts, t, 0);
    WitnessBreaks(env, t, ThreshScript(k, xs), w, false);
    if !t.z {
      ThreshBreaks(env, k, ts, t.(z := true), xs);
    }
    if !t.o {
      ThreshBreaks(env, k, ts, t.(o := true), xs);
    }
  }

  /** n of thresh, as the children's types allow to conclude it; the rule never announces it. */
  predicate ThreshNonEmpty(k: nat, ts: seq<Type>)
    requires ts != []
  {
    k > |ts| || (k == |ts| && ts[0].n)
  }

  lemma ThreshEmpty(env: Env, sig: Bytes, k: nat, ts: seq<Type>, t: Type)
    requires env.Valid() && Signs(env, sig) && Typed(k, ts, t) && ts != [] && !ThreshNonEmpty(k, ts)
    ensures ThreshFails(env, k, ts, t.(n := true))
  {
    hide Succeeds, ThreshScript, Typed, Breaks, AllKeep, ThreshFails;
    Children(k, ts, t);
    var xs, w := ThreshRun(env, sig, k, ts, t, k);
    WitnessBreaks(env, t, ThreshScript(k, xs), w, true);
    ThreshBreaks(env, k, ts, t.(n := true), xs);
  }

  // ---------------------------------------------------------------- what always holds

  lemma ThreshUnbroken(env: Env, k: nat, ts: seq<Type>, t: Type)
    requires forall xs :: |xs| == |ts| && AllSound(env, ts, xs) ==> Sound(env, t, ThreshScript(k, xs))
    ensures !ThreshFails(env, k, ts, t)
  {
    hide Sound, Breaks, ThreshScript, AllSound;
    if ThreshFails(env, k, ts, t) {
      var xs :| AllKeep(env, ts, xs) && Breaks(env, t, ThreshScript(k, xs));
      KeepsSound(env, ts, xs);
      SoundUnbroken(env, t, ThreshScript(k, xs));
    }
  }

  lemma {:induction false} KeepsSound(env: Env, ts: seq<Type>, xs: seq<Script>)
    requires AllKeep(env, ts, xs)
    ensures AllSound(env, ts, xs)
    decreases ts
  {
    hide Sound, CanFail;
    if ts != [] {
      KeepsSound(env, ts[..|ts| - 1], xs[..|xs| - 1]);
      assert Keeps(env, ts[|ts| - 1], xs[|xs| - 1]);
    }
  }

  /** Every true result of thresh is 1. */
  lemma ThreshKeepsU(env: Env, k: nat, ts: seq<Type>, t: Type, xs: seq<Script>)
    requires |xs| == |ts| && Typed(k, ts, t) && AllSound(env, ts, xs)
    ensures Sound(env, t.(u := true), ThreshScript(k, xs))
  {
    hide Sound, AllSound, ThreshType;
    Children(k, ts, t);
    SumSound(env, xs, ts);
    ThresholdTestSound(env, TypeOfSum(ts), SumScript(xs), k, t.(u := true));
  }

  // ---------------------------------------------------------------- the sum of the children's results

  /** The sum of m results is at most m, and if it is m then the first one was true. */
  predicate SumAtMost(m: nat, n: bool, s: Stack, r: Stack) {
    && r.Cons?
    && (DecodeNum(r.top).Some? ==>
          0 <= DecodeNum(r.top).value <= m && (n && DecodeNum(r.top).value == m ==> TopNonEmpty(s)))
  }

  function SumAtMostRel(m: nat, n: bool): Relation {
    (s, r) => SumAtMost(m, n, s, r)
  }

  lemma UnitNumber(t: Type, v: Bytes)
    requires t.u && UnitOk(t, v) && DecodeNum(v).Some?
    ensures DecodeNum(v).value == if Truthy(v) then 1 else 0
  {
    DecodeTruthy(v);
    SmallNumbers(1);
  }

  lemma FirstAtMost(t: Type, s: Stack, r: Stack)
    requires ThreshChildOk(true, t) && ShapeB(t, s, r)
    ensures SumAtMost(1, t.n, s, r)
  {
    hide Truthy, DecodeNum;
    if DecodeNum(r.top).Some? {
      UnitNumber(t, r.top);
    }
  }

  /** Two elements of which one is the sum so far and the other the next result. */
  predicate TwoNumbers(m: nat, n: bool, s: Stack, q: Stack) {
    && q.Cons? && q.rest.Cons?
    && (DecodeNum(q.top).Some? && DecodeNum(q.rest.top).Some? ==>
          var v := DecodeNum(q.top).value + DecodeNum(q.rest.top).value;
          0 <= v <= m + 1 && (n && v == m + 1 ==> TopNonEmpty(s)))
  }

  function TwoNumbersRel(m: nat, n: bool): Relation {
    (s, q) => TwoNumbers(m, n, s, q)
  }

  lemma NextAtMost(m: nat, n: bool, t: Type, s: Stack, r: Stack, q: Stack)
    requires ThreshChildOk(false, t) && SumAtMost(m, n, s, r) && ShapeW(t, r, q)
    ensures TwoNumbers(m, n, s, q)
  {
    hide Truthy, DecodeNum;
    if DecodeNum(q.top).Some? && DecodeNum(q.rest.top).Some? {
      if q.top == r.top && UnitOk(t, q.rest.top) {
        UnitNumber(t, q.rest.top);
      } else {
        UnitNumber(t, q.top);
      }
    }
  }

  lemma AddAtMost(env: Env, m: nat, n: bool, s: Stack, q: Stack, r: Stack)
    requires TwoNumbers(m, n, s, q) && ExecMain(env, Add, q) == Some(r)
    ensures SumAtMost(m + 1, n, s, r)
  {
    hide EncodeNum, DecodeNum;
    var v := DecodeNum(q.top).value + DecodeNum(q.rest.top).value;
    assert r.top == EncodeNum(v);
    DecodeEncode(v);
  }

  lemma AddDoes(env: Env, m: nat, n: bool, a: Script, t: Type, b: Script)
    requires Does(env, a, SumAtMostRel(m, n)) && ThreshChildOk(false, t) && Sound(env, t, b)
    ensures Does(env, a + b + [Add], SumAtMostRel(m + 1, n))
  {
    hide Does, SumAtMost, TwoNumbers, ShapeW, ExecMain;
    forall s, r, q | SumAtMostRel(m, n)(s, r) && TypeRel(env, t)(r, q) ensures TwoNumbersRel(m, n)(s, q) {
      NextAtMost(m, n, t, s, r, q);
    }
    DoesAppend(env, a, SumAtMostRel(m, n), b, TypeRel(env, t), TwoNumbersRel(m, n));
    DoesOp(env, Add);
    forall s, q, r | TwoNumbersRel(m, n)(s, q) && OpRel(env, Add)(q, r) ensures SumAtMostRel(m + 1, n)(s, r) {
      AddAtMost(env, m, n, s, q, r);
    }
    DoesAppend(env, a + b, TwoNumbersRel(m, n), [Add], OpRel(env, Add), SumAtMostRel(m + 1, n));
  }

  lemma {:induction false} SumDoes(env: Env, ts: seq<Type>, xs: seq<Script>)
    requires |xs| == |ts| >= 1 && AllSound(env, ts, xs)
    requires forall i :: 0 <= i < |ts| ==> ThreshChildOk(i == 0, ts[i])
    ensures Does(env, SumScript(xs), SumAtMostRel(|ts|, ts[0].n))
    decreases xs
  {
    hide Does, SumAtMost, ShapeB;
    var m := |xs| - 1;
    if m == 0 {
      forall s, r | TypeRel(env, ts[0])(s, r) ensures SumAtMostRel(1, ts[0].n)(s, r) {
        FirstAtMost(ts[0], s, r);
      }
      DoesImplies(env, xs[0], TypeRel(env, ts[0]), SumAtMostRel(1, ts[0].n));
    } else {
      SumDoes(env, ts[..m], xs[..m]);
      AddDoes(env, m, ts[0].n, SumScript(xs[..m]), ts[m], xs[m]);
    }
  }

  // ---------------------------------------------------------------- the comparison with the threshold

  /** The threshold on the sum. */
  predicate Compared(k: nat, m: nat, n: bool, s: Stack, q: Stack) {
    q.Cons? && q.top == EncodeNum(k) && SumAtMost(m, n, s, q.rest)
  }

  function ComparedRel(k: nat, m: nat, n: bool): Relation {
    (s, q) => Compared(k, m, n, s, q)
  }

  predicate TrueIfNonEmpty(s: Stack, s': Stack) {
    s'.Cons? && (Truthy(s'.top) ==> TopNonEmpty(s))
  }

  function TrueIfNonEmptyRel(): Relation {
    (s, s') => TrueIfNonEmpty(s, s')
  }

  lemma EqualNonEmpty(env: Env, k: nat, m: nat, n: bool, s: Stack, q: Stack, s': Stack)
    requires Compared(k, m, n, s, q) && ExecMain(env, Equal(false), q) == Some(s') && 1 <= k <= MAX_THRESHOLD
    requires k > m || (k == m && n)
    ensures TrueIfNonEmpty(s, s')
  {
    hide EncodeNum, DecodeNum;
    TruthyBool(q.top == q.rest.top);
    NumberRoundTrip(k);
  }

  lemma ThreshTrueNonEmpty(env: Env, k: nat, ts: seq<Type>, t: Type, xs: seq<Script>)
    requires |xs| == |ts| && Typed(k, ts, t) && AllSound(env, ts, xs) && ts != [] && ThreshNonEmpty(k, ts)
    ensures Does(env, ThreshScript(k, xs), TrueIfNonEmptyRel())
  {
    hide Does, AllSound, ThreshType, SumAtMost, ExecMain, EncodeNum, SumScript;
    Children(k, ts, t);
    var m, n := |ts|, ts[0].n;
    SumDoes(env, ts, xs);
    PlainNum(k);
    DoesOp(env, PushNum(k));
    forall s, r, q | SumAtMostRel(m, n)(s, r) && OpRel(env, PushNum(k))(r, q) ensures ComparedRel(k, m, n)(s, q) {
      PushNumExec(env, k, r);
    }
    DoesAppend(env, SumScript(xs), SumAtMostRel(m, n), [PushNum(k)], OpRel(env, PushNum(k)), ComparedRel(k, m, n));
    DoesOp(env, Equal(false));
    forall s, q, s' | ComparedRel(k, m, n)(s, q) && OpRel(env, Equal(false))(q, s') ensures TrueIfNonEmptyRel()(s, s') {
      EqualNonEmpty(env, k, m, n, s, q, s');
    }
    DoesAppend(env, SumScript(xs) + [PushNum(k)], ComparedRel(k, m, n), [Equal(false)], OpRel(env, Equal(false)),
               TrueIfNonEmptyRel());
    assert SumScript(xs) + [PushNum(k)] + [Equal(false)] == ThreshScript(k, xs);
  }

  lemma DoesBoth(env: Env, s: Script, r: Relation, r': Relation, both: Relation)
    requires Does(env, s, r) && Does(env, s, r') && forall a, b :: r(a, b) && r'(a, b) ==> both(a, b)
    ensures Does(env, s, both)
  {
  }

  lemma ThreshKeepsN(env: Env, k: nat, ts: seq<Type>, t: Type, xs: seq<Script>)
    requires |xs| == |ts| && Typed(k, ts, t) && AllSound(env, ts, xs) && ts != [] && ThreshNonEmpty(k, ts)
    ensures Sound(env, t.(n := true), ThreshScript(k, xs))
  {
    hide Does, AllSound, ThreshScript;
    ThreshSound(env, k, xs, ts, t);
    ThreshTrueNonEmpty(env, k, ts, t, xs);
    DoesBoth(env, ThreshScript(k, xs), TypeRel(env, t), TrueIfNonEmptyRel(), TypeRel(env, t.(n := true)));
  }

  // ---------------------------------------------------------------- the rule of thresh

  ghost predicate AllKeepAll(env: Env, ts: seq<Type>, xs: seq<Script>) {
    |xs| == |ts| && forall i :: 0 <= i < |ts| ==> KeepsAll(env, ts[i], xs[i])
  }

  lemma {:induction false} NoneSatisfied(m: nat)
    ensures Satisfied(seq(m, i => false)) == 0
    decreases m
  {
    if m > 0 {
      NoneSatisfied(m - 1);
      assert seq(m, i => false)[..m - 1] == seq(m - 1, i => false);
    }
  }

  /** Whatever scripts its children have, thresh can be dissatisfied, by dissatisfying all of them. */
  lemma ThreshDissatisfiable(env: Env, k: nat, ts: seq<Type>, t: Type, xs: seq<Script>)
    requires Typed(k, ts, t) && AllKeepAll(env, ts, xs)
    ensures CanFail(env, B, ThreshScript(k, xs))
  {
    hide Succeeds, ThreshScript, Sound, ThreshType, Joined;
    Children(k, ts, t);
    var n := |ts|;
    forall i | 0 <= i < n ensures CanFail(env, ts[i].base, xs[i]) && Sound(env, ts[i], xs[i]) {
      assert KeepsAll(env, ts[i], xs[i]) && ThreshChildOk(i == 0, ts[i]);
    }
    var ws := Dissatisfactions(env, ts, xs, n);
    NoneSatisfied(n);
    assert Outcomes(env, ts, xs, ws, seq(n, i => false));
    ThreshOutcome(env, k, ts, xs, ws, seq(n, i => false));
  }

  lemma {:induction false} Dissatisfactions(env: Env, ts: seq<Type>, xs: seq<Script>, m: nat)
      returns (ws: seq<seq<Bytes>>)
    requires |xs| == |ts| && m <= |ts|
    requires forall i :: 0 <= i < |ts| ==> CanFail(env, ts[i].base, xs[i])
    ensures |ws| == m && forall i :: 0 <= i < m ==> Succeeds(env, ts[i].base, xs[i], ws[i], false)
    decreases m
  {
    hide Succeeds;
    ws := [];
    if m > 0 {
      var init := Dissatisfactions(env, ts, xs, m - 1);
      assert CanFail(env, ts[m - 1].base, xs[m - 1]);
      var w :| Succeeds(env, ts[m - 1].base, xs[m - 1], w, false);
      ws := init + [w];
    }
  }

  lemma ThreshHolds(env: Env, k: nat, ts: seq<Type>, t: Type)
    requires Typed(k, ts, t) && ts != []
    ensures !ThreshFails(env, k, ts, t) && !ThreshFails(env, k, ts, t.(u := true))
    ensures ThreshNonEmpty(k, ts) ==> !ThreshFails(env, k, ts, t.(n := true))
  {
    hide Sound, AllSound, ThreshScript, ThreshType, ThreshFails;
    forall xs: seq<Script> | |xs| == |ts| && AllSound(env, ts, xs)
      ensures Sound(env, t, ThreshScript(k, xs)) && Sound(env, t.(u := true), ThreshScript(k, xs))
      ensures ThreshNonEmpty(k, ts) ==> Sound(env, t.(n := true), ThreshScript(k, xs))
    {
      ThreshSound(env, k, xs, ts, t);
      ThreshKeepsU(env, k, ts, t, xs);
      if ThreshNonEmpty(k, ts) {
        ThreshKeepsN(env, k, ts, t, xs);
      }
    }
    ThreshUnbroken(env, k, ts, t);
    ThreshUnbroken(env, k, ts, t.(u := true));
    if ThreshNonEmpty(k, ts) {
      ThreshUnbroken(env, k, ts, t.(n := true));
    }
  }

  /** z and o of thresh are exactly those that all scripts that keep the promises of its children's types keep
      under thresh. n, d and u are never announced: n holds exactly if the threshold exceeds the number of
      children, or equals it and the first child has n; u and d always hold. */
  lemma ThreshFlagsExact(env: Env, sig: Bytes, k: nat, ts: seq<Type>, t: Type)
    requires env.Valid() && Signs(env, sig) && Typed(k, ts, t)
    ensures ts != [] && t.base == B && !t.n && !t.d && !t.u
    ensures t.z <==> !ThreshFails(env, k, ts, t.(z := true))
    ensures t.o <==> !ThreshFails(env, k, ts, t.(o := true))
    ensures ThreshNonEmpty(k, ts) <==> !ThreshFails(env, k, ts, t.(n := true))
    ensures !ThreshFails(env, k, ts, t.(u := true))
    ensures forall xs :: AllKeepAll(env, ts, xs) ==> CanFail(env, B, ThreshScript(k, xs))
  {
    Children(k, ts, t);
    hide ThreshFails, Typed, CanFail, ThreshScript, AllKeepAll, ThreshNonEmpty;
    ThreshHolds(env, k, ts, t);
    assert (t.z ==> t.(z := true) == t) && (t.o ==> t.(o := true) == t);
    ThreshInputs(env, sig, k, ts, t);
    if !ThreshNonEmpty(k, ts) {
      ThreshEmpty(env, sig, k, ts, t);
    }
    forall xs | AllKeepAll(env, ts, xs) ensures CanFail(env, B, ThreshScript(k, xs)) {
      ThreshDissatisfiable(env, k, ts, t, xs);
    }
  }
}
