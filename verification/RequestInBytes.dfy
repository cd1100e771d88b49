/** Which requests SIGN_PSBT signs, written out in the bytes of the committed maps. */
module RequestInBytes {
  import opened Wrappers
  import opened Psbt
  import opened SigningConsent
  import opened SigningProperties
  import opened SigningInBytes
  import opened SignPsbt

  // ---------------------------------------------------------------- the parts of a request

  predicate GlobalsBytes(tx: Tx) {
    && tx.globalsInOrder && [0x02] in tx.globals && |tx.globals[[0x02]]| == 4
    && ([0x03] in tx.globals ==> |tx.globals[[0x03]]| == 4)
  }

  ghost predicate InputBytes(env: Env, tx: Tx, i: nat) {
    var m, u := tx.inputs(i), SpentBy(env, tx, i);
    && tx.inputMaps.inOrder(i) && env.pubkeysOk(m) && PrevoutBytes(env, m, u)
    && (env.owned(m, u.script) ==> InternalBytes(tx, i, u.script))
  }

  predicate OutputBytes(env: Env, tx: Tx, swap: Option<SwapRequest>, i: nat) {
    var m := tx.outputs(i);
    && tx.outputMaps.inOrder(i) && env.pubkeysOk(m)
    && [0x03] in m && |m[[0x03]]| == 8 && [0x04] in m && |m[[0x04]]| <= 83
    && var script := m[[0x04]];
    || env.ownedChange(m, script)
    || (if swap.Some? then env.address(script) == Some(swap.value.address)
        else env.address(script).Some? || env.opReturn(script).Some?)
  }

  /** An own input has what its message needs. */
  predicate SignableBytes(env: Env, m: FieldMap, script: Bytes) {
    var redeemed := HasKeyType(m, 0x04);
    if !HasKeyType(m, 0x01) then redeemed ==> [0x04] in m
    else
      && (redeemed ==> [0x04] in m && |m[[0x04]]| <= 34 && env.p2sh(m[[0x04]]) == script)
      && var p := if redeemed then m[[0x04]] else script;
      || (|p| == 22 && p[0] == 0x00 && p[1] == 0x14)
      || (|p| == 34 && p[0] == 0x00 && p[1] == 0x20 && [0x05] in m && env.sha256(m[[0x05]]) == p[2..])
      || (|p| >= 2 && p[0] == 0x51)
  }

  ghost predicate RequestBytes(env: Env, tx: Tx, swap: Option<SwapRequest>, w: WalletCheck) {
    && GlobalsBytes(tx)
    && tx.nInputs <= 512 && w.policyParses && (if w.hmacGiven then w.hmacValid && swap.None? else w.policyStandard)
    && true in env.ourKeys
    && (forall i: nat :: i < tx.nInputs ==> InputBytes(env, tx, i))
    && (|| (forall i: nat :: i < tx.nInputs ==> env.owned(tx.inputs(i), SpentBy(env, tx, i).script))
        || (swap.None? && exists i: nat :: i < tx.nInputs && env.owned(tx.inputs(i), SpentBy(env, tx, i).script)))
    && (forall i: nat :: i < tx.nOutputs ==> OutputBytes(env, tx, swap, i))
    && SumsBytes(env, tx, swap)
  }

  /** The 64-bit totals leave a fee and there are at most ten change outputs; a swap has one other output, of
      its amount, and its fee. */
  ghost predicate SumsBytes(env: Env, tx: Tx, swap: Option<SwapRequest>) {
    var us, outs, change := Spent(env, tx, tx.nInputs), Created(tx, tx.nOutputs), OwnedChange(env, tx, tx.nOutputs);
    && Total(outs) % U64 <= Total(us) % U64 && Count(change, true) <= 10
    && (swap.Some? ==>
          && Count(change, false) == 1 && Total(us) % U64 - Total(outs) % U64 == swap.value.fees
          && forall i :: 0 <= i < |outs| && !change[i] ==> outs[i].amount == swap.value.amount)
  }

  // ---------------------------------------------------------------- one input or output

  lemma InputIff(env: Env, tx: Tx, i: nat)
    ensures InputAcceptable(env, tx, i) <==> InputBytes(env, tx, i)
  {
    hide PrevoutChecked, InternalChecked, PrevoutBytes, InternalBytes, SpentBy;
    PrevoutIff(env, tx.inputs(i), SpentBy(env, tx, i));
    InternalIff(tx, i, SpentBy(env, tx, i));
  }

  lemma OutputAcceptableIff(env: Env, tx: Tx, swap: Option<SwapRequest>, i: nat)
    ensures OutputAcceptable(env, tx, swap, i) <==> OutputBytes(env, tx, swap, i)
  {
  }

  lemma GlobalsIff(tx: Tx)
    ensures GlobalsAcceptable(tx) <==> GlobalsBytes(tx)
  {
  }

  lemma SignableIff(env: Env, tx: Tx, i: nat)
    ensures InputSignable(env, tx, i) <==> SignableBytes(env, tx.inputs(i), SpentBy(env, tx, i).script)
  {
    hide SpentBy, HasKeyType;
  }

  // ---------------------------------------------------------------- all of them

  lemma {:induction false} InputsIff(env: Env, tx: Tx, n: nat)
    ensures InputsAcceptable(env, tx, n) <==> forall i: nat :: i < n ==> InputBytes(env, tx, i)
  {
    hide InputAcceptable, InputBytes;
    if n > 0 {
      InputsIff(env, tx, n - 1);
      InputIff(env, tx, n - 1);
    }
  }

  lemma {:induction false} OutputsIff(env: Env, tx: Tx, swap: Option<SwapRequest>, n: nat)
    ensures OutputsAcceptable(env, tx, swap, n) <==> forall i: nat :: i < n ==> OutputBytes(env, tx, swap, i)
  {
    hide OutputAcceptable, OutputBytes;
    if n > 0 {
      OutputsIff(env, tx, swap, n - 1);
      OutputAcceptableIff(env, tx, swap, n - 1);
    }
  }

  lemma {:induction false} OwnedAre(env: Env, tx: Tx, n: nat)
    ensures |Owned(env, tx, n)| == n
    ensures forall i: nat :: i < n ==> Owned(env, tx, n)[i] == env.owned(tx.inputs(i), SpentBy(env, tx, i).script)
  {
    hide SpentBy;
    if n > 0 {
      OwnedAre(env, tx, n - 1);
    }
  }

  lemma {:induction false} AllCounted(flags: seq<bool>)
    ensures Count(flags, false) <= |flags|
    ensures Count(flags, false) == |flags| <==> forall j :: 0 <= j < |flags| ==> !flags[j]
    decreases flags
  {
    if flags != [] {
      var n := |flags| - 1;
      AllCounted(flags[..n]);
      assert forall j :: 0 <= j < n ==> flags[..n][j] == flags[j];
    }
  }

  lemma AlertsAcceptableIff(env: Env, tx: Tx, swap: Option<SwapRequest>)
    ensures AlertsAcceptable(swap, Owned(env, tx, tx.nInputs)) <==>
            || (forall i: nat :: i < tx.nInputs ==> env.owned(tx.inputs(i), SpentBy(env, tx, i).script))
            || (swap.None? && exists i: nat :: i < tx.nInputs && env.owned(tx.inputs(i), SpentBy(env, tx, i).script))
  {
    hide SpentBy, Count, Owned;
    var flags := Owned(env, tx, tx.nInputs);
    OwnedAre(env, tx, tx.nInputs);
    NoneCounted(flags);
    AllCounted(flags);
    if exists j :: 0 <= j < |flags| && flags[j] {
      var j: nat :| j < |flags| && flags[j];
      assert env.owned(tx.inputs(j), SpentBy(env, tx, j).script);
    }
  }

  lemma {:induction false} OneCounted(flags: seq<bool>) returns (i: nat)
    requires Count(flags, false) == 1
    ensures i < |flags| && !flags[i]
    decreases flags
  {
    var n := |flags| - 1;
    if flags[n] {
      i := OneCounted(flags[..n]);
    } else {
      i := n;
    }
  }

  lemma SumsIff(env: Env, tx: Tx, swap: Option<SwapRequest>)
    ensures ConfirmAcceptable(swap, Total64(Spent(env, tx, tx.nInputs)), ActualSums(env, tx)) <==>
            SumsBytes(env, tx, swap)
  {
    hide Total64, Total, Change64, Count, Spent, Created, OwnedChange;
    var us, outs, change := Spent(env, tx, tx.nInputs), Created(tx, tx.nOutputs), OwnedChange(env, tx, tx.nOutputs);
    TotalWraps(us);
    TotalWraps(outs);
    if swap.Some? && Count(change, false) == 1 {
      PaidExactly(outs, change);
      var i := OneCounted(change);
    }
  }

  /** A request is acceptable exactly if it has these bytes; HandleSignPsbt says that an honest client and a
      willing user get exactly the acceptable requests signed whose inputs have what their messages need. */
  lemma AcceptableIff(env: Env, tx: Tx, swap: Option<SwapRequest>, w: WalletCheck)
    ensures Acceptable(env, tx, swap, w) <==> RequestBytes(env, tx, swap, w)
  {
    hide InputsAcceptable, OutputsAcceptable, AlertsAcceptable, ConfirmAcceptable, InputBytes, OutputBytes, SumsBytes,
         GlobalsAcceptable, GlobalsBytes, ActualSums, Owned, SpentBy;
    GlobalsIff(tx);
    InputsIff(env, tx, tx.nInputs);
    OutputsIff(env, tx, swap, tx.nOutputs);
    AlertsAcceptableIff(env, tx, swap);
    SumsIff(env, tx, swap);
  }

  predicate OwnSignable(env: Env, tx: Tx, i: nat) {
    var m, script := tx.inputs(i), SpentBy(env, tx, i).script;
    env.owned(m, script) ==> SignableBytes(env, m, script)
  }

  lemma NothingToSign(env: Env, tx: Tx)
    ensures AllSignable(env, tx, Owned(env, tx, 0))
  {
  }

  lemma LastSignable(env: Env, tx: Tx, n: nat)
    requires n > 0
    ensures AllSignable(env, tx, Owned(env, tx, n)) <==>
            AllSignable(env, tx, Owned(env, tx, n - 1)) && OwnSignable(env, tx, n - 1)
  {
    hide SpentBy, InputSignable, SignableBytes;
    SignableIff(env, tx, n - 1);
    OwnedAre(env, tx, n - 1);
    assert Owned(env, tx, n)[..n - 1] == Owned(env, tx, n - 1);
  }

  /** All own inputs have what their messages need exactly if each has. */
  lemma {:induction false} AllSignableIff(env: Env, tx: Tx, n: nat)
    ensures AllSignable(env, tx, Owned(env, tx, n)) <==> forall i: nat :: i < n ==> OwnSignable(env, tx, i)
  {
    hide AllSignable, Owned, OwnSignable;
    if n == 0 {
      NothingToSign(env, tx);
    } else {
      AllSignableIff(env, tx, n - 1);
      LastSignable(env, tx, n);
    }
  }
}
