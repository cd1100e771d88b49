/** What a safe run of SIGN_PSBT gives the user, in terms of the transaction, the screens and the
    signed messages. */
module SigningProperties {
  import opened Wrappers
  import opened Psbt
  import opened SigningConsent

  function SumOf(amounts: seq<uint64>): nat {
    if amounts == [] then 0 else SumOf(amounts[..|amounts| - 1]) + amounts[|amounts| - 1]
  }

  lemma {:induction false} SumOfAmounts(us: seq<Utxo>)
    ensures SumOf(Amounts(us)) == Total(us)
    decreases us
  {
    if us != [] {
      SumOfAmounts(us[..|us| - 1]);
      assert Amounts(us)[..|us| - 1] == Amounts(us[..|us| - 1]);
    }
  }

  lemma SameQuotient(a: nat, b: nat, fee: int)
    requires fee == a % U64 - b % U64
    ensures fee == a - b <==> a / U64 == b / U64
  {
  }

  /** The fee that is confirmed is the difference of the amounts that are hashed and the outputs that
      are hashed, exactly when the two sums wrap around 2^64 equally often. */
  lemma ConfirmedFeeIsHashed(env: Env, tx: Tx, swap: Option<SwapRequest>, canonical: bool, v: View)
    requires Checked(env, tx, swap, canonical, v)
    ensures v.fee == SumOf(Amounts(v.us)) - SumOf(Amounts(v.outs)) <==>
            SumOf(Amounts(v.us)) / U64 == SumOf(Amounts(v.outs)) / U64
  {
    SumOfAmounts(v.us);
    SumOfAmounts(v.outs);
    TotalWraps(v.us);
    TotalWraps(v.outs);
    SameQuotient(Total(v.us), Total(v.outs), v.fee);
  }

  /** An input that spends 2^63 satoshis from a taproot script. */
  const HALF_RANGE: FieldMap := map[[IN_WITNESS_UTXO] := [0, 0, 0, 0, 0, 0, 0, 0x80, 2, 0x51, 0]]

  lemma HalfRangeAmount(b: Bytes)
    requires b == [0, 0, 0, 0, 0, 0, 0, 0x80]
    ensures Amount64(b) == U64 / 2
  {
    var high := b[1..][1..][1..][1..];
    assert high == [0, 0, 0, 0x80] && high[1..][1..] == [0, 0x80] && [0, 0x80][1..] == [0x80];
    assert LittleEndian([0x80]) == 0x80 && LittleEndian([0, 0x80]) == 0x8000;
    assert LittleEndian(high) == 0x1_0000 * LittleEndian(high[1..][1..]);
    assert LittleEndian(b[1..][1..]) == 0x1_0000 * LittleEndian(high);
    assert LittleEndian(b) == 0x1_0000 * LittleEndian(b[1..][1..]);
  }

  lemma HalfRangeRead(env: Env, u: Utxo)
    requires u == Utxo(U64 / 2, [0x51, 0])
    ensures Prevout(env, HALF_RANGE) == Some(u) && PrevoutChecked(env, HALF_RANGE, u)
    ensures HasKeyType(HALF_RANGE, IN_WITNESS_UTXO) && !HasKeyType(HALF_RANGE, IN_SIGHASH_TYPE)
  {
    hide Amount64;
    var raw := HALF_RANGE[[IN_WITNESS_UTXO]];
    assert raw[..8] == [0, 0, 0, 0, 0, 0, 0, 0x80] && raw[9..] == [0x51, 0];
    HalfRangeAmount(raw[..8]);
    assert [IN_WITNESS_UTXO] in HALF_RANGE.Keys;
    assert forall k :: k in HALF_RANGE.Keys ==> k == [IN_WITNESS_UTXO];
  }

  lemma HalfRangeChecked(env: Env, tx: Tx, i: nat, u: Utxo)
    requires u == Utxo(U64 / 2, [0x51, 0]) && tx.inputs(i) == HALF_RANGE && tx.inputMaps.inOrder(i)
    requires env.pubkeysOk(HALF_RANGE) && env.owned(HALF_RANGE, u.script)
    ensures SpentBy(env, tx, i) == u && InputChecked(env, tx, i, u, true)
  {
    hide PrevoutChecked, Prevout, HasKeyType;
    HalfRangeRead(env, u);
  }

  lemma HalfRangeSums(us: seq<Utxo>, u: Utxo)
    requires u.amount == U64 / 2 && us == [u, u]
    ensures Total64(us) == 0 && SumOf(Amounts(us)) == U64
  {
    assert us[..1] == [u] && [u][..0] == [];
    assert Total([u]) == U64 / 2;
    SumOfAmounts(us);
    TotalWraps(us);
  }

  lemma HalfRangeView(env: Env, tx: Tx, v: View, u: Utxo)
    requires u == Utxo(U64 / 2, [0x51, 0]) && v == View([u, u], [], [true, true], [], 0)
    requires tx.nInputs == 2 && tx.nOutputs == 0
    requires SpentBy(env, tx, 0) == u && SpentBy(env, tx, 1) == u
    requires InputChecked(env, tx, 0, u, true) && InputChecked(env, tx, 1, u, true)
    ensures Checked(env, tx, None, true, v)
  {
    hide InputChecked, SpentBy;
    assert Spent(env, tx, 1) == [u] && Spent(env, tx, 2) == [u, u];
    assert v.us[..1] == [u] && v.internal[..1] == [true];
    assert InputsChecked(env, tx, [u], [true]);
    HalfRangeSums(v.us, u);
  }

  /** Two inputs of 2^63 satoshis and no output pass every check with a fee of 0. */
  lemma WrappedFee() returns (env: Env, tx: Tx, v: View)
    ensures Checked(env, tx, None, true, v) && v.internal == [true, true]
    ensures v.fee == 0 && SumOf(Amounts(v.us)) - SumOf(Amounts(v.outs)) == U64
  {
    hide InputChecked, SpentBy, Checked, Total64;
    env := Env((_, _) => None, b => b, b => b, _ => None, _ => None, [], _ => true, (_, _) => true, (_, _) => true);
    var maps := Maps(_ => HALF_RANGE, _ => true);
    tx := Tx(map[], true, 2, maps, 0, maps);
    var u := Utxo(U64 / 2, [0x51, 0]);
    v := View([u, u], [], [true, true], [], 0);
    HalfRangeChecked(env, tx, 0, u);
    HalfRangeChecked(env, tx, 1, u);
    HalfRangeView(env, tx, v, u);
    HalfRangeSums(v.us, u);
  }

  lemma FeeWithoutWrap(us: seq<Utxo>, outs: seq<Utxo>)
    requires Total(us) < U64 && Total(outs) < U64
    ensures Total64(us) - Total64(outs) == Total(us) - Total(outs)
  {
    TotalWraps(us);
    TotalWraps(outs);
  }

  lemma {:induction false} OutputShown(env: Env, swap: Option<SwapRequest>, outs: seq<Utxo>, change: seq<bool>, i: nat)
    requires i < |outs| == |change| && !change[i] && swap.None? && PrintedScript(env, outs[i].script).Some?
    ensures Accept(ValidateOutput(Count(change[..i + 1], false), PrintedScript(env, outs[i].script).value,
                                  outs[i].amount))
            in ShownOutputs(env, swap, outs, change)
    decreases outs
  {
    var n := |outs| - 1;
    if i < n {
      OutputShown(env, swap, outs[..n], change[..n], i);
      assert change[..n][..i + 1] == change[..i + 1];
    } else {
      assert change[..i + 1] == change;
    }
  }

  /** Every output is either change of the wallet or was accepted with its own address and amount. */
  lemma OutputsApproved(env: Env, tx: Tx, canonical: bool, v: View, answers: seq<Answer>, signatures: seq<Signature>,
      i: nat)
    requires Consented(env, tx, None, canonical, v, answers, signatures) && i < tx.nOutputs
    ensures OutputOf(tx.outputs(i)) == Some(v.outs[i])
    ensures env.ownedChange(tx.outputs(i), v.outs[i].script)
            || exists n, text :: && PrintedScript(env, v.outs[i].script) == Some(text)
                                 && Accept(ValidateOutput(n, text, v.outs[i].amount)) in answers
  {
    OutputCheckedAt(env, tx, None, v.outs, v.change, i);
    if !v.change[i] {
      OutputShown(env, None, v.outs, v.change, i);
    }
  }

  /** In a swap exactly one output is not change of the wallet; it pays the requested amount to the
      requested address, all inputs are the wallet's, and the fee is the requested one. */
  lemma SwapPaysAsRequested(env: Env, tx: Tx, swap: SwapRequest, canonical: bool, v: View, i: nat)
    requires Checked(env, tx, Some(swap), canonical, v) && i < tx.nOutputs
    ensures Count(v.change, false) == 1 && v.fee == swap.fees && canonical
    ensures !v.change[i] ==> v.outs[i].amount == swap.amount && env.address(v.outs[i].script) == Some(swap.address)
    ensures v.change[i] ==> env.ownedChange(tx.outputs(i), v.outs[i].script)
    ensures forall j :: 0 <= j < tx.nInputs ==> v.internal[j]
  {
    OutputCheckedAt(env, tx, Some(swap), v.outs, v.change, i);
    NoneCounted(v.internal);
  }

  lemma {:induction false} NoneCounted(flags: seq<bool>)
    ensures Count(flags, false) == 0 <==> forall j :: 0 <= j < |flags| ==> flags[j]
    decreases flags
  {
    if flags != [] {
      var n := |flags| - 1;
      NoneCounted(flags[..n]);
      assert forall j :: 0 <= j < n ==> flags[..n][j] == flags[j];
    }
  }

  lemma {:induction false} NondefaultCounted(tx: Tx, internal: seq<bool>, i: nat)
    requires i < |internal| && internal[i] && NondefaultSighash(tx.inputs(i))
    ensures AnyNondefault(tx, internal)
    decreases internal
  {
    if i < |internal| - 1 {
      NondefaultCounted(tx, internal[..|internal| - 1], i);
    }
  }

  lemma {:induction false} UnverifiedCounted(tx: Tx, us: seq<Utxo>, internal: seq<bool>, i: nat)
    requires i < |internal| == |us| && internal[i] && UnverifiedSegwit(tx.inputs(i), us[i].script)
    ensures AnyUnverified(tx, us, internal)
    decreases internal
  {
    var n := |internal| - 1;
    if i < n {
      UnverifiedCounted(tx, us[..n], internal[..n], i);
    }
  }

  /** Every signature is for an input of the wallet, and came after every warning that applies. */
  lemma WarningsAccepted(
    env: Env, tx: Tx, swap: Option<SwapRequest>, canonical: bool, v: View, answers: seq<Answer>,
        signatures: seq<Signature>,
    s: Signature, i: nat)
    requires Consented(env, tx, swap, canonical, v, answers, signatures) && s in signatures && i < tx.nInputs
    ensures s.message.input < tx.nInputs && v.internal[s.message.input] && s.answered == |answers|
    ensures env.owned(tx.inputs(s.message.input), v.us[s.message.input].script)
    ensures !canonical ==> Accept(AuthorizeSpend) in answers
    ensures !v.internal[i] ==> Accept(WarnExternalInputs) in answers
    ensures v.internal[i] && UnverifiedSegwit(tx.inputs(i), v.us[i].script) ==> Accept(WarnUnverifiedSegwit) in answers
    ensures v.internal[i] && NondefaultSighash(tx.inputs(i)) ==> Accept(WarnNondefaultSighash) in answers
    ensures s.message.sighashType != SIGHASH_DEFAULT && s.message.sighashType != SIGHASH_ALL ==>
            Accept(WarnNondefaultSighash) in answers
    ensures swap.None? ==> Accept(ConfirmFee(v.fee)) in answers
  {
    var k := s.message.input;
    InputCheckedAt(env, tx, v.us, v.internal, k);
    NoneCounted(v.internal);
    if v.internal[i] && UnverifiedSegwit(tx.inputs(i), v.us[i].script) {
      UnverifiedCounted(tx, v.us, v.internal, i);
    }
    if v.internal[i] && NondefaultSighash(tx.inputs(i)) {
      NondefaultCounted(tx, v.internal, i);
    }
    if NondefaultSighash(tx.inputs(k)) {
      NondefaultCounted(tx, v.internal, k);
    }
    DialogueHas(env, tx, swap, canonical, v);
  }

  lemma DialogueHas(env: Env, tx: Tx, swap: Option<SwapRequest>, canonical: bool, v: View)
    requires |v.us| == |v.internal| && |v.outs| == |v.change|
    ensures !canonical ==> Accept(AuthorizeSpend) in Dialogue(env, tx, swap, canonical, v)
    ensures Count(v.internal, false) > 0 ==> Accept(WarnExternalInputs) in Dialogue(env, tx, swap, canonical, v)
    ensures AnyUnverified(tx, v.us, v.internal) ==>
            Accept(WarnUnverifiedSegwit) in Dialogue(env, tx, swap, canonical, v)
    ensures AnyNondefault(tx, v.internal) ==> Accept(WarnNondefaultSighash) in Dialogue(env, tx, swap, canonical, v)
    ensures swap.None? ==> Accept(ConfirmFee(v.fee)) in Dialogue(env, tx, swap, canonical, v)
  {
    hide AnyUnverified, AnyNondefault, ShownOutputs, Count;
    var wallet, alerts := AskIf(!canonical, AuthorizeSpend), Alerts(tx, v.us, v.internal);
    var shown, fee := ShownOutputs(env, swap, v.outs, v.change), AskIf(swap.None?, ConfirmFee(v.fee));
    assert Dialogue(env, tx, swap, canonical, v) == wallet + alerts + shown + fee;
    assert forall a :: a in wallet || a in alerts || a in shown || a in fee ==> a in wallet + alerts + shown + fee;
  }

  lemma TaprootParts(env: Env, tx: Tx, v: View, m: Message)
    requires RightMessage(env, tx, v, m) && m.kind == SegwitV1
             && (m.sighashType == SIGHASH_DEFAULT || m.sighashType == SIGHASH_ALL)
    ensures m.whole.amounts == Some(Amounts(v.us)) && m.whole.outputs == Some(v.outs) && m.input < |v.us|
  {
    assert !AnyoneCanPay(0);
  }

  /** A taproot signature with default sighash type commits to the very amounts and outputs whose
      difference was confirmed as the fee. */
  lemma TaprootSignsConfirmedFee(
    env: Env, tx: Tx, canonical: bool, v: View, answers: seq<Answer>, signatures: seq<Signature>, s: Signature)
    requires Consented(env, tx, None, canonical, v, answers, signatures) && s in signatures
    requires s.message.kind == SegwitV1 && (s.message.sighashType == SIGHASH_DEFAULT
                                            || s.message.sighashType == SIGHASH_ALL)
    ensures s.message.whole.amounts == Some(Amounts(v.us)) && s.message.whole.outputs == Some(v.outs)
    ensures Accept(ConfirmFee(v.fee)) in answers
    ensures Total(v.us) < U64 && Total(v.outs) < U64 ==> v.fee == SumOf(Amounts(v.us)) - Total(v.outs)
  {
    TaprootParts(env, tx, v, s.message);
    WarningsAccepted(env, tx, None, canonical, v, answers, signatures, s, s.message.input);
    SumOfAmounts(v.us);
    if Total(v.us) < U64 && Total(v.outs) < U64 {
      FeeWithoutWrap(v.us, v.outs);
    }
  }
}
