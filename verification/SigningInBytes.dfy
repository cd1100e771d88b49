/** What consent to a transaction means, written out in the bytes of the committed maps: which screens
    were accepted, where amounts and scripts come from, and what a signed message covers. */
module SigningInBytes {
  import opened Wrappers
  import opened Psbt
  import opened SigningConsent
  import opened SigningProperties

  // ---------------------------------------------------------------- which screens were accepted

  /** A script of witness version 0, and no previous transaction in the map of its input. */
  predicate WithoutPrevious(m: FieldMap, script: Bytes) {
    |script| >= 2 && script[0] == 0x00 && forall k :: k in m.Keys && |k| >= 1 ==> k[0] != 0x00
  }

  lemma {:induction false} UnverifiedIff(tx: Tx, us: seq<Utxo>, internal: seq<bool>)
    requires |us| == |internal|
    ensures AnyUnverified(tx, us, internal) <==>
            exists i :: 0 <= i < |us| && internal[i] && WithoutPrevious(tx.inputs(i), us[i].script)
    decreases us
  {
    if us != [] {
      var n := |us| - 1;
      assert UnverifiedSegwit(tx.inputs(n), us[n].script) == WithoutPrevious(tx.inputs(n), us[n].script);
      hide WithoutPrevious, UnverifiedSegwit;
      UnverifiedIff(tx, us[..n], internal[..n]);
      if AnyUnverified(tx, us[..n], internal[..n]) {
        var i :| 0 <= i < n && internal[..n][i] && WithoutPrevious(tx.inputs(i), us[..n][i].script);
        assert internal[i] && us[i] == us[..n][i];
      }
      if i :| 0 <= i < n && internal[i] && WithoutPrevious(tx.inputs(i), us[i].script) {
        assert internal[..n][i] && us[i] == us[..n][i];
      }
    }
  }

  /** The sighash type of a map is one that may be signed, and neither DEFAULT nor ALL. */
  predicate OtherType(m: FieldMap) {
    [0x03] in m &&
    m[[0x03]] in {[2, 0, 0, 0], [3, 0, 0, 0], [0x81, 0, 0, 0], [0x82, 0, 0, 0], [0x83, 0, 0, 0]}
  }

  lemma FourBytes(raw: Bytes, b0: nat, b1: nat, b2: nat, b3: nat)
    requires |raw| == 4 && raw[0] == b0 && raw[1] == b1 && raw[2] == b2 && raw[3] == b3
    ensures LittleEndian(raw) == b0 + 0x100 * b1 + 0x1_0000 * b2 + 0x100_0000 * b3
  {
    assert raw[1..][1..] == [raw[2], raw[3]];
    assert [raw[2], raw[3]][1..] == [raw[3]];
    assert LittleEndian([raw[3]]) == raw[3];
    assert LittleEndian(raw[1..]) == b1 + 0x100 * LittleEndian([raw[2], raw[3]]);
  }

  lemma NondefaultIs(tx: Tx, i: nat, u: Utxo)
    requires InternalChecked(tx, i, u)
    ensures NondefaultSighash(tx.inputs(i)) <==> OtherType(tx.inputs(i))
  {
    var m := tx.inputs(i);
    if [0x03] in m {
      assert [IN_SIGHASH_TYPE] in m.Keys && [IN_SIGHASH_TYPE][0] == IN_SIGHASH_TYPE;
      var raw := m[[0x03]];
      if |raw| == 4 {
        FourBytes(raw, raw[0], raw[1], raw[2], raw[3]);
        assert raw == [raw[0], raw[1], raw[2], raw[3]];
      }
    }
  }

  lemma {:induction false} NondefaultIff(env: Env, tx: Tx, us: seq<Utxo>, internal: seq<bool>)
    requires |us| == |internal| && InputsChecked(env, tx, us, internal)
    ensures AnyNondefault(tx, internal) <==> exists i :: 0 <= i < |us| && internal[i] && OtherType(tx.inputs(i))
    decreases us
  {
    hide OtherType, NondefaultSighash, InternalChecked, PrevoutChecked;
    if us != [] {
      var n := |us| - 1;
      NondefaultIff(env, tx, us[..n], internal[..n]);
      if internal[n] {
        NondefaultIs(tx, n, us[n]);
      }
      if AnyNondefault(tx, internal[..n]) {
        var i :| 0 <= i < n && internal[..n][i] && OtherType(tx.inputs(i));
        assert internal[i];
      }
      if i :| 0 <= i < n && internal[i] && OtherType(tx.inputs(i)) {
        assert internal[..n][i];
      }
    }
  }

  /** Output i is shown as the output with this number, text and amount. */
  predicate ShownAs(env: Env, outs: seq<Utxo>, change: seq<bool>, i: int, number: nat, text: string, amount: uint64)
    requires |outs| == |change|
  {
    && 0 <= i < |outs| && !change[i] && number == Count(change[..i + 1], false)
    && PrintedScript(env, outs[i].script) == Some(text) && amount == outs[i].amount
  }

  lemma {:induction false} ShownIff(env: Env, outs: seq<Utxo>, change: seq<bool>, a: Answer)
    requires |outs| == |change|
    ensures a in ShownOutputs(env, None, outs, change) <==>
            a.accepted && a.screen.ValidateOutput?
            && exists i :: ShownAs(env, outs, change, i, a.screen.number, a.screen.text, a.screen.amount)
    decreases outs
  {
    if outs != [] {
      var n := |outs| - 1;
      ShownIff(env, outs[..n], change[..n], a);
      assert change[..n + 1] == change;
      if a in ShownOutputs(env, None, outs[..n], change[..n]) {
        var i :| ShownAs(env, outs[..n], change[..n], i, a.screen.number, a.screen.text, a.screen.amount);
        assert change[..n][..i + 1] == change[..i + 1];
        assert ShownAs(env, outs, change, i, a.screen.number, a.screen.text, a.screen.amount);
      }
      if a in ShownOutput(env, None, outs[n], change[n], Count(change, false)) {
        assert ShownAs(env, outs, change, n, a.screen.number, a.screen.text, a.screen.amount);
      }
      if a.accepted && a.screen.ValidateOutput? {
        if i :| ShownAs(env, outs, change, i, a.screen.number, a.screen.text, a.screen.amount) {
          if i < n {
            assert change[..n][..i + 1] == change[..i + 1];
            assert ShownAs(env, outs[..n], change[..n], i, a.screen.number, a.screen.text, a.screen.amount);
          }
        }
      }
    }
  }

  lemma {:induction false} NoneShown(env: Env, swap: SwapRequest, outs: seq<Utxo>, change: seq<bool>)
    requires |outs| == |change|
    ensures ShownOutputs(env, Some(swap), outs, change) == []
    decreases outs
  {
    if outs != [] {
      NoneShown(env, swap, outs[..|outs| - 1], change[..|outs| - 1]);
    }
  }

  /** What is accepted, screen by screen: nothing else, and nothing that was refused. */
  ghost predicate Expected(env: Env, tx: Tx, swap: Option<SwapRequest>, canonical: bool, v: View, a: Answer)
    requires |v.us| == |v.internal| == tx.nInputs && |v.outs| == |v.change|
  {
    a.accepted &&
    match a.screen
    case AuthorizeSpend => !canonical
    case WarnExternalInputs => exists i :: 0 <= i < tx.nInputs && !v.internal[i]
    case WarnUnverifiedSegwit =>
      exists i :: 0 <= i < tx.nInputs && v.internal[i] && WithoutPrevious(tx.inputs(i), v.us[i].script)
    case WarnNondefaultSighash => exists i :: 0 <= i < tx.nInputs && v.internal[i] && OtherType(tx.inputs(i))
    case ValidateOutput(number, text, amount) =>
      swap.None? && exists i :: ShownAs(env, v.outs, v.change, i, number, text, amount)
    case ConfirmFee(fee) => swap.None? && fee == v.fee
  }

  lemma AlertsIff(env: Env, tx: Tx, us: seq<Utxo>, internal: seq<bool>, a: Answer)
    requires |us| == |internal| && InputsChecked(env, tx, us, internal)
    ensures a in Alerts(tx, us, internal) <==>
            || (a == Accept(WarnExternalInputs) && exists i :: 0 <= i < |us| && !internal[i])
            || (a == Accept(WarnUnverifiedSegwit)
                && exists i :: 0 <= i < |us| && internal[i] && WithoutPrevious(tx.inputs(i), us[i].script))
            || (a == Accept(WarnNondefaultSighash)
                && exists i :: 0 <= i < |us| && internal[i] && OtherType(tx.inputs(i)))
  {
    hide AnyUnverified, AnyNondefault, Count, WithoutPrevious, OtherType, InputsChecked;
    UnverifiedIff(tx, us, internal);
    NondefaultIff(env, tx, us, internal);
    NoneCounted(internal);
  }

  lemma ScreensIff(env: Env, swap: Option<SwapRequest>, v: View, a: Answer)
    requires |v.outs| == |v.change|
    ensures a in ShownOutputs(env, swap, v.outs, v.change) <==>
            a.accepted && a.screen.ValidateOutput? && swap.None?
            && exists i :: ShownAs(env, v.outs, v.change, i, a.screen.number, a.screen.text, a.screen.amount)
  {
    hide ShownOutputs, ShownAs;
    if swap.None? {
      ShownIff(env, v.outs, v.change, a);
    } else {
      NoneShown(env, swap.value, v.outs, v.change);
    }
  }

  lemma InOneOf(w: seq<Answer>, x: seq<Answer>, y: seq<Answer>, z: seq<Answer>, a: Answer)
    ensures a in w + x + y + z <==> a in w || a in x || a in y || a in z
  {
  }

  /** The screens that were accepted before the first signature are exactly those that the transaction
      asks for, and no screen was refused. */
  lemma AcceptedExactly(env: Env, tx: Tx, swap: Option<SwapRequest>, canonical: bool, v: View,
      answers: seq<Answer>, signatures: seq<Signature>, a: Answer)
    requires Consented(env, tx, swap, canonical, v, answers, signatures)
    ensures a in answers <==> Expected(env, tx, swap, canonical, v, a)
  {
    hide Alerts, ShownOutputs, WithoutPrevious, OtherType, ShownAs, InputsChecked, OutputsChecked;
    var wallet, alerts := AskIf(!canonical, AuthorizeSpend), Alerts(tx, v.us, v.internal);
    var shown, fee := ShownOutputs(env, swap, v.outs, v.change), AskIf(swap.None?, ConfirmFee(v.fee));
    InOneOf(wallet, alerts, shown, fee, a);
    AlertsIff(env, tx, v.us, v.internal, a);
    ScreensIff(env, swap, v, a);
  }

  // ---------------------------------------------------------------- in which order

  /** Authorisation, the three warnings, the outputs, the fee. */
  function Rank(s: Screen): nat {
    match s
    case AuthorizeSpend => 0
    case WarnExternalInputs => 1
    case WarnUnverifiedSegwit => 2
    case WarnNondefaultSighash => 3
    case ValidateOutput(_, _, _) => 4
    case ConfirmFee(_) => 5
  }

  predicate Precedes(a: Answer, b: Answer) {
    || Rank(a.screen) < Rank(b.screen)
    || (a.screen.ValidateOutput? && b.screen.ValidateOutput? && a.screen.number < b.screen.number)
  }

  predicate InOrder(s: seq<Answer>) {
    forall i, j :: 0 <= i < j < |s| ==> Precedes(s[i], s[j])
  }

  predicate RanksWithin(s: seq<Answer>, low: nat, high: nat) {
    forall i :: 0 <= i < |s| ==> low <= Rank(s[i].screen) <= high
  }

  lemma OrderJoins(a: seq<Answer>, b: seq<Answer>, low: nat, middle: nat, high: nat)
    requires InOrder(a) && InOrder(b) && RanksWithin(a, low, middle) && RanksWithin(b, middle + 1, high)
    requires low <= middle < high
    ensures InOrder(a + b) && RanksWithin(a + b, low, high)
  {
    hide Rank;
  }

  lemma AskedAlone(c: bool, s: Screen)
    ensures InOrder(AskIf(c, s)) && RanksWithin(AskIf(c, s), Rank(s), Rank(s))
  {
  }

  lemma AlertsInOrder(tx: Tx, us: seq<Utxo>, internal: seq<bool>)
    requires |us| == |internal|
    ensures InOrder(Alerts(tx, us, internal)) && RanksWithin(Alerts(tx, us, internal), 1, 3)
  {
    hide InOrder, RanksWithin, AskIf, AnyUnverified, AnyNondefault, Count;
    var x, y := AskIf(Count(internal, false) > 0, WarnExternalInputs), AskIf(AnyUnverified(tx, us, internal),
        WarnUnverifiedSegwit);
    var z := AskIf(AnyNondefault(tx, internal), WarnNondefaultSighash);
    AskedAlone(Count(internal, false) > 0, WarnExternalInputs);
    AskedAlone(AnyUnverified(tx, us, internal), WarnUnverifiedSegwit);
    AskedAlone(AnyNondefault(tx, internal), WarnNondefaultSighash);
    OrderJoins(x, y, 1, 1, 2);
    OrderJoins(x + y, z, 1, 2, 3);
  }

  /** The outputs that are shown come with increasing numbers. */
  lemma {:induction false} ShownInOrder(env: Env, swap: Option<SwapRequest>, outs: seq<Utxo>, change: seq<bool>)
    requires |outs| == |change|
    ensures InOrder(ShownOutputs(env, swap, outs, change))
    ensures forall i :: 0 <= i < |ShownOutputs(env, swap, outs, change)| ==>
      var s := ShownOutputs(env, swap, outs, change)[i].screen; s.ValidateOutput? && s.number <= Count(change, false)
    decreases outs
  {
    if outs != [] {
      var n := |outs| - 1;
      var init := ShownOutputs(env, swap, outs[..n], change[..n]);
      ShownInOrder(env, swap, outs[..n], change[..n]);
      var last := ShownOutput(env, swap, outs[n], change[n], Count(change, false));
      assert InOrder(init + last);
    }
  }

  /** The screens are answered in the order of their kinds, and the outputs in that of their numbers; so none is
      answered twice. */
  lemma AcceptedInOrder(env: Env, tx: Tx, swap: Option<SwapRequest>, canonical: bool, v: View,
      answers: seq<Answer>, signatures: seq<Signature>)
    requires Consented(env, tx, swap, canonical, v, answers, signatures)
    ensures InOrder(answers)
  {
    hide ShownOutputs, InputsChecked, OutputsChecked, Alerts, AskIf, InOrder, RanksWithin, Count;
    var wallet, alerts := AskIf(!canonical, AuthorizeSpend), Alerts(tx, v.us, v.internal);
    var shown, fee := ShownOutputs(env, swap, v.outs, v.change), AskIf(swap.None?, ConfirmFee(v.fee));
    AskedAlone(!canonical, AuthorizeSpend);
    AlertsInOrder(tx, v.us, v.internal);
    ShownRanks(env, swap, v.outs, v.change);
    AskedAlone(swap.None?, ConfirmFee(v.fee));
    OrderJoins(wallet, alerts, 0, 0, 3);
    OrderJoins(wallet + alerts, shown, 0, 3, 4);
    OrderJoins(wallet + alerts + shown, fee, 0, 4, 5);
    assert answers == wallet + alerts + shown + fee;
  }

  lemma ShownRanks(env: Env, swap: Option<SwapRequest>, outs: seq<Utxo>, change: seq<bool>)
    requires |outs| == |change|
    ensures InOrder(ShownOutputs(env, swap, outs, change)) && RanksWithin(ShownOutputs(env, swap, outs, change), 4, 4)
  {
    hide ShownOutputs;
    ShownInOrder(env, swap, outs, change);
  }

  // ---------------------------------------------------------------- where amounts and scripts come from

  /** The bytes of a number, least significant first. */
  function Bytes64(n: nat, k: nat): (b: Bytes)
    ensures |b| == k
  {
    if k == 0 then [] else [n % 256] + Bytes64(n / 256, k - 1)
  }

  lemma {:induction false} BytesRead(b: Bytes)
    ensures Bytes64(LittleEndian(b), |b|) == b
    decreases b
  {
    if b != [] {
      BytesRead(b[1..]);
      assert LittleEndian(b) % 256 == b[0] && LittleEndian(b) / 256 == LittleEndian(b[1..]);
    }
  }

  lemma {:induction false} BytesWritten(n: nat, k: nat)
    requires n < Pow256(k)
    ensures LittleEndian(Bytes64(n, k)) == n
    decreases k
  {
    if k > 0 {
      BytesWritten(n / 256, k - 1);
      assert Bytes64(n, k)[1..] == Bytes64(n / 256, k - 1);
    }
  }

  /** A witness utxo is read as an amount and a script exactly if it is their serialization. */
  lemma WitnessUtxoIff(raw: Bytes, u: Utxo)
    ensures WitnessUtxo(raw) == Some(u) <==>
            |u.script| < 256 && raw == Bytes64(u.amount, 8) + [|u.script|] + u.script
  {
    if WitnessUtxo(raw) == Some(u) {
      BytesRead(raw[..8]);
      assert raw == raw[..8] + [raw[8]] + raw[9..];
    }
    if |u.script| < 256 && raw == Bytes64(u.amount, 8) + [|u.script|] + u.script {
      assert raw[..8] == Bytes64(u.amount, 8) && raw[8] == |u.script| && raw[9..] == u.script;
      EightBytes(u.amount);
    }
  }

  lemma KeyTypes(m: FieldMap, t: byte)
    ensures [t] in m ==> HasKeyType(m, t)
  {
    if [t] in m {
      assert [t] in m.Keys && [t][0] == t;
    }
  }

  /** The fields that an input has for the output it spends all give this amount and script: the witness
      utxo, and the output with the index that the input names in a previous transaction, which has the
      txid that the input names. */
  predicate PrevoutBytes(env: Env, m: FieldMap, u: Utxo) {
    && (HasKeyType(m, 0x00) || HasKeyType(m, 0x01))
    && (HasKeyType(m, 0x01) ==>
          [0x01] in m && |u.script| <= 34 && m[[0x01]] == Bytes64(u.amount, 8) + [|u.script|] + u.script)
    && (HasKeyType(m, 0x00) ==>
          && [0x00] in m && [0x0e] in m && |m[[0x0e]]| <= 32 && [0x0f] in m && |m[[0x0f]]| == 4
          && env.parseRawTx(m[[0x00]], LittleEndian(m[[0x0f]])) == Some(ParsedTx(m[[0x0e]], u)))
  }

  lemma PrevoutIff(env: Env, m: FieldMap, u: Utxo)
    ensures PrevoutChecked(env, m, u) <==> PrevoutBytes(env, m, u)
  {
    hide WitnessUtxo, HasKeyType;
    KeyTypes(m, 0x00);
    KeyTypes(m, 0x01);
    if [0x01] in m {
      WitnessUtxoIff(m[[0x01]], u);
    }
  }

  predicate WitnessProgram(script: Bytes) {
    |script| >= 2 && (script[0] == 0x00 || 0x51 <= script[0] <= 0x60)
  }

  /** What an input of the wallet has to have: a witness utxo for a witness program and a previous transaction
      otherwise; a sighash type, if there is one, of ALL, of another supported type for a witness program,
      or of DEFAULT from version 1 on; and for SINGLE an output beside it. */
  predicate InternalBytes(tx: Tx, i: nat, script: Bytes) {
    var m := tx.inputs(i);
    && HasKeyType(m, if WitnessProgram(script) then 0x01 else 0x00)
    && (HasKeyType(m, 0x03) ==>
          && [0x03] in m
          && (|| m[[0x03]] == [1, 0, 0, 0]
              || (WitnessProgram(script) && OtherType(m))
              || (WitnessProgram(script) && script[0] != 0x00 && m[[0x03]] == [0, 0, 0, 0]))
          && (m[[0x03]] == [3, 0, 0, 0] || m[[0x03]] == [0x83, 0, 0, 0] ==> i < tx.nOutputs))
  }

  lemma InternalIff(tx: Tx, i: nat, u: Utxo)
    ensures InternalChecked(tx, i, u) <==> InternalBytes(tx, i, u.script)
  {
    hide HasKeyType;
    var m := tx.inputs(i);
    if [0x03] in m && |m[[0x03]]| == 4 {
      var raw := m[[0x03]];
      FourBytes(raw, raw[0], raw[1], raw[2], raw[3]);
      assert raw == [raw[0], raw[1], raw[2], raw[3]];
    }
  }

  /** An output map gives an amount and a script exactly if it has them in these bytes. */
  lemma OutputIff(m: FieldMap, u: Utxo)
    ensures OutputOf(m) == Some(u) <==>
            && [0x03] in m && m[[0x03]] == Bytes64(u.amount, 8)
            && [0x04] in m && m[[0x04]] == u.script && |u.script| <= 83
  {
    if [0x03] in m && |m[[0x03]]| == 8 {
      BytesRead(m[[0x03]]);
      EightBytes(u.amount);
    }
  }

  lemma EightBytes(n: uint64)
    ensures LittleEndian(Bytes64(n, 8)) == n
  {
    assert Pow256(4) == 0x1_0000_0000;
    assert Pow256(8) == U64 by { assert Pow256(8) == 256 * (256 * (256 * (256 * Pow256(4)))); }
    BytesWritten(n, 8);
  }

  /** Where the amount and the script of a spent output come from. */
  lemma SpentIsCommitted(env: Env, tx: Tx, swap: Option<SwapRequest>, canonical: bool, v: View, i: nat)
    requires Checked(env, tx, swap, canonical, v) && i < tx.nInputs
    ensures PrevoutBytes(env, tx.inputs(i), v.us[i])
    ensures v.internal[i] ==> env.owned(tx.inputs(i), v.us[i].script) && InternalBytes(tx, i, v.us[i].script)
  {
    hide PrevoutChecked, InternalChecked, InputsChecked, OutputsChecked, Spent, Created, PrevoutBytes, InternalBytes;
    InputCheckedAt(env, tx, v.us, v.internal, i);
    PrevoutIff(env, tx.inputs(i), v.us[i]);
    InternalIff(tx, i, v.us[i]);
  }

  /** Where the amount and the script of a created output come from. */
  lemma CreatedIsCommitted(env: Env, tx: Tx, swap: Option<SwapRequest>, canonical: bool, v: View, i: nat)
    requires Checked(env, tx, swap, canonical, v) && i < tx.nOutputs
    ensures var m, u := tx.outputs(i), v.outs[i];
            && [0x03] in m && m[[0x03]] == Bytes64(u.amount, 8)
            && [0x04] in m && m[[0x04]] == u.script && |u.script| <= 83
  {
    hide InputsChecked, OutputsChecked, Spent, Created, OutputOf;
    OutputCheckedAt(env, tx, swap, v.outs, v.change, i);
    OutputIff(tx.outputs(i), v.outs[i]);
  }

  // ---------------------------------------------------------------- what a signed message covers

  lemma {:induction false} OutpointsAre(tx: Tx, n: nat)
    ensures |Outpoints(tx, n)| == n && forall j :: 0 <= j < n ==> Outpoints(tx, n)[j] == OutpointOf(tx.inputs(j))
  {
    if n > 0 {
      OutpointsAre(tx, n - 1);
    }
  }

  /** The kind of a message follows from the fields of its input: before segwit without a witness utxo,
      and else by the version of the redeem script that hashes to the spent script, or of the spent
      script if there is none. */
  lemma KindInBytes(env: Env, tx: Tx, v: View, msg: Message)
    requires RightMessage(env, tx, v, msg)
    ensures var m, script := tx.inputs(msg.input), v.us[msg.input].script;
            && (msg.kind == Legacy <==> forall k :: k in m.Keys && |k| >= 1 ==> k[0] != 0x01)
            && (msg.kind != Legacy ==>
                  var wrapped := HasKeyType(m, 0x04);
                  && (wrapped ==> [0x04] in m && env.p2sh(m[[0x04]]) == script)
                  && var p := if wrapped then m[[0x04]] else script;
                  |p| >= 2 && p[0] == (if msg.kind == SegwitV0 then 0x00 else 0x51))
  {
  }

  /** The sighash type is the one that the input names in four bytes, or ALL, or DEFAULT for taproot. Other
      types are signed for witness programs only, and SINGLE only with an output beside the input. */
  lemma TypeInBytes(env: Env, tx: Tx, swap: Option<SwapRequest>, canonical: bool, v: View, msg: Message)
    requires Checked(env, tx, swap, canonical, v) && RightMessage(env, tx, v, msg)
    ensures var m, script, t := tx.inputs(msg.input), v.us[msg.input].script, msg.sighashType;
            && (if HasKeyType(m, 0x03) then [0x03] in m && m[[0x03]] == [t, 0, 0, 0]
                else t == if msg.kind == SegwitV1 then 0 else 1)
            && t in {0, 1, 2, 3, 0x81, 0x82, 0x83}
            && (|script| < 2 || (script[0] != 0x00 && !(0x51 <= script[0] <= 0x60)) ==> t == 1 || msg.kind == SegwitV1)
            && (t == 3 || t == 0x83 ==> msg.input < tx.nOutputs)
  {
    hide InputsChecked, OutputsChecked, InternalChecked, RightWhole, RightOwn, CodeFor, KindOf, TypeFor, PrevoutChecked;
    InputCheckedAt(env, tx, v.us, v.internal, msg.input);
    TypeParts(tx, msg.input, v.us[msg.input], msg.kind, msg.sighashType);
  }

  lemma TypeParts(tx: Tx, i: nat, u: Utxo, kind: Kind, t: nat)
    requires InternalChecked(tx, i, u) && t == TypeFor(tx.inputs(i), kind) && KnownType(t)
    ensures var m, script := tx.inputs(i), u.script;
            && (if HasKeyType(m, 0x03) then [0x03] in m && m[[0x03]] == [t, 0, 0, 0]
                else t == if kind == SegwitV1 then 0 else 1)
            && (|script| < 2 || (script[0] != 0x00 && !(0x51 <= script[0] <= 0x60)) ==> t == 1 || kind == SegwitV1)
            && (t == 3 || t == 0x83 ==> i < tx.nOutputs)
  {
    var m := tx.inputs(i);
    if HasKeyType(m, 0x03) {
      var raw := m[[IN_SIGHASH_TYPE]];
      FourBytes(raw, raw[0], raw[1], raw[2], raw[3]);
      assert raw == [raw[0], raw[1], raw[2], raw[3]];
    }
  }

  /** What a message covers, by its kind and its sighash type: outputs, outpoints, sequence numbers,
      amounts and scripts of the whole transaction, and fields of the input itself. */
  lemma CoverageInBytes(env: Env, tx: Tx, swap: Option<SwapRequest>, canonical: bool, v: View, msg: Message)
    requires Checked(env, tx, swap, canonical, v) && RightMessage(env, tx, v, msg)
    ensures var t, i := msg.sighashType, msg.input;
            && (t in {0, 1, 0x81} ==> msg.whole.outputs == Some(v.outs))
            && (t in {2, 0x82} ==> msg.whole.outputs == None)
            && (t in {3, 0x83} ==> i < |v.outs| && msg.whole.outputs == Some([v.outs[i]]))
    ensures msg.whole.prevouts.Some? <==> msg.kind == Legacy || msg.sighashType < 0x80
    ensures msg.whole.prevouts.Some? ==>
              && |msg.whole.prevouts.value| == tx.nInputs
              && forall j :: 0 <= j < tx.nInputs ==> msg.whole.prevouts.value[j] == OutpointOf(tx.inputs(j))
    ensures msg.whole.sequences.Some? <==>
              || msg.kind == Legacy
              || (msg.kind == SegwitV1 && msg.sighashType < 0x80)
              || (msg.kind == SegwitV0 && msg.sighashType < 2)
    ensures if msg.kind == SegwitV1 && msg.sighashType < 0x80
            then msg.whole.amounts == Some(Amounts(v.us)) && msg.whole.scripts == Some(Scripts(v.us))
            else msg.whole.amounts == None && msg.whole.scripts == None
    ensures if msg.kind == SegwitV0 || (msg.kind == SegwitV1 && msg.sighashType >= 0x80)
            then msg.own.Some? && msg.own.value.outpoint == OutpointOf(tx.inputs(msg.input))
                 && msg.own.value.amount == v.us[msg.input].amount
            else msg.own == None
  {
    TypeInBytes(env, tx, swap, canonical, v, msg);
    hide InputsChecked, OutputsChecked, CodeFor, KindOf, TypeFor, Spent, Created, HasKeyType, RightWhole, RightOwn;
    WholeParts(tx, v, msg.input, msg.kind, msg.sighashType, msg.whole);
    OwnParts(tx.inputs(msg.input), v.us[msg.input], msg.kind, msg.sighashType, msg.own);
  }

  lemma BitsOfType(t: nat)
    requires KnownType(t)
    ensures AnyoneCanPay(t) <==> t >= 0x80
    ensures t % 4 == (if t < 4 then t else t - 0x80)
  {
  }

  lemma WholeParts(tx: Tx, v: View, i: nat, kind: Kind, t: nat, w: WholeTx)
    requires RightWhole(tx, v, i, kind, t, w) && KnownType(t) && (t == 3 || t == 0x83 ==> i < |v.outs|)
    ensures t in {0, 1, 0x81} ==> w.outputs == Some(v.outs)
    ensures t in {2, 0x82} ==> w.outputs == None
    ensures t in {3, 0x83} ==> w.outputs == Some([v.outs[i]])
    ensures w.prevouts.Some? <==> kind == Legacy || t < 0x80
    ensures w.prevouts.Some? ==>
              && |w.prevouts.value| == tx.nInputs
              && forall j :: 0 <= j < tx.nInputs ==> w.prevouts.value[j] == OutpointOf(tx.inputs(j))
    ensures w.sequences.Some? <==> kind == Legacy || (kind == SegwitV1 && t < 0x80) || (kind == SegwitV0 && t < 2)
    ensures if kind == SegwitV1 && t < 0x80 then w.amounts == Some(Amounts(v.us)) && w.scripts == Some(Scripts(v.us))
            else w.amounts == None && w.scripts == None
  {
    BitsOfType(t);
    hide AnyoneCanPay, Outpoints, Amounts, Scripts, SequencesRight;
    OutpointsAre(tx, tx.nInputs);
  }

  lemma OwnParts(m: FieldMap, u: Utxo, kind: Kind, t: nat, own: Option<OwnInput>)
    requires RightOwn(m, u, kind, t, own) && KnownType(t)
    ensures if kind == SegwitV0 || (kind == SegwitV1 && t >= 0x80)
            then own.Some? && own.value.outpoint == OutpointOf(m) && own.value.amount == u.amount
            else own == None
  {
    BitsOfType(t);
    hide AnyoneCanPay, OutpointOf;
  }

  /** The script in a message: that of the key hash for a program of 20 bytes, the witness script that
      hashes to a program of 32 bytes, the redeem script or the spent script before segwit, and for
      taproot the spent script if only this input is covered. */
  lemma ScriptInBytes(env: Env, tx: Tx, v: View, msg: Message)
    requires RightMessage(env, tx, v, msg)
    ensures var m, script := tx.inputs(msg.input), v.us[msg.input].script;
            match msg.kind
            case Legacy => if HasKeyType(m, 0x04) then [0x04] in m && msg.code == Some(m[[0x04]])
                else msg.code == Some(script)
            case SegwitV0 =>
              (var p := if HasKeyType(m, 0x04) && [0x04] in m then m[[0x04]] else script;
               || (|p| == 22 && p[1] == 0x14 && msg.code == Some([0x76, 0xa9, 0x14] + p[2..] + [0x88, 0xac]))
               || (|p| == 34 && p[1] == 0x20 && [0x05] in m && env.sha256(m[[0x05]]) == p[2..]
                   && msg.code == Some(m[[0x05]])))
            case SegwitV1 => msg.code == if msg.sighashType >= 0x80 then Some(script) else None
  {
  }

  // ---------------------------------------------------------------- version, lock time, sequence numbers, outpoints

  /** The field of the map, if it has four bytes and was not withheld, or else the given value. */
  predicate FourBytesOr(m: FieldMap, key: Bytes, other: Bytes, b: Bytes) {
    b == other || (key in m && |m[key]| == 4 && b == m[key])
  }

  /** The version of a message is field 0x02 of the global map, its lock time field 0x03 or zero, and every sequence
      number field 0x10 of its input or the final one. */
  lemma NumbersInBytes(env: Env, tx: Tx, v: View, msg: Message)
    requires RightMessage(env, tx, v, msg)
    ensures [0x02] in tx.globals && |tx.globals[[0x02]]| == 4 && msg.version == tx.globals[[0x02]]
    ensures FourBytesOr(tx.globals, [0x03], [0, 0, 0, 0], msg.locktime)
    ensures msg.own.Some? ==>
      FourBytesOr(tx.inputs(msg.input), [0x10], [0xff, 0xff, 0xff, 0xff], msg.own.value.sequence)
    ensures msg.whole.sequences.Some? ==>
      && |msg.whole.sequences.value| == tx.nInputs
      && forall i :: 0 <= i < tx.nInputs ==>
           FourBytesOr(tx.inputs(i), [0x10], [0xff, 0xff, 0xff, 0xff], msg.whole.sequences.value[i])
  {
    hide KindOf, TypeFor, CodeFor, CoveredOutputs, CoversSequences, NondefaultSighash, HasKeyType, Program;
    if msg.whole.sequences.Some? {
      forall i | 0 <= i < tx.nInputs
        ensures FourBytesOr(tx.inputs(i), [0x10], [0xff, 0xff, 0xff, 0xff], msg.whole.sequences.value[i])
      {
        assert SequenceRight(tx.inputs(i), msg.whole.sequences.value[i]);
      }
    }
  }

  /** The outpoint of an input is its fields 0x0e and 0x0f. */
  lemma OutpointInBytes(m: FieldMap)
    ensures [0x0e] in m && |m[[0x0e]]| <= 32 ==> OutpointOf(m).txid == m[[0x0e]]
    ensures [0x0f] in m && |m[[0x0f]]| <= 4 ==> OutpointOf(m).n == m[[0x0f]]
  {
  }
}
