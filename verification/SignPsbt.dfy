/** The handler of SIGN_PSBT (src/handler/sign_psbt.c) as a session that talks to two oracles.
    The client answers every request for a committed field with that field, or fails. The user
    accepts or refuses every screen. Both choices are arbitrary at every step. The session records
    the screens with their answers and the yielded signatures in the order in which they happen. */
module SignPsbt {
  import opened Wrappers
  import opened Psbt
  import opened SigningConsent

  const MAX_N_INPUTS_CAN_SIGN := 512

  datatype Status = Ok | Deny | IncorrectData | NotSupported | BadState

  /** What the device finds out about the wallet policy of the request: whether a registration hmac
      is given and valid, whether the policy parses, and whether it is one of the standard
      single-key policies. */
  datatype WalletCheck = WalletCheck(hmacGiven: bool, hmacValid: bool, policyParses: bool, policyStandard: bool)

  /** The global map has its keys in order, a version, and a fallback lock time of the right length if
      it has one. */
  predicate GlobalsAcceptable(tx: Tx) {
    tx.globalsInOrder && TxVersionOf(tx.globals).Some? && LocktimeOf(tx.globals).Some?
  }

  predicate WalletAcceptable(tx: Tx, swap: Option<SwapRequest>, w: WalletCheck) {
    && tx.nInputs <= MAX_N_INPUTS_CAN_SIGN && w.policyParses
    && if w.hmacGiven then w.hmacValid && swap.None? else w.policyStandard
  }

  /** The streams behind the transaction-wide hashes of segwit signing. */
  datatype TxHashes = TxHashes(
    prevouts: seq<Outpoint>, sequences: seq<Bytes>, outputs: seq<Utxo>, amounts: seq<uint64>, scripts: seq<Bytes>)

  /** The streams are those of the transaction, up to sequence numbers that the client withheld. */
  ghost predicate HashesRight(env: Env, tx: Tx, h: TxHashes) {
    && h.prevouts == Outpoints(tx, tx.nInputs) && SequencesRight(tx, h.sequences)
    && h.outputs == Created(tx, tx.nOutputs)
    && h.amounts == Amounts(Spent(env, tx, tx.nInputs)) && h.scripts == Scripts(Spent(env, tx, tx.nInputs))
  }

  // ---------------------------------------------------------------- the client as an oracle

  /** An honest client answers whenever it can; any other one may fail at any request. */
  datatype Client = Honest | Arbitrary {
    method Fails() returns (b: bool)
      ensures Honest? ==> !b
    {
      b := *;
      if Honest? {
        b := false;
      }
    }

    /** call_get_merkleized_map_value: the committed value of a one-byte key, or failure. */
    method Fetch(m: FieldMap, t: byte, maxLen: nat) returns (r: Option<Bytes>)
      ensures r.None? || r == Field(m, t, maxLen)
      ensures Honest? ==> r == Field(m, t, maxLen)
    {
      var fails := Fails();
      r := if fails then None else Field(m, t, maxLen);
    }

    /** call_stream_merkleized_map_value: the same for a value of any length. */
    method Stream(m: FieldMap, t: byte) returns (r: Option<Bytes>)
      ensures r.Some? ==> [t] in m && r.value == m[[t]]
      ensures Honest? ==> r.Some? == ([t] in m)
    {
      var fails := Fails();
      r := if fails || [t] !in m then None else Some(m[[t]]);
    }

    /** The sequence number of an input; the final one if the client gives none of four bytes. */
    method FetchSequence(m: FieldMap) returns (s: Bytes)
      ensures SequenceRight(m, s)
      ensures Honest? ==> s == SequenceOf(m)
    {
      var raw := Fetch(m, IN_SEQUENCE, 4);
      s := if raw.Some? && |raw.value| == 4 then raw.value else FINAL_SEQUENCE;
    }

    /** The fallback lock time: zero if the client does not find it, None if it has a wrong length. */
    method FetchLocktime(globals: FieldMap) returns (t: Option<Bytes>)
      ensures t.Some? ==> LocktimeRight(globals, t.value)
      ensures Honest? ==> t == LocktimeOf(globals)
    {
      var withheld := Fails();
      if withheld || [GLOBAL_FALLBACK_LOCKTIME] !in globals {
        return Some(NO_LOCKTIME);
      }
      var fails := Fails();
      t := if fails then None else LocktimeOf(globals);
    }

    /** call_get_merkleized_map: the committed map at an index if its keys are in order, or failure. */
    method FetchMap(maps: Maps, i: nat) returns (r: Option<FieldMap>)
      ensures r.Some? ==> r.value == maps.at(i) && maps.inOrder(i)
      ensures Honest? ==> r.Some? == maps.inOrder(i)
    {
      var fails := Fails();
      r := if fails || !maps.inOrder(i) then None else Some(maps.at(i));
    }

    /** is_in_out_internal: -1 on failure, 0 for external, 1 only for a script of the wallet. */
    method IsInternal(env: Env, m: FieldMap, script: Bytes, isInput: bool) returns (r: int)
      ensures -1 <= r <= 1
      ensures r == 1 ==> if isInput then env.owned(m, script) else env.ownedChange(m, script)
      ensures Honest? ==> r != -1 && (r == 1) == if isInput then env.owned(m, script) else env.ownedChange(m, script)
    {
      var fails := Fails();
      var keyInfoMissing := Fails();
      if fails {
        r := -1;
      } else if !keyInfoMissing && if isInput then env.owned(m, script) else env.ownedChange(m, script) {
        r := 1;
      } else {
        r := 0;
      }
    }

    /** find_first_internal_key_placeholder: whether some key of the policy is the device's. */
    method FindInternalKey(env: Env) returns (b: bool)
      ensures Honest? ==> b == (true in env.ourKeys)
    {
      var fails := Fails();
      b := !fails && true in env.ourKeys;
    }

    method GetNonWitness(env: Env, m: FieldMap, expectedTxid: Option<Bytes>) returns (r: Option<Utxo>)
      ensures r.Some? ==> NonWitnessOf(env, m).Some? && NonWitnessOf(env, m).value.prevout == r.value
      ensures r.Some? && expectedTxid.Some? ==> NonWitnessOf(env, m).value.txid == expectedTxid.value
      ensures Honest? && r.None? ==>
                NonWitnessOf(env, m).None? ||
                (expectedTxid.Some? && NonWitnessOf(env, m).value.txid != expectedTxid.value)
    {
      var n := Fetch(m, IN_OUTPUT_INDEX, 4);
      if n.None? || |n.value| != 4 {
        return None;
      }
      var fails := Fails();
      if fails || NonWitnessOf(env, m).None? {
        return None;
      }
      var parsed := NonWitnessOf(env, m).value;
      if expectedTxid.Some? && parsed.txid != expectedTxid.value {
        return None;
      }
      r := Some(parsed.prevout);
    }

    method GetWitness(m: FieldMap) returns (r: Option<Utxo>)
      ensures r.None? || r == WitnessOf(m)
      ensures Honest? ==> r == WitnessOf(m)
    {
      var raw := Fetch(m, IN_WITNESS_UTXO, 9 + MAX_PREVOUT_SCRIPTPUBKEY_LEN);
      r := if raw.None? then None else WitnessUtxo(raw.value);
    }

    /** The witness utxo if the client gives it, the previous transaction otherwise. */
    method GetEither(env: Env, m: FieldMap, ghost u: Utxo) returns (r: Option<Utxo>)
      requires Agrees(env, m, u)
      ensures r.None? || r.value == u
      ensures Honest? ==> r.Some?
    {
      r := GetWitness(m);
      if r.None? {
        r := GetNonWitness(env, m, None);
      }
    }

    /** Reads and cross-checks the amount and script of an input. */
    method ReadPrevout(env: Env, m: FieldMap) returns (r: Option<Utxo>)
      ensures r.Some? ==> PrevoutChecked(env, m, r.value)
      ensures Honest? && r.None? ==> forall u :: !PrevoutChecked(env, m, u)
    {
      var hasNonWitness, hasWitness := HasKeyType(m, IN_NON_WITNESS_UTXO), HasKeyType(m, IN_WITNESS_UTXO);
      Unflagged(env, m);
      if !hasNonWitness && !hasWitness {
        return None;
      }
      r := None;
      if hasNonWitness {
        var txid := Fetch(m, IN_PREVIOUS_TXID, 32);
        if txid.None? {
          return None;
        }
        r := GetNonWitness(env, m, txid);
        if r.None? {
          return None;
        }
      }
      if hasWitness {
        var w := GetWitness(m);
        if w.None? {
          return None;
        }
        if hasNonWitness {
          if r.value != w.value {
            return None;
          }
        } else {
          r := w;
        }
      }
    }

    /** The checks on an input that belongs to the wallet: which utxo fields it needs and whether
        its sighash type is allowed. */
    method CheckInternal(tx: Tx, i: nat, u: Utxo) returns (st: Status, unverified: bool, nondefault: bool)
      ensures st == Ok ==> InternalChecked(tx, i, u)
      ensures st == Ok ==> unverified == UnverifiedSegwit(tx.inputs(i), u.script)
      ensures st == Ok ==> nondefault == NondefaultSighash(tx.inputs(i))
      ensures Honest? && InternalChecked(tx, i, u) ==> st == Ok
    {
      var m := tx.inputs(i);
      unverified, nondefault := false, false;
      var segwit := SegwitVersion(u.script);
      if segwit == -1 && !HasKeyType(m, IN_NON_WITNESS_UTXO) {
        return IncorrectData, false, false;
      }
      if segwit == 0 && !HasKeyType(m, IN_NON_WITNESS_UTXO) {
        unverified := true;
      }
      if segwit >= 0 && !HasKeyType(m, IN_WITNESS_UTXO) {
        return IncorrectData, false, false;
      }
      if !HasKeyType(m, IN_SIGHASH_TYPE) {
        return Ok, unverified, false;
      }
      var raw := Fetch(m, IN_SIGHASH_TYPE, 4);
      if raw.None? || |raw.value| != 4 {
        return IncorrectData, false, false;
      }
      var t := LittleEndian(raw.value);
      if (segwit > 0 && t == SIGHASH_DEFAULT) || t == SIGHASH_ALL {
      } else if segwit >= 0 && t in {2, 3, 0x81, 0x82, 0x83} {
        nondefault := true;
      } else {
        return NotSupported, false, false;
      }
      if t % 4 == SIGHASH_SINGLE && i >= tx.nOutputs {
        return NotSupported, false, false;
      }
      st := Ok;
    }
  }

  lemma Unflagged(env: Env, m: FieldMap)
    ensures !HasKeyType(m, IN_WITNESS_UTXO) ==> WitnessOf(m).None?
    ensures !HasKeyType(m, IN_NON_WITNESS_UTXO) ==> NonWitnessOf(env, m).None?
  {
    var w, n := [IN_WITNESS_UTXO], [IN_NON_WITNESS_UTXO];
    assert w[0] == IN_WITNESS_UTXO && n[0] == IN_NON_WITNESS_UTXO;
  }

  /** What the loop over the inputs has read and summed up. */
  datatype InputSums = InputSums(total: uint64, unverified: bool, nondefault: bool)

  ghost predicate InputsRead(env: Env, tx: Tx, us: seq<Utxo>, internal: seq<bool>, s: InputSums)
    requires |us| == |internal|
  {
    && us == Spent(env, tx, |us|) && InputsChecked(env, tx, us, internal)
    && s == InputSums(Total64(us), AnyUnverified(tx, us, internal), AnyNondefault(tx, internal))
  }

  lemma ExtendInputs(env: Env, tx: Tx, us: seq<Utxo>, internal: seq<bool>, s: InputSums, u: Utxo, b: bool,
      s': InputSums)
    requires |us| == |internal| && InputsRead(env, tx, us, internal, s)
    requires u == SpentBy(env, tx, |us|) && InputChecked(env, tx, |us|, u, b)
    requires s'.total == AddU64(s.total, u.amount)
    requires s'.unverified == (s.unverified || (b && UnverifiedSegwit(tx.inputs(|us|), u.script)))
    requires s'.nondefault == (s.nondefault || (b && NondefaultSighash(tx.inputs(|us|))))
    ensures InputsRead(env, tx, us + [u], internal + [b], s')
  {
    assert (us + [u])[..|us|] == us && (internal + [b])[..|us|] == internal;
  }

  /** What the loop over the outputs has read, summed up and shown. */
  datatype OutputSums = OutputSums(total: uint64, change: uint64, external: nat, changes: nat)

  ghost predicate OutputsRead(
    env: Env, tx: Tx, swap: Option<SwapRequest>, outs: seq<Utxo>, change: seq<bool>, s: OutputSums, shown: seq<Answer>)
    requires |outs| == |change|
  {
    && OutputsChecked(env, tx, swap, outs, change)
    && s == OutputSums(Total64(outs), Change64(outs, change), Count(change, false), Count(change, true))
    && shown == ShownOutputs(env, swap, outs, change)
  }

  function AddOutput(s: OutputSums, u: Utxo, b: bool): OutputSums {
    if b then s.(total := AddU64(s.total, u.amount), change := AddU64(s.change, u.amount), changes := s.changes + 1)
    else s.(total := AddU64(s.total, u.amount), external := s.external + 1)
  }

  lemma ExtendOutputs(
    env: Env, tx: Tx, swap: Option<SwapRequest>, outs: seq<Utxo>, change: seq<bool>, s: OutputSums, shown: seq<Answer>,
    u: Utxo, b: bool)
    requires |outs| == |change| && OutputsRead(env, tx, swap, outs, change, s, shown)
    requires OutputChecked(env, tx, swap, |outs|, u, b)
    ensures OutputsRead(env, tx, swap, outs + [u], change + [b], AddOutput(s, u, b),
                        shown + ShownOutput(env, swap, u, b, AddOutput(s, u, b).external))
  {
    assert (outs + [u])[..|outs|] == outs && (change + [b])[..|outs|] == change;
  }

  lemma {:induction false} AllChange(outs: seq<Utxo>, change: seq<bool>)
    requires |outs| == |change| && Count(change, false) == 0
    ensures Total64(outs) == Change64(outs, change) && forall i :: 0 <= i < |outs| ==> change[i]
    decreases outs
  {
    if outs != [] {
      AllChange(outs[..|outs| - 1], change[..|outs| - 1]);
    }
  }

  /** With a single output that is not change, the difference of the two 64-bit totals is its amount,
      whether or not the totals wrap around. */
  lemma {:induction false} PaidExactly(outs: seq<Utxo>, change: seq<bool>)
    requires |outs| == |change| && Count(change, false) == 1
    ensures forall i :: 0 <= i < |outs| && !change[i] ==>
            SubU64(Total64(outs), Change64(outs, change)) == outs[i].amount
    decreases outs
  {
    var n := |outs| - 1;
    if change[n] {
      PaidExactly(outs[..n], change[..n]);
    } else {
      AllChange(outs[..n], change[..n]);
    }
  }

  predicate ConfirmAcceptable(swap: Option<SwapRequest>, inputsTotal: uint64, s: OutputSums) {
    && s.total <= inputsTotal && s.changes <= MAX_CHANGE_OUTPUTS
    && (swap.Some? ==> && s.external == 1 && inputsTotal - s.total == swap.value.fees
                       && SubU64(s.total, s.change) == swap.value.amount)
  }

  function ActualSums(env: Env, tx: Tx): OutputSums {
    var outs, change := Created(tx, tx.nOutputs), OwnedChange(env, tx, tx.nOutputs);
    OutputSums(Total64(outs), Change64(outs, change), Count(change, false), Count(change, true))
  }

  /** What the request has to be for an honest client and a willing user to get it signed. */
  ghost predicate Acceptable(env: Env, tx: Tx, swap: Option<SwapRequest>, w: WalletCheck) {
    && GlobalsAcceptable(tx) && WalletAcceptable(tx, swap, w) && true in env.ourKeys
    && InputsAcceptable(env, tx, tx.nInputs) && AlertsAcceptable(swap, Owned(env, tx, tx.nInputs))
    && OutputsAcceptable(env, tx, swap, tx.nOutputs)
    && ConfirmAcceptable(swap, Total64(Spent(env, tx, tx.nInputs)), ActualSums(env, tx))
  }

  lemma Approved(
    env: Env, tx: Tx, swap: Option<SwapRequest>, canonical: bool, internal: seq<bool>, s: InputSums,
    change: seq<bool>, os: OutputSums, shown: seq<Answer>, fee: uint64)
    requires |internal| == tx.nInputs && InputsRead(env, tx, Spent(env, tx, tx.nInputs), internal, s)
    requires AlertsAcceptable(swap, internal) && (swap.Some? ==> canonical)
    requires |change| == tx.nOutputs && OutputsRead(env, tx, swap, Created(tx, tx.nOutputs), change, os, shown)
    requires ConfirmAcceptable(swap, s.total, os) && fee == s.total - os.total
    ensures Checked(env, tx, swap, canonical,
                    View(Spent(env, tx, tx.nInputs), Created(tx, tx.nOutputs), internal, change, fee))
  {
    if swap.Some? {
      PaidExactly(Created(tx, tx.nOutputs), change);
    }
  }

  ghost predicate RightSignature(env: Env, tx: Tx, v: View, answered: nat, s: Signature) {
    s.answered == answered && RightMessage(env, tx, v, s.message)
  }

  function SignedInputs(ss: seq<Signature>): (r: seq<nat>)
    ensures |r| == |ss| && forall k :: 0 <= k < |ss| ==> r[k] == ss[k].message.input
  {
    seq(|ss|, k requires 0 <= k < |ss| => ss[k].message.input)
  }

  /** The positions of the inputs marked internal. */
  function Indices(internal: seq<bool>): seq<nat> {
    if internal == [] then []
    else
      var n := |internal| - 1;
      Indices(internal[..n]) + if internal[n] then [n] else []
  }

  function Repeated(s: seq<nat>, n: nat): seq<nat> {
    if n == 0 then [] else Repeated(s, n - 1) + s
  }

  /** Input i is to be signed as this kind of input, with this sighash type. */
  ghost predicate Ready(env: Env, tx: Tx, v: View, i: nat, kind: Kind, t: nat) {
    && i < |v.us| == |v.internal| && i < tx.nInputs && v.internal[i] && v.outs == Created(tx, tx.nOutputs)
    && var m, u := tx.inputs(i), v.us[i];
    && KindOf(m, u.script) == Some(kind) && t == TypeFor(m, kind) && KnownType(t)
    && (t == SIGHASH_DEFAULT || t == SIGHASH_ALL || NondefaultSighash(m))
    && (t % 4 == SIGHASH_SINGLE ==> i < tx.nOutputs)
    && (kind == Legacy ==> t == SIGHASH_ALL)
    && (kind != Legacy ==> WitnessOf(m) == Some(u))
    && (kind != Legacy && HasKeyType(m, IN_REDEEM_SCRIPT) ==> env.p2sh(Program(m, u.script).value) == u.script)
  }

  ghost predicate HashesOf(tx: Tx, v: View, h: TxHashes) {
    && h.prevouts == Outpoints(tx, tx.nInputs) && SequencesRight(tx, h.sequences)
    && h.outputs == v.outs && h.amounts == Amounts(v.us) && h.scripts == Scripts(v.us)
  }

  lemma {:induction false} CreatedAt(tx: Tx, n: nat, i: nat)
    ensures i < n ==> Created(tx, n)[i] == CreatedAs(tx, i)
  {
    if i < n - 1 {
      CreatedAt(tx, n - 1, i);
    }
  }

  // ---------------------------------------------------------------- what an honest client gets signed

  predicate OutpointComplete(m: FieldMap) {
    && Field(m, IN_PREVIOUS_TXID, 32).Some? && |Field(m, IN_PREVIOUS_TXID, 32).value| == 32
    && Field(m, IN_OUTPUT_INDEX, 4).Some? && |Field(m, IN_OUTPUT_INDEX, 4).value| == 4
  }

  predicate OutpointsComplete(tx: Tx, n: nat) {
    n == 0 || (OutpointsComplete(tx, n - 1) && tx.inputMaps.inOrder(n - 1) && OutpointComplete(tx.inputs(n - 1)))
  }

  predicate OutputsReadable(tx: Tx, n: nat) {
    n == 0 || (OutputsReadable(tx, n - 1) && tx.outputMaps.inOrder(n - 1) && OutputOf(tx.outputs(n - 1)).Some?)
  }

  /** Every field that goes into a hash for the whole transaction is there. */
  predicate Hashable(tx: Tx) {
    OutpointsComplete(tx, tx.nInputs) && OutputsReadable(tx, tx.nOutputs)
  }

  /** There is a message for the input: its script, or the program that its redeem script has to hash
      to, has a version that is supported, and the script code can be computed. */
  predicate InputSignable(env: Env, tx: Tx, i: nat) {
    var m, script := tx.inputs(i), SpentBy(env, tx, i).script;
    && KindOf(m, script).Some?
    && var kind := KindOf(m, script).value;
    && (kind != SegwitV1 ==> CodeFor(env, m, script, kind, SIGHASH_ALL).Some?)
    && (kind != Legacy && HasKeyType(m, IN_REDEEM_SCRIPT) ==> env.p2sh(Program(m, script).value) == script)
  }

  predicate AllSignable(env: Env, tx: Tx, internal: seq<bool>) {
    internal == [] ||
    var n := |internal| - 1;
    AllSignable(env, tx, internal[..n]) && (internal[n] ==> InputSignable(env, tx, n))
  }

  lemma {:induction false} CompleteAt(tx: Tx, n: nat, i: nat)
    requires i < n
    ensures OutpointsComplete(tx, n) ==> tx.inputMaps.inOrder(i) && OutpointComplete(tx.inputs(i))
    ensures OutputsReadable(tx, n) ==> tx.outputMaps.inOrder(i) && OutputOf(tx.outputs(i)).Some?
  {
    hide OutpointComplete, OutputOf;
    if i < n - 1 {
      CompleteAt(tx, n - 1, i);
    }
  }

  lemma HashableAt(tx: Tx, i: nat)
    ensures Hashable(tx) && i < tx.nInputs ==> tx.inputMaps.inOrder(i) && OutpointComplete(tx.inputs(i))
    ensures Hashable(tx) && i < tx.nOutputs ==> tx.outputMaps.inOrder(i) && OutputOf(tx.outputs(i)).Some?
  {
    hide OutpointComplete, OutputOf;
    if i < tx.nInputs {
      CompleteAt(tx, tx.nInputs, i);
    }
    if i < tx.nOutputs {
      CompleteAt(tx, tx.nOutputs, i);
    }
  }

  lemma {:induction false} CheckedReadable(env: Env, tx: Tx, swap: Option<SwapRequest>, outs: seq<Utxo>,
      change: seq<bool>)
    requires |outs| == |change| && OutputsChecked(env, tx, swap, outs, change)
    ensures OutputsReadable(tx, |outs|)
    decreases outs
  {
    hide OutputOf;
    if outs != [] {
      var n := |outs| - 1;
      CheckedReadable(env, tx, swap, outs[..n], change[..n]);
    }
  }

  lemma {:induction false} SpentAt(env: Env, tx: Tx, n: nat, i: nat)
    requires i < n
    ensures Spent(env, tx, n)[i] == SpentBy(env, tx, i)
  {
    if i < n - 1 {
      SpentAt(env, tx, n - 1, i);
    }
  }

  lemma InOrderAt(env: Env, tx: Tx, us: seq<Utxo>, internal: seq<bool>, i: nat)
    requires i < |us| == |internal| && InputsChecked(env, tx, us, internal)
    ensures tx.inputMaps.inOrder(i)
  {
    hide InputsChecked, PrevoutChecked, InternalChecked;
    InputCheckedAt(env, tx, us, internal, i);
  }

  lemma NotSignable(env: Env, tx: Tx, internal: seq<bool>, i: nat)
    requires i < |internal| && internal[i]
    ensures AllSignable(env, tx, internal) ==> InputSignable(env, tx, i)
  {
    hide InputSignable, AllSignable;
    if AllSignable(env, tx, internal) {
      SignableAt(env, tx, internal, i);
    }
  }

  lemma {:induction false} SignableAt(env: Env, tx: Tx, internal: seq<bool>, i: nat)
    requires i < |internal| && internal[i] && AllSignable(env, tx, internal)
    ensures InputSignable(env, tx, i)
    decreases |internal|
  {
    hide InputSignable;
    var n := |internal| - 1;
    if i < n {
      SignableAt(env, tx, internal[..n], i);
    }
  }

  lemma KnownBits(t: nat)
    requires KnownType(t)
    ensures t % 32 == t % 4
  {
  }

  /** What was checked before decides the kind of message and the sighash type. */
  lemma TypeAllowed(env: Env, tx: Tx, i: nat, u: Utxo, kind: Kind)
    requires InputChecked(env, tx, i, u, true) && KindOf(tx.inputs(i), u.script) == Some(kind)
    ensures var t := TypeFor(tx.inputs(i), kind);
            && KnownType(t) && (t == SIGHASH_DEFAULT || t == SIGHASH_ALL || NondefaultSighash(tx.inputs(i)))
            && (t % 4 == SIGHASH_SINGLE ==> i < tx.nOutputs) && (kind == Legacy ==> t == SIGHASH_ALL)
  {
    hide Agrees, PrevoutChecked, Program, SighashOf;
  }

  /** The user as an oracle: a willing one accepts every screen. */
  datatype User = Willing | AnyUser {
    method Answers() returns (b: bool)
      ensures Willing? ==> b
    {
      b := *;
      if Willing? {
        b := true;
      }
    }
  }

  class Session {
    const env: Env
    const tx: Tx
    const swap: Option<SwapRequest>
    const client: Client
    const user: User

    var txVersion: Bytes
    var locktime: Bytes
    var isWalletCanonical: bool
    var inputsTotal: uint64
    var outputsTotal: uint64
    var internalInputsTotal: uint64
    var changeOutputsTotal: uint64
    var showMissingNonWitnessUtxo: bool
    var showNondefaultSighash: bool
    var externalOutputsCount: nat
    var changeCount: nat
    var answers: seq<Answer>
    var signatures: seq<Signature>
    var hashes: Option<TxHashes>

    constructor (env: Env, tx: Tx, swap: Option<SwapRequest>, client: Client, user: User)
      ensures this.env == env && this.tx == tx && this.swap == swap && this.client == client && this.user == user
      ensures inputsTotal == outputsTotal == internalInputsTotal == changeOutputsTotal == 0
      ensures externalOutputsCount == changeCount == 0
      ensures !showMissingNonWitnessUtxo && !showNondefaultSighash
      ensures answers == [] && signatures == []
    {
      this.env, this.tx, this.swap, this.client, this.user := env, tx, swap, client, user;
      txVersion, locktime := [], [];
      isWalletCanonical, inputsTotal, outputsTotal, internalInputsTotal, changeOutputsTotal := false, 0, 0, 0, 0;
      showMissingNonWitnessUtxo, showNondefaultSighash, externalOutputsCount, changeCount := false, false, 0, 0;
      answers, signatures, hashes := [], [], None;
    }

    method Ask(s: Screen) returns (ok: bool)
      modifies `answers
      ensures answers == old(answers) + [Asked(s, ok)]
      ensures user.Willing? ==> ok
    {
      ok := user.Answers();
      answers := answers + [Asked(s, ok)];
    }

    method AskWhen(c: bool, s: Screen) returns (ok: bool)
      modifies `answers
      ensures ok ==> answers == old(answers) + AskIf(c, s)
      ensures user.Willing? ==> ok
    {
      ok := true;
      if c {
        ok := Ask(s);
      }
    }

    // -------------------------------------------------------------- inputs

    function Sums(): InputSums
      reads this
    {
      InputSums(inputsTotal, showMissingNonWitnessUtxo, showNondefaultSighash)
    }

    /** Reads an input and decides whether it is one of the wallet's. */
    method ClassifyInput(i: nat) returns (st: Status, u: Utxo, isInternal: bool, unverified: bool, nondefault: bool)
      ensures st == Ok ==> InputChecked(env, tx, i, u, isInternal) && u == SpentBy(env, tx, i)
      ensures st == Ok ==> unverified == (isInternal && UnverifiedSegwit(tx.inputs(i), u.script))
      ensures st == Ok ==> nondefault == (isInternal && NondefaultSighash(tx.inputs(i)))
      ensures client.Honest? ==> (st == Ok <==> InputAcceptable(env, tx, i))
      ensures client.Honest? && st == Ok ==> isInternal == env.owned(tx.inputs(i), SpentBy(env, tx, i).script)
    {
      st, u, isInternal, unverified, nondefault := IncorrectData, Utxo(0, []), false, false, false;
      var m := client.FetchMap(tx.inputMaps, i);
      if m.None? || !env.pubkeysOk(m.value) {
        return;
      }
      var prevout := client.ReadPrevout(env, m.value);
      if prevout.None? {
        return;
      }
      u := prevout.value;
      assert Prevout(env, m.value) == Some(u);
      var r := client.IsInternal(env, m.value, u.script, true);
      if r == 1 {
        isInternal := true;
        st, unverified, nondefault := client.CheckInternal(tx, i, u);
      } else if r == 0 {
        st := Ok;
      }
    }

    /** One round of the loop over the inputs. */
    method PreprocessInput(i: nat) returns (st: Status, isInternal: bool)
      modifies `inputsTotal, `internalInputsTotal, `showMissingNonWitnessUtxo, `showNondefaultSighash
      ensures st == Ok ==> InputChecked(env, tx, i, SpentBy(env, tx, i), isInternal)
      ensures st == Ok ==> inputsTotal == AddU64(old(inputsTotal), SpentBy(env, tx, i).amount)
      ensures st == Ok ==>
                showMissingNonWitnessUtxo ==
                (old(showMissingNonWitnessUtxo)
                 || (isInternal && UnverifiedSegwit(tx.inputs(i), SpentBy(env, tx, i).script)))
      ensures st == Ok ==>
                showNondefaultSighash == (old(showNondefaultSighash) || (isInternal && NondefaultSighash(tx.inputs(i))))
      ensures client.Honest? ==> (st == Ok <==> InputAcceptable(env, tx, i))
      ensures client.Honest? && st == Ok ==> isInternal == env.owned(tx.inputs(i), SpentBy(env, tx, i).script)
    {
      var u, unverified, nondefault;
      st, u, isInternal, unverified, nondefault := ClassifyInput(i);
      if st != Ok {
        return;
      }
      inputsTotal := AddU64(inputsTotal, u.amount);
      if isInternal {
        internalInputsTotal := AddU64(internalInputsTotal, u.amount);
      }
      if unverified {
        showMissingNonWitnessUtxo := true;
      }
      if nondefault {
        showNondefaultSighash := true;
      }
    }

    /** One round of the loop over the inputs, seen from all rounds so far. */
    method NextInput(i: nat, internal: array<bool>, ghost flags: seq<bool>) returns (st: Status, ghost r: seq<bool>)
      requires i < internal.Length && |flags| == i && internal[..i] == flags
      requires InputsRead(env, tx, Spent(env, tx, i), flags, Sums())
      modifies `inputsTotal, `internalInputsTotal, `showMissingNonWitnessUtxo, `showNondefaultSighash, internal
      ensures st == Ok ==>
              |r| == i + 1 && internal[..i + 1] == r && InputsRead(env, tx, Spent(env, tx, i + 1), r, Sums())
      ensures client.Honest? ==> (st == Ok <==> InputAcceptable(env, tx, i))
      ensures client.Honest? && st == Ok ==> r == flags + [env.owned(tx.inputs(i), SpentBy(env, tx, i).script)]
    {
      r := flags;
      ghost var s := Sums();
      var isInternal;
      st, isInternal := PreprocessInput(i);
      if st == Ok {
        ExtendInputs(env, tx, Spent(env, tx, i), flags, s, SpentBy(env, tx, i), isInternal, Sums());
        internal[i] := isInternal;
        r := flags + [isInternal];
      }
    }

    /** The loop over the inputs. */
    method PreprocessInputs(internal: array<bool>) returns (st: Status, ghost flags: seq<bool>)
      requires tx.nInputs <= internal.Length && Sums() == InputSums(0, false, false)
      modifies `inputsTotal, `internalInputsTotal, `showMissingNonWitnessUtxo, `showNondefaultSighash, internal
      ensures st == Ok ==> |flags| == tx.nInputs && internal[..tx.nInputs] == flags
      ensures st == Ok ==> InputsRead(env, tx, Spent(env, tx, tx.nInputs), flags, Sums())
      ensures client.Honest? ==> (st == Ok <==> true in env.ourKeys && InputsAcceptable(env, tx, tx.nInputs))
      ensures client.Honest? && st == Ok ==> flags == Owned(env, tx, tx.nInputs)
    {
      hide InputAcceptable, InputChecked, SpentBy;
      flags := [];
      forall i | 0 <= i < internal.Length {
        internal[i] := false;
      }
      var found := client.FindInternalKey(env);
      if !found {
        return IncorrectData, [];
      }
      for i := 0 to tx.nInputs
        invariant |flags| == i && internal[..i] == flags
        invariant InputsRead(env, tx, Spent(env, tx, i), flags, Sums())
        invariant client.Honest? ==> InputsAcceptable(env, tx, i) && flags == Owned(env, tx, i)
      {
        st, flags := NextInput(i, internal, flags);
        if st != Ok {
          AcceptableAt(env, tx, swap, tx.nInputs, i);
          return;
        }
      }
      st := Ok;
    }

    // -------------------------------------------------------------- alerts

    method CountExternal(internal: array<bool>) returns (n: nat)
      requires tx.nInputs <= internal.Length
      ensures n == Count(internal[..tx.nInputs], false)
    {
      n := 0;
      for i := 0 to tx.nInputs
        invariant n == Count(internal[..i], false)
      {
        assert internal[..i + 1][..i] == internal[..i];
        if !internal[i] {
          n := n + 1;
        }
      }
    }

    method AskAlerts(external: bool) returns (ok: bool)
      modifies `answers
      ensures ok ==> answers == old(answers) +
                              (AskIf(external, WarnExternalInputs)
                               + AskIf(showMissingNonWitnessUtxo, WarnUnverifiedSegwit)
                               + AskIf(showNondefaultSighash, WarnNondefaultSighash))
      ensures user.Willing? ==> ok
    {
      ok := AskWhen(external, WarnExternalInputs);
      if ok {
        ok := AskWhen(showMissingNonWitnessUtxo, WarnUnverifiedSegwit);
      }
      if ok {
        ok := AskWhen(showNondefaultSighash, WarnNondefaultSighash);
      }
    }

    method ShowAlerts(internal: array<bool>, ghost flags: seq<bool>) returns (st: Status)
      requires |flags| == tx.nInputs <= internal.Length && internal[..tx.nInputs] == flags
      requires showMissingNonWitnessUtxo == AnyUnverified(tx, Spent(env, tx, tx.nInputs), flags)
      requires showNondefaultSighash == AnyNondefault(tx, flags)
      modifies `answers
      ensures st == Ok ==> answers == old(answers) + Alerts(tx, Spent(env, tx, tx.nInputs), flags)
      ensures st == Ok ==> AlertsAcceptable(swap, flags)
      ensures user.Willing? && AlertsAcceptable(swap, flags) ==> st == Ok
    {
      var external := CountExternal(internal);
      if external > 0 {
        if external == tx.nInputs {
          return IncorrectData;
        }
        if swap.Some? {
          return IncorrectData;
        }
      }
      var ok := AskAlerts(external > 0);
      st := if ok then Ok else Deny;
    }

    // -------------------------------------------------------------- outputs

    function OutSums(): OutputSums
      reads this
    {
      OutputSums(outputsTotal, changeOutputsTotal, externalOutputsCount, changeCount)
    }

    method ReadOutput(i: nat) returns (st: Status, u: Utxo, isChange: bool)
      ensures st == Ok ==>
              tx.outputMaps.inOrder(i) && env.pubkeysOk(tx.outputs(i)) && OutputOf(tx.outputs(i)) == Some(u)
      ensures st == Ok && isChange ==> env.ownedChange(tx.outputs(i), u.script)
      ensures client.Honest? ==>
                (st == Ok <==>
                  tx.outputMaps.inOrder(i) && env.pubkeysOk(tx.outputs(i)) && OutputOf(tx.outputs(i)).Some?)
      ensures client.Honest? && st == Ok ==> isChange == env.ownedChange(tx.outputs(i), u.script)
    {
      st, u, isChange := IncorrectData, Utxo(0, []), false;
      var m := client.FetchMap(tx.outputMaps, i);
      if m.None? || !env.pubkeysOk(m.value) {
        return;
      }
      var amount := client.Fetch(m.value, OUT_AMOUNT, 8);
      if amount.None? || |amount.value| != 8 {
        return;
      }
      var script := client.Fetch(m.value, OUT_SCRIPT, MAX_OUTPUT_SCRIPTPUBKEY_LEN);
      if script.None? {
        return;
      }
      u := Utxo(Amount64(amount.value), script.value);
      var r := client.IsInternal(env, m.value, script.value, false);
      if r >= 0 {
        st, isChange := Ok, r == 1;
      }
    }

    /** display_output: asks the user, or compares with the request of the exchange application. */
    method DisplayOutput(u: Utxo) returns (st: Status)
      modifies `answers
      ensures st == Ok ==> Payable(env, swap, u)
      ensures st == Ok ==> answers == old(answers) + ShownOutput(env, swap, u, false, externalOutputsCount)
      ensures user.Willing? && Payable(env, swap, u) ==> st == Ok
    {
      var text := PrintedScript(env, u.script);
      if text.None? {
        return NotSupported;
      }
      if swap.Some? {
        st := if env.address(u.script) == Some(swap.value.address) then Ok else IncorrectData;
      } else {
        var ok := Ask(ValidateOutput(externalOutputsCount, text.value, u.amount));
        st := if ok then Ok else Deny;
      }
    }

    /** One round of the loop over the outputs. */
    method ProcessOutput(i: nat) returns (st: Status, isChange: bool)
      modifies `outputsTotal, `changeOutputsTotal, `externalOutputsCount, `changeCount, `answers
      ensures st == Ok ==> OutputChecked(env, tx, swap, i, CreatedAs(tx, i), isChange)
      ensures st == Ok ==> OutSums() == AddOutput(old(OutSums()), CreatedAs(tx, i), isChange)
      ensures st == Ok ==>
                answers == old(answers) + ShownOutput(env, swap, CreatedAs(tx, i), isChange, externalOutputsCount)
      ensures client.Honest? && user.Willing? ==> (st == Ok <==> OutputAcceptable(env, tx, swap, i))
      ensures client.Honest? && st == Ok ==> isChange == env.ownedChange(tx.outputs(i), CreatedAs(tx, i).script)
    {
      var u;
      st, u, isChange := ReadOutput(i);
      if st != Ok {
        return;
      }
      outputsTotal := AddU64(outputsTotal, u.amount);
      if isChange {
        changeOutputsTotal := AddU64(changeOutputsTotal, u.amount);
        changeCount := changeCount + 1;
      } else {
        externalOutputsCount := externalOutputsCount + 1;
        st := DisplayOutput(u);
      }
    }

    /** The loop over the outputs. */
    method ProcessOutputs() returns (st: Status, ghost change: seq<bool>, ghost shown: seq<Answer>)
      requires OutSums() == OutputSums(0, 0, 0, 0)
      modifies `outputsTotal, `changeOutputsTotal, `externalOutputsCount, `changeCount, `answers
      ensures st == Ok ==> |change| == tx.nOutputs && answers == old(answers) + shown
      ensures st == Ok ==> OutputsRead(env, tx, swap, Created(tx, tx.nOutputs), change, OutSums(), shown)
      ensures client.Honest? && user.Willing? ==>
                (st == Ok <==> true in env.ourKeys && OutputsAcceptable(env, tx, swap, tx.nOutputs))
      ensures client.Honest? && st == Ok ==> change == OwnedChange(env, tx, tx.nOutputs)
    {
      hide OutputAcceptable, OutputChecked, CreatedAs, ShownOutput;
      change, shown := [], [];
      var found := client.FindInternalKey(env);
      if !found {
        return IncorrectData, [], [];
      }
      for i := 0 to tx.nOutputs
        invariant |change| == i && answers == old(answers) + shown
        invariant OutputsRead(env, tx, swap, Created(tx, i), change, OutSums(), shown)
        invariant client.Honest? && user.Willing? ==> OutputsAcceptable(env, tx, swap, i)
        invariant client.Honest? ==> change == OwnedChange(env, tx, i)
      {
        ghost var s := OutSums();
        var isChange;
        st, isChange := ProcessOutput(i);
        if st != Ok {
          AcceptableAt(env, tx, swap, tx.nOutputs, i);
          return;
        }
        ExtendOutputs(env, tx, swap, Created(tx, i), change, s, shown, CreatedAs(tx, i), isChange);
        shown := shown + ShownOutput(env, swap, CreatedAs(tx, i), isChange, externalOutputsCount);
        change := change + [isChange];
      }
      st := Ok;
    }

    // -------------------------------------------------------------- confirmation

    method ConfirmTransaction() returns (st: Status, fee: uint64)
      modifies `answers
      ensures st == Ok ==> ConfirmAcceptable(swap, inputsTotal, OutSums()) && fee == inputsTotal - outputsTotal
      ensures st == Ok ==> answers == old(answers) + AskIf(swap.None?, ConfirmFee(fee))
      ensures user.Willing? && ConfirmAcceptable(swap, inputsTotal, OutSums()) ==> st == Ok
    {
      fee := 0;
      if inputsTotal < outputsTotal {
        return IncorrectData, 0;
      }
      if changeCount > MAX_CHANGE_OUTPUTS {
        return NotSupported, 0;
      }
      fee := inputsTotal - outputsTotal;
      if swap.Some? {
        if externalOutputsCount != 1 {
          return IncorrectData, 0;
        }
        if fee != swap.value.fees {
          return IncorrectData, 0;
        }
        var spent := SubU64(outputsTotal, changeOutputsTotal);
        if spent != swap.value.amount {
          return IncorrectData, 0;
        }
      } else {
        var ok := Ask(ConfirmFee(fee));
        if !ok {
          return Deny, 0;
        }
      }
      st := Ok;
    }

    // -------------------------------------------------------------- initialisation

    ghost predicate GlobalsRead()
      reads this`txVersion, this`locktime
    {
      TxVersionOf(tx.globals) == Some(txVersion) && LocktimeRight(tx.globals, locktime)
    }

    /** The part about the global map. */
    method ReadGlobals() returns (ok: bool)
      modifies `txVersion, `locktime
      ensures ok ==> GlobalsRead()
      ensures client.Honest? ==> ok == GlobalsAcceptable(tx)
      ensures client.Honest? && ok ==> LocktimeOf(tx.globals) == Some(locktime)
    {
      var fails := client.Fails();
      if fails || !tx.globalsInOrder {
        return false;
      }
      var raw := client.Fetch(tx.globals, GLOBAL_TX_VERSION, 9);
      if raw.None? || |raw.value| != 4 {
        return false;
      }
      txVersion := raw.value;
      var t := client.FetchLocktime(tx.globals);
      if t.None? {
        return false;
      }
      locktime := t.value;
      ok := true;
    }

    /** init_global_state: the global map, the number of inputs, and who vouches for the wallet policy. */
    method InitGlobalState(w: WalletCheck) returns (st: Status)
      requires answers == []
      modifies `txVersion, `locktime, `isWalletCanonical, `answers
      ensures st == Ok ==> GlobalsRead()
      ensures st == Ok ==> WalletAcceptable(tx, swap, w) && isWalletCanonical == !w.hmacGiven
      ensures st == Ok ==> answers == AskIf(!isWalletCanonical, AuthorizeSpend)
      ensures client.Honest? && user.Willing? ==> (st == Ok <==> GlobalsAcceptable(tx) && WalletAcceptable(tx, swap, w))
    {
      if tx.nInputs > MAX_N_INPUTS_CAN_SIGN {
        return NotSupported;
      }
      var read := ReadGlobals();
      if !read {
        return IncorrectData;
      }
      if w.hmacGiven && !w.hmacValid {
        return IncorrectData;
      }
      isWalletCanonical := !w.hmacGiven;
      var fails := client.Fails();
      if fails || !w.policyParses {
        return IncorrectData;
      }
      if isWalletCanonical && !w.policyStandard {
        return IncorrectData;
      }
      if swap.Some? && !isWalletCanonical {
        return IncorrectData;
      }
      var ok := AskWhen(!isWalletCanonical, AuthorizeSpend);
      st := if ok then Ok else Deny;
    }

    // -------------------------------------------------------------- approval

    /** The first half: the wallet, the inputs and the alerts. */
    method ReviewInputs(w: WalletCheck, internal: array<bool>) returns (st: Status, ghost flags: seq<bool>)
      requires Initial() && internal.Length == MAX_N_INPUTS_CAN_SIGN
      modifies `txVersion, `locktime, `isWalletCanonical, `inputsTotal, `internalInputsTotal,
               `showMissingNonWitnessUtxo,
               `showNondefaultSighash, `answers, internal
      ensures st == Ok ==> GlobalsRead()
      ensures st == Ok ==> |flags| == tx.nInputs <= internal.Length && internal[..tx.nInputs] == flags
      ensures st == Ok ==>
              InputsRead(env, tx, Spent(env, tx, tx.nInputs), flags, Sums()) && AlertsAcceptable(swap, flags)
      ensures st == Ok ==> inputsTotal == Total64(Spent(env, tx, tx.nInputs))
      ensures st == Ok ==> WalletAcceptable(tx, swap, w) && isWalletCanonical == !w.hmacGiven
      ensures st == Ok ==>
                answers == AskIf(!isWalletCanonical, AuthorizeSpend) + Alerts(tx, Spent(env, tx, tx.nInputs), flags)
      ensures client.Honest? && user.Willing? ==>
                (st == Ok <==> && GlobalsAcceptable(tx) && WalletAcceptable(tx, swap, w)
                               && true in env.ourKeys && InputsAcceptable(env, tx, tx.nInputs)
                               && AlertsAcceptable(swap, Owned(env, tx, tx.nInputs)))
      ensures client.Honest? && st == Ok ==> flags == Owned(env, tx, tx.nInputs)
    {
      flags := [];
      st := InitGlobalState(w);
      if st != Ok {
        return;
      }
      st, flags := PreprocessInputs(internal);
      if st != Ok {
        return;
      }
      st := ShowAlerts(internal, flags);
    }

    /** The second half: the outputs and the fee. */
    method ReviewOutputs() returns (st: Status, ghost change: seq<bool>, ghost shown: seq<Answer>, fee: uint64)
      requires OutSums() == OutputSums(0, 0, 0, 0)
      modifies `outputsTotal, `changeOutputsTotal, `externalOutputsCount, `changeCount, `answers
      ensures st == Ok ==> |change| == tx.nOutputs
      ensures st == Ok ==> OutputsRead(env, tx, swap, Created(tx, tx.nOutputs), change, OutSums(), shown)
      ensures st == Ok ==> ConfirmAcceptable(swap, inputsTotal, OutSums()) && fee == inputsTotal - outputsTotal
      ensures st == Ok ==> answers == old(answers) + shown + AskIf(swap.None?, ConfirmFee(fee))
      ensures client.Honest? && user.Willing? ==>
                (st == Ok <==> && true in env.ourKeys && OutputsAcceptable(env, tx, swap, tx.nOutputs)
                               && ConfirmAcceptable(swap, inputsTotal, ActualSums(env, tx)))
      ensures client.Honest? && st == Ok ==> change == OwnedChange(env, tx, tx.nOutputs)
    {
      fee := 0;
      st, change, shown := ProcessOutputs();
      if st != Ok {
        return;
      }
      st, fee := ConfirmTransaction();
    }

    /** Everything before signing. */
    method Approve(w: WalletCheck, internal: array<bool>) returns (st: Status, ghost v: View)
      requires Initial() && internal.Length == MAX_N_INPUTS_CAN_SIGN
      modifies `txVersion, `locktime, `isWalletCanonical, `inputsTotal, `internalInputsTotal,
               `showMissingNonWitnessUtxo,
               `showNondefaultSighash, `outputsTotal, `changeOutputsTotal, `externalOutputsCount, `changeCount,
                   `answers, internal
      ensures st == Ok ==> GlobalsRead()
      ensures st == Ok ==> Checked(env, tx, swap, isWalletCanonical, v)
      ensures st == Ok ==> tx.nInputs <= internal.Length && v.internal == internal[..tx.nInputs]
      ensures st == Ok ==> answers == Dialogue(env, tx, swap, isWalletCanonical, v)
      ensures client.Honest? && st == Ok ==> v.internal == Owned(env, tx, tx.nInputs)
      ensures client.Honest? && user.Willing? ==> (st == Ok <==> Acceptable(env, tx, swap, w))
    {
      hide InputsRead, OutputsChecked, AlertsAcceptable, ConfirmAcceptable, InputsAcceptable, OutputsAcceptable,
           Checked;
      hide GlobalsAcceptable, GlobalsRead, Spent, Created, ShownOutputs, ActualSums, Owned, OwnedChange;
      v := View([], [], [], [], 0);
      ghost var flags, change, shown;
      st, flags := ReviewInputs(w, internal);
      if st != Ok {
        return;
      }
      var fee;
      st, change, shown, fee := ReviewOutputs();
      if st == Ok {
        v := View(Spent(env, tx, tx.nInputs), Created(tx, tx.nOutputs), flags, change, fee);
        Approved(env, tx, swap, isWalletCanonical, flags, Sums(), change, OutSums(), shown, fee);
      }
    }

    ghost predicate Initial()
      reads this
    {
      Sums() == InputSums(0, false, false) && OutSums() == OutputSums(0, 0, 0, 0) && answers == [] && signatures == []
    }

    // -------------------------------------------------------------- hashing

    /** hash_output_n: streams one output into a hash. */
    method HashOutput(i: nat) returns (r: Option<Utxo>)
      ensures r.Some? ==> i < tx.nOutputs && r.value == CreatedAs(tx, i)
      ensures client.Honest? && i < tx.nOutputs && tx.outputMaps.inOrder(i) && OutputOf(tx.outputs(i)).Some? ==> r.Some?
    {
      if i >= tx.nOutputs {
        return None;
      }
      var m := client.FetchMap(tx.outputMaps, i);
      if m.None? {
        return None;
      }
      var amount := client.Fetch(m.value, OUT_AMOUNT, 8);
      if amount.None? || |amount.value| != 8 {
        return None;
      }
      var script := client.Fetch(m.value, OUT_SCRIPT, MAX_OUTPUT_SCRIPTPUBKEY_LEN);
      if script.None? {
        return None;
      }
      r := Some(Utxo(Amount64(amount.value), script.value));
    }

    /** hash_outputs: streams all outputs into a hash. */
    method HashOutputs() returns (r: Option<seq<Utxo>>)
      ensures r.None? || r.value == Created(tx, tx.nOutputs)
      ensures client.Honest? && OutputsReadable(tx, tx.nOutputs) ==> r.Some?
    {
      hide CreatedAs, OutputOf;
      var stream := [];
      for i := 0 to tx.nOutputs
        invariant stream == Created(tx, i)
      {
        CompleteAt(tx, tx.nOutputs, i);
        var u := HashOutput(i);
        if u.None? {
          return None;
        }
        stream := stream + [u.value];
      }
      r := Some(stream);
    }

    method FetchOutpoint(m: FieldMap) returns (r: Option<Outpoint>)
      ensures r.None? || r.value == OutpointOf(m)
      ensures client.Honest? ==> r.Some? == OutpointComplete(m)
    {
      var txid := client.Fetch(m, IN_PREVIOUS_TXID, 32);
      if txid.None? || |txid.value| != 32 {
        return None;
      }
      var n := client.Fetch(m, IN_OUTPUT_INDEX, 4);
      if n.None? || |n.value| != 4 {
        return None;
      }
      r := Some(Outpoint(txid.value, n.value));
    }

    /** The loop over the inputs that streams the outpoints and the sequence numbers. */
    method HashPrevouts() returns (ok: bool, prevouts: seq<Outpoint>, sequences: seq<Bytes>)
      ensures ok ==> prevouts == Outpoints(tx, tx.nInputs) && SequencesRight(tx, sequences)
      ensures client.Honest? ==> ok == OutpointsComplete(tx, tx.nInputs)
      ensures client.Honest? && ok ==> forall i :: 0 <= i < |sequences| ==> sequences[i] == SequenceOf(tx.inputs(i))
    {
      hide OutpointComplete, OutpointOf, SequenceOf;
      prevouts, sequences := [], [];
      for i := 0 to tx.nInputs
        invariant prevouts == Outpoints(tx, i)
        invariant |sequences| == i && forall j :: 0 <= j < i ==> SequenceRight(tx.inputs(j), sequences[j])
        invariant client.Honest? ==> OutpointsComplete(tx, i)
        invariant client.Honest? ==> forall j :: 0 <= j < i ==> sequences[j] == SequenceOf(tx.inputs(j))
      {
        CompleteAt(tx, tx.nInputs, i);
        var m := client.FetchMap(tx.inputMaps, i);
        if m.None? {
          return false, [], [];
        }
        var o := FetchOutpoint(m.value);
        if o.None? {
          return false, [], [];
        }
        var sequence := client.FetchSequence(m.value);
        prevouts, sequences := prevouts + [o.value], sequences + [sequence];
      }
      ok := true;
    }

    /** The loop over the inputs that streams the amounts and the scripts. The client is free to withhold
        a witness utxo here that it gave before. */
    method HashAmounts(ghost v: View) returns (ok: bool, amounts: seq<uint64>, scripts: seq<Bytes>)
      requires v.us == Spent(env, tx, tx.nInputs) && |v.internal| == tx.nInputs
      requires InputsChecked(env, tx, v.us, v.internal)
      ensures ok ==> amounts == Amounts(v.us) && scripts == Scripts(v.us)
      ensures client.Honest? ==> ok
    {
      hide InputsChecked, Agrees;
      amounts, scripts := [], [];
      for i := 0 to tx.nInputs
        invariant amounts == Amounts(v.us[..i]) && scripts == Scripts(v.us[..i])
      {
        InOrderAt(env, tx, v.us, v.internal, i);
        var m := client.FetchMap(tx.inputMaps, i);
        if m.None? {
          return false, [], [];
        }
        AgreesAt(env, tx, v.us, v.internal, i);
        var u := client.GetEither(env, m.value, v.us[i]);
        if u.None? {
          return false, [], [];
        }
        amounts, scripts := amounts + [u.value.amount], scripts + [u.value.script];
      }
      assert v.us[..tx.nInputs] == v.us;
      ok := true;
    }

    /** compute_segwit_hashes, as the streams that are hashed. */
    method ComputeSegwitHashes(ghost v: View) returns (r: Option<TxHashes>)
      requires v.us == Spent(env, tx, tx.nInputs) && |v.internal| == tx.nInputs && v.outs == Created(tx, tx.nOutputs)
      requires InputsChecked(env, tx, v.us, v.internal)
      ensures r.Some? ==> HashesOf(tx, v, r.value)
      ensures client.Honest? && OutputsReadable(tx, tx.nOutputs) ==> r.Some? == OutpointsComplete(tx, tx.nInputs)
      ensures client.Honest? && r.Some? ==>
                forall i :: 0 <= i < |r.value.sequences| ==> r.value.sequences[i] == SequenceOf(tx.inputs(i))
    {
      hide SequencesRight, SequenceOf, Outpoints, Created, OutpointsComplete, OutputsReadable, InputsChecked;
      var ok, prevouts, sequences := HashPrevouts();
      if !ok {
        return None;
      }
      var outputs := HashOutputs();
      if outputs.None? {
        return None;
      }
      var amounts, scripts;
      ok, amounts, scripts := HashAmounts(v);
      if !ok {
        return None;
      }
      r := Some(TxHashes(prevouts, sequences, outputs.value, amounts, scripts));
    }

    // -------------------------------------------------------------- signing

    /** The sighash type of an input, if its map has one. */
    method ReadSighash(m: FieldMap) returns (ok: bool, t: Option<nat>)
      ensures ok ==> t == if HasKeyType(m, IN_SIGHASH_TYPE) then SighashOf(m) else None
      ensures ok && HasKeyType(m, IN_SIGHASH_TYPE) ==> t.Some?
      ensures client.Honest? ==> ok == (HasKeyType(m, IN_SIGHASH_TYPE) ==> SighashOf(m).Some?)
    {
      if !HasKeyType(m, IN_SIGHASH_TYPE) {
        return true, None;
      }
      var raw := client.Fetch(m, IN_SIGHASH_TYPE, 4);
      if raw.None? || |raw.value| != 4 {
        return false, None;
      }
      return true, Some(LittleEndian(raw.value));
    }

    /** The script code of a legacy input. */
    method ReadLegacyCode(m: FieldMap, script: Bytes) returns (r: Option<Bytes>)
      ensures r.Some? ==> r == LegacyCode(m, script)
      ensures client.Honest? ==> r == LegacyCode(m, script)
    {
      if !HasKeyType(m, IN_REDEEM_SCRIPT) {
        return Some(script);
      }
      r := client.Stream(m, IN_REDEEM_SCRIPT);
    }

    /** compute_sighash_legacy. */
    method LegacyMessage(i: nat, t: nat, script: Bytes, ghost v: View) returns (r: Option<Message>)
      requires Ready(env, tx, v, i, Legacy, t) && script == v.us[i].script && GlobalsRead()
      ensures r.Some? ==> RightMessage(env, tx, v, r.value) && r.value.input == i
      ensures client.Honest? && Hashable(tx) ==> r.Some? == LegacyCode(tx.inputs(i), script).Some?
    {
      hide Outpoints, Created, SequencesRight, OutpointsComplete, OutputsReadable, LegacyCode, NondefaultSighash;
      hide TxVersionOf, LocktimeRight;
      var ok, prevouts, sequences := HashPrevouts();
      if !ok {
        return None;
      }
      var code := ReadLegacyCode(tx.inputs(i), script);
      if code.None? {
        return None;
      }
      var outputs := HashOutputs();
      if outputs.None? {
        return None;
      }
      r := Some(Message(Legacy, i, t, txVersion, locktime,
                        WholeTx(Some(prevouts), Some(sequences), None, None, outputs), None, code));
    }

    /** The amount in the first bytes of the witness utxo. */
    method WitnessAmount(m: FieldMap, ghost u: Utxo) returns (r: Option<uint64>)
      requires WitnessOf(m) == Some(u)
      ensures r.None? || r.value == u.amount
      ensures client.Honest? ==> r.Some?
    {
      var raw := client.Fetch(m, IN_WITNESS_UTXO, 9 + MAX_PREVOUT_SCRIPTPUBKEY_LEN);
      if raw.None? || |raw.value| < 8 {
        return None;
      }
      r := Some(Amount64(raw.value[..8]));
    }

    /** The outpoint, the amount and the sequence number of the input that is signed. */
    method ReadOwn(m: FieldMap, ghost u: Utxo) returns (r: Option<OwnInput>)
      requires WitnessOf(m) == Some(u)
      ensures r.Some? ==> && r.value.outpoint == OutpointOf(m) && r.value.amount == u.amount
                          && SequenceRight(m, r.value.sequence)
      ensures client.Honest? ==> r.Some? == OutpointComplete(m)
    {
      hide WitnessOf, OutpointOf, OutpointComplete, SequenceRight;
      var outpoint := FetchOutpoint(m);
      if outpoint.None? {
        return None;
      }
      var amount := WitnessAmount(m, u);
      if amount.None? {
        return None;
      }
      var sequence := client.FetchSequence(m);
      r := Some(OwnInput(outpoint.value, amount.value, sequence));
    }

    /** The outputs that the sighash type covers, read from its low bits. */
    method HashCovered(i: nat, bits: nat, hashes: TxHashes) returns (ok: bool, r: Option<seq<Utxo>>)
      requires hashes.outputs == Created(tx, tx.nOutputs) && (bits == SIGHASH_SINGLE ==> i < tx.nOutputs)
      ensures ok && bits < 4 ==> r == CoveredOutputs(hashes.outputs, i, bits)
      ensures client.Honest? && OutputsReadable(tx, tx.nOutputs) ==> ok
    {
      hide CreatedAs, OutputOf;
      if bits != SIGHASH_SINGLE && bits != SIGHASH_NONE {
        return true, Some(hashes.outputs);
      }
      if bits == SIGHASH_NONE {
        return true, None;
      }
      CompleteAt(tx, tx.nOutputs, i);
      CreatedAt(tx, tx.nOutputs, i);
      var u := HashOutput(i);
      if u.None? {
        return false, None;
      }
      return true, Some([u.value]);
    }

    /** The script code for a program of version 0. */
    method ReadV0Code(m: FieldMap, program: Bytes) returns (r: Option<Bytes>)
      ensures r.Some? ==> r == V0Code(env, m, program)
      ensures client.Honest? ==> r == V0Code(env, m, program)
    {
      if IsP2wpkh(program) {
        return Some([0x76, 0xa9, 0x14] + program[2..] + [0x88, 0xac]);
      }
      if !IsP2wsh(program) {
        return None;
      }
      var script := client.Stream(m, IN_WITNESS_SCRIPT);
      if script.None? || env.sha256(script.value) != program[2..] {
        return None;
      }
      r := script;
    }

    /** compute_sighash_segwitv0. */
    method SegwitV0Message(i: nat, t: nat, program: Bytes, hashes: TxHashes, ghost v: View) returns (r: Option<Message>)
      requires Ready(env, tx, v, i, SegwitV0, t) && Program(tx.inputs(i), v.us[i].script) == Some(program)
      requires HashesOf(tx, v, hashes) && GlobalsRead()
      ensures r.Some? ==> RightMessage(env, tx, v, r.value) && r.value.input == i
      ensures client.Honest? && Hashable(tx) ==> r.Some? == V0Code(env, tx.inputs(i), program).Some?
    {
      hide Outpoints, Created, SequencesRight, OutpointComplete, OutputsReadable, V0Code, NondefaultSighash, WitnessOf;
      hide OutpointsComplete, TxVersionOf, LocktimeRight, SequenceRight, OutpointOf, Program, OutputOf;
      HashableAt(tx, i);
      KnownBits(t);
      var m := tx.inputs(i);
      var own := ReadOwn(m, v.us[i]);
      if own.None? {
        return None;
      }
      var code := ReadV0Code(m, program);
      if code.None? {
        return None;
      }
      var ok, outputs := HashCovered(i, t % 32, hashes);
      if !ok {
        return None;
      }
      var whole := WholeTx(When(!AnyoneCanPay(t), hashes.prevouts),
                           When(!AnyoneCanPay(t) && t % 32 != SIGHASH_SINGLE
                                && t % 32 != SIGHASH_NONE, hashes.sequences),
                           None, None, outputs);
      r := Some(Message(SegwitV0, i, t, txVersion, locktime, whole, own, code));
    }

    /** compute_sighash_segwitv1. */
    method SegwitV1Message(i: nat, t: nat, script: Bytes, hashes: TxHashes, ghost v: View) returns (r: Option<Message>)
      requires Ready(env, tx, v, i, SegwitV1, t) && script == v.us[i].script && HashesOf(tx, v, hashes) && GlobalsRead()
      ensures r.Some? ==> RightMessage(env, tx, v, r.value) && r.value.input == i
      ensures client.Honest? && Hashable(tx) ==> r.Some?
    {
      hide Outpoints, Created, SequencesRight, OutpointComplete, OutputsReadable, NondefaultSighash, WitnessOf;
      hide OutpointsComplete, TxVersionOf, LocktimeRight, SequenceRight, OutpointOf, Program, OutputOf;
      HashableAt(tx, i);
      var m := tx.inputs(i);
      var own := None;
      if AnyoneCanPay(t) {
        own := ReadOwn(m, v.us[i]);
        if own.None? {
          return None;
        }
      }
      var ok, outputs := HashCovered(i, t % 4, hashes);
      if !ok {
        return None;
      }
      var all := !AnyoneCanPay(t);
      var whole := WholeTx(When(all, hashes.prevouts), When(all, hashes.sequences), When(all, hashes.amounts),
                           When(all, hashes.scripts),
                           outputs);
      r := Some(Message(SegwitV1, i, t, txVersion, locktime, whole, own, When(AnyoneCanPay(t), script)));
    }

    /** The witness program that an input with a witness utxo is signed for. */
    method ReadProgram(m: FieldMap, script: Bytes) returns (r: Option<Bytes>)
      ensures r.Some? ==> r == Program(m, script) && (HasKeyType(m, IN_REDEEM_SCRIPT) ==> env.p2sh(r.value) == script)
      ensures client.Honest? && r.None? ==>
                HasKeyType(m, IN_REDEEM_SCRIPT)
                    && (Program(m, script).None? || env.p2sh(Program(m, script).value) != script)
    {
      if !HasKeyType(m, IN_REDEEM_SCRIPT) {
        return Some(script);
      }
      r := client.Fetch(m, IN_REDEEM_SCRIPT, MAX_PREVOUT_SCRIPTPUBKEY_LEN);
      if r.Some? && env.p2sh(r.value) != script {
        r := None;
      }
    }

    /** The segwit half of sign_transaction_input, up to the message. */
    method SegwitMessage(i: nat, t: Option<nat>, hashes: TxHashes, ghost v: View)
        returns (st: Status, r: Option<Message>)
      requires i < |v.us| == |v.internal| && i < tx.nInputs && v.internal[i] && v.outs == Created(tx, tx.nOutputs)
      requires HashesOf(tx, v, hashes) && GlobalsRead() && InputChecked(env, tx, i, v.us[i], true)
      requires HasKeyType(tx.inputs(i), IN_WITNESS_UTXO)
      requires t == if HasKeyType(tx.inputs(i), IN_SIGHASH_TYPE) then SighashOf(tx.inputs(i)) else None
      ensures r.Some? ==> RightMessage(env, tx, v, r.value) && r.value.input == i
      ensures st == Ok <==> r.Some?
      ensures client.Honest? && Hashable(tx) && v.us[i] == SpentBy(env, tx, i) ==>
              (st == Ok <==> InputSignable(env, tx, i))
    {
      hide RightMessage, Hashable, WitnessOf, NonWitnessOf, SpentBy, Created, HashesOf, SighashOf, NondefaultSighash,
           Program;
      hide GlobalsRead, V0Code;
      var m := tx.inputs(i);
      var w := client.GetWitness(m);
      if w.None? {
        return IncorrectData, None;
      }
      var program := ReadProgram(m, w.value.script);
      if program.None? {
        return IncorrectData, None;
      }
      var version := SegwitVersion(program.value);
      if version > 1 {
        return NotSupported, None;
      } else if version == 0 {
        TypeAllowed(env, tx, i, v.us[i], SegwitV0);
        r := SegwitV0Message(i, if t.Some? then t.value else SIGHASH_ALL, program.value, hashes, v);
      } else if version == 1 {
        TypeAllowed(env, tx, i, v.us[i], SegwitV1);
        r := SegwitV1Message(i, if t.Some? then t.value else SIGHASH_DEFAULT, w.value.script, hashes, v);
      } else {
        return BadState, None;
      }
      st := if r.Some? then Ok else IncorrectData;
    }

    /** sign_transaction_input up to the message: legacy without a witness utxo, segwit with one. */
    method MessageFor(i: nat, hashes: TxHashes, ghost v: View) returns (st: Status, r: Option<Message>)
      requires i < |v.us| == |v.internal| && i < tx.nInputs && v.internal[i] && v.outs == Created(tx, tx.nOutputs)
      requires HashesOf(tx, v, hashes) && GlobalsRead() && InputChecked(env, tx, i, v.us[i], true)
      ensures r.Some? ==> RightMessage(env, tx, v, r.value) && r.value.input == i
      ensures st == Ok <==> r.Some?
      ensures client.Honest? && Hashable(tx) && v.us[i] == SpentBy(env, tx, i) ==>
              (st == Ok <==> InputSignable(env, tx, i))
    {
      hide RightMessage, Hashable, WitnessOf, NonWitnessOf, SpentBy, Created, HashesOf, SighashOf, NondefaultSighash,
           LegacyCode;
      hide GlobalsRead, SegwitVersion;
      Unflagged(env, tx.inputs(i));
      var m := tx.inputs(i);
      var ok, t := ReadSighash(m);
      if !ok {
        return IncorrectData, None;
      }
      if HasKeyType(m, IN_WITNESS_UTXO) {
        st, r := SegwitMessage(i, t, hashes, v);
        return;
      }
      var u := client.GetNonWitness(env, m, None);
      if u.None? {
        return IncorrectData, None;
      }
      TypeAllowed(env, tx, i, v.us[i], Legacy);
      r := LegacyMessage(i, if t.Some? then t.value else SIGHASH_ALL, u.value.script, v);
      st := if r.Some? then Ok else IncorrectData;
    }

    /** Signs one input and yields the signature; the client may break off after it got it. */
    method SignInput(i: nat, hashes: TxHashes, ghost v: View) returns (st: Status, ghost signed: seq<Signature>)
      requires i < |v.us| == |v.internal| && i < tx.nInputs && v.internal[i] && v.outs == Created(tx, tx.nOutputs)
      requires HashesOf(tx, v, hashes) && GlobalsRead() && InputChecked(env, tx, i, v.us[i], true)
      modifies `signatures
      ensures signatures == old(signatures) + signed && |signed| <= 1
      ensures forall s :: s in signed ==> RightSignature(env, tx, v, |answers|, s) && s.message.input == i
      ensures st == Ok ==> |signed| == 1
      ensures client.Honest? && Hashable(tx) && v.us[i] == SpentBy(env, tx, i) ==>
              (st == Ok <==> InputSignable(env, tx, i))
    {
      hide RightMessage, Hashable, HashesOf, SpentBy, InputSignable, Created, PrevoutChecked, InternalChecked;
      signed := [];
      var m := client.FetchMap(tx.inputMaps, i);
      if m.None? {
        return IncorrectData, [];
      }
      var msg;
      st, msg := MessageFor(i, hashes, v);
      if st != Ok {
        return;
      }
      var signingFails := client.Fails();
      if signingFails {
        return BadState, [];
      }
      signatures := signatures + [Signature(msg.value, |answers|)];
      signed := [Signature(msg.value, |answers|)];
      var breaksOff := client.Fails();
      st := if breaksOff then BadState else Ok;
    }

    /** One pass over the inputs, for one key of the device. */
    method SignPass(internal: array<bool>, hashes: TxHashes, ghost v: View)
        returns (st: Status, ghost signed: seq<Signature>)
      requires tx.nInputs <= internal.Length && v.internal == internal[..tx.nInputs]
      requires v.us == Spent(env, tx, tx.nInputs) && v.outs == Created(tx, tx.nOutputs) && HashesOf(tx, v, hashes)
      requires InputsChecked(env, tx, v.us, v.internal) && GlobalsRead()
      modifies `signatures
      ensures signatures == old(signatures) + signed
      ensures forall s :: s in signed ==> RightSignature(env, tx, v, |answers|, s)
      ensures st == Ok ==> SignedInputs(signed) == Indices(v.internal)
      ensures client.Honest? && Hashable(tx) ==> (st == Ok <==> AllSignable(env, tx, v.internal))
    {
      hide RightSignature, HashesOf, InputsChecked, InputChecked, Hashable, InputSignable, SpentBy, Spent, Created,
           GlobalsRead;
      signed := [];
      for i := 0 to tx.nInputs
        invariant signatures == old(signatures) + signed
        invariant forall s :: s in signed ==> RightSignature(env, tx, v, |answers|, s)
        invariant SignedInputs(signed) == Indices(v.internal[..i])
        invariant client.Honest? && Hashable(tx) ==> AllSignable(env, tx, v.internal[..i])
      {
        assert v.internal[..i + 1][..i] == v.internal[..i];
        if internal[i] {
          InputCheckedAt(env, tx, v.us, v.internal, i);
          SpentAt(env, tx, tx.nInputs, i);
          NotSignable(env, tx, v.internal, i);
          ghost var one;
          st, one := SignInput(i, hashes, v);
          signed := signed + one;
          if st != Ok {
            return;
          }
        }
      }
      assert v.internal[..tx.nInputs] == v.internal;
      st := Ok;
    }

    /** A pass for every key of the policy that turns out to be the device's. */
    method SignPasses(internal: array<bool>, hashes: TxHashes, ghost v: View) returns (st: Status, ghost passes: nat)
      requires tx.nInputs <= internal.Length && v.internal == internal[..tx.nInputs] && signatures == []
      requires v.us == Spent(env, tx, tx.nInputs) && v.outs == Created(tx, tx.nOutputs) && HashesOf(tx, v, hashes)
      requires InputsChecked(env, tx, v.us, v.internal) && GlobalsRead()
      modifies `signatures
      ensures forall s :: s in signatures ==> RightSignature(env, tx, v, |answers|, s)
      ensures st == Ok ==> SignedInputs(signatures) == Repeated(Indices(v.internal), passes)
      ensures st == Ok && client.Honest? ==> passes == Count(env.ourKeys, true)
      ensures client.Honest? && Hashable(tx) && true in env.ourKeys ==> (st == Ok <==> AllSignable(env, tx, v.internal))
    {
      hide RightSignature, HashesOf, InputsChecked, Indices, Hashable, AllSignable, Spent, Created, GlobalsRead;
      passes := 0;
      for p := 0 to |env.ourKeys|
        invariant forall s :: s in signatures ==> RightSignature(env, tx, v, |answers|, s)
        invariant SignedInputs(signatures) == Repeated(Indices(v.internal), passes)
        invariant client.Honest? ==> passes == Count(env.ourKeys[..p], true)
        invariant client.Honest? && Hashable(tx) && true in env.ourKeys[..p] ==> AllSignable(env, tx, v.internal)
      {
        assert env.ourKeys[..p + 1][..p] == env.ourKeys[..p];
        var keyInfoMissing := client.Fails();
        if !keyInfoMissing && env.ourKeys[p] {
          ghost var signed;
          st, signed := SignPass(internal, hashes, v);
          if st != Ok {
            return;
          }
          passes := passes + 1;
        }
      }
      assert env.ourKeys[..|env.ourKeys|] == env.ourKeys;
      st := Ok;
    }

    /** sign_transaction: the transaction-wide hashes, then the passes over the inputs. */
    method SignTransaction(internal: array<bool>, ghost v: View) returns (st: Status, ghost passes: nat)
      requires tx.nInputs <= internal.Length && v.internal == internal[..tx.nInputs]
      requires Checked(env, tx, swap, isWalletCanonical, v) && signatures == [] && GlobalsRead()
      modifies `signatures, `hashes
      ensures signatures != [] ==> hashes.Some? && HashesOf(tx, v, hashes.value)
      ensures forall s :: s in signatures ==> RightSignature(env, tx, v, |answers|, s)
      ensures st == Ok ==> SignedInputs(signatures) == Repeated(Indices(v.internal), passes)
      ensures st == Ok && client.Honest? ==> passes == Count(env.ourKeys, true)
      ensures client.Honest? && true in env.ourKeys ==>
                (st == Ok <==> OutpointsComplete(tx, tx.nInputs) && AllSignable(env, tx, v.internal))
    {
      hide OutpointsComplete, AllSignable, InputsChecked, OutputsChecked, Spent, Created, HashesOf, Indices,
           GlobalsRead;
      CheckedReadable(env, tx, swap, v.outs, v.change);
      passes := 0;
      hashes := ComputeSegwitHashes(v);
      if hashes.None? {
        return IncorrectData, 0;
      }
      st, passes := SignPasses(internal, hashes.value, v);
    }
  }

  /** handler_sign_psbt: whatever the client and the user do, the run is safe, and a run that ends
      well has signed every input of the wallet once for each key of the device. */
  method HandleSignPsbt(env: Env, tx: Tx, swap: Option<SwapRequest>, client: Client, user: User, w: WalletCheck)
    returns (st: Status, session: Session)
    ensures SafeRun(env, tx, swap, session.answers, session.signatures)
    ensures session.signatures != [] ==> session.hashes.Some? && HashesRight(env, tx, session.hashes.value)
    ensures client.Honest? && user.Willing? ==>
              (st == Ok <==> && Acceptable(env, tx, swap, w) && OutpointsComplete(tx, tx.nInputs)
                             && AllSignable(env, tx, Owned(env, tx, tx.nInputs)))
    ensures client.Honest? && user.Willing? && !Acceptable(env, tx, swap, w) ==> session.signatures == []
    ensures st == Ok && client.Honest? ==>
              SignedInputs(session.signatures)
                  == Repeated(Indices(Owned(env, tx, tx.nInputs)), Count(env.ourKeys, true))
  {
    session := new Session(env, tx, swap, client, user);
    var internal := new bool[MAX_N_INPUTS_CAN_SIGN](_ => false);
    ghost var v, passes;
    st, v := session.Approve(w, internal);
    if st != Ok {
      return;
    }
    st, passes := session.SignTransaction(internal, v);
    assert Consented(env, tx, swap, session.isWalletCanonical, v, session.answers, session.signatures);
  }
}
