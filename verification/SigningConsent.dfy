/** What the user of the device consents to when a transaction is signed: the screens, the messages
    that are signed, and what a safe run of SIGN_PSBT is. This is the specification that the handler
    in module SignPsbt is proved against; it mentions no counter or flag of the handler. */
module SigningConsent {
  import opened Wrappers
  import opened Psbt

  const MAX_CHANGE_OUTPUTS := 10

  datatype Screen =
    | AuthorizeSpend
    | WarnExternalInputs
    | WarnUnverifiedSegwit
    | WarnNondefaultSighash
    | ValidateOutput(number: nat, text: string, amount: uint64)
    | ConfirmFee(fee: uint64)

  datatype Kind = Legacy | SegwitV0 | SegwitV1

  /** The whole transaction, as the hashes in a message cover it; None where the kind of message or the
      sighash type leaves a part out. */
  datatype WholeTx = WholeTx(
    prevouts: Option<seq<Outpoint>>,
    sequences: Option<seq<Bytes>>,
    amounts: Option<seq<uint64>>,
    scripts: Option<seq<Bytes>>,
    outputs: Option<seq<Utxo>>)

  /** What a message says of the input that it is for. */
  datatype OwnInput = OwnInput(outpoint: Outpoint, amount: uint64, sequence: Bytes)

  /** A signed message: sections "Specification" of BIP 143 and "Common signature message" of BIP 341,
      and the message of transactions without segwit. */
  datatype Message = Message(
    kind: Kind,
    input: nat,
    sighashType: nat,
    version: Bytes,
    locktime: Bytes,
    whole: WholeTx,
    own: Option<OwnInput>,
    code: Option<Bytes>)

  datatype Answer = Asked(screen: Screen, accepted: bool)

  /** A signature that left the device, with the number of screens answered before it did. */
  datatype Signature = Signature(message: Message, answered: nat)

  /** The request of the exchange application, when the session runs on its behalf. */
  datatype SwapRequest = SwapRequest(address: string, amount: uint64, fees: uint64)

  // ---------------------------------------------------------------- what consent means

  function Accept(s: Screen): Answer {
    Asked(s, true)
  }

  function AskIf(c: bool, s: Screen): seq<Answer> {
    if c then [Accept(s)] else []
  }

  /** The screen for one output: none for change, and none for a swap, where the exchange
      application has shown the recipient. */
  function ShownOutput(env: Env, swap: Option<SwapRequest>, u: Utxo, change: bool, number: nat): seq<Answer> {
    if change || swap.Some? || PrintedScript(env, u.script).None? then []
    else [Accept(ValidateOutput(number, PrintedScript(env, u.script).value, u.amount))]
  }

  /** The screens for all outputs, where those that are not change are numbered from 1. */
  function ShownOutputs(env: Env, swap: Option<SwapRequest>, outs: seq<Utxo>, change: seq<bool>): seq<Answer>
    requires |outs| == |change|
  {
    if outs == [] then []
    else
      var n := |outs| - 1;
      ShownOutputs(env, swap, outs[..n], change[..n]) + ShownOutput(env, swap, outs[n], change[n], Count(change, false))
  }

  /** What a session knows of its transaction: the spent and created outputs, which inputs are its
      own, which outputs are change. */
  datatype View = View(us: seq<Utxo>, outs: seq<Utxo>, internal: seq<bool>, change: seq<bool>, fee: uint64)

  /** Every source of the amount and script of an input says the same. */
  predicate Agrees(env: Env, m: FieldMap, u: Utxo) {
    && (WitnessOf(m).Some? || NonWitnessOf(env, m).Some?)
    && (WitnessOf(m).Some? ==> WitnessOf(m).value == u)
    && (NonWitnessOf(env, m).Some? ==> NonWitnessOf(env, m).value.prevout == u)
  }

  /** The sources agree, each utxo field can be read, and a previous transaction has the txid that
      the input spends from. */
  predicate PrevoutChecked(env: Env, m: FieldMap, u: Utxo) {
    && Agrees(env, m, u)
    && (HasKeyType(m, IN_WITNESS_UTXO) ==> WitnessOf(m).Some?)
    && (HasKeyType(m, IN_NON_WITNESS_UTXO) ==>
          NonWitnessOf(env, m).Some? && Field(m, IN_PREVIOUS_TXID, 32) == Some(NonWitnessOf(env, m).value.txid))
  }

  predicate InputChecked(env: Env, tx: Tx, i: nat, u: Utxo, internal: bool) {
    && tx.inputMaps.inOrder(i) && env.pubkeysOk(tx.inputs(i)) && PrevoutChecked(env, tx.inputs(i), u)
    && (internal ==> env.owned(tx.inputs(i), u.script) && InternalChecked(tx, i, u))
  }

  predicate InputsChecked(env: Env, tx: Tx, us: seq<Utxo>, internal: seq<bool>)
    requires |us| == |internal|
  {
    us == [] ||
    var n := |us| - 1;
    InputsChecked(env, tx, us[..n], internal[..n]) && InputChecked(env, tx, n, us[n], internal[n])
  }

  lemma {:induction false} InputCheckedAt(env: Env, tx: Tx, us: seq<Utxo>, internal: seq<bool>, i: nat)
    requires i < |us| == |internal| && InputsChecked(env, tx, us, internal)
    ensures InputChecked(env, tx, i, us[i], internal[i])
    decreases us
  {
    var n := |us| - 1;
    if i < n {
      InputCheckedAt(env, tx, us[..n], internal[..n], i);
    }
  }

  lemma AgreesAt(env: Env, tx: Tx, us: seq<Utxo>, internal: seq<bool>, i: nat)
    requires i < |us| == |internal| && InputsChecked(env, tx, us, internal)
    ensures Agrees(env, tx.inputs(i), us[i])
  {
    InputCheckedAt(env, tx, us, internal, i);
  }

  /** What is checked of an input before it may be signed. */
  predicate InternalChecked(tx: Tx, i: nat, u: Utxo) {
    var m := tx.inputs(i);
    && (SegwitVersion(u.script) == -1 ==> HasKeyType(m, IN_NON_WITNESS_UTXO))
    && (SegwitVersion(u.script) >= 0 ==> HasKeyType(m, IN_WITNESS_UTXO))
    && (HasKeyType(m, IN_SIGHASH_TYPE) ==>
          SighashOf(m).Some? && AllowedSighash(SegwitVersion(u.script), SighashOf(m).value)
          && (SighashOf(m).value % 4 == SIGHASH_SINGLE ==> i < tx.nOutputs))
  }

  predicate DefaultSighash(segwit: int, t: nat) {
    (segwit > 0 && t == SIGHASH_DEFAULT) || t == SIGHASH_ALL
  }

  predicate AllowedSighash(segwit: int, t: nat) {
    DefaultSighash(segwit, t) || (segwit >= 0 && t in {2, 3, 0x81, 0x82, 0x83})
  }

  predicate OutputChecked(env: Env, tx: Tx, swap: Option<SwapRequest>, i: nat, u: Utxo, change: bool) {
    && tx.outputMaps.inOrder(i) && env.pubkeysOk(tx.outputs(i)) && OutputOf(tx.outputs(i)) == Some(u)
    && if change then env.ownedChange(tx.outputs(i), u.script) else Payable(env, swap, u)
  }

  /** The recipient can be shown, or is the one that the exchange application asked for. */
  predicate Payable(env: Env, swap: Option<SwapRequest>, u: Utxo) {
    PrintedScript(env, u.script).Some? && (swap.Some? ==> env.address(u.script) == Some(swap.value.address))
  }

  predicate OutputsChecked(env: Env, tx: Tx, swap: Option<SwapRequest>, outs: seq<Utxo>, change: seq<bool>)
    requires |outs| == |change|
  {
    outs == [] ||
    var n := |outs| - 1;
    OutputsChecked(env, tx, swap, outs[..n], change[..n]) && OutputChecked(env, tx, swap, n, outs[n], change[n])
  }

  lemma {:induction false} OutputCheckedAt(env: Env, tx: Tx, swap: Option<SwapRequest>, outs: seq<Utxo>,
      change: seq<bool>, i: nat)
    requires i < |outs| == |change| && OutputsChecked(env, tx, swap, outs, change)
    ensures OutputChecked(env, tx, swap, i, outs[i], change[i])
    decreases outs
  {
    var n := |outs| - 1;
    if i < n {
      OutputCheckedAt(env, tx, swap, outs[..n], change[..n], i);
    }
  }

  function Alerts(tx: Tx, us: seq<Utxo>, internal: seq<bool>): seq<Answer>
    requires |us| == |internal|
  {
    AskIf(Count(internal, false) > 0, WarnExternalInputs)
    + AskIf(AnyUnverified(tx, us, internal), WarnUnverifiedSegwit)
    + AskIf(AnyNondefault(tx, internal), WarnNondefaultSighash)
  }

  /** Some input is the wallet's, if there are any; all of them are, for a swap. */
  predicate AlertsAcceptable(swap: Option<SwapRequest>, internal: seq<bool>) {
    Count(internal, false) == 0 || (Count(internal, false) != |internal| && swap.None?)
  }

  /** The exact dialogue that has to be accepted before anything is signed. */
  function Dialogue(env: Env, tx: Tx, swap: Option<SwapRequest>, canonical: bool, v: View): seq<Answer>
    requires |v.us| == |v.internal| && |v.outs| == |v.change|
  {
    AskIf(!canonical, AuthorizeSpend)
    + Alerts(tx, v.us, v.internal)
    + ShownOutputs(env, swap, v.outs, v.change)
    + AskIf(swap.None?, ConfirmFee(v.fee))
  }

  /** What holds of a transaction that is about to be signed. */
  ghost predicate Checked(env: Env, tx: Tx, swap: Option<SwapRequest>, canonical: bool, v: View) {
    && v.us == Spent(env, tx, tx.nInputs) && |v.internal| == tx.nInputs && InputsChecked(env, tx, v.us, v.internal)
    && v.outs == Created(tx, tx.nOutputs) && |v.change| == tx.nOutputs
       && OutputsChecked(env, tx, swap, v.outs, v.change)
    && Count(v.change, true) <= MAX_CHANGE_OUTPUTS
    && v.fee == Total64(v.us) - Total64(v.outs)
    && (swap.Some? ==> SwapChecked(swap.value, canonical, v))
  }

  ghost predicate SwapChecked(swap: SwapRequest, canonical: bool, v: View)
    requires |v.outs| == |v.change|
  {
    && canonical && Count(v.internal, false) == 0 && Count(v.change, false) == 1 && v.fee == swap.fees
    && forall i :: 0 <= i < |v.outs| && !v.change[i] ==> v.outs[i].amount == swap.amount
  }

  // ---------------------------------------------------------------- what an honest client shows

  function Spent(env: Env, tx: Tx, n: nat): (us: seq<Utxo>)
    ensures |us| == n
  {
    if n == 0 then [] else Spent(env, tx, n - 1) + [SpentBy(env, tx, n - 1)]
  }

  function Created(tx: Tx, n: nat): (us: seq<Utxo>)
    ensures |us| == n
  {
    if n == 0 then [] else Created(tx, n - 1) + [CreatedAs(tx, n - 1)]
  }

  function Owned(env: Env, tx: Tx, n: nat): seq<bool> {
    if n == 0 then [] else Owned(env, tx, n - 1) + [env.owned(tx.inputs(n - 1), SpentBy(env, tx, n - 1).script)]
  }

  function OwnedChange(env: Env, tx: Tx, n: nat): (r: seq<bool>)
    ensures |r| == n
  {
    if n == 0 then []
    else OwnedChange(env, tx, n - 1) + [env.ownedChange(tx.outputs(n - 1), CreatedAs(tx, n - 1).script)]
  }

  function SpentBy(env: Env, tx: Tx, i: nat): Utxo {
    if Prevout(env, tx.inputs(i)).Some? then Prevout(env, tx.inputs(i)).value else Utxo(0, [])
  }

  function CreatedAs(tx: Tx, i: nat): Utxo {
    if OutputOf(tx.outputs(i)).Some? then OutputOf(tx.outputs(i)).value else Utxo(0, [])
  }

  predicate InputAcceptable(env: Env, tx: Tx, i: nat) {
    var u := SpentBy(env, tx, i);
    InputChecked(env, tx, i, u, env.owned(tx.inputs(i), u.script))
  }

  predicate InputsAcceptable(env: Env, tx: Tx, n: nat) {
    n == 0 || (InputsAcceptable(env, tx, n - 1) && InputAcceptable(env, tx, n - 1))
  }

  predicate OutputAcceptable(env: Env, tx: Tx, swap: Option<SwapRequest>, i: nat) {
    var u := CreatedAs(tx, i);
    var change := env.ownedChange(tx.outputs(i), u.script);
    OutputChecked(env, tx, swap, i, u, change)
  }

  predicate OutputsAcceptable(env: Env, tx: Tx, swap: Option<SwapRequest>, n: nat) {
    n == 0 || (OutputsAcceptable(env, tx, swap, n - 1) && OutputAcceptable(env, tx, swap, n - 1))
  }

  lemma {:induction false} AcceptableAt(env: Env, tx: Tx, swap: Option<SwapRequest>, n: nat, i: nat)
    requires i < n
    ensures InputsAcceptable(env, tx, n) ==> InputAcceptable(env, tx, i)
    ensures OutputsAcceptable(env, tx, swap, n) ==> OutputAcceptable(env, tx, swap, i)
  {
    if i < n - 1 {
      AcceptableAt(env, tx, swap, n - 1, i);
    }
  }

  // ---------------------------------------------------------------- what is signed

  function Amounts(us: seq<Utxo>): (r: seq<uint64>)
    ensures |r| == |us| && forall i :: 0 <= i < |us| ==> r[i] == us[i].amount
  {
    seq(|us|, i requires 0 <= i < |us| => us[i].amount)
  }

  function Scripts(us: seq<Utxo>): (r: seq<Bytes>)
    ensures |r| == |us| && forall i :: 0 <= i < |us| ==> r[i] == us[i].script
  {
    seq(|us|, i requires 0 <= i < |us| => us[i].script)
  }

  predicate AnyoneCanPay(t: nat) {
    t / 0x80 % 2 == 1
  }

  /** The sighash types that are ever signed. */
  predicate KnownType(t: nat) {
    t in {0, 1, 2, 3, 0x81, 0x82, 0x83}
  }

  /** A client may withhold a sequence number; then the final one is taken. */
  predicate SequenceRight(m: FieldMap, s: Bytes) {
    s == SequenceOf(m) || s == FINAL_SEQUENCE
  }

  ghost predicate SequencesRight(tx: Tx, ss: seq<Bytes>) {
    |ss| == tx.nInputs && forall i :: 0 <= i < |ss| ==> SequenceRight(tx.inputs(i), ss[i])
  }

  /** A client may withhold the fallback lock time; then it is zero. */
  predicate LocktimeRight(globals: FieldMap, t: Bytes) {
    LocktimeOf(globals) == Some(t) || t == NO_LOCKTIME
  }

  /** How an input is signed: without a witness utxo as before segwit, with one by the version of its
      program. */
  function KindOf(m: FieldMap, script: Bytes): Option<Kind> {
    if !HasKeyType(m, IN_WITNESS_UTXO) then Some(Legacy)
    else
      var p :- Program(m, script);
      if SegwitVersion(p) == 0 then Some(SegwitV0) else if SegwitVersion(p) == 1 then Some(SegwitV1) else None
  }

  /** The sighash type of an input, with the default of its kind. */
  function TypeFor(m: FieldMap, kind: Kind): nat {
    if HasKeyType(m, IN_SIGHASH_TYPE) && SighashOf(m).Some? then SighashOf(m).value
    else if kind == SegwitV1 then SIGHASH_DEFAULT else SIGHASH_ALL
  }

  /** The script in a message: what is executed, or for taproot the spent script of the one input. */
  function CodeFor(env: Env, m: FieldMap, script: Bytes, kind: Kind, t: nat): Option<Bytes> {
    match kind
    case Legacy => LegacyCode(m, script)
    case SegwitV0 => if Program(m, script).Some? then V0Code(env, m, Program(m, script).value) else None
    case SegwitV1 => if AnyoneCanPay(t) then Some(script) else None
  }

  /** The outputs that a sighash type covers: all, none, or the one beside the input. */
  function CoveredOutputs(outs: seq<Utxo>, i: nat, t: nat): Option<seq<Utxo>> {
    if t % 4 == SIGHASH_NONE then None
    else if t % 4 == SIGHASH_SINGLE then (if i < |outs| then Some([outs[i]]) else None)
    else Some(outs)
  }

  function When<T>(c: bool, x: T): Option<T> {
    if c then Some(x) else None
  }

  /** The sequence numbers are covered with all outputs only, except by taproot. */
  predicate CoversSequences(kind: Kind, t: nat) {
    kind == Legacy || (!AnyoneCanPay(t) && (kind == SegwitV1 || (t % 4 != SIGHASH_NONE && t % 4 != SIGHASH_SINGLE)))
  }

  /** Which parts of the checked transaction a message of this kind and sighash type covers. */
  ghost predicate RightWhole(tx: Tx, v: View, i: nat, kind: Kind, t: nat, w: WholeTx) {
    && w.prevouts == When(kind == Legacy || !AnyoneCanPay(t), Outpoints(tx, tx.nInputs))
    && w.amounts == When(kind == SegwitV1 && !AnyoneCanPay(t), Amounts(v.us))
    && w.scripts == When(kind == SegwitV1 && !AnyoneCanPay(t), Scripts(v.us))
    && w.outputs == CoveredOutputs(v.outs, i, t)
    && (w.sequences.Some? <==> CoversSequences(kind, t))
       && (w.sequences.Some? ==> SequencesRight(tx, w.sequences.value))
  }

  predicate RightOwn(m: FieldMap, u: Utxo, kind: Kind, t: nat, own: Option<OwnInput>) {
    && (own.Some? <==> kind == SegwitV0 || (kind == SegwitV1 && AnyoneCanPay(t)))
    && (own.Some? ==> && own.value.outpoint == OutpointOf(m) && own.value.amount == u.amount
                      && SequenceRight(m, own.value.sequence))
  }

  /** A message about an input of the wallet, of the kind and the sighash type that the input asks for,
      whose parts are exactly those that this kind and type name, taken from the checked transaction. A
      redeem script behind segwit hashes to the spent script, and a witness script to its program. Any
      sighash type but the default ones was warned about. */
  ghost predicate RightMessage(env: Env, tx: Tx, v: View, msg: Message) {
    var i, t := msg.input, msg.sighashType;
    && i < |v.us| == |v.internal| && v.internal[i]
    && var m, u := tx.inputs(i), v.us[i];
    && KindOf(m, u.script) == Some(msg.kind) && t == TypeFor(m, msg.kind) && KnownType(t)
    && (t == SIGHASH_DEFAULT || t == SIGHASH_ALL || NondefaultSighash(m))
    && TxVersionOf(tx.globals) == Some(msg.version) && LocktimeRight(tx.globals, msg.locktime)
    && RightWhole(tx, v, i, msg.kind, t, msg.whole) && RightOwn(m, u, msg.kind, t, msg.own)
    && msg.code == CodeFor(env, m, u.script, msg.kind, t) && (msg.kind != SegwitV1 ==> msg.code.Some?)
    && (msg.kind != Legacy && HasKeyType(m, IN_REDEEM_SCRIPT) ==> env.p2sh(Program(m, u.script).value) == u.script)
  }

  /** A run is safe if it yields nothing, or if what the user answered is exactly the accepted
      dialogue of a checked transaction, answered in full before the first signature was yielded,
      and every signature is for a right message. */
  ghost predicate SafeRun(env: Env, tx: Tx, swap: Option<SwapRequest>, answers: seq<Answer>,
      signatures: seq<Signature>) {
    signatures == [] || exists canonical, v :: Consented(env, tx, swap, canonical, v, answers, signatures)
  }

  ghost predicate Consented(
    env: Env, tx: Tx, swap: Option<SwapRequest>, canonical: bool, v: View, answers: seq<Answer>,
        signatures: seq<Signature>)
  {
    && Checked(env, tx, swap, canonical, v)
    && answers == Dialogue(env, tx, swap, canonical, v)
    && forall s :: s in signatures ==> s.answered == |answers| && RightMessage(env, tx, v, s.message)
  }
}
