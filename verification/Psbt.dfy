/** The transaction that a client asks the device to sign: the committed maps of a partially signed
    transaction, what their fields mean, and the sums and classifications that consent is about.
    Nothing here depends on how src/handler/sign_psbt.c walks over the maps. */
module Psbt {
  import opened Wrappers

  const U64 := 0x1_0000_0000_0000_0000
  const MAX_PREVOUT_SCRIPTPUBKEY_LEN := 34
  const MAX_OUTPUT_SCRIPTPUBKEY_LEN := 83

  // Key types of section "Specification" of BIP 174 and BIP 370.
  const IN_NON_WITNESS_UTXO: byte := 0x00
  const IN_WITNESS_UTXO: byte := 0x01
  const IN_SIGHASH_TYPE: byte := 0x03
  const IN_REDEEM_SCRIPT: byte := 0x04
  const IN_WITNESS_SCRIPT: byte := 0x05
  const IN_PREVIOUS_TXID: byte := 0x0e
  const IN_OUTPUT_INDEX: byte := 0x0f
  const IN_SEQUENCE: byte := 0x10
  const OUT_AMOUNT: byte := 0x03
  const OUT_SCRIPT: byte := 0x04
  const GLOBAL_TX_VERSION: byte := 0x02
  const GLOBAL_FALLBACK_LOCKTIME: byte := 0x03

  const FINAL_SEQUENCE: Bytes := [0xff, 0xff, 0xff, 0xff]
  const NO_LOCKTIME: Bytes := [0, 0, 0, 0]

  const SIGHASH_DEFAULT := 0
  const SIGHASH_ALL := 1
  const SIGHASH_NONE := 2
  const SIGHASH_SINGLE := 3

  type FieldMap = map<Bytes, Bytes>

  datatype Utxo = Utxo(amount: uint64, script: Bytes)
  datatype Outpoint = Outpoint(txid: Bytes, n: Bytes)
  datatype ParsedTx = ParsedTx(txid: Bytes, prevout: Utxo)

  /** Maps as committed by the root of their list, and which of them have their keys in order. */
  datatype Maps = Maps(at: nat -> FieldMap, inOrder: nat -> bool)

  /** A transaction as committed by its global map and by the roots of its input and output maps. */
  datatype Tx = Tx(
    globals: FieldMap, globalsInOrder: bool,
    nInputs: nat, inputMaps: Maps, nOutputs: nat, outputMaps: Maps)
  {
    function inputs(i: nat): FieldMap {
      inputMaps.at(i)
    }

    function outputs(i: nat): FieldMap {
      outputMaps.at(i)
    }
  }

  /** What the device can compute on its own: parsing a raw transaction, hashing a redeem script and
      a witness script, printing a script, which of the keys of the wallet policy are
      the device's, whether the public keys in a map have a supported length, and whether the key
      origins in a map derive a script from the wallet policy (on the change path, for an
      output). */
  datatype Env = Env(
    parseRawTx: (Bytes, nat) -> Option<ParsedTx>,
    p2sh: Bytes -> Bytes,
    sha256: Bytes -> Bytes,
    address: Bytes -> Option<string>,
    opReturn: Bytes -> Option<string>,
    ourKeys: seq<bool>,
    pubkeysOk: FieldMap -> bool,
    owned: (FieldMap, Bytes) -> bool,
    ownedChange: (FieldMap, Bytes) -> bool)

  function Pow256(n: nat): nat {
    if n == 0 then 1 else 256 * Pow256(n - 1)
  }

  function LittleEndian(b: Bytes): (n: nat)
    ensures n < Pow256(|b|)
  {
    if b == [] then 0 else b[0] + 256 * LittleEndian(b[1..])
  }

  function Amount64(b: Bytes): uint64
    requires |b| == 8
  {
    assert Pow256(4) == 0x1_0000_0000;
    assert Pow256(8) == 256 * (256 * (256 * (256 * Pow256(4))));
    LittleEndian(b)
  }

  // ---------------------------------------------------------------- fields

  function Field(m: FieldMap, t: byte, maxLen: nat): Option<Bytes> {
    if [t] in m && |m[[t]]| <= maxLen then Some(m[[t]]) else None
  }

  /** Whether some key of the map starts with the key type, as the callback on the keys notes it. */
  predicate HasKeyType(m: FieldMap, t: byte) {
    exists k | k in m.Keys :: |k| >= 1 && k[0] == t
  }

  /** The amount, a one-byte length, and the script of the spent output. */
  function WitnessUtxo(raw: Bytes): Option<Utxo> {
    if |raw| < 9 then None
    else
      var length: nat := raw[8];
      if |raw| != 9 + length then None else Some(Utxo(Amount64(raw[..8]), raw[9..]))
  }

  function WitnessOf(m: FieldMap): Option<Utxo> {
    var raw :- Field(m, IN_WITNESS_UTXO, 9 + MAX_PREVOUT_SCRIPTPUBKEY_LEN);
    WitnessUtxo(raw)
  }

  function NonWitnessOf(env: Env, m: FieldMap): Option<ParsedTx> {
    var n :- Field(m, IN_OUTPUT_INDEX, 4);
    if |n| != 4 || [IN_NON_WITNESS_UTXO] !in m then None
    else env.parseRawTx(m[[IN_NON_WITNESS_UTXO]], LittleEndian(n))
  }

  /** The output that an input spends. */
  function Prevout(env: Env, m: FieldMap): Option<Utxo> {
    if WitnessOf(m).Some? then WitnessOf(m)
    else if NonWitnessOf(env, m).Some? then Some(NonWitnessOf(env, m).value.prevout)
    else None
  }

  function OutputOf(m: FieldMap): Option<Utxo> {
    var amount :- Field(m, OUT_AMOUNT, 8);
    var script :- Field(m, OUT_SCRIPT, MAX_OUTPUT_SCRIPTPUBKEY_LEN);
    if |amount| != 8 then None else Some(Utxo(Amount64(amount), script))
  }

  function OutpointOf(m: FieldMap): Outpoint {
    Outpoint(if Field(m, IN_PREVIOUS_TXID, 32).Some? then Field(m, IN_PREVIOUS_TXID, 32).value else [],
             if Field(m, IN_OUTPUT_INDEX, 4).Some? then Field(m, IN_OUTPUT_INDEX, 4).value else [])
  }

  function Outpoints(tx: Tx, n: nat): seq<Outpoint> {
    if n == 0 then [] else Outpoints(tx, n - 1) + [OutpointOf(tx.inputs(n - 1))]
  }

  function SighashOf(m: FieldMap): Option<nat> {
    var raw :- Field(m, IN_SIGHASH_TYPE, 4);
    if |raw| != 4 then None else Some(LittleEndian(raw))
  }

  /** The sequence number of an input, which is final if the map has none of four bytes. */
  function SequenceOf(m: FieldMap): Bytes {
    var s := Field(m, IN_SEQUENCE, 4);
    if s.Some? && |s.value| == 4 then s.value else FINAL_SEQUENCE
  }

  function TxVersionOf(globals: FieldMap): Option<Bytes> {
    var v :- Field(globals, GLOBAL_TX_VERSION, 9);
    if |v| == 4 then Some(v) else None
  }

  /** The fallback lock time, which is zero if there is none; None if it does not have four bytes. */
  function LocktimeOf(globals: FieldMap): Option<Bytes> {
    if [GLOBAL_FALLBACK_LOCKTIME] !in globals then Some(NO_LOCKTIME)
    else if |globals[[GLOBAL_FALLBACK_LOCKTIME]]| == 4 then Some(globals[[GLOBAL_FALLBACK_LOCKTIME]])
    else None
  }

  function SegwitVersion(script: Bytes): int {
    if |script| <= 1 then -1
    else if script[0] == 0 then 0
    else if 0x51 <= script[0] <= 0x60 then script[0] - 0x50
    else -1
  }

  predicate IsP2wpkh(script: Bytes) {
    |script| == 22 && script[0] == 0x00 && script[1] == 0x14
  }

  predicate IsP2wsh(script: Bytes) {
    |script| == 34 && script[0] == 0x00 && script[1] == 0x20
  }

  /** The witness program behind a script: the redeem script, if the input has one, or the script. */
  function Program(m: FieldMap, script: Bytes): Option<Bytes> {
    if HasKeyType(m, IN_REDEEM_SCRIPT) then Field(m, IN_REDEEM_SCRIPT, MAX_PREVOUT_SCRIPTPUBKEY_LEN) else Some(script)
  }

  /** The script code for a program of version 0: for a key hash the script of that hash, for a script
      hash the witness script, which has to have that hash. */
  function V0Code(env: Env, m: FieldMap, program: Bytes): Option<Bytes> {
    if IsP2wpkh(program) then Some([0x76, 0xa9, 0x14] + program[2..] + [0x88, 0xac])
    else if IsP2wsh(program) && [IN_WITNESS_SCRIPT] in m && env.sha256(m[[IN_WITNESS_SCRIPT]]) == program[2..] then
      Some(m[[IN_WITNESS_SCRIPT]])
    else None
  }

  /** The script code of a legacy input: the redeem script, if it has one, or the spent script. */
  function LegacyCode(m: FieldMap, script: Bytes): Option<Bytes> {
    if !HasKeyType(m, IN_REDEEM_SCRIPT) then Some(script)
    else if [IN_REDEEM_SCRIPT] in m then Some(m[[IN_REDEEM_SCRIPT]])
    else None
  }

  function PrintedScript(env: Env, script: Bytes): Option<string> {
    if env.address(script).Some? then env.address(script) else env.opReturn(script)
  }

  // ---------------------------------------------------------------- sums and classifications

  function Total(us: seq<Utxo>): nat {
    if us == [] then 0 else Total(us[..|us| - 1]) + us[|us| - 1].amount
  }

  /** Addition and subtraction of 64-bit unsigned words. */
  function AddU64(a: uint64, b: uint64): uint64 {
    if a + b < U64 then a + b else a + b - U64
  }

  function SubU64(a: uint64, b: uint64): uint64 {
    if b <= a then a - b else a - b + U64
  }

  function Total64(us: seq<Utxo>): uint64 {
    if us == [] then 0 else AddU64(Total64(us[..|us| - 1]), us[|us| - 1].amount)
  }

  lemma AddWraps(t: nat, a: uint64)
    ensures AddU64(t % U64, a) == (t + a) % U64
  {
  }

  lemma {:induction false} TotalWraps(us: seq<Utxo>)
    ensures Total64(us) == Total(us) % U64
    decreases us
  {
    if us != [] {
      TotalWraps(us[..|us| - 1]);
      AddWraps(Total(us[..|us| - 1]), us[|us| - 1].amount);
    }
  }

  /** The 64-bit total of the outputs that are change. */
  function Change64(us: seq<Utxo>, change: seq<bool>): uint64
    requires |us| == |change|
  {
    if us == [] then 0
    else
      var n := |us| - 1;
      if change[n] then AddU64(Change64(us[..n], change[..n]), us[n].amount) else Change64(us[..n], change[..n])
  }

  function Count(chosen: seq<bool>, v: bool): nat {
    if chosen == [] then 0 else Count(chosen[..|chosen| - 1], v) + (if chosen[|chosen| - 1] == v then 1 else 0)
  }

  predicate UnverifiedSegwit(m: FieldMap, script: Bytes) {
    SegwitVersion(script) == 0 && !HasKeyType(m, IN_NON_WITNESS_UTXO)
  }

  predicate NondefaultSighash(m: FieldMap) {
    HasKeyType(m, IN_SIGHASH_TYPE) &&
    SighashOf(m).Some? && SighashOf(m).value != SIGHASH_DEFAULT && SighashOf(m).value != SIGHASH_ALL
  }

  /** Some input marked internal has the property. */
  predicate AnyUnverified(tx: Tx, us: seq<Utxo>, internal: seq<bool>)
    requires |us| == |internal|
  {
    us != [] &&
    var n := |us| - 1;
    AnyUnverified(tx, us[..n], internal[..n]) || (internal[n] && UnverifiedSegwit(tx.inputs(n), us[n].script))
  }

  predicate AnyNondefault(tx: Tx, internal: seq<bool>) {
    internal != [] &&
    var n := |internal| - 1;
    AnyNondefault(tx, internal[..n]) || (internal[n] && NondefaultSighash(tx.inputs(n)))
  }
}
