/** Segregated witness addresses: segwit_addr_encode and segwit_addr_decode of src/common/segwit_addr.c. */
module SegwitAddress {
  import opened Wrappers
  import opened Bech32
  import opened Bech32Strings
  import opened Bech32Canonical
  import opened ConvertBits

  /** The lengths of a witness program that a version allows. */
  predicate Allowed(version: nat, length: nat) {
    version <= 16 && 2 <= length <= 40 && (version == 0 ==> length == 20 || length == 32)
  }

  function EncodingOf(version: nat): Encoding {
    if version > 0 then Modified else Plain
  }

  /** The address of a witness program. */
  function Address(hrp: string, version: nat, program: seq<nat>): Option<string> {
    if !Allowed(version, |program|) then None
    else Encode(hrp, [version] + Padded(program, 8, 5), EncodingOf(version))
  }

  datatype Witness = Witness(version: nat, program: seq<nat>)

  /** The witness program of an address with the expected prefix. */
  function ProgramOf(hrp: string, addr: string): Option<Witness> {
    var x :- Decode(addr);
    if x.symbols == [] || |x.symbols| > 65 || x.hrp != hrp then None
    else if x.symbols[0] > 16 || x.encoding != EncodingOf(x.symbols[0]) then None
    else
      var program :- Unpadded(x.symbols[1..], 5, 8);
      if Allowed(x.symbols[0], |program|) then Some(Witness(x.symbols[0], program)) else None
  }

  lemma DecodedSymbols(t: string)
    requires Decode(t).Some?
    ensures AreSymbols(Decode(t).value.symbols)
  {
    hide DecodeAll, Feed, Expand, FinalConstant;
    DecodedFits(t);
  }

  lemma SymbolsFit(s: seq<nat>)
    ensures AreSymbols(s) <==> Fits(s, 5)
  {
    assert Pow2(5) == 32;
  }

  /** Encoding what was decoded gives back the address, in lower case. */
  lemma ProgramEncodes(hrp: string, addr: string, w: Witness)
    requires ProgramOf(hrp, addr) == Some(w)
    ensures Address(hrp, w.version, w.program) == Some(Lowered(addr)) && hrp != "" && OneCase(addr)
            && Fits(w.program, 8)
  {
    hide Decode, Encode, Padded, Unpadded, Lowered, OneCase, Fits, AreSymbols, Pow2;
    var x := Decode(addr).value;
    var rest := x.symbols[1..];
    DecodesIff(addr, x);
    DecodedSymbols(addr);
    TailSymbols(x.symbols);
    SymbolsSurvive(rest, w.program);
    assert x.symbols == [x.symbols[0]] + rest;
  }

  lemma TailSymbols(s: seq<nat>)
    requires s != [] && AreSymbols(s)
    ensures Fits(s[1..], 5)
  {
    SymbolsFit(s[1..]);
  }

  /** Decoding an address gives back what was encoded, whichever case it is written in. */
  lemma AddressDecodes(hrp: string, addr: string, w: Witness)
    requires Fits(w.program, 8) && hrp != "" && OneCase(addr)
             && Address(hrp, w.version, w.program) == Some(Lowered(addr))
    ensures ProgramOf(hrp, addr) == Some(w)
  {
    hide Decode, Encode, Padded, Unpadded, Lowered, OneCase, Fits, Pow2;
    var s := Padded(w.program, 8, 5);
    DecodesIff(addr, Decoded(hrp, [w.version] + s, EncodingOf(w.version)));
    BytesSurvive(w.program);
    assert ([w.version] + s)[1..] == s;
  }

  /** An address decodes to a version and a program exactly when it is written in one case and its
      lower-case form is the address of that version and program. */
  lemma AddressIff(hrp: string, addr: string, w: Witness)
    ensures ProgramOf(hrp, addr) == Some(w) <==>
            && Fits(w.program, 8) && hrp != "" && OneCase(addr)
            && Address(hrp, w.version, w.program) == Some(Lowered(addr))
  {
    hide ProgramOf, Address, Fits, OneCase, Lowered;
    if ProgramOf(hrp, addr) == Some(w) {
      ProgramEncodes(hrp, addr, w);
    }
    if Fits(w.program, 8) && hrp != "" && OneCase(addr) && Address(hrp, w.version, w.program) == Some(Lowered(addr)) {
      AddressDecodes(hrp, addr, w);
    }
  }

  /** An encoded address is in lower case already. */
  lemma EncodedIsLower(hrp: string, version: nat, program: seq<nat>, addr: string)
    requires Address(hrp, version, program) == Some(addr)
    ensures Lowered(addr) == addr && OneCase(addr)
  {
    hide ChecksumOf, Padded, CharOf, RevOf, Symbols;
    var data := [version] + Padded(program, 8, 5);
    var sum := ChecksumOf(hrp, data, EncodingOf(version));
    SymbolsOfChars(data);
    SymbolsOfChars(sum);
    assert forall i :: 0 <= i < |addr| ==> !IsUpper(addr[i]);
  }

  /** Every witness program that has an address under a non-empty prefix is the one that the address decodes to. */
  lemma AddressRoundTrip(hrp: string, version: nat, program: seq<nat>, addr: string)
    requires hrp != "" && Fits(program, 8) && Address(hrp, version, program) == Some(addr)
    ensures ProgramOf(hrp, addr) == Some(Witness(version, program))
  {
    hide ProgramOf, Address, Fits, OneCase, Lowered;
    EncodedIsLower(hrp, version, program, addr);
    AddressIff(hrp, addr, Witness(version, program));
  }

  /** What has an address: an allowed version and length, and a prefix of printable characters without
      upper case that leaves the whole address within ninety characters. */
  lemma AddressExists(hrp: string, version: nat, program: seq<nat>)
    requires Fits(program, 8)
    ensures Address(hrp, version, program).Some? <==>
            Allowed(version, |program|) && PrefixOk(hrp) && |hrp| + 8 + (8 * |program| + 4) / 5 <= 90
  {
    hide Padded, ChecksumOf, PrefixOk, Fits;
    BytesSurvive(program);
    SymbolsFit(Padded(program, 8, 5));
  }

  // ---------------------------------------------------------------- the functions of the source

  /** segwit_addr_encode. The buffer for the symbols has 65 places. */
  method SegwitAddrEncode(hrp: string, witver: nat, witprog: seq<nat>) returns (r: Option<string>)
    requires Fits(witprog, 8)
    ensures r == Address(hrp, witver, witprog)
  {
    hide Padded, Encode, Fits;
    var enc := Plain;
    if witver > 16 {
      return None;
    }
    if witver == 0 && |witprog| != 20 && |witprog| != 32 {
      return None;
    }
    if |witprog| < 2 || |witprog| > 40 {
      return None;
    }
    if witver > 0 {
      enc := Modified;
    }
    var _, rest := Convert(witprog, 8, 5, true);
    var data := [witver] + rest;
    BytesSurvive(witprog);
    assert |data| <= 65;
    r := EncodeLoop(hrp, data, enc);
  }

  /** segwit_addr_decode. The buffer for the program has 40 places. */
  method SegwitAddrDecode(hrp: string, addr: string) returns (r: Option<Witness>)
    ensures r == ProgramOf(hrp, addr)
    ensures r.Some? ==> |r.value.program| <= 40
  {
    hide Decode, Unpadded, Fits, AreSymbols;
    var decoded := DecodeLoop(addr);
    if decoded.None? {
      return None;
    }
    var x := decoded.value;
    var data := x.symbols;
    if data == [] || |data| > 65 {
      return None;
    }
    if hrp != x.hrp {
      return None;
    }
    if data[0] > 16 {
      return None;
    }
    if data[0] == 0 && x.encoding != Plain {
      return None;
    }
    if data[0] > 0 && x.encoding != Modified {
      return None;
    }
    DecodedSymbols(addr);
    TailSymbols(data);
    var ok, witdata := Convert(data[1..], 5, 8, false);
    if !ok {
      return None;
    }
    SymbolsSurvive(data[1..], witdata);
    assert |witdata| <= 40;
    if |witdata| < 2 || |witdata| > 40 {
      return None;
    }
    if data[0] == 0 && |witdata| != 20 && |witdata| != 32 {
      return None;
    }
    r := Some(Witness(data[0], witdata));
  }
}
