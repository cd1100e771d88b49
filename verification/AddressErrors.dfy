/** What the checksum of an address is for: no address turns into another one by a change of one of its
    characters. */
module AddressErrors {
  import opened Wrappers
  import opened Bech32
  import opened Bech32Strings
  import opened Bech32Canonical
  import opened Bech32Words
  import opened ConvertBits
  import opened SegwitAddress

  /** The symbols of an address, with those of the checksum. */
  function SymbolsOf(hrp: string, w: Witness): seq<nat> {
    var data := [w.version] + Padded(w.program, 8, 5);
    data + ChecksumOf(hrp, data, EncodingOf(w.version))
  }

  lemma WrittenAs(hrp: string, addr: string, w: Witness)
    requires ProgramOf(hrp, addr) == Some(w)
    ensures AreSymbols(SymbolsOf(hrp, w)) && Lowered(addr) == hrp + "1" + Chars(SymbolsOf(hrp, w))
    ensures Feed(Start(), Expand(hrp) + SymbolsOf(hrp, w)) == FinalConstant(EncodingOf(w.version))
    ensures w.version == 0 ==> |SymbolsOf(hrp, w)| == 39 || |SymbolsOf(hrp, w)| == 59
  {
    hide ProgramOf, Padded, ChecksumOf, Chars, Fits, OneCase, Lowered, Feed, Expand, FinalConstant, Start;
    AddressIff(hrp, addr, w);
    BytesSurvive(w.program);
    var data := [w.version] + Padded(w.program, 8, 5);
    SymbolsFit(Padded(w.program, 8, 5));
    var sum := ChecksumOf(hrp, data, EncodingOf(w.version));
    assert AreSymbols(data + sum);
    CharsJoin(data, sum);
    ChecksumFits(hrp, data, EncodingOf(w.version));
  }

  lemma CharsDistinct(v: nat, w: nat)
    requires v < 32 && w < 32 && CharOf(v) == CharOf(w)
    ensures v == w
  {
    hide CharOf, RevOf;
    CharRoundTrip(v);
    CharRoundTrip(w);
  }

  lemma SameChars(p: string, s: seq<nat>, t: seq<nat>, i: nat)
    requires AreSymbols(s) && AreSymbols(t) && |s| == |t| && i < |p + Chars(s)|
    requires forall j :: 0 <= j < |p + Chars(s)| && j != i ==> (p + Chars(s))[j] == (p + Chars(t))[j]
    requires (p + Chars(s))[i] != (p + Chars(t))[i]
    ensures |p| <= i && s[i - |p|] != t[i - |p|] && forall k :: 0 <= k < |s| && k != i - |p| ==> s[k] == t[k]
  {
    hide CharOf;
    forall k | 0 <= k < |s| && k != i - |p| ensures s[k] == t[k] {
      assert (p + Chars(s))[|p| + k] == (p + Chars(t))[|p| + k];
      CharsDistinct(s[k], t[k]);
    }
  }

  /** Sequences of symbols that differ in one place only do not both fit the checksum, not even that of
      different encodings, if the place is then the first one of an address with a 20 or 32 byte program. */
  lemma OneSymbolDetected(hrp: string, s: seq<nat>, t: seq<nat>, k: nat, e: Encoding, f: Encoding)
    requires AreSymbols(s) && AreSymbols(t) && |s| == |t| && k < |s| && s[k] != t[k]
    requires forall j :: 0 <= j < |s| && j != k ==> s[j] == t[j]
    requires e != f ==> k == 0 && (|s| == 39 || |s| == 59)
    ensures Feed(Start(), Expand(hrp) + s) != FinalConstant(e) || Feed(Start(), Expand(hrp) + t) != FinalConstant(f)
  {
    hide Feed, Start, Expand, FinalConstant;
    if e == f {
      OneDifference(Expand(hrp), s, t, k);
    } else {
      var rest := s[1..];
      assert s == [s[0]] + rest && t == [t[0]] + rest;
      FeedAppend(Start(), Expand(hrp), s);
      FeedAppend(Start(), Expand(hrp), t);
      EncodingsApart(Feed(Start(), Expand(hrp)), s[0], t[0], rest);
      EncodingsApart(Feed(Start(), Expand(hrp)), t[0], s[0], rest);
    }
  }

  /** Two different addresses with the same prefix and the same length, whatever their versions and
      encodings, differ in at least two characters. */
  lemma AddressErrorDetected(hrp: string, a: string, b: string, i: nat)
    requires ProgramOf(hrp, a).Some? && ProgramOf(hrp, b).Some? && |a| == |b| && i < |a|
             && Lowered(a)[i] != Lowered(b)[i]
    ensures exists j :: 0 <= j < |a| && j != i && Lowered(a)[j] != Lowered(b)[j]
  {
    hide ProgramOf, SymbolsOf, Chars, Feed, Expand, FinalConstant, Start, AreSymbols;
    if forall j :: 0 <= j < |a| && j != i ==> Lowered(a)[j] == Lowered(b)[j] {
      var v, w := ProgramOf(hrp, a).value, ProgramOf(hrp, b).value;
      var s, t, p := SymbolsOf(hrp, v), SymbolsOf(hrp, w), hrp + "1";
      WrittenAs(hrp, a, v);
      WrittenAs(hrp, b, w);
      SameChars(p, s, t, i);
      FirstSymbol(hrp, v);
      FirstSymbol(hrp, w);
      OneSymbolDetected(hrp, s, t, i - |p|, EncodingOf(v.version), EncodingOf(w.version));
    }
  }

  lemma FirstSymbol(hrp: string, w: Witness)
    ensures SymbolsOf(hrp, w) != [] && SymbolsOf(hrp, w)[0] == w.version
  {
    hide Padded, ChecksumOf;
  }
}
