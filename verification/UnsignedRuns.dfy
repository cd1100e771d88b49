/** The converse of the flag s: an expression without it can be satisfied without any signature, given the
    preimages and the timelocks. */
module UnsignedRuns {
  import opened Wrappers
  import opened BitcoinScript
  import opened Miniscript
  import opened MiniscriptAnalysis
  import opened ScriptNumbers
  import opened ScriptRelations
  import opened StackShape
  import opened TypeSoundness
  import opened Satisfaction
  import opened ScriptEffects
  import opened SatisfactionRuns
  import opened CanonicalRuns
  import opened Dissatisfaction

  /** The signer has the preimages of the expression, and the transaction meets its timelocks. */
  predicate Opens(env: Env, g: Signer, n: Node)
    decreases n
  {
    match n
    case Atom(leaf) =>
      (match leaf
       case HashLock(kind, h) => ElemOk(env, g, PreimageOf(kind, h))
       case Older(m) => LockOk(env, Lock(false, m))
       case After(m) => LockOk(env, Lock(true, m))
       case _ => true)
    case Wrap(_, x) => Opens(env, g, x)
    case Binary(_, x, y) => Opens(env, g, x) && Opens(env, g, y)
    case AndOr(x, y, z) => Opens(env, g, x) && Opens(env, g, y) && Opens(env, g, z)
    case Thresh(_, xs) => forall i :: 0 <= i < |xs| ==> Opens(env, g, xs[i])
  }

  lemma LeafUnsigned(env: Env, g: Signer, leaf: Leaf) returns (w: seq<Bytes>)
    requires env.Valid() && LeafType(leaf).Some? && !LeafInfo(leaf).s && Opens(env, g, Atom(leaf))
    ensures Succeeds(env, LeafType(leaf).value.base, LeafScript(env, leaf), w, true) && Elements(w)
  {
    hide Succeeds;
    w := [];
    match leaf
    case One => OneRuns(env);
    case Older(m) => TimelockRuns(env, m, Csv);
    case After(m) => TimelockRuns(env, m, Cltv);
    case HashLock(kind, h) =>
      w := [g.preimage(kind, h)];
      HashLockRuns(env, kind, h, g.preimage(kind, h));
  }

  lemma WrapUnsigned(env: Env, w: Wrapper, tx: Type, x: Script, t: Type, wx: seq<Bytes>) returns (r: seq<Bytes>)
    requires env.Valid() && Sound(env, tx, x) && WrapType(w, tx) == Some(t) && w != WrapC
    requires Succeeds(env, tx.base, x, wx, true) && Elements(wx)
    ensures Succeeds(env, t.base, WrapScript(w, x), r, true) && Elements(r)
  {
    hide Succeeds, Effect;
    r := wx;
    match w
    case WrapA => WrapARuns(env, x, wx, true);
    case WrapS => WrapSRuns(env, tx, x, wx, true);
    case WrapT => WrapTRuns(env, x, wx);
    case WrapV => WrapVRuns(env, x, wx);
    case WrapN => WrapNRuns(env, x, wx, true);
    case WrapJ => WrapJRuns(env, tx, x, wx, true);
    case WrapD =>
      r := [Bool(true)] + wx;
      WrapDRuns(env, tx, x, wx, true);
    case WrapL =>
      r := [Bool(false)] + wx;
      WrapLRuns(env, x, wx, false, true);
    case WrapU =>
      r := [Bool(true)] + wx;
      WrapURuns(env, x, wx, false, true);
  }

  /** A witness for a part that satisfies it, if the part is not flagged, and one that dissatisfies it, if it
      has d. */
  datatype Witness = Witness(sat: seq<Bytes>, dsat: seq<Bytes>)

  ghost predicate Serves(env: Env, t: Type, s: Script, signed: bool, w: Witness) {
    && (!signed ==> Succeeds(env, t.base, s, w.sat, true)) && Elements(w.sat)
    && (t.d ==> Succeeds(env, t.base, s, w.dsat, false)) && Elements(w.dsat)
  }

  lemma ElementsJoin(a: seq<Bytes>, b: seq<Bytes>)
    requires Elements(a) && Elements(b)
    ensures Elements(a + b)
  {
  }

  lemma FewElements(b: bool)
    ensures Elements([]) && Elements([Bool(b)])
  {
  }

  /** Both parts are satisfied. */
  lemma AndUnsigned(env: Env, op: BinOp, tx: Type, x: Script, ty: Type, y: Script, t: Type, wx: seq<Bytes>,
      wy: seq<Bytes>)
    requires env.Valid() && Sound(env, tx, x) && Sound(env, ty, y) && FixedBinaryType(op, tx, ty) == Some(t)
    requires (op == AndV || op == AndB || op == AndN)
    requires Succeeds(env, tx.base, x, wx, true) && Succeeds(env, ty.base, y, wy, true)
    ensures Succeeds(env, t.base, BinaryScript(op, x, y), wx + wy, true)
  {
    hide Succeeds, Effect;
    match op
    case AndV => AndVRuns(env, ty.base, x, y, wx, wy);
    case AndB => BoolRuns(env, BoolAnd, x, y, wx, wy, true, true);
    case AndN =>
      ZeroRuns(env);
      AndOrRuns(env, B, x, y, [Small(0)], wx, wy, true, true);
      assert x + [If(true)] + [Small(0)] + [Else] + y + [EndIf] == x + [If(true), Small(0), Else] + y + [EndIf];
  }

  /** The first part is satisfied, or it is dissatisfied and the second one satisfied. */
  lemma OrUnsigned(env: Env, op: BinOp, tx: Type, x: Script, wx: Witness, ty: Type, y: Script, wy: Witness, t: Type,
      first: bool) returns (r: seq<Bytes>)
    requires env.Valid() && Sound(env, tx, x) && Sound(env, ty, y) && FixedBinaryType(op, tx, ty) == Some(t)
    requires (op == OrB || op == OrC || op == OrD || op == OrI)
    requires Serves(env, tx, x, !first, wx) && Serves(env, ty, y, first, wy)
    ensures Succeeds(env, t.base, BinaryScript(op, x, y), r, true) && Elements(r)
  {
    hide Succeeds, Effect, Elements;
    var u := if first then wx.sat else wx.dsat;
    var v := if first then [] else wy.sat;
    FewElements(first);
    match op
    case OrB =>
      v := if first then wy.dsat else wy.sat;
      BoolRuns(env, BoolOr, x, y, u, v, first, !first);
      ElementsJoin(u, v);
      r := u + v;
    case OrC =>
      OrCRuns(env, x, y, u, v, first);
      ElementsJoin(u, v);
      r := u + v;
    case OrD =>
      OrDRuns(env, x, y, u, v, first, true);
      ElementsJoin(u, v);
      r := u + v;
    case OrI =>
      v := if first then wx.sat else wy.sat;
      OrIRuns(env, tx.base, x, y, v, first, true);
      ElementsJoin([Bool(first)], v);
      r := [Bool(first)] + v;
  }

  predicate IsAnd(op: BinOp) {
    op == AndV || op == AndB || op == AndN
  }

  lemma UnsignedParts(op: BinOp, a: ExtInfo, b: ExtInfo)
    requires !BinaryInfo(op, a, b).s
    ensures if IsAnd(op) then !a.s && !b.s else !a.s || !b.s
  {
  }

  lemma BinaryUnsigned(env: Env, op: BinOp, tx: Type, x: Script, sx: bool, wx: Witness, ty: Type, y: Script, sy: bool,
      wy: Witness, t: Type) returns (r: seq<Bytes>)
    requires env.Valid() && Sound(env, tx, x) && Sound(env, ty, y) && FixedBinaryType(op, tx, ty) == Some(t)
    requires Serves(env, tx, x, sx, wx) && Serves(env, ty, y, sy, wy)
    requires if IsAnd(op) then !sx && !sy else !sx || !sy
    ensures Succeeds(env, t.base, BinaryScript(op, x, y), r, true) && Elements(r)
  {
    hide Succeeds, Sound, Elements, BinaryScript, FixedBinaryType;
    if IsAnd(op) {
      r := wx.sat + wy.sat;
      AndUnsigned(env, op, tx, x, ty, y, t, wx.sat, wy.sat);
      ElementsJoin(wx.sat, wy.sat);
    } else {
      r := OrUnsigned(env, op, tx, x, wx, ty, y, wy, t, !sx);
    }
  }

  // ---------------------------------------------------------------- thresh

  /** Which of the children are satisfied: the first k of those without s. */
  function Chosen(ts: seq<ExtInfo>, k: nat): (r: seq<bool>)
    ensures |r| == |ts| && forall i :: 0 <= i < |ts| ==> r[i] ==> !ts[i].s
  {
    if ts == [] then []
    else
      var init := Chosen(ts[..|ts| - 1], k);
      init + [!ts[|ts| - 1].s && Satisfied(init) < k]
  }

  function Satisfied(sats: seq<bool>): nat {
    if sats == [] then 0 else Satisfied(sats[..|sats| - 1]) + Tally(sats[|sats| - 1])
  }

  lemma {:induction false} ChosenCount(ts: seq<ExtInfo>, k: nat)
    ensures Satisfied(Chosen(ts, k)) == if |ts| - ThreshFold(k, ts).countS <= k then |ts| - ThreshFold(k, ts).countS
            else k
    ensures ThreshFold(k, ts).countS <= |ts|
    decreases ts
  {
    if ts != [] {
      var init := ts[..|ts| - 1];
      ChosenCount(init, k);
      assert Chosen(ts, k)[..|ts| - 1] == Chosen(init, k);
    }
  }

  function Joined(ws: seq<seq<Bytes>>): seq<Bytes> {
    if ws == [] then [] else Joined(ws[..|ws| - 1]) + ws[|ws| - 1]
  }

  lemma {:induction false} ElementsJoined(ws: seq<seq<Bytes>>)
    requires forall i :: 0 <= i < |ws| ==> Elements(ws[i])
    ensures Elements(Joined(ws))
    decreases ws
  {
    hide Elements;
    if ws == [] {
      FewElements(true);
    } else {
      ElementsJoined(ws[..|ws| - 1]);
      ElementsJoin(Joined(ws[..|ws| - 1]), ws[|ws| - 1]);
    }
  }

  /** Each child succeeds on its witness, with the given outcome. */
  ghost predicate Outcomes(env: Env, ts: seq<Type>, xs: seq<Script>, ws: seq<seq<Bytes>>, sats: seq<bool>) {
    && |ts| == |xs| == |ws| == |sats| && Satisfied(sats) < 0x7fff_ffff
    && (forall i :: 0 <= i < |ts| ==> ThreshChildOk(i == 0, ts[i]) && Sound(env, ts[i], xs[i]))
    && (forall i :: 0 <= i < |ts| ==> Succeeds(env, ts[i].base, xs[i], ws[i], sats[i]))
  }

  lemma FirstOutcome(env: Env, t: Type, x: Script, w: seq<Bytes>, sat: bool)
    requires Sound(env, t, x) && ThreshChildOk(true, t) && Succeeds(env, B, x, w, sat)
    ensures Effect(env, x, w, [EncodeNum(Tally(sat))])
  {
    hide Sound, Effect, Good, Truthy, EncodeNum, Succeeds;
    var v := ResultB(env, x, w, sat);
    GoodTruth(v, sat);
    OneGood();
    if sat {
      UnitResult(env, t, x, w, v);
    } else {
      EmptyResult(v);
    }
  }

  lemma NextOutcome(env: Env, t: Type, x: Script, w: seq<Bytes>, sat: bool, sum: Script, ws: seq<Bytes>, j: nat)
    requires Sound(env, t, x) && ThreshChildOk(false, t) && Succeeds(env, W, x, w, sat)
    requires j <= 0x7fff_fffe && Effect(env, sum, ws, [EncodeNum(j)])
    ensures Effect(env, sum + x + [Add], ws + w, [EncodeNum(j + Tally(sat))])
  {
    hide Sound, Effect, Good, Truthy, EncodeNum, SideEffect, Succeeds;
    var v, below := ResultW(env, x, w, sat);
    GoodTruth(v, sat);
    if sat {
      UnitBeside(env, t, x, w, v, below);
    } else {
      EmptyResult(v);
    }
    AddRuns(env, sum, x, ws, w, j, sat, v, below);
  }

  lemma {:induction false} SatisfiedPrefix(sats: seq<bool>, m: nat)
    requires m <= |sats|
    ensures Satisfied(sats[..m]) <= Satisfied(sats)
    decreases sats
  {
    if m == |sats| {
      assert sats[..m] == sats;
    } else {
      var init := sats[..|sats| - 1];
      assert sats[..m] == init[..m];
      SatisfiedPrefix(init, m);
    }
  }

  lemma {:induction false} SumOutcome(env: Env, ts: seq<Type>, xs: seq<Script>, ws: seq<seq<Bytes>>, sats: seq<bool>,
      m: nat)
    requires Outcomes(env, ts, xs, ws, sats) && 1 <= m <= |ts|
    ensures Effect(env, SumScript(xs[..m]), Joined(ws[..m]), [EncodeNum(Satisfied(sats[..m]))])
    decreases m
  {
    hide Sound, Effect, EncodeNum, SumScript, Succeeds;
    if m == 1 {
      assert xs[..1] == [xs[0]] && ws[..1] == [ws[0]] && sats[..1] == [sats[0]];
      FirstOutcome(env, ts[0], xs[0], ws[0], sats[0]);
      SumOne(xs[0]);
      OneJoined(ws[0], sats[0]);
    } else {
      SumOutcome(env, ts, xs, ws, sats, m - 1);
      SatisfiedPrefix(sats, m - 1);
      NextOutcome(env, ts[m - 1], xs[m - 1], ws[m - 1], sats[m - 1], SumScript(xs[..m - 1]), Joined(ws[..m - 1]),
                  Satisfied(sats[..m - 1]));
      SumMore(xs, m);
      assert ws[..m][..m - 1] == ws[..m - 1] && sats[..m][..m - 1] == sats[..m - 1];
    }
  }

  lemma OneJoined(w: seq<Bytes>, sat: bool)
    ensures Joined([w]) == w && Satisfied([sat]) == Tally(sat)
  {
    assert [w][..0] == [] && [sat][..0] == [];
  }

  /** thresh() is satisfied exactly if k of its children are. */
  lemma ThreshOutcome(env: Env, k: nat, ts: seq<Type>, xs: seq<Script>, ws: seq<seq<Bytes>>, sats: seq<bool>)
    requires Outcomes(env, ts, xs, ws, sats) && 1 <= k <= MAX_THRESHOLD && ts != []
    ensures Succeeds(env, B, ThreshScript(k, xs), Joined(ws), Satisfied(sats) == k)
  {
    hide Sound, Succeeds, SumScript, Effect, EncodeNum, PushNum, Joined, Satisfied;
    var m := |ts|;
    assert xs[..m] == xs && ws[..m] == ws && sats[..m] == sats;
    SumOutcome(env, ts, xs, ws, sats, m);
    ThresholdRuns(env, SumScript(xs), Joined(ws), Satisfied(sats), k);
  }

  lemma {:induction false} ThreshUnsigned(env: Env, k: nat, ts: seq<Type>, xs: seq<Script>, es: seq<ExtInfo>,
      ws: seq<Witness>) returns (r: seq<Bytes>)
    requires |ts| == |xs| == |es| == |ws| && ts != [] && 1 <= k <= MAX_THRESHOLD
    requires forall i :: 0 <= i < |ts| ==> ThreshChildOk(i == 0, ts[i]) && Sound(env, ts[i], xs[i])
    requires forall i :: 0 <= i < |ts| ==> Serves(env, ts[i], xs[i], es[i].s, ws[i])
    requires |ts| - ThreshFold(k, es).countS >= k
    ensures Succeeds(env, B, ThreshScript(k, xs), r, true) && Elements(r)
  {
    hide Sound, Succeeds, Elements, ThreshFold, ThreshScript, Joined;
    var sats := Chosen(es, k);
    var ps := seq(|ts|, i requires 0 <= i < |ts| => if sats[i] then ws[i].sat else ws[i].dsat);
    ChosenCount(es, k);
    assert Outcomes(env, ts, xs, ps, sats);
    ThreshOutcome(env, k, ts, xs, ps, sats);
    ElementsJoined(ps);
    r := Joined(ps);
  }

  // ---------------------------------------------------------------- every expression

  /** What is asked of an expression. */
  predicate Fit(env: Env, g: Signer, n: Node) {
    FixedType(n).Some? && Info(n).Some? && Opens(env, g, n)
  }

  function S(n: Node): bool
    requires Info(n).Some?
  {
    Info(n).value.s
  }

  lemma FitWrap(env: Env, g: Signer, w: Wrapper, x: Node)
    requires Fit(env, g, Wrap(w, x)) && !S(Wrap(w, x))
    ensures Fit(env, g, x) && !S(x) && w != WrapC && WrapType(w, FixedType(x).value) == FixedType(Wrap(w, x))
    ensures Compile(env, Wrap(w, x)) == WrapScript(w, Compile(env, x))
  {
  }

  lemma FitBinary(env: Env, g: Signer, op: BinOp, x: Node, y: Node)
    requires Fit(env, g, Binary(op, x, y)) && !S(Binary(op, x, y))
    ensures Fit(env, g, x) && Fit(env, g, y) && if IsAnd(op) then !S(x) && !S(y) else !S(x) || !S(y)
    ensures FixedBinaryType(op, FixedType(x).value, FixedType(y).value) == FixedType(Binary(op, x, y))
    ensures Compile(env, Binary(op, x, y)) == BinaryScript(op, Compile(env, x), Compile(env, y))
  {
    UnsignedParts(op, Info(x).value, Info(y).value);
  }

  lemma FitAndOr(env: Env, g: Signer, x: Node, y: Node, z: Node)
    requires Fit(env, g, AndOr(x, y, z)) && !S(AndOr(x, y, z))
    ensures Fit(env, g, x) && Fit(env, g, y) && Fit(env, g, z) && ((!S(x) && !S(y)) || !S(z))
    ensures FixedType(x).value.base == B && FixedType(x).value.d && FixedType(y).value.base != W
    ensures FixedType(y).value.base == FixedType(z).value.base == FixedType(AndOr(x, y, z)).value.base
    ensures Compile(env, AndOr(x, y, z))
         == Compile(env, x) + [If(true)] + Compile(env, z) + [Else] + Compile(env, y) + [EndIf]
  {
  }

  lemma FitThresh(env: Env, g: Signer, k: nat, xs: seq<Node>)
    requires Fit(env, g, Thresh(k, xs)) && !S(Thresh(k, xs))
    ensures forall i :: 0 <= i < |xs| ==> Fit(env, g, xs[i])
    ensures FixedTypes(xs).Some? && Infos(xs).Some? && xs != [] && 1 <= k <= MAX_THRESHOLD
    ensures forall i :: 0 <= i < |xs| ==> ThreshChildOk(i == 0, FixedTypes(xs).value[i])
    ensures |xs| - ThreshFold(k, Infos(xs).value).countS >= k && FixedType(Thresh(k, xs)).value.base == B
    ensures Compile(env, Thresh(k, xs)) == ThreshScript(k, CompileAll(env, xs))
  {
    hide ThreshFold, ThreshStackSize;
  }

  /** A witness for an expression, as far as the flags s and d promise one. */
  lemma {:induction false} WitnessFor(env: Env, g: Signer, decoy: Decoy, n: Node) returns (w: Witness)
    requires env.Valid() && Misses(env, decoy) && Fit(env, g, n)
    ensures Serves(env, FixedType(n).value, Compile(env, n), S(n), w)
    decreases n, 2
  {
    hide Succeeds, Misses, Compile, Opens, Info;
    var sat: seq<Bytes>, dsat: seq<Bytes> := [], [];
    if !S(n) {
      sat := Unsigned(env, g, decoy, n);
    }
    if FixedType(n).value.d {
      dsat := Dissatisfiable(env, decoy, n);
    }
    w := Witness(sat, dsat);
  }

  lemma AndOrUnsigned(env: Env, g: Signer, x: Node, y: Node, z: Node, wx: Witness, wy: Witness, wz: Witness)
    returns (w: seq<Bytes>)
    requires env.Valid() && Fit(env, g, AndOr(x, y, z)) && !S(AndOr(x, y, z))
    requires Fit(env, g, x) && Serves(env, FixedType(x).value, Compile(env, x), S(x), wx)
    requires Fit(env, g, y) && Serves(env, FixedType(y).value, Compile(env, y), S(y), wy)
    requires Fit(env, g, z) && Serves(env, FixedType(z).value, Compile(env, z), S(z), wz)
    ensures Succeeds(env, FixedType(AndOr(x, y, z)).value.base, Compile(env, AndOr(x, y, z)), w, true) && Elements(w)
  {
    FitAndOr(env, g, x, y, z);
    hide Succeeds, Sound, Elements, Compile, FixedType, Info, Opens, S;
    SkipsOf(env, y);
    SkipsOf(env, z);
    var first := S(z);
    var u, v := if first then wx.sat else wx.dsat, if first then wy.sat else wz.sat;
    AndOrRuns(env, FixedType(y).value.base, Compile(env, x), Compile(env, y), Compile(env, z), u, v, first, true);
    ElementsJoin(u, v);
    w := u + v;
  }

  lemma {:induction false} Unsigned(env: Env, g: Signer, decoy: Decoy, n: Node) returns (w: seq<Bytes>)
    requires env.Valid() && Misses(env, decoy) && Fit(env, g, n) && !S(n)
    ensures Succeeds(env, FixedType(n).value.base, Compile(env, n), w, true) && Elements(w)
    decreases n, 1
  {
    hide Succeeds, Misses, Elements, S, Compile, FixedType, Info, Opens;
    match n
    case Atom(leaf) => w := AtomUnsigned(env, g, leaf);
    case Wrap(v, x) => w := UnsignedWrap(env, g, decoy, v, x);
    case Binary(op, x, y) => w := UnsignedBinary(env, g, decoy, op, x, y);
    case AndOr(x, y, z) => w := UnsignedAndOr(env, g, decoy, x, y, z);
    case Thresh(k, xs) => w := UnsignedThresh(env, g, decoy, k, xs);
  }

  lemma {:induction false} UnsignedWrap(env: Env, g: Signer, decoy: Decoy, v: Wrapper, x: Node) returns (w: seq<Bytes>)
    requires env.Valid() && Misses(env, decoy) && Fit(env, g, Wrap(v, x)) && !S(Wrap(v, x))
    ensures Succeeds(env, FixedType(Wrap(v, x)).value.base, Compile(env, Wrap(v, x)), w, true) && Elements(w)
    decreases Wrap(v, x), 0
  {
    FitWrap(env, g, v, x);
    hide Succeeds, Sound, Misses, Elements, S, Compile, FixedType, Info, Opens, WrapScript;
    var wx := Unsigned(env, g, decoy, x);
    FragmentSound(env, x, FixedType(x).value);
    w := WrapUnsigned(env, v, FixedType(x).value, Compile(env, x), FixedType(Wrap(v, x)).value, wx);
  }

  lemma {:induction false} UnsignedBinary(env: Env, g: Signer, decoy: Decoy, op: BinOp, x: Node, y: Node)
    returns (w: seq<Bytes>)
    requires env.Valid() && Misses(env, decoy) && Fit(env, g, Binary(op, x, y)) && !S(Binary(op, x, y))
    ensures Succeeds(env, FixedType(Binary(op, x, y)).value.base, Compile(env, Binary(op, x, y)), w, true)
            && Elements(w)
    decreases Binary(op, x, y), 0
  {
    FitBinary(env, g, op, x, y);
    hide Succeeds, Sound, Misses, Elements, S, Compile, FixedType, Info, Opens, Serves, BinaryScript;
    var wx := WitnessFor(env, g, decoy, x);
    var wy := WitnessFor(env, g, decoy, y);
    FragmentSound(env, x, FixedType(x).value);
    FragmentSound(env, y, FixedType(y).value);
    w := BinaryUnsigned(env, op, FixedType(x).value, Compile(env, x), S(x), wx, FixedType(y).value, Compile(env, y),
                        S(y), wy, FixedType(Binary(op, x, y)).value);
  }

  lemma {:induction false} UnsignedAndOr(env: Env, g: Signer, decoy: Decoy, x: Node, y: Node, z: Node)
    returns (w: seq<Bytes>)
    requires env.Valid() && Misses(env, decoy) && Fit(env, g, AndOr(x, y, z)) && !S(AndOr(x, y, z))
    ensures Succeeds(env, FixedType(AndOr(x, y, z)).value.base, Compile(env, AndOr(x, y, z)), w, true) && Elements(w)
    decreases AndOr(x, y, z), 0
  {
    FitAndOr(env, g, x, y, z);
    hide Succeeds, Misses, Elements, S, Compile, FixedType, Info, Opens, Serves;
    var wx := WitnessFor(env, g, decoy, x);
    var wy := WitnessFor(env, g, decoy, y);
    var wz := WitnessFor(env, g, decoy, z);
    w := AndOrUnsigned(env, g, x, y, z, wx, wy, wz);
  }

  lemma {:induction false} UnsignedThresh(env: Env, g: Signer, decoy: Decoy, k: nat, xs: seq<Node>)
    returns (w: seq<Bytes>)
    requires env.Valid() && Misses(env, decoy) && Fit(env, g, Thresh(k, xs)) && !S(Thresh(k, xs))
    ensures Succeeds(env, FixedType(Thresh(k, xs)).value.base, Compile(env, Thresh(k, xs)), w, true) && Elements(w)
    decreases Thresh(k, xs), 0
  {
    hide Succeeds, Misses, Elements, S, Compile, FixedType, Info, ChildServed, Fit, FixedTypes, Infos;
    FitThresh(env, g, k, xs);
    var ws := ChildWitnesses(env, g, decoy, k, xs);
    w := ThreshServed(env, g, k, xs, ws);
  }

  lemma ThreshServed(env: Env, g: Signer, k: nat, xs: seq<Node>, ws: seq<Witness>) returns (w: seq<Bytes>)
    requires env.Valid() && Fit(env, g, Thresh(k, xs)) && !S(Thresh(k, xs)) && FixedTypes(xs).Some? && Infos(xs).Some?
    requires |ws| == |xs| && forall i :: 0 <= i < |xs| ==> ChildServed(env, xs, i, ws[i])
    ensures Succeeds(env, FixedType(Thresh(k, xs)).value.base, Compile(env, Thresh(k, xs)), w, true) && Elements(w)
  {
    hide Succeeds, Elements, S, Compile, FixedType, Info, Serves, Sound, ThreshScript, ThreshFold, Fit, FixedTypes,
         Infos;
    FitThresh(env, g, k, xs);
    var ts, cs, es := FixedTypes(xs).value, CompileAll(env, xs), Infos(xs).value;
    forall i | 0 <= i < |ts| ensures Sound(env, ts[i], cs[i]) && Serves(env, ts[i], cs[i], es[i].s, ws[i]) {
      assert ChildServed(env, xs, i, ws[i]);
    }
    w := ThreshUnsigned(env, k, ts, cs, es, ws);
  }

  lemma AtomUnsigned(env: Env, g: Signer, leaf: Leaf) returns (w: seq<Bytes>)
    requires env.Valid() && Fit(env, g, Atom(leaf)) && !S(Atom(leaf))
    ensures Succeeds(env, FixedType(Atom(leaf)).value.base, Compile(env, Atom(leaf)), w, true) && Elements(w)
  {
    hide Succeeds;
    w := LeafUnsigned(env, g, leaf);
  }

  ghost predicate ChildServed(env: Env, xs: seq<Node>, i: nat, w: Witness)
    requires i < |xs| && FixedTypes(xs).Some? && Infos(xs).Some?
  {
    && Sound(env, FixedTypes(xs).value[i], CompileAll(env, xs)[i])
    && Serves(env, FixedTypes(xs).value[i], CompileAll(env, xs)[i], Infos(xs).value[i].s, w)
  }

  lemma {:induction false} ChildWitnesses(env: Env, g: Signer, decoy: Decoy, k: nat, xs: seq<Node>)
      returns (ws: seq<Witness>)
    requires env.Valid() && Misses(env, decoy) && FixedTypes(xs).Some? && Infos(xs).Some?
    requires forall i :: 0 <= i < |xs| ==> Fit(env, g, xs[i])
    ensures |ws| == |xs| && forall i :: 0 <= i < |xs| ==> ChildServed(env, xs, i, ws[i])
    decreases xs, 4
  {
    hide *;
    ws := [];
    while |ws| < |xs|
      invariant |ws| <= |xs| && forall i :: 0 <= i < |ws| ==> ChildServed(env, xs, i, ws[i])
      decreases |xs| - |ws|
    {
      var w := ChildWitness(env, g, decoy, xs, |ws|);
      ws := ws + [w];
    }
  }

  lemma {:induction false} ChildWitness(env: Env, g: Signer, decoy: Decoy, xs: seq<Node>, i: nat) returns (w: Witness)
    requires env.Valid() && Misses(env, decoy) && FixedTypes(xs).Some? && Infos(xs).Some?
    requires i < |xs| && Fit(env, g, xs[i])
    ensures ChildServed(env, xs, i, w)
    decreases xs, 3
  {
    hide Succeeds, Sound, Misses, Serves, Compile;
    FragmentSound(env, xs[i], FixedType(xs[i]).value);
    w := WitnessFor(env, g, decoy, xs[i]);
  }

  /** Which signatures are valid decides neither the script nor what opens it. */
  ghost predicate SameBut(env: Env, e: Env) {
    env.key == e.key && env.hash == e.hash && env.cltvOk == e.cltvOk && env.csvOk == e.csvOk
  }

  lemma {:induction false} SameKeys(env: Env, e: Env, keys: seq<nat>)
    requires SameBut(env, e)
    ensures PushKeys(env, keys) == PushKeys(e, keys)
    decreases keys
  {
    if keys != [] {
      SameKeys(env, e, keys[1..]);
    }
  }

  lemma {:induction false} SameScript(env: Env, e: Env, n: Node)
    requires SameBut(env, e)
    ensures Compile(env, n) == Compile(e, n)
    decreases n
  {
    hide WrapScript, BinaryScript, ThreshScript;
    match n
    case Atom(leaf) =>
      if leaf.Multi? {
        SameKeys(env, e, leaf.keys);
      }
    case Wrap(_, x) => SameScript(env, e, x);
    case Binary(_, x, y) =>
      SameScript(env, e, x);
      SameScript(env, e, y);
    case AndOr(x, y, z) =>
      SameScript(env, e, x);
      SameScript(env, e, y);
      SameScript(env, e, z);
    case Thresh(_, xs) =>
      forall i | 0 <= i < |xs| ensures Compile(env, xs[i]) == Compile(e, xs[i]) {
        SameScript(env, e, xs[i]);
      }
      assert CompileAll(env, xs) == CompileAll(e, xs);
  }

  lemma {:induction false} SameOpens(env: Env, e: Env, g: Signer, n: Node)
    requires SameBut(env, e) && Opens(env, g, n)
    ensures Opens(e, g, n)
    decreases n
  {
    match n
    case Atom(_) =>
    case Wrap(_, x) => SameOpens(env, e, g, x);
    case Binary(_, x, y) =>
      SameOpens(env, e, g, x);
      SameOpens(env, e, g, y);
    case AndOr(x, y, z) =>
      SameOpens(env, e, g, x);
      SameOpens(env, e, g, y);
      SameOpens(env, e, g, z);
    case Thresh(_, xs) =>
      forall i | 0 <= i < |xs| ensures Opens(e, g, xs[i]) {
        SameOpens(env, e, g, xs[i]);
      }
  }

  /** An accepted expression of type B without the flag s can be satisfied although no signature is valid at
      all, by a signer who has the preimages, in a transaction that meets the timelocks. */
  lemma UnsignedRun(env: Env, g: Signer, decoy: Decoy, n: Node) returns (w: seq<Bytes>, v: Bytes)
    requires env.Valid() && Misses(env, decoy) && TypeOf(n).Some? && TypeOf(n).value.base == B
    requires SwapsOne(n) && Opens(env, g, n) && Info(n).Some? && !Info(n).value.s
    ensures var none := env.(sigOk := (_, _) => false);
            Run(none, Compile(env, n), State(On(w, Nil), Nil, Nil)) == Some(State(Cons(v, Nil), Nil, Nil)) && Truthy(v)
  {
    hide Compile, TypeOf, FixedType, Succeeds, On, Effect, SwapsOne, Truthy, Info, Opens;
    var none := env.(sigOk := (_, _) => false);
    CorrectedIff(n);
    SameOpens(env, none, g, n);
    SameScript(env, none, n);
    w := Unsigned(none, g, decoy, n);
    v := ResultB(none, Compile(none, n), w, true);
    GoodTruth(v, true);
    EffectAt(none, Compile(none, n), w, [v], Nil);
    OnFew(v, v, Nil);
    var st := State(On(w, Nil), Nil, Nil);
    assert Live(st);
    ReachAt(none, Compile(none, n), On(w, Nil), Cons(v, Nil), st);
  }
}
