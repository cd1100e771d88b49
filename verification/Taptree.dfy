/** Taproot script trees as text: the printer TRDescriptor.to_string_no_checksum of
    bitcoin_client/ledger_bitcoin/descriptor.py, which works from the list of leaf depths. */
module Taptree {
  import opened Wrappers

  /** A tree of pk() scripts, each given by its key expression. */
  datatype Tree = Leaf(key: string) | Branch(left: Tree, right: Tree)

  function LeafText(key: string): string {
    "pk(" + key + ")"
  }

  function Text(t: Tree): string {
    match t
    case Leaf(key) => LeafText(key)
    case Branch(l, r) => "{" + Text(l) + "," + Text(r) + "}"
  }

  function Leaves(t: Tree): (s: seq<string>)
    ensures s != []
  {
    match t
    case Leaf(key) => [key]
    case Branch(l, r) => Leaves(l) + Leaves(r)
  }

  /** The depths of the leaves, from left to right, for a tree that hangs at depth d. */
  function Depths(t: Tree, d: nat): (s: seq<nat>)
    ensures |s| == |Leaves(t)|
  {
    match t
    case Leaf(_) => [d]
    case Branch(l, r) => Depths(l, d + 1) + Depths(r, d + 1)
  }

  function Height(t: Tree): nat {
    match t
    case Leaf(_) => 0
    case Branch(l, r) => 1 + (if Height(l) < Height(r) then Height(r) else Height(l))
  }

  // ---------------------------------------------------------------- what the printer writes

  /** The braces that open the path down to a leaf at depth d, and the path then. */
  function Opening(path: seq<bool>, d: nat): string
    decreases d + 1 - |path|
  {
    if |path| > d then "" else (if |path| > 0 then "{" else "") + Opening(path + [false], d)
  }

  function Opened(path: seq<bool>, d: nat): seq<bool>
    decreases d + 1 - |path|
  {
    if |path| > d then path else Opened(path + [false], d)
  }

  /** The braces that close the finished right branches, and the path then. */
  function Closing(path: seq<bool>): string {
    if path != [] && path[|path| - 1] then "}" + Closing(path[..|path| - 1]) else ""
  }

  function Stripped(path: seq<bool>): seq<bool> {
    if path != [] && path[|path| - 1] then Stripped(path[..|path| - 1]) else path
  }

  function TurnRight(path: seq<bool>): (r: seq<bool>)
    ensures |r| == |path|
  {
    if path == [] then [] else path[|path| - 1 := true]
  }

  /** Everything from one leaf on. */
  function Emit(path: seq<bool>, keys: seq<string>, depths: seq<nat>): string
    requires |keys| == |depths|
    decreases |keys|
  {
    if keys == [] then ""
    else
      var inside := Opened(path, depths[0]);
      "," + Opening(path, depths[0]) + LeafText(keys[0]) + Closing(inside)
          + Emit(TurnRight(Stripped(inside)), keys[1..], depths[1..])
  }

  /** The text that the printer writes for any lists of leaves and depths. */
  function Printed(internalKey: string, keys: seq<string>, depths: seq<nat>): string
    requires |keys| == |depths|
  {
    "tr(" + internalKey + Emit([], keys, depths) + ")"
  }

  // ---------------------------------------------------------------- a tree is printed as its text

  lemma OpenedAt(path: seq<bool>, d: nat)
    requires |path| == d
    ensures Opened(path, d) == path + [false] && Opening(path, d) == if d > 0 then "{" else ""
  {
  }

  /** Going down to a child opens one brace more. */
  lemma {:induction false} OpeningDeeper(path: seq<bool>, d: nat)
    requires |path| <= d
    ensures Opening(path, d + 1) == Opening(path, d) + "{"
    ensures Opened(path, d + 1) == Opened(path, d) + [false] && |Opened(path, d)| == d + 1
    ensures !Opened(path, d)[d]
    decreases d - |path|
  {
    if |path| < d {
      OpeningDeeper(path + [false], d);
      assert Opening(path, d + 1) == (if |path| > 0 then "{" else "") + Opening(path + [false], d + 1);
    } else {
      assert Opening(path, d) == (if |path| > 0 then "{" else "") + "";
      OpenedAt(path + [false], d + 1);
    }
  }

  /** The path after a subtree at depth d that was entered as a left branch. */
  function AfterLeft(path: seq<bool>, d: nat): seq<bool> {
    TurnRight(Opened(path, d))
  }

  lemma EmitFirst(path: seq<bool>, key: string, d: nat, keys: seq<string>, depths: seq<nat>, inside: seq<bool>)
    requires |keys| == |depths| && inside == Opened(path, d)
    ensures Emit(path, [key] + keys, [d] + depths)
         == "," + Opening(path, d) + LeafText(key) + Closing(inside) + Emit(TurnRight(Stripped(inside)), keys, depths)
  {
    hide Opened, Opening, Closing, Stripped, LeafText;
    assert ([key] + keys)[1..] == keys && ([d] + depths)[1..] == depths;
  }

  lemma NothingClosed(path: seq<bool>)
    requires path == [] || !path[|path| - 1]
    ensures Closing(path) == "" && Stripped(path) == path
  {
  }

  lemma EmitLeafLeft(key: string, d: nat, path: seq<bool>, keys: seq<string>, depths: seq<nat>)
    requires |keys| == |depths| && |path| <= d
    ensures Emit(path, [key] + keys, [d] + depths)
         == "," + Opening(path, d) + LeafText(key) + Emit(AfterLeft(path, d), keys, depths)
  {
    hide Emit, LeafText, Opened, Opening, Closing, Stripped, TurnRight;
    var inside := Opened(path, d);
    EmitFirst(path, key, d, keys, depths, inside);
    OpeningDeeper(path, d);
    NothingClosed(inside);
    assert "," + Opening(path, d) + LeafText(key) + "" == "," + Opening(path, d) + LeafText(key);
  }

  lemma EmitLeafRight(key: string, d: nat, path: seq<bool>, keys: seq<string>, depths: seq<nat>)
    requires |keys| == |depths| && |path| == d + 1
    ensures Emit(path, [key] + keys, [d] + depths)
         == "," + LeafText(key) + Closing(path) + Emit(TurnRight(Stripped(path)), keys, depths)
  {
    hide Emit, LeafText, Closing, Stripped, TurnRight;
    assert Opened(path, d) == path && Opening(path, d) == "";
    EmitFirst(path, key, d, keys, depths, path);
    assert "," + "" + LeafText(key) == "," + LeafText(key);
  }

  lemma Assoc(t: Tree, d: nat, keys: seq<string>, depths: seq<nat>)
    requires t.Branch?
    ensures Leaves(t) + keys == Leaves(t.left) + (Leaves(t.right) + keys)
    ensures Depths(t, d) + depths == Depths(t.left, d + 1) + (Depths(t.right, d + 1) + depths)
  {
  }

  lemma Regrouped(a: string, l: string, r: string, c: string, e: string)
    ensures a + "{" + l + ("," + r + ("}" + c) + e) == a + ("{" + l + "," + r + "}") + c + e
  {
  }

  /** A subtree entered as a left branch, with the braces down to it still to be opened. */
  lemma {:induction false} EmitLeft(t: Tree, d: nat, path: seq<bool>, keys: seq<string>, depths: seq<nat>)
    requires |keys| == |depths| && |path| <= d
    ensures Emit(path, Leaves(t) + keys, Depths(t, d) + depths)
         == "," + Opening(path, d) + Text(t) + Emit(AfterLeft(path, d), keys, depths)
    decreases t
  {
    hide Emit, LeafText, Opened, Opening, Closing, Stripped, AfterLeft, TurnRight;
    match t
    case Leaf(key) =>
      EmitLeafLeft(key, d, path, keys, depths);
    case Branch(l, r) =>
      Assoc(t, d, keys, depths);
      var k2, d2 := Leaves(r) + keys, Depths(r, d + 1) + depths;
      var q := AfterLeft(path, d + 1);
      EmitLeft(l, d + 1, path, k2, d2);
      OpeningDeeper(path, d);
      ReturnLeft(path, d);
      EmitRight(r, d + 1, q, keys, depths);
      Regrouped("," + Opening(path, d), Text(l), Text(r), "", Emit(AfterLeft(path, d), keys, depths));
  }

  /** After both branches of a subtree that was a left branch itself. */
  lemma ReturnLeft(path: seq<bool>, d: nat)
    requires |path| <= d
    ensures var q := AfterLeft(path, d + 1);
            |q| == d + 2 && q[d + 1] && Closing(q) == "}" && TurnRight(Stripped(q)) == AfterLeft(path, d)
  {
    OpeningDeeper(path, d);
    hide Opened, Opening;
    var q, p := AfterLeft(path, d + 1), Opened(path, d);
    assert q == p + [true];
    assert q[..d + 1] == p;
    assert Closing(p) == "" && Stripped(p) == p;
  }

  /** A subtree entered as a right branch: it also closes the branches that end with it. */
  lemma {:induction false} EmitRight(t: Tree, d: nat, path: seq<bool>, keys: seq<string>, depths: seq<nat>)
    requires |keys| == |depths| && |path| == d + 1 && path[d]
    ensures Emit(path, Leaves(t) + keys, Depths(t, d) + depths)
         == "," + Text(t) + Closing(path) + Emit(TurnRight(Stripped(path)), keys, depths)
    decreases t
  {
    hide Emit, LeafText, Opened, Opening, Closing, Stripped, AfterLeft, TurnRight;
    match t
    case Leaf(key) =>
      EmitLeafRight(key, d, path, keys, depths);
    case Branch(l, r) =>
      Assoc(t, d, keys, depths);
      var k2, d2 := Leaves(r) + keys, Depths(r, d + 1) + depths;
      var q := AfterLeft(path, d + 1);
      EmitLeft(l, d + 1, path, k2, d2);
      OpenedAt(path, d + 1);
      ReturnRight(path, d);
      EmitRight(r, d + 1, q, keys, depths);
      Regrouped(",", Text(l), Text(r), Closing(path), Emit(TurnRight(Stripped(path)), keys, depths));
  }

  lemma ReturnRight(path: seq<bool>, d: nat)
    requires |path| == d + 1
    ensures var q := AfterLeft(path, d + 1);
            |q| == d + 2 && q[d + 1] && Closing(q) == "}" + Closing(path) && Stripped(q) == Stripped(path)
  {
    OpenedAt(path, d + 1);
    var q := AfterLeft(path, d + 1);
    assert q == path + [true] && q[..d + 1] == path;
  }

  lemma Dropped(a: string, x: string)
    ensures a + ("," + "" + x + "") == a + "," + x
  {
  }

  lemma EmitNothing(path: seq<bool>)
    ensures Emit(path, [], []) == ""
  {
  }

  /** The printer writes the text of the tree whose leaves and depths it is given. */
  lemma TreePrinted(internalKey: string, t: Tree)
    ensures Printed(internalKey, Leaves(t), Depths(t, 0)) == "tr(" + internalKey + "," + Text(t) + ")"
  {
    EmitNothing(AfterLeft([], 0));
    hide Emit, Text, Opening, AfterLeft, Leaves, Depths;
    EmitLeft(t, 0, [], [], []);
    assert Leaves(t) + [] == Leaves(t) && Depths(t, 0) + [] == Depths(t, 0);
    OpenedAt([], 0);
    Dropped("tr(" + internalKey, Text(t));
  }

  // ---------------------------------------------------------------- the loops of the printer

  /** TRDescriptor.to_string_no_checksum. */
  method ToString(internalKey: string, keys: seq<string>, depths: seq<nat>) returns (r: string)
    requires |keys| == |depths|
    ensures r == Printed(internalKey, keys, depths)
  {
    hide Opening, Opened, Closing, Stripped, LeafText;
    r := "tr(" + internalKey;
    var path: seq<bool> := [];
    var p := 0;
    assert r + Emit(path, keys[p..], depths[p..]) == "tr(" + internalKey + Emit([], keys, depths);
    while p < |depths|
      invariant 0 <= p <= |depths|
      invariant r + Emit(path, keys[p..], depths[p..]) == "tr(" + internalKey + Emit([], keys, depths)
    {
      ghost var before := path;
      var opening, inside := OpenBraces(path, depths[p]);
      var closing, stripped := CloseBraces(inside);
      ghost var rest := Emit(TurnRight(Stripped(inside)), keys[p + 1..], depths[p + 1..]);
      assert keys[p..][1..] == keys[p + 1..] && depths[p..][1..] == depths[p + 1..];
      assert Emit(before, keys[p..], depths[p..]) == "," + opening + LeafText(keys[p]) + closing + rest;
      assert r + ("," + opening + LeafText(keys[p]) + closing + rest)
             == r + "," + opening + LeafText(keys[p]) + closing + rest;
      r := r + "," + opening + LeafText(keys[p]) + closing;
      path := if |stripped| > 0 then stripped[|stripped| - 1 := true] else stripped;
      p := p + 1;
    }
    r := r + ")";
  }

  method OpenBraces(start: seq<bool>, depth: nat) returns (r: string, path: seq<bool>)
    ensures r == Opening(start, depth) && path == Opened(start, depth)
  {
    r, path := "", start;
    while |path| <= depth
      invariant r + Opening(path, depth) == Opening(start, depth) && Opened(path, depth) == Opened(start, depth)
      decreases depth + 1 - |path|
    {
      if |path| > 0 {
        assert r + ("{" + Opening(path + [false], depth)) == r + "{" + Opening(path + [false], depth);
        r := r + "{";
      }
      path := path + [false];
    }
  }

  method CloseBraces(start: seq<bool>) returns (r: string, path: seq<bool>)
    ensures r == Closing(start) && path == Stripped(start)
  {
    r, path := "", start;
    while |path| > 0 && path[|path| - 1]
      invariant r + Closing(path) == Closing(start) && Stripped(path) == Stripped(start)
      decreases |path|
    {
      assert r + ("}" + Closing(path[..|path| - 1])) == r + "}" + Closing(path[..|path| - 1]);
      r := r + "}";
      path := path[..|path| - 1];
    }
  }
}
