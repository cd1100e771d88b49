/** The parser of tr() descriptors in bitcoin_client/ledger_bitcoin/descriptor.py, and how it answers
    to the printer. Every exception of the source is the outcome None. */
module TaptreeParser {
  import opened Wrappers
  import opened Taptree

  const MAX_TAPROOT_NODES := 128

  // ---------------------------------------------------------------- pieces of text

  /** The first place of a character, or the length. */
  function FirstOf(s: string, c: char): (i: nat)
    ensures i <= |s| && (i < |s| ==> s[i] == c) && forall k :: 0 <= k < i ==> s[k] != c
  {
    if s == "" || s[0] == c then 0 else 1 + FirstOf(s[1..], c)
  }

  /** One more than the last place of a character, or zero. */
  function AfterLast(s: string, c: char): (i: nat)
    ensures i <= |s| && (i > 0 ==> s[i - 1] == c) && forall k :: i <= k < |s| ==> s[k] != c
  {
    if s == "" then 0 else if s[|s| - 1] == c then |s| else AfterLast(s[..|s| - 1], c)
  }

  /** _get_func_expr: the name before the first parenthesis, and what is inside the last one. */
  function FuncExpr(s: string): Option<(string, string)> {
    var start, end := FirstOf(s, '('), AfterLast(s, ')');
    if start == |s| || end == 0 then None
    else Some((s[..start], if start + 1 <= end - 1 then s[start + 1..end - 1] else ""))
  }

  /** parse_pubkey: the key expression, and what follows a comma. */
  function KeyExpr(s: string): (string, string) {
    var i := FirstOf(s, ',');
    (s[..i], if i < |s| then s[i + 1..] else "")
  }

  predicate IsOpening(c: char) {
    c == '(' || c == '{'
  }

  predicate IsClosing(c: char) {
    c == ')' || c == '}'
  }

  /** Where the loop of _get_expr stands when it ends: at a delimiter outside all braces, or else at the
      last character. */
  function Cut(s: string, i: nat, level: nat): (k: nat)
    requires i < |s|
    ensures i <= k < |s|
    decreases |s| - i
  {
    if !IsOpening(s[i]) && level == 0 && (IsClosing(s[i]) || s[i] == ',') then i
    else if i + 1 == |s| then i
    else Cut(s, i + 1, if IsOpening(s[i]) then level + 1 else if IsClosing(s[i]) then level - 1 else level)
  }

  /** A leaf script: only pk() is allowed inside tr(). */
  function ParseLeaf(s: string): (r: Option<string>)
    ensures r.Some? ==> s != ""
  {
    var f :- FuncExpr(s);
    var (key, rest) := KeyExpr(f.1);
    if f.0 != "pk" || rest != "" then None else Some(key)
  }

  // ---------------------------------------------------------------- the tree

  datatype Scripts = Scripts(keys: seq<string>, depths: seq<nat>)

  /** Opening braces and one script; `branches` holds false for left and true for right. */
  function ParseFrom(branches: seq<bool>, expr: string): (r: Option<Scripts>)
    ensures r.Some? ==> |r.value.keys| == |r.value.depths|
    decreases |expr|
  {
    if expr == "" then None
    else if expr[0] == '{' then
      if |branches| + 1 > MAX_TAPROOT_NODES then None else ParseFrom(branches + [false], expr[1..])
    else
      var i := Cut(expr, 0, 0);
      var key :- ParseLeaf(expr[..i]);
      var more :- AfterScript(branches, expr[i..]);
      Some(Scripts([key] + more.keys, [|branches|] + more.depths))
  }

  /** Closing braces, and the comma before a right branch. */
  function AfterScript(branches: seq<bool>, expr: string): (r: Option<Scripts>)
    ensures r.Some? ==> |r.value.keys| == |r.value.depths|
    decreases |expr|
  {
    if branches == [] then Some(Scripts([], []))
    else
      var above, right := branches[..|branches| - 1], branches[|branches| - 1];
      if expr == "" then None
      else if right then
        if expr[0] != '}' then None else AfterScript(above, expr[1..])
      else
        if expr[0] != ',' then None else ParseFrom(above + [true], expr[1..])
  }

  datatype Descriptor = Tr(internalKey: string, keys: seq<string>, depths: seq<nat>)

  /** The tr branch of _parse_descriptor; what follows the tree is ignored. */
  function Parse(desc: string): (r: Option<Descriptor>)
    ensures r.Some? ==> |r.value.keys| == |r.value.depths|
  {
    var f :- FuncExpr(desc);
    if f.0 != "tr" then None
    else
      var (key, expr) := KeyExpr(f.1);
      if expr == "" then Some(Tr(key, [], []))
      else
        var scripts :- ParseFrom([], expr);
        Some(Tr(key, scripts.keys, scripts.depths))
  }

  // ---------------------------------------------------------------- leaves

  predicate CleanChar(c: char) {
    !IsOpening(c) && !IsClosing(c) && c != ','
  }

  /** A key expression without delimiters. */
  predicate Clean(key: string) {
    forall i :: 0 <= i < |key| ==> CleanChar(key[i])
  }

  predicate CleanTree(t: Tree) {
    match t
    case Leaf(key) => Clean(key)
    case Branch(l, r) => CleanTree(l) && CleanTree(r)
  }

  predicate Delimited(rest: string) {
    rest != "" && (rest[0] == ',' || rest[0] == '}')
  }

  lemma {:induction false} CutClean(s: string, i: nat, j: nat, level: nat)
    requires i <= j < |s| && forall k :: i <= k < j ==> CleanChar(s[k])
    ensures Cut(s, i, level) == Cut(s, j, level)
    decreases j - i
  {
    if i < j {
      CutClean(s, i + 1, j, level);
    }
  }

  /** _get_expr takes a leaf up to the delimiter behind it, and all but its last character when nothing follows. */
  lemma CutLeaf(key: string, rest: string)
    requires Clean(key) && (rest == "" || Delimited(rest))
    ensures Cut(LeafText(key) + rest, 0, 0) == |key| + (if rest == "" then 3 else 4)
  {
    var s := LeafText(key) + rest;
    var n := |key| + 3;
    assert s[0] == 'p' && s[1] == 'k' && s[2] == '(' && s[n] == ')';
    assert forall i :: 0 <= i < |key| ==> s[3 + i] == key[i];
    CutClean(s, 0, 2, 0);
    CutClean(s, 3, n, 1);
    if rest != "" {
      assert s[n + 1] == rest[0];
    }
  }

  lemma FirstAt(s: string, c: char, i: nat)
    requires i < |s| && s[i] == c && forall k :: 0 <= k < i ==> s[k] != c
    ensures FirstOf(s, c) == i
  {
    hide FirstOf;
    var j := FirstOf(s, c);
    var m := if i < j then i else j;
    var d := s[m];
  }

  lemma FuncExprOf(name: string, inner: string)
    requires Clean(name)
    ensures FuncExpr(name + "(" + inner + ")") == Some((name, inner))
  {
    hide FirstOf, AfterLast;
    var s := name + "(" + inner + ")";
    assert s[|name|] == '(' && s[|s| - 1] == ')';
    assert forall k :: 0 <= k < |name| ==> s[k] == name[k];
    FirstAt(s, '(', |name|);
    assert AfterLast(s, ')') == |s|;
    assert s[..|name|] == name && s[|name| + 1..|s| - 1] == inner;
  }

  lemma KeyExprOf(key: string, rest: string)
    requires Clean(key)
    ensures KeyExpr(key) == (key, "") && KeyExpr(key + "," + rest) == (key, rest)
  {
    hide FirstOf;
    forall k | 0 <= k < |key| ensures key[k] != ',' {
      assert CleanChar(key[k]);
    }
    var s := key + "," + rest;
    assert s[|key|] == ',' && forall k :: 0 <= k < |key| ==> s[k] == key[k];
    FirstAt(s, ',', |key|);
    assert s[..|key|] == key && s[|key| + 1..] == rest;
    assert key[..|key|] == key;
  }

  lemma LeafParses(key: string)
    requires Clean(key)
    ensures ParseLeaf(LeafText(key)) == Some(key)
  {
    hide FuncExpr, KeyExpr;
    FuncExprOf("pk", key);
    assert LeafText(key) == "pk" + "(" + key + ")";
    KeyExprOf(key, "");
  }

  lemma CutLeafFails(key: string)
    requires Clean(key)
    ensures ParseLeaf(LeafText(key)[..|key| + 3]) == None
  {
    hide FirstOf, AfterLast, KeyExpr;
    var s := LeafText(key)[..|key| + 3];
    assert s == "pk(" + key;
    assert forall i :: 0 <= i < |key| ==> s[3 + i] == key[i] && CleanChar(key[i]);
    assert s[0] == 'p' && s[1] == 'k' && s[2] == '(';
    assert forall i :: 0 <= i < |s| ==> s[i] != ')';
  }

  // ---------------------------------------------------------------- trees

  function Behind(keys: seq<string>, depths: seq<nat>, r: Option<Scripts>): Option<Scripts> {
    match r
    case None => None
    case Some(x) => Some(Scripts(keys + x.keys, depths + x.depths))
  }

  lemma ParseLeafText(branches: seq<bool>, key: string, rest: string)
    requires Clean(key) && Delimited(rest)
    ensures ParseFrom(branches, LeafText(key) + rest) == Behind([key], [|branches|], AfterScript(branches, rest))
  {
    hide Cut, ParseLeaf, AfterScript;
    var s := LeafText(key) + rest;
    CutLeaf(key, rest);
    LeafParses(key);
    assert s[..|key| + 4] == LeafText(key) && s[|key| + 4..] == rest;
    assert s[0] == 'p';
  }

  lemma ParseBrace(branches: seq<bool>, rest: string)
    ensures ParseFrom(branches, "{" + rest)
         == if |branches| + 1 > MAX_TAPROOT_NODES then None else ParseFrom(branches + [false], rest)
  {
    assert ("{" + rest)[1..] == rest;
  }

  lemma AfterLeftBranch(branches: seq<bool>, rest: string)
    ensures AfterScript(branches + [false], "," + rest) == ParseFrom(branches + [true], rest)
    ensures AfterScript(branches + [true], "}" + rest) == AfterScript(branches, rest)
  {
    hide ParseFrom;
    assert (branches + [false])[..|branches|] == branches && (branches + [true])[..|branches|] == branches;
    assert ("," + rest)[1..] == rest && ("}" + rest)[1..] == rest;
  }

  lemma BehindTwice(a: seq<string>, b: seq<nat>, c: seq<string>, d: seq<nat>, r: Option<Scripts>)
    ensures Behind(a, b, Behind(c, d, r)) == Behind(a + c, b + d, r)
  {
    if r.Some? {
      assert a + (c + r.value.keys) == a + c + r.value.keys && b + (d + r.value.depths) == b + d + r.value.depths;
    }
  }

  lemma BranchText(t: Tree, rest: string)
    requires t.Branch?
    ensures Text(t) + rest == "{" + (Text(t.left) + ("," + (Text(t.right) + ("}" + rest))))
  {
    Nested(Text(t.left), Text(t.right), rest);
  }

  lemma Nested(l: string, r: string, rest: string)
    ensures ("{" + l + "," + r + "}") + rest == "{" + (l + ("," + (r + ("}" + rest))))
  {
    assert r + "}" + rest == r + ("}" + rest);
    assert "," + r + "}" + rest == "," + (r + ("}" + rest));
    assert l + "," + r + "}" + rest == l + ("," + (r + ("}" + rest)));
  }

  /** The text of a tree is read as its leaves and depths, unless it would be nested too deeply. */
  lemma {:induction false} ParseTree(t: Tree, branches: seq<bool>, rest: string)
    requires CleanTree(t) && (t.Branch? || Delimited(rest))
    ensures ParseFrom(branches, Text(t) + rest)
         == if t.Branch? && |branches| + Height(t) > MAX_TAPROOT_NODES then None
            else Behind(Leaves(t), Depths(t, |branches|), AfterScript(branches, rest))
    decreases t
  {
    hide ParseFrom, AfterScript, Behind, LeafText;
    match t
    case Leaf(key) =>
      ParseLeafText(branches, key, rest);
    case Branch(l, r) =>
      var afterRight := "}" + rest;
      var afterLeft := "," + (Text(r) + afterRight);
      BranchText(t, rest);
      ParseBrace(branches, Text(l) + afterLeft);
      ParseTree(l, branches + [false], afterLeft);
      AfterLeftBranch(branches, Text(r) + afterRight);
      ParseTree(r, branches + [true], afterRight);
      AfterLeftBranch(branches, rest);
      NoneBehind(Leaves(l), Depths(l, |branches| + 1));
      BehindTwice(Leaves(l), Depths(l, |branches| + 1), Leaves(r), Depths(r, |branches| + 1),
                  AfterScript(branches, rest));
  }

  lemma NoneBehind(a: seq<string>, b: seq<nat>)
    ensures Behind(a, b, None) == None
  {
  }

  lemma LeafAlone(key: string)
    requires Clean(key)
    ensures ParseFrom([], LeafText(key)) == None
  {
    hide Cut, ParseLeaf;
    CutLeaf(key, "");
    assert LeafText(key) + "" == LeafText(key);
    CutLeafFails(key);
    assert LeafText(key)[0] == 'p';
  }

  lemma WholeTree(t: Tree)
    requires CleanTree(t)
    ensures ParseFrom([], Text(t))
         == if t.Branch? && Height(t) <= MAX_TAPROOT_NODES then Some(Scripts(Leaves(t), Depths(t, 0))) else None
  {
    hide ParseFrom, LeafText;
    if t.Branch? {
      ParseTree(t, [], "");
      assert Text(t) + "" == Text(t);
      assert Leaves(t) + [] == Leaves(t) && Depths(t, 0) + [] == Depths(t, 0);
    } else {
      LeafAlone(t.key);
    }
  }

  lemma TextNotEmpty(t: Tree)
    ensures Text(t) != ""
  {
    assert Text(t)[0] == 'p' || Text(t)[0] == '{';
  }

  function Under(internalKey: string, r: Option<Scripts>): Option<Descriptor> {
    match r
    case None => None
    case Some(x) => Some(Tr(internalKey, x.keys, x.depths))
  }

  lemma ParseParts(internalKey: string, inner: string)
    requires Clean(internalKey)
    ensures inner != "" ==> Parse("tr(" + internalKey + "," + inner + ")") == Under(internalKey, ParseFrom([], inner))
    ensures Parse("tr(" + internalKey + ")") == Some(Tr(internalKey, [], []))
  {
    hide FuncExpr, KeyExpr, ParseFrom;
    var whole := internalKey + "," + inner;
    FuncExprOf("tr", whole);
    FuncExprOf("tr", internalKey);
    Inside(internalKey, inner);
    KeyExprOf(internalKey, inner);
  }

  lemma Inside(a: string, b: string)
    ensures "tr" + "(" + (a + "," + b) + ")" == "tr(" + a + "," + b + ")" && "tr" + "(" + a + ")" == "tr(" + a + ")"
  {
  }

  /** Printing a tree and parsing the text gives back the same leaves and depths exactly when the tree
      has at least two leaves and is nested at most 128 levels deep. */
  lemma RoundTripIff(internalKey: string, t: Tree)
    requires Clean(internalKey) && CleanTree(t)
    ensures Parse(Printed(internalKey, Leaves(t), Depths(t, 0))) == Some(Tr(internalKey, Leaves(t), Depths(t, 0)))
       <==> t.Branch? && Height(t) <= MAX_TAPROOT_NODES
  {
    hide Parse, ParseFrom, Printed, Text, Height, CleanTree;
    TreePrinted(internalKey, t);
    TextNotEmpty(t);
    ParseParts(internalKey, Text(t));
    WholeTree(t);
  }

  /** A descriptor without scripts survives as well. */
  lemma KeyOnlyRoundTrip(internalKey: string)
    requires Clean(internalKey)
    ensures Parse(Printed(internalKey, [], [])) == Some(Tr(internalKey, [], []))
  {
    hide Parse;
    ParseParts(internalKey, "");
    assert "tr(" + internalKey + "" == "tr(" + internalKey;
  }

  // ---------------------------------------------------------------- what is accepted

  ghost predicate Splits(t: Tree, branches: seq<bool>, x: Scripts, rest: string) {
    && |branches| + Height(t) <= (if t.Leaf? then |branches| else MAX_TAPROOT_NODES)
    && AfterScript(branches, rest).Some?
    && Some(x) == Behind(Leaves(t), Depths(t, |branches|), AfterScript(branches, rest))
  }

  /** Whatever the text is, what is read begins with a tree. */
  lemma {:induction false} ReadsTree(branches: seq<bool>, expr: string, x: Scripts) returns (t: Tree, rest: string)
    requires ParseFrom(branches, expr) == Some(x)
    ensures |rest| < |expr| && Splits(t, branches, x, rest)
    decreases |expr|
  {
    hide Cut, ParseLeaf;
    if expr[0] == '{' {
      var l, e := ReadsTree(branches + [false], expr[1..], x);
      var y := AfterScript(branches + [false], e).value;
      assert (branches + [false])[..|branches|] == branches;
      var r, f := ReadsTree(branches + [true], e[1..], y);
      assert (branches + [true])[..|branches|] == branches;
      t, rest := Branch(l, r), f[1..];
      var z := AfterScript(branches, rest);
      BehindTwice(Leaves(l), Depths(l, |branches| + 1), Leaves(r), Depths(r, |branches| + 1), z);
    } else {
      var i := Cut(expr, 0, 0);
      t, rest := Leaf(ParseLeaf(expr[..i]).value), expr[i..];
    }
  }

  /** Every accepted list of depths is that of a tree, nested at most 128 levels deep. */
  lemma AcceptedIsTree(desc: string, d: Descriptor) returns (t: Tree)
    requires Parse(desc) == Some(d) && d.keys != []
    ensures d.keys == Leaves(t) && d.depths == Depths(t, 0) && Height(t) <= MAX_TAPROOT_NODES
  {
    hide ParseFrom, FuncExpr, KeyExpr;
    var expr := KeyExpr(FuncExpr(desc).value.1).1;
    var rest;
    t, rest := ReadsTree([], expr, Scripts(d.keys, d.depths));
    assert Leaves(t) + [] == Leaves(t) && Depths(t, 0) + [] == Depths(t, 0);
  }

  lemma {:induction false} CleanLeaves(t: Tree)
    requires forall i :: 0 <= i < |Leaves(t)| ==> Clean(Leaves(t)[i])
    ensures CleanTree(t)
    decreases t
  {
    hide Clean;
    if t.Branch? {
      assert forall i :: 0 <= i < |Leaves(t.left)| ==> Leaves(t.left)[i] == Leaves(t)[i];
      assert forall i :: 0 <= i < |Leaves(t.right)| ==> Leaves(t.right)[i] == Leaves(t)[|Leaves(t.left)| + i];
      CleanLeaves(t.left);
      CleanLeaves(t.right);
    } else {
      assert Leaves(t)[0] == t.key;
    }
  }

  /** What was parsed once is parsed again from its printed form, unless it has a single leaf. */
  lemma ReparseIff(desc: string, d: Descriptor)
    requires Parse(desc) == Some(d)
    requires Clean(d.internalKey) && forall i :: 0 <= i < |d.keys| ==> Clean(d.keys[i])
    ensures Parse(Printed(d.internalKey, d.keys, d.depths)) == Some(d) <==> |d.keys| != 1
  {
    hide Parse, Printed, Clean;
    if d.keys == [] {
      KeyOnlyRoundTrip(d.internalKey);
    } else {
      var t := AcceptedIsTree(desc, d);
      CleanLeaves(t);
      RoundTripIff(d.internalKey, t);
    }
  }

  // ---------------------------------------------------------------- the loops of the parser

  /** _get_expr. */
  method GetExpr(s: string) returns (expr: string, rest: string)
    requires s != ""
    ensures expr == s[..Cut(s, 0, 0)] && rest == s[Cut(s, 0, 0)..]
  {
    var level, i := 0, 0;
    while i < |s|
      invariant 0 <= i <= |s| && level >= 0
      invariant if i < |s| then Cut(s, i, level) == Cut(s, 0, 0) else Cut(s, 0, 0) == |s| - 1
    {
      if IsOpening(s[i]) {
        level := level + 1;
      } else if level > 0 && IsClosing(s[i]) {
        level := level - 1;
      } else if level == 0 && (IsClosing(s[i]) || s[i] == ',') {
        break;
      }
      i := i + 1;
    }
    // Python's loop variable keeps the last index when the loop is not left early.
    if i == |s| {
      i := |s| - 1;
    }
    return s[..i], s[i..];
  }

  /** The loop over opening braces. */
  method OpenBranches(start: seq<bool>, text: string) returns (ok: bool, branches: seq<bool>, expr: string)
    ensures !ok ==> ParseFrom(start, text) == None
    ensures ok ==>
            ParseFrom(branches, expr) == ParseFrom(start, text) && expr != "" && expr[0] != '{' && |expr| <= |text|
  {
    branches, expr := start, text;
    while expr != "" && expr[0] == '{'
      invariant ParseFrom(branches, expr) == ParseFrom(start, text) && |expr| <= |text|
      decreases |expr|
    {
      expr := expr[1..];
      branches := branches + [false];
      if |branches| > MAX_TAPROOT_NODES {
        return false, branches, expr;
      }
    }
    ok := expr != "";
  }

  /** The loop over closing braces, and the comma. */
  method CloseBranches(start: seq<bool>, text: string) returns (ok: bool, branches: seq<bool>, expr: string)
    ensures !ok ==> AfterScript(start, text) == None
    ensures ok && branches == [] ==> AfterScript(start, text) == Some(Scripts([], []))
    ensures ok && branches != [] ==> ParseFrom(branches, expr) == AfterScript(start, text) && |expr| < |text|
  {
    branches, expr := start, text;
    while |branches| > 0 && branches[|branches| - 1]
      invariant AfterScript(branches, expr) == AfterScript(start, text) && |expr| <= |text|
      decreases |branches|
    {
      if expr == "" || expr[0] != '}' {
        return false, branches, expr;
      }
      expr := expr[1..];
      branches := branches[..|branches| - 1];
    }
    if |branches| > 0 {
      if expr == "" || expr[0] != ',' {
        return false, branches, expr;
      }
      expr := expr[1..];
      assert branches[|branches| - 1 := true] == branches[..|branches| - 1] + [true];
      branches := branches[|branches| - 1 := true];
    }
    ok := true;
  }

  /** The loop of the tr branch of _parse_descriptor. */
  method ParseScripts(text: string) returns (r: Option<Scripts>)
    ensures r == ParseFrom([], text)
  {
    hide ParseFrom, AfterScript, ParseLeaf, Cut;
    var branches: seq<bool>, expr := [], text;
    var keys: seq<string>, depths: seq<nat> := [], [];
    BehindNothing(ParseFrom([], text));
    while true
      invariant ParseFrom([], text) == Behind(keys, depths, ParseFrom(branches, expr))
      decreases |expr|
    {
      ghost var rest := ParseFrom(branches, expr);
      var ok: bool;
      ok, branches, expr := OpenBranches(branches, expr);
      if !ok {
        return None;
      }
      ScriptStep(branches, expr);
      var sarg: string;
      sarg, expr := GetExpr(expr);
      var key := ParseLeaf(sarg);
      if key.None? {
        return None;
      }
      ghost var depth := |branches|;
      ghost var after := AfterScript(branches, expr);
      assert rest == Behind([key.value], [depth], after);
      BehindTwice(keys, depths, [key.value], [depth], after);
      keys := keys + [key.value];
      depths := depths + [|branches|];
      ok, branches, expr := CloseBranches(branches, expr);
      if !ok {
        return None;
      }
      if branches == [] {
        assert keys + [] == keys && depths + [] == depths;
        return Some(Scripts(keys, depths));
      }
    }
  }

  lemma BehindNothing(r: Option<Scripts>)
    ensures Behind([], [], r) == r
  {
    if r.Some? {
      assert [] + r.value.keys == r.value.keys && [] + r.value.depths == r.value.depths;
    }
  }

  lemma ScriptStep(branches: seq<bool>, expr: string)
    requires expr != "" && expr[0] != '{'
    ensures var key := ParseLeaf(expr[..Cut(expr, 0, 0)]);
            ParseFrom(branches, expr) == if key.None? then None
                else Behind([key.value], [|branches|], AfterScript(branches, expr[Cut(expr, 0, 0)..]))
    ensures ParseLeaf(expr[..Cut(expr, 0, 0)]).Some? ==> Cut(expr, 0, 0) > 0
  {
    hide ParseLeaf, Cut;
  }
}
