/** How a parsed wallet policy lies in memory: the nodes that parse_script, parse_child_scripts and
    parse_tree of src/common/wallet.c allocate one after the other in a byte buffer (src/common/buffer.c)
    and link by 16-bit relative pointers (src/common/wallet.h). */
module PolicyArena {
  import opened Wrappers

  // ---------------------------------------------------------------- policies

  datatype Token =
    | SH | WSH | PK | PKH | WPKH | MULTI | MULTI_A | SORTEDMULTI | SORTEDMULTI_A | TR
    | ZERO | ONE | PK_K | PK_H | OLDER | AFTER | SHA256 | HASH256 | RIPEMD160 | HASH160
    | ANDOR | AND_V | AND_B | AND_N | OR_B | OR_C | OR_D | OR_I | THRESH
    | WRAP_A | WRAP_S | WRAP_C | WRAP_T | WRAP_D | WRAP_V | WRAP_J | WRAP_N | WRAP_L | WRAP_U

  datatype Key = Key(numFirst: nat, numSecond: nat, index: nat)

  /** A policy as the template spells it. A wrapper is a node with one script, like sh() and wsh(). */
  datatype Script =
    | Constant(token: Token)
    | Number(token: Token, n: nat)
    | Hash(token: Token, image: Bytes)
    | Single(token: Token, key: Key)
    | Multi(token: Token, k: nat, keys: seq<Key>)
    | Nested(token: Token, scripts: seq<Script>)
    | Thresh(k: nat, scripts: seq<Script>)
    | Tr(key: Key, tree: Option<Tree>)

  datatype Tree = Leaf(script: Script) | Branch(left: Tree, right: Tree)

  // ---------------------------------------------------------------- memory

  /** The sizes of the structures, in bytes, and the places of relative pointers in them. */
  datatype Layout = Layout(
    constant: nat, number: nat, hash: nat, key: nat, single: nat, multi: nat, nested1: nat, nested2: nat,
        nested3: nat, thresh: nat,
    list: nat, tr: nat, tree: nat, scriptField: nat, listField: nat, treeField: nat)

  /** Pointers lie inside their structures, and an array of keys needs no padding. */
  predicate Sane(s: Layout) {
    && s.scriptField + 2 <= s.nested1 && s.scriptField + 4 <= s.nested2 && s.scriptField + 6 <= s.nested3
    && s.listField + 2 <= s.list && s.treeField + 4 <= s.tree
    && s.constant > 0 && s.number > 0 && s.hash > 0 && s.key > 0 && s.single > 0 && s.multi > 0 && s.thresh > 0
       && s.tr > 0
    && Aligned(s.key)
  }

  datatype Cell =
    | ConstantCell(token: Token)
    | NumberCell(token: Token, n: nat)
    | HashCell(token: Token, image: Bytes)
    | KeyCell(key: Key)
    | SingleCell(token: Token, keyAt: nat)
    | MultiCell(token: Token, k: nat, n: nat, keysAt: nat)
    | NestedCell(token: Token, rels: seq<nat>)
    | ThreshCell(k: nat, n: nat, listAt: nat)
    | ListCell(next: Option<nat>, rel: nat)
    | TrCell(keyAt: nat, treeAt: Option<nat>)
    | TreeLeafCell(rel: nat)
    | TreeBranchCell(leftRel: nat, rightRel: nat)

  function SizeOf(s: Layout, c: Cell): (r: nat)
    requires Sane(s)
    ensures r > 0
  {
    match c
    case ConstantCell(_) => s.constant
    case NumberCell(_, _) => s.number
    case HashCell(_, image) => s.hash + |image|
    case KeyCell(_) => s.key
    case SingleCell(_, _) => s.single
    case MultiCell(_, _, _, _) => s.multi
    case NestedCell(_, rels) => NestedSize(s, |rels|)
    case ThreshCell(_, _, _) => s.thresh
    case ListCell(_, _) => s.list
    case TrCell(_, _) => s.tr
    case TreeLeafCell(_) => s.tree
    case TreeBranchCell(_, _) => s.tree
  }

  /** Nodes have one, two or three scripts; the last case only makes the function total. */
  function NestedSize(s: Layout, n: nat): (r: nat)
    ensures Sane(s) ==> r > 0 && s.scriptField + 2 * n <= r
  {
    if n == 1 then s.nested1 else if n == 2 then s.nested2 else if n == 3 then s.nested3 else s.scriptField + 2 * n + 1
  }

  type Memory = map<nat, Cell>

  predicate Aligned(x: nat) {
    x % 4 == 0
  }

  function Align(x: nat): (r: nat)
    ensures Aligned(r) && x <= r < x + 4 && (Aligned(x) ==> r == x)
  {
    if x % 4 == 0 then x else x + (4 - x % 4)
  }

  /** init_relative_ptr and resolve_ptr: the distance is cut to 16 bits. */
  function Relative(from: nat, to: nat): (r: nat)
    ensures r < 0x10000
  {
    (to - from) % 0x10000
  }

  function Resolve(from: nat, rel: nat): nat {
    from + rel
  }

  /** A relative pointer leads back to its node exactly when that lies ahead, less than 64 kilobytes away. */
  lemma RelativeIff(from: nat, to: nat)
    ensures Resolve(from, Relative(from, to)) == to <==> from <= to < from + 0x10000
  {
  }

  // ---------------------------------------------------------------- where a policy ends

  /** The cursor after the nodes of a script that starts at a. */
  function End(s: Layout, e: Script, a: nat): (r: nat)
    ensures r >= a
    decreases e
  {
    match e
    case Constant(_) => a + s.constant
    case Number(_, _) => a + s.number
    case Hash(_, image) => a + s.hash + |image|
    case Single(_, _) => Align(a + s.single) + s.key
    case Multi(_, _, keys) => Stride(s, Align(a + s.multi), |keys|)
    case Nested(_, scripts) => EndAll(s, scripts, a + NestedSize(s, |scripts|))
    case Thresh(_, scripts) => EndList(s, scripts, a + s.thresh)
    case Tr(_, tree) =>
      var keyEnd := Align(a + s.tr) + s.key;
      if tree.None? then keyEnd else EndTree(s, tree.value, Align(keyEnd))
  }

  function EndAll(s: Layout, scripts: seq<Script>, cur: nat): (r: nat)
    ensures r >= cur
    decreases scripts
  {
    if scripts == [] then cur
    else End(s, scripts[|scripts| - 1], Align(EndAll(s, scripts[..|scripts| - 1], cur)))
  }

  function EndList(s: Layout, scripts: seq<Script>, cur: nat): (r: nat)
    ensures r >= cur
    decreases scripts
  {
    if scripts == [] then cur
    else End(s, scripts[|scripts| - 1], Align(Align(EndList(s, scripts[..|scripts| - 1], cur)) + s.list))
  }

  function EndTree(s: Layout, t: Tree, a: nat): (r: nat)
    ensures r >= a
    decreases t
  {
    match t
    case Leaf(e) => End(s, e, Align(a + s.tree))
    case Branch(l, r) => EndTree(s, r, Align(EndTree(s, l, Align(a + s.tree))))
  }

  /** The place of the i-th element of an array of keys. */
  function Stride(s: Layout, p: nat, i: nat): (r: nat)
    ensures r >= p
  {
    if i == 0 then p else Stride(s, p, i - 1) + s.key
  }

  /** The places of the i-th script of a node, of the i-th cell of a list, and of its script. */
  function ScriptAt(s: Layout, scripts: seq<Script>, cur: nat, i: nat): nat
    requires i <= |scripts|
  {
    Align(EndAll(s, scripts[..i], cur))
  }

  function CellAt(s: Layout, scripts: seq<Script>, cur: nat, i: nat): nat
    requires i <= |scripts|
  {
    Align(EndList(s, scripts[..i], cur))
  }

  function ListedAt(s: Layout, scripts: seq<Script>, cur: nat, i: nat): nat
    requires i <= |scripts|
  {
    Align(CellAt(s, scripts, cur, i) + s.list)
  }

  // ---------------------------------------------------------------- what it means to be stored

  /** Memory holds the script e with its root node at a: every pointer leads to the right node. */
  ghost predicate Stored(s: Layout, m: Memory, e: Script, a: nat)
    decreases e, 1
  {
    match e
    case Constant(token) => Holds(m, a, ConstantCell(token))
    case Number(token, n) => Holds(m, a, NumberCell(token, n))
    case Hash(token, image) => Holds(m, a, HashCell(token, image))
    case Single(token, key) => Holds(m, a, SingleCell(token, Align(a + s.single)))
        && Holds(m, Align(a + s.single), KeyCell(key))
    case Multi(token, k, keys) => Holds(m, a, MultiCell(token, k, |keys|, Align(a + s.multi)))
        && KeysStored(s, m, keys, Align(a + s.multi))
    case Nested(_, _) => NestedStored(s, m, e, a)
    case Thresh(_, _) => ThreshStored(s, m, e, a)
    case Tr(_, _) => TrStored(s, m, e, a)
  }

  /** Where the i-th relative pointer of a node at a leads. */
  function Target(s: Layout, rels: seq<nat>, a: nat, i: nat): nat
    requires i < |rels|
  {
    Resolve(a + s.scriptField + 2 * i, rels[i])
  }

  /** The relative pointers of a node. */
  ghost predicate RelsStored(s: Layout, m: Memory, token: Token, scripts: seq<Script>, a: nat) {
    && a in m && m[a].NestedCell? && m[a].token == token && |m[a].rels| == |scripts|
    && forall i :: 0 <= i < |scripts| ==>
       Target(s, m[a].rels, a, i) == ScriptAt(s, scripts, a + NestedSize(s, |scripts|), i)
  }

  ghost predicate NestedStored(s: Layout, m: Memory, e: Script, a: nat)
    requires e.Nested?
    decreases e, 0
  {
    && RelsStored(s, m, e.token, e.scripts, a)
    && forall i :: 0 <= i < |e.scripts| ==>
       Stored(s, m, e.scripts[i], ScriptAt(s, e.scripts, a + NestedSize(s, |e.scripts|), i))
  }

  ghost predicate ThreshStored(s: Layout, m: Memory, e: Script, a: nat)
    requires e.Thresh?
    decreases e, 0
  {
    && e.scripts != [] && Holds(m, a, ThreshCell(e.k, |e.scripts|, CellAt(s, e.scripts, a + s.thresh, 0)))
    && CellsStored(s, m, e.scripts, a + s.thresh)
    && (forall i :: 0 <= i < |e.scripts| ==> Stored(s, m, e.scripts[i], ListedAt(s, e.scripts, a + s.thresh, i)))
  }

  ghost predicate TrStored(s: Layout, m: Memory, e: Script, a: nat)
    requires e.Tr?
    decreases e, 0
  {
    var p := Align(a + s.tr);
    var q := Align(p + s.key);
    && Holds(m, a, TrCell(p, if e.tree.None? then None else Some(q))) && Holds(m, p, KeyCell(e.key))
    && (e.tree.Some? ==> TreeStored(s, m, e.tree.value, q))
  }

  ghost predicate TreeStored(s: Layout, m: Memory, t: Tree, a: nat)
    decreases t
  {
    a in m &&
    match t
    case Leaf(e) =>
      var p := Align(a + s.tree);
      m[a].TreeLeafCell? && Resolve(a + s.treeField, m[a].rel) == p && Stored(s, m, e, p)
    case Branch(l, r) =>
      var p := Align(a + s.tree);
      var q := Align(EndTree(s, l, p));
      && m[a].TreeBranchCell? && Resolve(a + s.treeField, m[a].leftRel) == p
         && Resolve(a + s.treeField + 2, m[a].rightRel) == q
      && TreeStored(s, m, l, p) && TreeStored(s, m, r, q)
  }

  predicate Holds(m: Memory, a: nat, c: Cell) {
    a in m && m[a] == c
  }

  ghost predicate KeysStored(s: Layout, m: Memory, keys: seq<Key>, p: nat) {
    forall i :: 0 <= i < |keys| ==> Holds(m, Stride(s, p, i), KeyCell(keys[i]))
  }

  ghost predicate CellsStored(s: Layout, m: Memory, scripts: seq<Script>, cur: nat) {
    forall i :: 0 <= i < |scripts| ==> ListCellStored(s, m, scripts, cur, i)
  }

  /** A list cell points to its script and to the next cell. */
  ghost predicate ListCellStored(s: Layout, m: Memory, scripts: seq<Script>, cur: nat, i: nat)
    requires i < |scripts|
  {
    var c := CellAt(s, scripts, cur, i);
    && c in m && m[c].ListCell?
    && m[c].next == (if i + 1 < |scripts| then Some(CellAt(s, scripts, cur, i + 1)) else None)
    && Resolve(c + s.listField, m[c].rel) == ListedAt(s, scripts, cur, i)
  }

  // ---------------------------------------------------------------- what a parse adds stays

  ghost predicate KeepsIn(m: Memory, m2: Memory, lo: nat, hi: nat) {
    forall x :: x in m && lo <= x < hi ==> Holds(m2, x, m[x])
  }

  ghost predicate Extends(m: Memory, m2: Memory) {
    forall x :: x in m ==> Holds(m2, x, m[x])
  }

  /** The i-th script lies inside its node's range. */
  lemma {:induction false} ScriptInside(s: Layout, scripts: seq<Script>, cur: nat, i: nat)
    requires i < |scripts|
    ensures cur <= ScriptAt(s, scripts, cur, i)
    ensures End(s, scripts[i], ScriptAt(s, scripts, cur, i))
            == EndAll(s, scripts[..i + 1], cur) <= EndAll(s, scripts, cur)
    decreases |scripts|
  {
    hide End, Align;
    assert scripts[..i + 1][..i] == scripts[..i];
    if i + 1 < |scripts| {
      var init := scripts[..|scripts| - 1];
      ScriptInside(s, init, cur, i);
      assert init[..i] == scripts[..i] && init[..i + 1] == scripts[..i + 1];
    } else {
      assert scripts[..i + 1] == scripts;
    }
  }

  lemma {:induction false} ListInside(s: Layout, scripts: seq<Script>, cur: nat, i: nat)
    requires i < |scripts|
    ensures cur <= CellAt(s, scripts, cur, i) && CellAt(s, scripts, cur, i) + s.list <= ListedAt(s, scripts, cur, i)
    ensures End(s, scripts[i], ListedAt(s, scripts, cur, i))
            == EndList(s, scripts[..i + 1], cur) <= EndList(s, scripts, cur)
    decreases |scripts|
  {
    hide End, Align;
    assert scripts[..i + 1][..i] == scripts[..i];
    if i + 1 < |scripts| {
      var init := scripts[..|scripts| - 1];
      ListInside(s, init, cur, i);
      assert init[..i] == scripts[..i] && init[..i + 1] == scripts[..i + 1];
    } else {
      assert scripts[..i + 1] == scripts;
    }
  }

  lemma {:induction false} StrideInside(s: Layout, p: nat, i: nat, n: nat)
    requires i < n && s.key > 0
    ensures p <= Stride(s, p, i) < Stride(s, p, n)
    decreases n
  {
    if i + 1 < n {
      StrideInside(s, p, i, n - 1);
    }
  }

  /** A script stays stored as long as memory keeps its range. */
  lemma {:induction false} StoredKept(s: Layout, m: Memory, m2: Memory, e: Script, a: nat)
    requires Sane(s) && Stored(s, m, e, a) && KeepsIn(m, m2, a, End(s, e, a))
    ensures Stored(s, m2, e, a)
    decreases e, 1
  {
    hide NestedStored, ThreshStored, TrStored, KeysStored, Stride, EndAll, EndList, EndTree, NestedSize;
    match e
    case Constant(_) =>
    case Number(_, _) =>
    case Hash(_, _) =>
    case Single(_, _) =>
    case Multi(_, _, keys) =>
      KeysKept(s, m, m2, keys, Align(a + s.multi));
    case Nested(_, _) =>
      NestedKept(s, m, m2, e, a);
    case Thresh(_, _) =>
      ThreshKept(s, m, m2, e, a);
    case Tr(_, _) =>
      TrKept(s, m, m2, e, a);
  }

  lemma KeysKept(s: Layout, m: Memory, m2: Memory, keys: seq<Key>, p: nat)
    requires Sane(s) && KeysStored(s, m, keys, p) && KeepsIn(m, m2, p, Stride(s, p, |keys|))
    ensures KeysStored(s, m2, keys, p)
  {
    hide Stride;
    forall i | 0 <= i < |keys| ensures Holds(m2, Stride(s, p, i), KeyCell(keys[i])) {
      StrideInside(s, p, i, |keys|);
      assert Holds(m, Stride(s, p, i), KeyCell(keys[i]));
    }
  }

  lemma {:induction false} NestedKept(s: Layout, m: Memory, m2: Memory, e: Script, a: nat)
    requires Sane(s) && e.Nested? && NestedStored(s, m, e, a) && KeepsIn(m, m2, a, End(s, e, a))
    ensures NestedStored(s, m2, e, a)
    decreases e, 0
  {
    hide Stored, ScriptAt, EndAll, Target, NestedSize;
    var cur := a + NestedSize(s, |e.scripts|);
    forall i | 0 <= i < |e.scripts| ensures Stored(s, m2, e.scripts[i], ScriptAt(s, e.scripts, cur, i)) {
      ScriptInside(s, e.scripts, cur, i);
      StoredKept(s, m, m2, e.scripts[i], ScriptAt(s, e.scripts, cur, i));
    }
  }

  lemma {:induction false} ThreshKept(s: Layout, m: Memory, m2: Memory, e: Script, a: nat)
    requires Sane(s) && e.Thresh? && ThreshStored(s, m, e, a) && KeepsIn(m, m2, a, End(s, e, a))
    ensures ThreshStored(s, m2, e, a)
    decreases e, 0
  {
    hide Stored, CellAt, ListedAt, EndList, Resolve;
    var cur := a + s.thresh;
    forall i | 0 <= i < |e.scripts|
      ensures ListCellStored(s, m2, e.scripts, cur, i)
      ensures Stored(s, m2, e.scripts[i], ListedAt(s, e.scripts, cur, i))
    {
      ListInside(s, e.scripts, cur, i);
      assert ListCellStored(s, m, e.scripts, cur, i);
      StoredKept(s, m, m2, e.scripts[i], ListedAt(s, e.scripts, cur, i));
    }
  }

  lemma {:induction false} TrKept(s: Layout, m: Memory, m2: Memory, e: Script, a: nat)
    requires Sane(s) && e.Tr? && TrStored(s, m, e, a) && KeepsIn(m, m2, a, End(s, e, a))
    ensures TrStored(s, m2, e, a)
    decreases e, 0
  {
    hide TreeStored, EndTree;
    if e.tree.Some? {
      TreeKept(s, m, m2, e.tree.value, Align(Align(a + s.tr) + s.key));
    }
  }

  lemma {:induction false} TreeKept(s: Layout, m: Memory, m2: Memory, t: Tree, a: nat)
    requires Sane(s) && TreeStored(s, m, t, a) && KeepsIn(m, m2, a, EndTree(s, t, a))
    ensures TreeStored(s, m2, t, a)
    decreases t
  {
    hide Stored, Align, Resolve;
    match t
    case Leaf(e) =>
      StoredKept(s, m, m2, e, Align(a + s.tree));
    case Branch(l, r) =>
      var p := Align(a + s.tree);
      TreeKept(s, m, m2, l, p);
      TreeKept(s, m, m2, r, Align(EndTree(s, l, p)));
  }
}
