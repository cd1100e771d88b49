/** Walking through a stored policy along its pointers, as every user of the parsed policy does with
    resolve_node_ptr of src/common/wallet.h. The walk only goes forward, so it ends. */
module PolicyReader {
  import opened Wrappers
  import opened PolicyArena

  /** The script whose root node is at a, or None where a pointer leads astray, backwards or past the end. */
  function Read(s: Layout, m: Memory, a: nat, limit: nat): Option<Script>
    decreases limit - a, 1, 0
  {
    if a !in m || a >= limit then None
    else
      match m[a]
      case ConstantCell(token) => Some(Constant(token))
      case NumberCell(token, n) => Some(Number(token, n))
      case HashCell(token, image) => Some(Hash(token, image))
      case SingleCell(token, p) =>
        var key :- ReadKey(m, p);
        Some(Single(token, key))
      case MultiCell(token, k, n, p) =>
        var keys :- ReadKeys(s, m, p, n);
        Some(Multi(token, k, keys))
      case NestedCell(token, rels) =>
        var scripts :- ReadAll(s, m, a, rels, |rels|, limit);
        Some(Nested(token, scripts))
      case ThreshCell(k, n, c) =>
        if c <= a then None
        else
          var scripts :- ReadList(s, m, c, limit);
          if |scripts| == n then Some(Thresh(k, scripts)) else None
      case TrCell(p, q) =>
        var key :- ReadKey(m, p);
        if q.None? then Some(Tr(key, None))
        else if q.value <= a then None
        else
          var tree :- ReadTree(s, m, q.value, limit);
          Some(Tr(key, Some(tree)))
      case _ => None
  }

  function ReadKey(m: Memory, p: nat): Option<Key> {
    if p in m && m[p].KeyCell? then Some(m[p].key) else None
  }

  function ReadKeys(s: Layout, m: Memory, p: nat, n: nat): Option<seq<Key>> {
    if n == 0 then Some([])
    else
      var init :- ReadKeys(s, m, p, n - 1);
      var last :- ReadKey(m, Stride(s, p, n - 1));
      Some(init + [last])
  }

  /** The first n scripts of a node at a. */
  function ReadAll(s: Layout, m: Memory, a: nat, rels: seq<nat>, n: nat, limit: nat): Option<seq<Script>>
    requires n <= |rels|
    decreases limit - a, 0, n
  {
    if n == 0 then Some([])
    else
      var init :- ReadAll(s, m, a, rels, n - 1, limit);
      var p := Target(s, rels, a, n - 1);
      if p <= a || p >= limit then None
      else
        var last :- Read(s, m, p, limit);
        Some(init + [last])
  }

  /** The scripts of a list from the cell at c on. */
  function ReadList(s: Layout, m: Memory, c: nat, limit: nat): Option<seq<Script>>
    decreases limit - c, 0, 0
  {
    if c !in m || c >= limit || !m[c].ListCell? then None
    else
      var p := Resolve(c + s.listField, m[c].rel);
      if p <= c || p >= limit then None
      else
        var first :- Read(s, m, p, limit);
        if m[c].next.None? then Some([first])
        else if m[c].next.value <= c then None
        else
          var rest :- ReadList(s, m, m[c].next.value, limit);
          Some([first] + rest)
  }

  function ReadTree(s: Layout, m: Memory, a: nat, limit: nat): Option<Tree>
    decreases limit - a, 0, 0
  {
    if a !in m || a >= limit then None
    else
      match m[a]
      case TreeLeafCell(rel) =>
        var p := Resolve(a + s.treeField, rel);
        if p <= a || p >= limit then None
        else
          var e :- Read(s, m, p, limit);
          Some(Leaf(e))
      case TreeBranchCell(leftRel, rightRel) =>
        var p, q := Resolve(a + s.treeField, leftRel), Resolve(a + s.treeField + 2, rightRel);
        if p <= a || q <= a || p >= limit || q >= limit then None
        else
          var l :- ReadTree(s, m, p, limit);
          var r :- ReadTree(s, m, q, limit);
          Some(Branch(l, r))
      case _ => None
  }

  // ---------------------------------------------------------------- reading back what was stored

  lemma EndBeyond(s: Layout, e: Script, a: nat)
    requires Sane(s)
    ensures End(s, e, a) > a
  {
    hide EndAll, EndList, EndTree, Align, NestedSize;
    if e.Multi? {
      assert Stride(s, Align(a + s.multi), |e.keys|) >= a + s.multi;
    }
  }

  lemma TreeBeyond(s: Layout, t: Tree, a: nat)
    requires Sane(s)
    ensures EndTree(s, t, a) > a
  {
    hide End, Align;
  }

  /** The walk gives back the policy that is stored. */
  lemma {:induction false} ReadsStored(s: Layout, m: Memory, e: Script, a: nat, limit: nat)
    requires Sane(s) && Stored(s, m, e, a) && End(s, e, a) <= limit
    ensures Read(s, m, a, limit) == Some(e)
    decreases e, 1
  {
    hide NestedStored, ThreshStored, TrStored, KeysStored, Stride, EndAll, EndList, EndTree, NestedSize, Align,
         ReadAll, ReadList, ReadTree, ReadKeys;
    EndBeyond(s, e, a);
    match e
    case Constant(_) =>
    case Number(_, _) =>
    case Hash(_, _) =>
    case Single(_, _) =>
    case Multi(_, _, keys) =>
      ReadsKeys(s, m, keys, Align(a + s.multi), |keys|);
      assert keys[..|keys|] == keys;
    case Nested(_, _) =>
      ReadsNested(s, m, e, a, limit);
    case Thresh(_, _) =>
      ReadsThresh(s, m, e, a, limit);
    case Tr(_, _) =>
      ReadsTr(s, m, e, a, limit);
  }

  lemma {:induction false} ReadsKeys(s: Layout, m: Memory, keys: seq<Key>, p: nat, n: nat)
    requires n <= |keys| && KeysStored(s, m, keys, p)
    ensures ReadKeys(s, m, p, n) == Some(keys[..n])
    decreases n
  {
    hide Stride;
    if n > 0 {
      ReadsKeys(s, m, keys, p, n - 1);
      assert Holds(m, Stride(s, p, n - 1), KeyCell(keys[n - 1]));
      assert keys[..n] == keys[..n - 1] + [keys[n - 1]];
    }
  }

  lemma {:induction false} ReadsNested(s: Layout, m: Memory, e: Script, a: nat, limit: nat)
    requires Sane(s) && e.Nested? && NestedStored(s, m, e, a) && End(s, e, a) <= limit
    ensures Read(s, m, a, limit) == Some(e)
    decreases e, 0, |e.scripts| + 1
  {
    hide Stored, ScriptAt, EndAll, Target, NestedSize, ReadAll;
    EndBeyond(s, e, a);
    ReadsScripts(s, m, e, a, |e.scripts|, limit);
    assert e.scripts[..|e.scripts|] == e.scripts;
  }

  lemma {:induction false} ReadsScripts(s: Layout, m: Memory, e: Script, a: nat, n: nat, limit: nat)
    requires Sane(s) && e.Nested? && NestedStored(s, m, e, a) && End(s, e, a) <= limit && n <= |e.scripts|
    ensures ReadAll(s, m, a, m[a].rels, n, limit) == Some(e.scripts[..n])
    decreases e, 0, n
  {
    hide Stored, ScriptAt, EndAll, Target, NestedSize, Read;
    if n > 0 {
      var cur := a + NestedSize(s, |e.scripts|);
      var x := e.scripts[n - 1];
      var p := ScriptAt(s, e.scripts, cur, n - 1);
      ReadsScripts(s, m, e, a, n - 1, limit);
      ScriptInside(s, e.scripts, cur, n - 1);
      EndBeyond(s, x, p);
      ReadsStored(s, m, x, p, limit);
      assert Target(s, m[a].rels, a, n - 1) == p;
      assert e.scripts[..n] == e.scripts[..n - 1] + [x];
    }
  }

  lemma {:induction false} ReadsThresh(s: Layout, m: Memory, e: Script, a: nat, limit: nat)
    requires Sane(s) && e.Thresh? && ThreshStored(s, m, e, a) && End(s, e, a) <= limit
    ensures Read(s, m, a, limit) == Some(e)
    decreases e, 0, |e.scripts| + 1
  {
    hide Stored, CellAt, ListedAt, EndList, ListCellStored, ReadList;
    EndBeyond(s, e, a);
    ListInside(s, e.scripts, a + s.thresh, 0);
    ReadsCells(s, m, e, a, 0, limit);
    assert e.scripts[0..] == e.scripts;
  }

  lemma {:induction false} ReadsCells(s: Layout, m: Memory, e: Script, a: nat, i: nat, limit: nat)
    requires Sane(s) && e.Thresh? && ThreshStored(s, m, e, a) && End(s, e, a) <= limit && i < |e.scripts|
    ensures ReadList(s, m, CellAt(s, e.scripts, a + s.thresh, i), limit) == Some(e.scripts[i..])
    decreases e, 0, |e.scripts| - i
  {
    hide Stored, CellAt, ListedAt, EndList, Read;
    var cur, x := a + s.thresh, e.scripts[i];
    var c, p := CellAt(s, e.scripts, cur, i), ListedAt(s, e.scripts, cur, i);
    assert ListCellStored(s, m, e.scripts, cur, i);
    ListInside(s, e.scripts, cur, i);
    EndBeyond(s, x, p);
    ReadsStored(s, m, x, p, limit);
    if i + 1 < |e.scripts| {
      ReadsCells(s, m, e, a, i + 1, limit);
      NextCell(s, e.scripts, cur, i);
      assert e.scripts[i..] == [x] + e.scripts[i + 1..];
    } else {
      assert e.scripts[i..] == [x];
    }
  }

  lemma NextCell(s: Layout, scripts: seq<Script>, cur: nat, i: nat)
    requires Sane(s) && i + 1 < |scripts|
    ensures CellAt(s, scripts, cur, i) < CellAt(s, scripts, cur, i + 1)
  {
    hide EndList, Align;
    ListInside(s, scripts, cur, i);
    EndBeyond(s, scripts[i], ListedAt(s, scripts, cur, i));
  }

  lemma {:induction false} ReadsTr(s: Layout, m: Memory, e: Script, a: nat, limit: nat)
    requires Sane(s) && e.Tr? && TrStored(s, m, e, a) && End(s, e, a) <= limit
    ensures Read(s, m, a, limit) == Some(e)
    decreases e, 0
  {
    hide TreeStored, EndTree, ReadTree, Align;
    EndBeyond(s, e, a);
    if e.tree.Some? {
      ReadsTree(s, m, e.tree.value, Align(Align(a + s.tr) + s.key), limit);
    }
  }

  lemma {:induction false} ReadsTree(s: Layout, m: Memory, t: Tree, a: nat, limit: nat)
    requires Sane(s) && TreeStored(s, m, t, a) && EndTree(s, t, a) <= limit
    ensures ReadTree(s, m, a, limit) == Some(t)
    decreases t
  {
    hide Stored, Align, Resolve, Read, End;
    TreeBeyond(s, t, a);
    var p := Align(a + s.tree);
    match t
    case Leaf(e) =>
      EndBeyond(s, e, p);
      ReadsStored(s, m, e, p, limit);
    case Branch(l, r) =>
      var q := Align(EndTree(s, l, p));
      TreeBeyond(s, l, p);
      TreeBeyond(s, r, q);
      ReadsTree(s, m, l, p, limit);
      ReadsTree(s, m, r, q, limit);
  }
}
