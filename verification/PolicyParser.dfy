/** The allocation side of the policy parser of src/common/wallet.c. The characters of the template are
    read as the script that they spell; what is modelled is every allocation, every write of a pointer
    and every way to run out of memory. */
module PolicyParser {
  import opened Wrappers
  import opened PolicyArena
  import opened PolicyReader

  const MAX_PUBKEYS_PER_MULTISIG := 16
  const MAX_TAPTREE_POLICY_DEPTH := 4
  const MAX_THRESHOLD := 32767

  /** The limits on counts and on the depth of a taptree that the parser enforces. */
  predicate Proper(e: Script)
    decreases e
  {
    match e
    case Multi(_, k, keys) => 1 <= k <= |keys| <= MAX_PUBKEYS_PER_MULTISIG
    case Nested(_, scripts) => forall i :: 0 <= i < |scripts| ==> Proper(scripts[i])
    case Thresh(k, scripts) =>
      1 <= k <= MAX_THRESHOLD && scripts != [] && forall i :: 0 <= i < |scripts| ==> Proper(scripts[i])
    case Tr(_, tree) => tree.Some? ==> ProperTree(tree.value, 1)
    case _ => true
  }

  predicate ProperTree(t: Tree, depth: nat)
    decreases t
  {
    depth <= MAX_TAPTREE_POLICY_DEPTH &&
    match t
    case Leaf(e) => Proper(e)
    case Branch(l, r) => ProperTree(l, depth + 1) && ProperTree(r, depth + 1)
  }

  /** Nodes are aligned, lie below the cursor and do not overlap. */
  ghost predicate Tidy(s: Layout, m: Memory, hi: nat)
    requires Sane(s)
  {
    && (forall x :: x in m ==> Aligned(x) && x + SizeOf(s, m[x]) <= hi)
    && (forall x, y :: x in m && y in m && x < y ==> x + SizeOf(s, m[x]) <= y)
  }

  /** Everything but the cell at a is kept. */
  ghost predicate KeepsOthers(m: Memory, m2: Memory, a: nat) {
    forall x :: x in m && x != a ==> Holds(m2, x, m[x])
  }

  lemma OthersStart(m: Memory, a: nat)
    ensures KeepsOthers(m, m, a)
  {
  }

  lemma OthersStep(m: Memory, m0: Memory, m1: Memory, m2: Memory, a: nat)
    requires KeepsOthers(m, m0, a) && a in m1 && m1 == m0[a := m1[a]] && Extends(m1, m2)
    ensures KeepsOthers(m, m2, a) && Holds(m2, a, m1[a])
  {
    forall x | x in m && x != a ensures Holds(m2, x, m[x]) {
      assert Holds(m0, x, m[x]);
      assert x in m1 && m1[x] == m[x];
    }
  }

  lemma FreshOthers(m: Memory, m1: Memory, m2: Memory, a: nat)
    requires a !in m && Extends(m, m1) && KeepsOthers(m1, m2, a)
    ensures Extends(m, m2)
  {
    forall x | x in m ensures Holds(m2, x, m[x]) {
      assert Holds(m1, x, m[x]);
    }
  }

  lemma TidyAlloc(s: Layout, m: Memory, hi: nat, a: nat, c: Cell)
    requires Sane(s) && Tidy(s, m, hi) && hi <= a && Aligned(a)
    ensures a !in m && Tidy(s, m[a := c], a + SizeOf(s, c))
  {
    hide SizeOf, Aligned;
    assert forall x :: x in m ==> x < x + SizeOf(s, m[x]) <= hi;
  }

  lemma TidyPatch(s: Layout, m: Memory, hi: nat, a: nat, c: Cell)
    requires Sane(s) && Tidy(s, m, hi) && a in m && SizeOf(s, c) == SizeOf(s, m[a])
    ensures Tidy(s, m[a := c], hi)
  {
    hide SizeOf, Aligned;
  }

  predicate IsWrapper(e: Script) {
    && e.Nested? && |e.scripts| == 1
    && e.token in {WRAP_A, WRAP_S, WRAP_C, WRAP_T, WRAP_D, WRAP_V, WRAP_J, WRAP_N, WRAP_L, WRAP_U}
  }

  /** The wrappers of e, from the outermost one at a to the innermost one so far, at last, around rest. Every one but
      the last points to the next. */
  ghost predicate Chain(s: Layout, m: Memory, e: Script, a: nat, rest: Script, last: nat)
    decreases e
  {
    && IsWrapper(e) && a in m && m[a].NestedCell? && m[a].token == e.token && |m[a].rels| == 1
    && if a == last then e.scripts[0] == rest
       else
         a < last && Target(s, m[a].rels, a, 0) == Align(a + s.nested1)
         && Chain(s, m, e.scripts[0], Align(a + s.nested1), rest, last)
  }

  class Arena {
    const layout: Layout
    const size: nat
    var offset: nat
    var cells: Memory

    ghost predicate Valid()
      reads this
    {
      Sane(layout) && offset <= size <= 0x10000 && Tidy(layout, cells, offset)
    }

    /** buffer_create on an aligned buffer. */
    constructor (layout: Layout, size: nat)
      requires Sane(layout) && size <= 0x10000
      ensures Valid() && this.layout == layout && this.size == size && offset == 0 && cells == map[]
    {
      this.layout, this.size := layout, size;
      offset, cells := 0, map[];
    }

    /** buffer_alloc of an aligned structure, and the values written into it. */
    method Alloc(c: Cell) returns (r: Option<nat>)
      requires Valid()
      modifies this`offset, this`cells
      ensures Valid()
      ensures r.Some? <==> Align(old(offset)) + SizeOf(layout, c) <= size
      ensures r.None? ==> offset == old(offset) && cells == old(cells)
      ensures r.Some? ==>
              r.value !in old(cells) && r.value == Align(old(offset))
              && offset == r.value + SizeOf(layout, c) && cells == old(cells)[r.value := c]
      ensures Extends(old(cells), cells)
    {
      hide SizeOf, Align, Tidy;
      var start := Align(offset);
      if start + SizeOf(layout, c) > size {
        return None;
      }
      TidyAlloc(layout, cells, offset, start, c);
      cells := cells[start := c];
      offset := start + SizeOf(layout, c);
      r := Some(start);
    }

    /** buffer_alloc of nothing, whose failure the parser ignores. */
    method AlignCursor()
      requires Valid()
      modifies this`offset
      ensures Valid()
      ensures offset == if Align(old(offset)) <= size then Align(old(offset)) else old(offset)
    {
      hide Align;
      var start := Align(offset);
      if start <= size {
        offset := start;
      }
    }

    /** A write into a structure that was allocated before. */
    method Patch(a: nat, c: Cell)
      requires Valid() && a in cells && SizeOf(layout, c) == SizeOf(layout, cells[a])
      modifies this`cells
      ensures Valid() && cells == old(cells)[a := c]
    {
      hide SizeOf, Tidy;
      TidyPatch(layout, cells, offset, a, c);
      cells := cells[a := c];
    }

    /** parse_script: the nodes of all wrappers first, then the script inside them. */
    method ParseScript(e: Script) returns (ok: bool)
      requires Valid()
      modifies this`offset, this`cells
      ensures Valid() && Extends(old(cells), cells)
      ensures ok <==> Proper(e) && End(layout, e, Align(old(offset))) <= size
      ensures ok ==> offset == End(layout, e, Align(old(offset))) && Stored(layout, cells, e, Align(old(offset)))
      decreases e, 3
    {
      hide Align, Tidy, End, Stored, Proper, Chain, Relative;
      ghost var outermost := Align(offset);
      var inner: Option<nat> := None;
      var rest := e;
      while IsWrapper(rest)
        invariant Valid() && Extends(old(cells), cells) && (rest == e || rest < e)
        invariant Proper(rest) == Proper(e) && End(layout, rest, Align(offset)) == End(layout, e, outermost)
        invariant inner.None? ==> rest == e && Align(offset) == outermost && offset == old(offset)
        invariant inner.Some? ==>
                  inner.value in cells && cells[inner.value].NestedCell? && |cells[inner.value].rels| == 1
        invariant inner.Some? ==>
                  inner.value !in old(cells) && inner.value + layout.nested1 == offset
                  && Chain(layout, cells, e, outermost, rest, inner.value)
        decreases rest
      {
        WrapperFacts(layout, rest, Align(offset));
        ghost var before := cells;
        var r := Alloc(NestedCell(rest.token, [0]));
        if r.None? {
          return false;
        }
        var node := r.value;
        ghost var extended := cells;
        if inner.Some? {
          Patch(inner.value, NestedCell(cells[inner.value].token, [Relative(inner.value + layout.scriptField, node)]));
        }
        ChainStep(layout, before, extended, cells, e, outermost, rest, inner, node);
        inner := Some(node);
        rest := rest.scripts[0];
      }
      var start := Align(offset);
      ghost var before := cells;
      ok := ParseCore(rest);
      assert inner.Some? ==> Holds(cells, inner.value, before[inner.value]);
      if ok && inner.Some? {
        ghost var parsed := cells;
        Patch(inner.value, NestedCell(cells[inner.value].token, [Relative(inner.value + layout.scriptField, start)]));
        ChainStored(layout, before, parsed, cells, e, outermost, rest, inner.value, start);
      }
    }

    /** parse_script, except for the wrappers. */
    method ParseCore(e: Script) returns (ok: bool)
      requires Valid()
      modifies this`offset, this`cells
      ensures Valid() && Extends(old(cells), cells)
      ensures ok <==> Proper(e) && End(layout, e, Align(old(offset))) <= size
      ensures ok ==> offset == End(layout, e, Align(old(offset))) && Stored(layout, cells, e, Align(old(offset)))
      decreases e, 2
    {
      hide Align, Tidy, NestedStored, ThreshStored, TrStored, KeysStored, EndAll, EndList, EndTree, Stride, NestedSize;
      match e {
        case Constant(token) =>
          var r := Alloc(ConstantCell(token));
          ok := r.Some?;
        case Number(token, n) =>
          var r := Alloc(NumberCell(token, n));
          ok := r.Some?;
        case Hash(token, image) =>
          var r := Alloc(HashCell(token, image));
          ok := r.Some?;
        case Single(token, key) =>
          ok := ParseSingle(e);
        case Multi(_, _, _) =>
          ok := ParseMulti(e);
        case Nested(_, _) =>
          ok := ParseNested(e);
        case Thresh(_, _) =>
          ok := ParseThresh(e);
        case Tr(_, _) =>
          ok := ParseTr(e);
      }
    }

    /** A key, allocated behind its node. */
    method ParseSingle(e: Script) returns (ok: bool)
      requires Valid() && e.Single?
      modifies this`offset, this`cells
      ensures Valid() && Extends(old(cells), cells)
      ensures ok <==> End(layout, e, Align(old(offset))) <= size
      ensures ok ==> offset == End(layout, e, Align(old(offset))) && Stored(layout, cells, e, Align(old(offset)))
    {
      hide Align, Tidy;
      var r := Alloc(SingleCell(e.token, 0));
      if r.None? {
        return false;
      }
      var p := Alloc(KeyCell(e.key));
      if p.None? {
        return false;
      }
      Patch(r.value, SingleCell(e.token, p.value));
      ok := true;
    }

    /** An array of keys behind its node. */
    method ParseMulti(e: Script) returns (ok: bool)
      requires Valid() && e.Multi?
      modifies this`offset, this`cells
      ensures Valid() && Extends(old(cells), cells)
      ensures ok <==> Proper(e) && End(layout, e, Align(old(offset))) <= size
      ensures ok ==> offset == End(layout, e, Align(old(offset))) && Stored(layout, cells, e, Align(old(offset)))
    {
      hide Align, Tidy, Stride, KeysStored;
      var r := Alloc(MultiCell(e.token, e.k, 0, 0));
      if r.None? {
        return false;
      }
      ghost var before := cells;
      AlignCursor();
      var keysAt := offset;
      var n := ParseKeys(e.keys);
      if n < |e.keys| {
        return false;
      }
      if !(1 <= e.k && e.k <= n && n <= MAX_PUBKEYS_PER_MULTISIG) {
        return false;
      }
      assert Aligned(keysAt);
      ghost var stored := cells;
      assert r.value in before;
      Patch(r.value, MultiCell(e.token, e.k, n, keysAt));
      KeysKept(layout, stored, cells, e.keys, keysAt);
      ok := true;
    }

    /** The loop over the keys: how many could be allocated. */
    method ParseKeys(keys: seq<Key>) returns (n: nat)
      requires Valid()
      modifies this`offset, this`cells
      ensures Valid() && Extends(old(cells), cells)
      ensures n <= |keys| && (keys != [] ==> (n == |keys| <==> Stride(layout, Align(old(offset)), |keys|) <= size))
      ensures n == |keys| && keys != [] && Aligned(old(offset)) ==>
              offset == Stride(layout, old(offset), n) && KeysStored(layout, cells, keys, old(offset))
    {
      hide Align, Tidy, Stride;
      ghost var p := Align(offset);
      StrideStart(layout, p);
      n := 0;
      while n < |keys|
        invariant 0 <= n <= |keys| && Valid() && Extends(old(cells), cells)
        invariant offset == if n == 0 then old(offset) else Stride(layout, p, n)
        invariant forall j :: 0 <= j < n ==> Holds(cells, Stride(layout, p, j), KeyCell(keys[j]))
      {
        StrideStep(layout, p, n);
        if n + 1 < |keys| {
          StrideInside(layout, p, n + 1, |keys|);
        }
        var q := Alloc(KeyCell(keys[n]));
        if q.None? {
          return;
        }
        n := n + 1;
      }
    }

    /** sh, wsh and the combinators with a fixed number of scripts: the node first, then its scripts. */
    method ParseNested(e: Script) returns (ok: bool)
      requires Valid() && e.Nested?
      modifies this`offset, this`cells
      ensures Valid() && Extends(old(cells), cells)
      ensures ok <==> Proper(e) && End(layout, e, Align(old(offset))) <= size
      ensures ok ==> offset == End(layout, e, Align(old(offset))) && NestedStored(layout, cells, e, Align(old(offset)))
      decreases e, 1
    {
      hide Align, Tidy, EndAll, NestedSize, NestedStored;
      var rels := seq(|e.scripts|, _ => 0);
      var r := Alloc(NestedCell(e.token, rels));
      if r.None? {
        return false;
      }
      ghost var before := cells;
      ok := ParseChildScripts(e, r.value);
      FreshOthers(old(cells), before, cells, r.value);
    }

    /** parse_child_scripts. */
    method ParseChildScripts(e: Script, a: nat) returns (ok: bool)
      requires Valid() && e.Nested? && a in cells && cells[a].NestedCell? && cells[a].token == e.token
               && |cells[a].rels| == |e.scripts|
      requires offset == a + NestedSize(layout, |e.scripts|)
      modifies this`offset, this`cells
      ensures Valid() && KeepsOthers(old(cells), cells, a)
      ensures ok <==> Proper(e) && End(layout, e, a) <= size
      ensures ok ==> offset == End(layout, e, a) && NestedStored(layout, cells, e, a)
      decreases e, 0
    {
      hide Align, Tidy, EndAll, NestedSize, ScriptAt, Stored, Relative, Placed, NestedStored, KeepsOthers;
      ghost var cur := offset;
      var rels: seq<nat> := cells[a].rels;
      var i := 0;
      NothingPlaced(layout, cells, e, a, rels);
      OthersStart(cells, a);
      while i < |e.scripts|
        invariant 0 <= i <= |e.scripts| && Valid() && a in cells
        invariant offset == EndAll(layout, e.scripts[..i], cur)
        invariant Placed(layout, cells, e, a, rels, i)
        invariant KeepsOthers(old(cells), cells, a)
      {
        ScriptInside(layout, e.scripts, cur, i);
        PlacedNode(layout, cells, e, a, rels, i);
        ghost var before, start := cells, ScriptAt(layout, e.scripts, cur, i);
        assert start == Align(offset);
        AlignCursor();
        assert start == Align(offset);
        var linked := rels[i := Relative(a + layout.scriptField + 2 * i, offset)];
        Patch(a, NestedCell(e.token, linked));
        ghost var patched := cells;
        ok := ParseScript(e.scripts[i]);
        OthersStep(old(cells), before, patched, cells, a);
        if !ok {
          assert !Proper(e.scripts[i]) || End(layout, e.scripts[i], start) > size;
          return false;
        }
        PlacedStep(layout, before, patched, cells, e, a, rels, linked, i);
        rels := linked;
        i := i + 1;
      }
      assert e.scripts[..|e.scripts|] == e.scripts;
      AllPlaced(layout, cells, e, a, rels);
      ok := true;
    }

    /** thresh(): the node, then for every script a list cell and the script itself. */
    method ParseThresh(e: Script) returns (ok: bool)
      requires Valid() && e.Thresh?
      modifies this`offset, this`cells
      ensures Valid() && Extends(old(cells), cells)
      ensures ok <==> Proper(e) && End(layout, e, Align(old(offset))) <= size
      ensures ok ==> offset == End(layout, e, Align(old(offset))) && ThreshStored(layout, cells, e, Align(old(offset)))
      decreases e, 1
    {
      hide Align, Tidy, EndList, CellAt, ListedAt, Stored, ListDone, CellsStored;
      var r := Alloc(ThreshCell(e.k, 0, 0));
      if r.None? {
        return false;
      }
      var a := r.value;
      if e.k > MAX_THRESHOLD || e.k < 1 {
        return false;
      }
      ghost var cur := offset;
      FirstCell(layout, e.scripts, cur);
      var first := Alloc(ListCell(None, 0));
      if first.None? {
        return false;
      }
      // A list without any script cannot be spelled.
      if e.scripts == [] {
        return false;
      }
      Patch(a, ThreshCell(e.k, 0, first.value));
      ghost var linked := cells;
      ok := ParseList(e, first.value, cur);
      BelowAll(layout, old(cells), linked, cells, old(offset), first.value);
      if !ok {
        return false;
      }
      assert Holds(linked, a, ThreshCell(e.k, 0, first.value));
      ghost var listed := cells;
      Patch(a, ThreshCell(e.k, |e.scripts|, first.value));
      ListDoneKept(layout, listed, cells, e.scripts, cur, |e.scripts|);
      ListComplete(layout, cells, e, a);
    }

    /** The loop over the scripts of a list whose first cell is allocated. */
    method ParseList(e: Script, first: nat, ghost cur: nat) returns (ok: bool)
      requires Valid() && e.Thresh? && 1 <= e.k <= MAX_THRESHOLD && e.scripts != []
      requires first == CellAt(layout, e.scripts, cur, 0) && Holds(cells, first, ListCell(None, 0))
               && offset == first + layout.list
      modifies this`offset, this`cells
      ensures Valid() && KeepsIn(old(cells), cells, 0, first)
      ensures ok <==> Proper(e) && EndList(layout, e.scripts, cur) <= size
      ensures ok ==> offset == EndList(layout, e.scripts, cur) && ListDone(layout, cells, e.scripts, cur, |e.scripts|)
      decreases e, 0
    {
      hide Align, Tidy, EndList, CellAt, ListedAt, Stored, ListDone, KeepsIn, KeepsOthers, Relative, Proper, End;
      var c, i := first, 0;
      NothingListed(layout, cells, e.scripts, cur, first);
      while true
        invariant 0 <= i < |e.scripts| && Valid() && first <= c == CellAt(layout, e.scripts, cur, i)
                  && offset == c + layout.list
        invariant Holds(cells, c, ListCell(None, 0)) && ListDone(layout, cells, e.scripts, cur, i)
        invariant KeepsIn(old(cells), cells, 0, first)
        decreases |e.scripts| - i
      {
        ListInside(layout, e.scripts, cur, i);
        NextListed(layout, e.scripts, cur, i);
        ghost var before := cells;
        var rel: nat;
        ok, rel := ParseListed(e.scripts[i], c);
        BelowPatch(old(cells), before, cells, first, c);
        if !ok {
          NotProper(e, i);
          return false;
        }
        ghost var parsed := cells;
        Listed(layout, before, parsed, e.scripts, cur, i, c, rel);
        if i + 1 == |e.scripts| {
          assert e.scripts[..i + 1] == e.scripts;
          ListProper(layout, cells, e, cur);
          return true;
        }
        ListInside(layout, e.scripts, cur, i + 1);
        NextCell(layout, e.scripts, cur, i);
        NextListed(layout, e.scripts, cur, i + 1);
        var q := Alloc(ListCell(None, 0));
        if q.None? {
          return false;
        }
        Patch(c, ListCell(Some(q.value), rel));
        OthersAlloc(parsed, q.value, ListCell(None, 0), c, ListCell(Some(q.value), rel));
        BelowPatch(old(cells), parsed, cells, first, c);
        ListStep(layout, parsed, cells, e.scripts, cur, i, c, rel, q.value);
        c, i := q.value, i + 1;
      }
    }

    /** One script of a list, whose cell is at c. */
    method ParseListed(x: Script, c: nat) returns (ok: bool, rel: nat)
      requires Valid() && Holds(cells, c, ListCell(None, 0))
      modifies this`offset, this`cells
      ensures Valid() && KeepsOthers(old(cells), cells, c) && Holds(cells, c, ListCell(None, rel))
      ensures ok <==> Proper(x) && End(layout, x, Align(old(offset))) <= size
      ensures ok ==> offset == End(layout, x, Align(old(offset))) && Stored(layout, cells, x, Align(old(offset)))
      ensures ok ==> rel == Relative(c + layout.listField, Align(old(offset)))
      decreases x, 4
    {
      hide Align, Tidy, End, Stored, Proper, Relative, KeepsOthers;
      ghost var start := Align(offset);
      AlignCursor();
      assert Align(offset) == start;
      rel := Relative(c + layout.listField, offset);
      Patch(c, ListCell(None, rel));
      ghost var patched := cells;
      ok := ParseScript(x);
      OthersStart(old(cells), c);
      OthersStep(old(cells), old(cells), patched, cells, c);
      if ok {
        EndBeyond(layout, x, start);
      }
    }

    /** tr(): the node, its key, and the tree if there is one. */
    method ParseTr(e: Script) returns (ok: bool)
      requires Valid() && e.Tr?
      modifies this`offset, this`cells
      ensures Valid() && Extends(old(cells), cells)
      ensures ok <==> Proper(e) && End(layout, e, Align(old(offset))) <= size
      ensures ok ==> offset == End(layout, e, Align(old(offset))) && TrStored(layout, cells, e, Align(old(offset)))
      decreases e, 1
    {
      hide Align, Tidy, EndTree, TreeStored, ProperTree;
      var r := Alloc(TrCell(0, None));
      if r.None? {
        return false;
      }
      var key := Alloc(KeyCell(e.key));
      if key.None? {
        return false;
      }
      if e.tree.None? {
        Patch(r.value, TrCell(key.value, None));
        return true;
      }
      ghost var before := cells;
      AlignCursor();
      Patch(r.value, TrCell(key.value, Some(offset)));
      ghost var node := cells;
      ok := ParseTree(e.tree.value, 1);
      FreshChain(old(cells), before, node, cells, r.value);
      assert Holds(cells, r.value, node[r.value]) && Holds(cells, key.value, node[key.value]);
    }

    /** parse_tree. */
    method ParseTree(t: Tree, depth: nat) returns (ok: bool)
      requires Valid() && (Aligned(offset) || Align(offset) > size)
      modifies this`offset, this`cells
      ensures Valid() && Extends(old(cells), cells)
      ensures ok <==> ProperTree(t, depth) && EndTree(layout, t, Align(old(offset))) <= size
      ensures ok ==>
              offset == EndTree(layout, t, Align(old(offset))) && TreeStored(layout, cells, t, Align(old(offset)))
      decreases t, 1
    {
      hide Align, Tidy, EndTree, TreeStored, ProperTree, Stored;
      TreeRoom(layout, t, Align(offset));
      if depth > MAX_TAPTREE_POLICY_DEPTH || !Aligned(offset) {
        TooDeep(t, depth);
        return false;
      }
      if t.Leaf? {
        ok := ParseTreeLeaf(t, depth);
      } else {
        ok := ParseTreeBranch(t, depth);
      }
    }

    method ParseTreeLeaf(t: Tree, depth: nat) returns (ok: bool)
      requires Valid() && Aligned(offset) && t.Leaf? && depth <= MAX_TAPTREE_POLICY_DEPTH
      modifies this`offset, this`cells
      ensures Valid() && Extends(old(cells), cells)
      ensures ok <==> ProperTree(t, depth) && EndTree(layout, t, old(offset)) <= size
      ensures ok ==> offset == EndTree(layout, t, old(offset)) && TreeStored(layout, cells, t, old(offset))
      decreases t, 0
    {
      hide Align, Tidy, Stored, End, Relative;
      var r := Alloc(TreeLeafCell(0));
      if r.None? {
        return false;
      }
      var a := r.value;
      ghost var before := cells;
      AlignCursor();
      var rel := Relative(a + layout.treeField, offset);
      Patch(a, TreeLeafCell(rel));
      ghost var node := cells;
      ok := ParseScript(t.script);
      FreshChain(old(cells), before, node, cells, a);
      assert Holds(cells, a, node[a]);
      if ok {
        EndBeyond(layout, t.script, Align(a + layout.tree));
        RelativeIff(a + layout.treeField, Align(a + layout.tree));
      }
    }

    method ParseTreeBranch(t: Tree, depth: nat) returns (ok: bool)
      requires Valid() && Aligned(offset) && t.Branch? && depth <= MAX_TAPTREE_POLICY_DEPTH
      modifies this`offset, this`cells
      ensures Valid() && Extends(old(cells), cells)
      ensures ok <==> ProperTree(t, depth) && EndTree(layout, t, old(offset)) <= size
      ensures ok ==> offset == EndTree(layout, t, old(offset)) && TreeStored(layout, cells, t, old(offset))
      decreases t, 0
    {
      hide Align, Tidy, TreeStored, ProperTree, EndTree, Relative;
      BranchFacts(layout, t, depth, offset);
      var r := Alloc(TreeBranchCell(0, 0));
      if r.None? {
        return false;
      }
      var a := r.value;
      ghost var p := Align(a + layout.tree);
      ghost var q := Align(EndTree(layout, t.left, p));
      ghost var before := cells;
      AlignCursor();
      var left := Relative(a + layout.treeField, offset);
      Patch(a, TreeBranchCell(left, 0));
      ghost var node := cells;
      ok := ParseTree(t.left, depth + 1);
      FreshChain(old(cells), before, node, cells, a);
      assert Holds(cells, a, node[a]);
      if !ok {
        return false;
      }
      ghost var half := cells;
      AlignCursor();
      var right := Relative(a + layout.treeField + 2, offset);
      Patch(a, TreeBranchCell(left, right));
      ghost var linked := cells;
      TreeKept(layout, half, linked, t.left, p);
      ok := ParseTree(t.right, depth + 1);
      FreshChain(old(cells), half, linked, cells, a);
      assert Holds(cells, a, linked[a]);
      if ok {
        TreeKept(layout, linked, cells, t.left, p);
        BranchStored(layout, cells, t, a, left, right);
      }
    }
  }

  lemma TreeRoom(s: Layout, t: Tree, a: nat)
    ensures EndTree(s, t, a) >= a + s.tree
  {
    hide End;
  }

  lemma TooDeep(t: Tree, depth: nat)
    ensures depth > MAX_TAPTREE_POLICY_DEPTH ==> !ProperTree(t, depth)
  {
  }

  lemma BranchFacts(s: Layout, t: Tree, depth: nat, a: nat)
    requires t.Branch? && depth <= MAX_TAPTREE_POLICY_DEPTH
    ensures ProperTree(t, depth) <==> ProperTree(t.left, depth + 1) && ProperTree(t.right, depth + 1)
    ensures var p := Align(a + s.tree);
            EndTree(s, t, a) == EndTree(s, t.right, Align(EndTree(s, t.left, p)))
  {
    hide Align;
  }

  lemma FreshChain(m: Memory, m0: Memory, m1: Memory, m2: Memory, a: nat)
    requires a !in m && Extends(m, m0) && a in m1 && m1 == m0[a := m1[a]] && Extends(m1, m2)
    ensures Extends(m, m2)
  {
    OthersStart(m0, a);
    OthersStep(m0, m0, m1, m2, a);
    FreshOthers(m, m0, m2, a);
  }

  lemma BranchStored(s: Layout, m: Memory, t: Tree, a: nat, left: nat, right: nat)
    requires Sane(s) && t.Branch? && Holds(m, a, TreeBranchCell(left, right)) && EndTree(s, t, a) <= 0x10000
    requires var p := Align(a + s.tree);
             var q := Align(EndTree(s, t.left, p));
             && left == Relative(a + s.treeField, p) && right == Relative(a + s.treeField + 2, q)
             && TreeStored(s, m, t.left, p) && TreeStored(s, m, t.right, q)
    ensures TreeStored(s, m, t, a)
  {
    hide Align, Relative, EndTree, Resolve;
    var p := Align(a + s.tree);
    var q := Align(EndTree(s, t.left, p));
    BranchFacts(s, t, 0, a);
    TreeBeyond(s, t.left, p);
    TreeBeyond(s, t.right, q);
    RelativeIff(a + s.treeField, p);
    RelativeIff(a + s.treeField + 2, q);
  }

  /** The first i scripts of a list are in place, with their cells. */
  ghost predicate ListDone(s: Layout, m: Memory, scripts: seq<Script>, cur: nat, i: nat)
    requires i <= |scripts|
  {
    && (forall j :: 0 <= j < i ==> ListCellStored(s, m, scripts, cur, j))
    && (forall j :: 0 <= j < i ==> Stored(s, m, scripts[j], ListedAt(s, scripts, cur, j)))
    && (forall j :: 0 <= j < i ==> Proper(scripts[j]))
  }

  /** The first i scripts of a node are in place, and the node points to them. */
  ghost predicate Placed(s: Layout, m: Memory, e: Script, a: nat, rels: seq<nat>, i: nat)
    requires e.Nested? && i <= |e.scripts|
  {
    var cur := a + NestedSize(s, |e.scripts|);
    && |rels| == |e.scripts| && Holds(m, a, NestedCell(e.token, rels))
    && (forall j :: 0 <= j < i ==> Target(s, rels, a, j) == ScriptAt(s, e.scripts, cur, j))
    && (forall j :: 0 <= j < i ==> Stored(s, m, e.scripts[j], ScriptAt(s, e.scripts, cur, j)))
    && (forall j :: 0 <= j < i ==> Proper(e.scripts[j]))
  }

  lemma NothingPlaced(s: Layout, m: Memory, e: Script, a: nat, rels: seq<nat>)
    requires e.Nested? && |rels| == |e.scripts| && Holds(m, a, NestedCell(e.token, rels))
    ensures Placed(s, m, e, a, rels, 0) && forall cur: nat :: EndAll(s, e.scripts[..0], cur) == cur
  {
  }

  lemma PlacedNode(s: Layout, m: Memory, e: Script, a: nat, rels: seq<nat>, i: nat)
    requires e.Nested? && i < |e.scripts| && Placed(s, m, e, a, rels, i)
    ensures |rels| == |e.scripts| && Holds(m, a, NestedCell(e.token, rels))
    ensures forall cur: nat :: ScriptAt(s, e.scripts, cur, i) == Align(EndAll(s, e.scripts[..i], cur))
  {
    hide Align, EndAll;
  }

  lemma PlacedStep(s: Layout, m0: Memory, m1: Memory, m2: Memory, e: Script, a: nat, rels: seq<nat>, linked: seq<nat>,
      i: nat)
    requires Sane(s) && e.Nested? && i < |e.scripts| && Placed(s, m0, e, a, rels, i)
    requires var p := ScriptAt(s, e.scripts, a + NestedSize(s, |e.scripts|), i);
             && linked == rels[i := Relative(a + s.scriptField + 2 * i, p)]
             && Proper(e.scripts[i]) && End(s, e.scripts[i], p) <= 0x10000 && Stored(s, m2, e.scripts[i], p)
    requires m1 == m0[a := NestedCell(e.token, linked)] && Extends(m1, m2)
    ensures Placed(s, m2, e, a, linked, i + 1)
  {
    hide Align, EndAll, NestedSize, ScriptAt, Stored, Relative, Resolve, Proper;
    var cur := a + NestedSize(s, |e.scripts|);
    var p := ScriptAt(s, e.scripts, cur, i);
    OthersStart(m0, a);
    OthersStep(m0, m0, m1, m2, a);
    ScriptInside(s, e.scripts, cur, i);
    ScriptsStay(s, m0, m2, e.scripts, cur, i, a);
    EndBeyond(s, e.scripts[i], p);
    assert p < 0x10000 && a + s.scriptField + 2 * i <= p;
    RelativeTarget(s, linked, a, i, p);
    assert forall j :: 0 <= j < i ==> Target(s, linked, a, j) == Target(s, rels, a, j);
  }

  lemma AllPlaced(s: Layout, m: Memory, e: Script, a: nat, rels: seq<nat>)
    requires e.Nested? && Placed(s, m, e, a, rels, |e.scripts|)
    ensures NestedStored(s, m, e, a) && Proper(e)
  {
    hide Align, EndAll, NestedSize, ScriptAt, Stored, Target;
  }

  lemma StrideStart(s: Layout, p: nat)
    ensures Stride(s, p, 0) == p
  {
  }

  lemma StrideStep(s: Layout, p: nat, n: nat)
    requires Aligned(p) && Aligned(s.key)
    ensures Stride(s, p, n + 1) == Stride(s, p, n) + s.key && Aligned(Stride(s, p, n))
  {
    StrideAligned(s, p, n);
  }

  lemma {:induction false} StrideAligned(s: Layout, p: nat, n: nat)
    requires Aligned(p) && Aligned(s.key)
    ensures Aligned(Stride(s, p, n))
    decreases n
  {
    if n > 0 {
      StrideAligned(s, p, n - 1);
    }
  }

  lemma RelativeTarget(s: Layout, rels: seq<nat>, a: nat, i: nat, to: nat)
    requires i < |rels| && rels[i] == Relative(a + s.scriptField + 2 * i, to)
             && a + s.scriptField + 2 * i <= to < 0x10000
    ensures Target(s, rels, a, i) == to
  {
    RelativeIff(a + s.scriptField + 2 * i, to);
  }

  /** The scripts before the i-th one stay when only the node before them changes. */
  lemma ScriptsStay(s: Layout, m: Memory, m2: Memory, scripts: seq<Script>, cur: nat, i: nat, a: nat)
    requires Sane(s) && i <= |scripts| && a < cur && KeepsOthers(m, m2, a)
    requires forall j :: 0 <= j < i ==> Stored(s, m, scripts[j], ScriptAt(s, scripts, cur, j))
    ensures forall j :: 0 <= j < i ==> Stored(s, m2, scripts[j], ScriptAt(s, scripts, cur, j))
  {
    hide Stored, ScriptAt, End, EndAll;
    forall j | 0 <= j < i ensures Stored(s, m2, scripts[j], ScriptAt(s, scripts, cur, j)) {
      ScriptInside(s, scripts, cur, j);
      StoredKept(s, m, m2, scripts[j], ScriptAt(s, scripts, cur, j));
    }
  }

  // ---------------------------------------------------------------- lists

  lemma FirstCell(s: Layout, scripts: seq<Script>, cur: nat)
    ensures CellAt(s, scripts, cur, 0) == Align(cur)
    ensures scripts != [] ==> Align(cur) + s.list <= EndList(s, scripts, cur)
  {
    if scripts != [] {
      ListInside(s, scripts, cur, 0);
    }
  }

  lemma NotProper(e: Script, i: nat)
    requires e.Thresh? && i < |e.scripts|
    ensures Proper(e) ==> Proper(e.scripts[i])
  {
  }

  lemma NothingListed(s: Layout, m: Memory, scripts: seq<Script>, cur: nat, first: nat)
    ensures ListDone(s, m, scripts, cur, 0) && KeepsIn(m, m, 0, first)
  {
  }

  lemma NextListed(s: Layout, scripts: seq<Script>, cur: nat, i: nat)
    requires i < |scripts|
    ensures ListedAt(s, scripts, cur, i) == Align(CellAt(s, scripts, cur, i) + s.list)
    ensures CellAt(s, scripts, cur, i) == Align(EndList(s, scripts[..i], cur))
  {
  }

  /** Finished scripts stay as long as memory keeps their range. */
  lemma ListDoneKept(s: Layout, m: Memory, m2: Memory, scripts: seq<Script>, cur: nat, i: nat)
    requires Sane(s) && i <= |scripts| && ListDone(s, m, scripts, cur, i)
             && KeepsIn(m, m2, cur, EndList(s, scripts[..i], cur))
    ensures ListDone(s, m2, scripts, cur, i)
  {
    hide Stored, CellAt, ListedAt, EndList, Resolve, Proper;
    forall j | 0 <= j < i
      ensures ListCellStored(s, m2, scripts, cur, j) && Stored(s, m2, scripts[j], ListedAt(s, scripts, cur, j))
    {
      assert ListCellStored(s, m, scripts, cur, j);
      ListRange(s, scripts, cur, j, i);
      StoredKept(s, m, m2, scripts[j], ListedAt(s, scripts, cur, j));
    }
  }

  lemma ListRange(s: Layout, scripts: seq<Script>, cur: nat, j: nat, i: nat)
    requires Sane(s) && j < i <= |scripts|
    ensures cur <= CellAt(s, scripts, cur, j) < ListedAt(s, scripts, cur, j)
    ensures CellAt(s, scripts, cur, j) < End(s, scripts[j], ListedAt(s, scripts, cur, j)) 
            <= EndList(s, scripts[..i], cur)
  {
    hide EndList, Align;
    ListInside(s, scripts[..i], cur, j);
    assert scripts[..i][..j] == scripts[..j] && scripts[..i][..j + 1] == scripts[..j + 1];
    ListInside(s, scripts, cur, j);
    EndBeyond(s, scripts[j], ListedAt(s, scripts, cur, j));
  }

  /** The i-th script is in place and its cell points to it. */
  lemma Listed(s: Layout, m: Memory, m2: Memory, scripts: seq<Script>, cur: nat, i: nat, c: nat, rel: nat)
    requires Sane(s) && i < |scripts| && ListDone(s, m, scripts, cur, i) && c == CellAt(s, scripts, cur, i)
    requires KeepsOthers(m, m2, c) && Holds(m2, c, ListCell(None, rel))
    requires var p := ListedAt(s, scripts, cur, i);
             && rel == Relative(c + s.listField, p) && Proper(scripts[i]) && End(s, scripts[i], p) <= 0x10000
                && Stored(s, m2, scripts[i], p)
    ensures ListDone(s, m2, scripts, cur, i) && Resolve(c + s.listField, rel) == ListedAt(s, scripts, cur, i)
    ensures i + 1 == |scripts| ==> ListDone(s, m2, scripts, cur, i + 1)
  {
    hide Stored, EndList, Proper, Align, Relative;
    var p := ListedAt(s, scripts, cur, i);
    ListDoneKept(s, m, m2, scripts, cur, i);
    ListInside(s, scripts, cur, i);
    EndBeyond(s, scripts[i], p);
    RelativeIff(c + s.listField, p);
  }

  /** The next cell is allocated, and the i-th one points to it. */
  lemma ListStep(s: Layout, m: Memory, m2: Memory, scripts: seq<Script>, cur: nat, i: nat, c: nat, rel: nat, q: nat)
    requires Sane(s) && i + 1 < |scripts| && ListDone(s, m, scripts, cur, i) && c == CellAt(s, scripts, cur, i)
             && q == CellAt(s, scripts, cur, i + 1)
    requires KeepsOthers(m, m2, c) && Holds(m2, c, ListCell(Some(q), rel))
    requires var p := ListedAt(s, scripts, cur, i);
             && Resolve(c + s.listField, rel) == p && Proper(scripts[i]) && Stored(s, m, scripts[i], p)
    ensures ListDone(s, m2, scripts, cur, i + 1)
  {
    hide Stored, EndList, Proper, Align, Resolve;
    ListDoneKept(s, m, m2, scripts, cur, i);
    ListInside(s, scripts, cur, i);
    StoredKept(s, m, m2, scripts[i], ListedAt(s, scripts, cur, i));
  }

  lemma OthersAlloc(m: Memory, q: nat, x: Cell, c: nat, y: Cell)
    requires q !in m
    ensures KeepsOthers(m, m[q := x][c := y], c)
  {
  }

  lemma BelowPatch(m: Memory, m0: Memory, m2: Memory, f: nat, c: nat)
    requires KeepsIn(m, m0, 0, f) && KeepsOthers(m0, m2, c) && f <= c
    ensures KeepsIn(m, m2, 0, f)
  {
    forall x | x in m && x < f ensures Holds(m2, x, m[x]) {
      assert Holds(m0, x, m[x]);
    }
  }

  lemma BelowAll(s: Layout, m: Memory, m1: Memory, m2: Memory, hi: nat, f: nat)
    requires Sane(s) && Tidy(s, m, hi) && hi <= f && Extends(m, m1) && KeepsIn(m1, m2, 0, f)
    ensures Extends(m, m2)
  {
    hide SizeOf, Aligned;
    forall x | x in m ensures Holds(m2, x, m[x]) {
      assert x < x + SizeOf(s, m[x]) <= hi;
      assert Holds(m1, x, m[x]);
    }
  }

  lemma ListProper(s: Layout, m: Memory, e: Script, cur: nat)
    requires e.Thresh? && 1 <= e.k <= MAX_THRESHOLD && e.scripts != [] && ListDone(s, m, e.scripts, cur, |e.scripts|)
    ensures Proper(e)
  {
    hide Stored, ListCellStored, ListedAt;
  }

  lemma ListComplete(s: Layout, m: Memory, e: Script, a: nat)
    requires e.Thresh? && 1 <= e.k <= MAX_THRESHOLD && e.scripts != []
             && ListDone(s, m, e.scripts, a + s.thresh, |e.scripts|)
    requires Holds(m, a, ThreshCell(e.k, |e.scripts|, CellAt(s, e.scripts, a + s.thresh, 0)))
    ensures ThreshStored(s, m, e, a) && Proper(e)
  {
    hide Stored, ListCellStored;
  }

  // ---------------------------------------------------------------- wrappers

  lemma OneScript(s: Layout, e: Script, cur: nat)
    requires IsWrapper(e)
    ensures ScriptAt(s, e.scripts, cur, 0) == Align(cur)
            && EndAll(s, e.scripts, cur) == End(s, e.scripts[0], Align(cur))
  {
    hide End, Align;
    assert e.scripts[..0] == [];
  }

  lemma WrapperFacts(s: Layout, e: Script, p: nat)
    requires IsWrapper(e)
    ensures Proper(e) == Proper(e.scripts[0])
    ensures End(s, e, p) == End(s, e.scripts[0], Align(p + s.nested1)) >= p + s.nested1
  {
    hide Align, EndAll;
    OneScript(s, e, p + s.nested1);
  }

  lemma WrapperStored(s: Layout, m: Memory, e: Script, a: nat)
    requires IsWrapper(e) && a in m && m[a].NestedCell? && m[a].token == e.token && |m[a].rels| == 1
    requires Target(s, m[a].rels, a, 0) == Align(a + s.nested1) && Stored(s, m, e.scripts[0], Align(a + s.nested1))
    ensures Stored(s, m, e, a)
  {
    hide Align, ScriptAt, Target;
    OneScript(s, e, a + s.nested1);
  }

  /** One more wrapper: it is allocated behind the last one, which now points to it. */
  lemma {:induction false} ChainStep(s: Layout, m: Memory, m1: Memory, m2: Memory, e: Script, a: nat, rest: Script,
      inner: Option<nat>, node: nat)
    requires Sane(s) && IsWrapper(rest) && node !in m && m1 == m[node := NestedCell(rest.token, [0])] && node < 0x10000
    requires inner.None? ==> rest == e && node == a && m2 == m1
    requires inner.Some? ==>
             Chain(s, m, e, a, rest, inner.value) && node == Align(inner.value + s.nested1)
             && inner.value in m1 && m1[inner.value].NestedCell?
    requires inner.Some? ==> m2 == m1[inner.value := NestedCell(m1[inner.value].token,
                                                                [Relative(inner.value + s.scriptField, node)])]
    ensures Chain(s, m2, e, a, rest.scripts[0], node)
    decreases e
  {
    hide Align, Relative;
    if inner.Some? {
      var last := inner.value;
      if a == last {
        RelativeTarget(s, m2[a].rels, a, 0, node);
      } else {
        ChainStep(s, m, m1, m2, e.scripts[0], Align(a + s.nested1), rest, inner, node);
      }
    }
  }

  /** When the script inside is stored and the last wrapper points to it, the whole is stored. */
  lemma {:induction false} ChainStored(s: Layout, m: Memory, m1: Memory, m2: Memory, e: Script, a: nat, rest: Script,
      last: nat, start: nat)
    requires Sane(s) && Chain(s, m, e, a, rest, last) && Extends(m, m1) && Stored(s, m1, rest, start)
             && start == Align(last + s.nested1)
    requires last in m1 && m1[last].NestedCell? && End(s, rest, start) <= 0x10000
    requires m2 == m1[last := NestedCell(m1[last].token, [Relative(last + s.scriptField, start)])]
    ensures Stored(s, m2, e, a)
    decreases e
  {
    hide Align, Relative, Stored, End, Target;
    assert Holds(m1, a, m[a]);
    if a == last {
      EndBeyond(s, rest, start);
      RelativeTarget(s, m2[a].rels, a, 0, start);
      StoredKept(s, m1, m2, rest, start);
    } else {
      ChainStored(s, m, m1, m2, e.scripts[0], Align(a + s.nested1), rest, last, start);
    }
    WrapperStored(s, m2, e, a);
  }

  // ---------------------------------------------------------------- the whole template

  /** parse_descriptor_template, on an aligned buffer: it succeeds exactly when the policy fits, and then
      the buffer holds it, starting with its root node at the very beginning; walking along the pointers,
      which all lead forward and stay inside the buffer, gives back the policy. */
  method ParseDescriptorTemplate(e: Script, layout: Layout, size: nat) returns (ok: bool, arena: Arena)
    requires Sane(layout) && size <= 0x10000
    ensures fresh(arena) && arena.Valid()
    ensures ok <==> Proper(e) && End(layout, e, 0) <= size
    ensures ok ==> Stored(layout, arena.cells, e, 0) && arena.offset == End(layout, e, 0)
    ensures ok ==> Read(layout, arena.cells, 0, size) == Some(e)
  {
    hide Align, Tidy, End, Stored, Proper, Read;
    arena := new Arena(layout, size);
    assert Aligned(0);
    ok := arena.ParseScript(e);
    if ok {
      ReadsStored(layout, arena.cells, e, 0, size);
    }
  }
}
