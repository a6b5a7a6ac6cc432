/**
 Blank blocks: mappings without fields, or nulls that stand for defaults. Moving one changes no field, so
 the passes that move them leave every path alone that is not a parent of a block.
 */
module ConfigBlocks {
  import opened Options
  import opened YamlTree
  import opened ConfigLayout

  /** Both documents read the same wherever no block begins. */
  ghost predicate Agrees(layout: Layout, a: Node, b: Node) {
    forall q :: Clear(layout, q) ==> Get(a, q) == Get(b, q)
  }

  /** No block, or one without fields. */
  predicate Hollow(root: Node, p: Path) {
    var n := Get(root, p);
    n.Some? ==> Blank(n.value)
  }

  lemma NothingBelow(root: Node, p: Path, q: Path)
    requires Hollow(root, p) && p <= q && p != q
    ensures Get(root, q).None?
  {
    GetBelow(root, p, q[|p|..]);
    assert p + q[|p|..] == q;
  }

  /** Removing a blank block is seen only at it and above it. */
  lemma DeleteBlank(root: Node, p: Path, q: Path)
    requires p != [] && Hollow(root, p) && !(q <= p)
    ensures Get(Delete(root, p), q) == Get(root, q)
  {
    if p <= q {
      NothingBelow(root, p, q);
      DeleteThenGet(root, p, q[|p|..]);
      assert p + q[|p|..] == q;
    } else {
      DeleteElsewhere(root, p, q);
    }
  }

  /** So is writing a blank block where there is none, or another. */
  lemma WriteBlank(root: Node, p: Path, v: Node, q: Path)
    requires Hollow(root, p) && Blank(v) && !(q <= p)
    ensures Get(Set(root, p, v), q) == Get(root, q)
  {
    if p <= q {
      NothingBelow(root, p, q);
      SetThenGet(root, p, v);
      NothingBelow(Set(root, p, v), p, q);
    } else {
      SetElsewhere(root, p, v, q);
    }
  }

  lemma BlockPaths(layout: Layout, s: Move, b: Move)
    requires BlocksOk(layout) && s in layout.Blocks() && b in layout.Blocks()
    ensures s.legacy != [] && Independent(s.legacy, b.current)
  {
    assert Target(layout, b.current);
  }

  // ---- flattenV8's pass over shared blocks ----

  /** One blank block moved, seen from a path that begins no block. */
  lemma SharedOneSpares(root: Node, layout: Layout, s: Move, q: Path)
    requires BlocksOk(layout) && s in layout.Blocks() && Clear(layout, q)
    requires SharedOne(Accepted(root), s).Accepted?
    ensures Get(SharedOne(Accepted(root), s).root, q) == Get(root, q)
  {
    BlockPaths(layout, s, s);
    if Get(root, s.legacy).Some? && Blank(Get(root, s.legacy).value) && Get(root, s.current).None? {
      WriteBlank(root, s.current, EMPTY, q);
      SetElsewhere(root, s.current, EMPTY, s.legacy);
      DeleteBlank(Set(root, s.current, EMPTY), s.legacy, q);
    } else if Get(root, s.legacy).Some? && Blank(Get(root, s.legacy).value) {
      DeleteBlank(root, s.legacy, q);
    }
  }

  /** Removing a field at or below `p`, or beside it, does not change whether `p` holds a block. */
  lemma DeleteKeepsShape(root: Node, p: Path, q: Path)
    requires p != [] && (p <= q ==> Hollow(root, p))
    ensures ShapeOk(Delete(root, p), q) <==> ShapeOk(root, q)
  {
    if p <= q {
      DeleteThenGet(root, p, q[|p|..]);
      assert p + q[|p|..] == q;
      if p != q { NothingBelow(root, p, q); }
    } else {
      DeleteElsewhere(root, p, q);
      if q <= p && Get(root, p).Some? {
        GetBelow(root, q, p[|q|..]);
        assert q + p[|q|..] == p;
      }
    }
  }

  lemma SharedOneKeepsShape(root: Node, layout: Layout, s: Move, b: Move)
    requires BlocksOk(layout) && s in layout.Blocks() && b in layout.Blocks()
    requires SharedOne(Accepted(root), s).Accepted?
    ensures ShapeOk(SharedOne(Accepted(root), s).root, b.legacy) <==> ShapeOk(root, b.legacy)
  {
    BlockPaths(layout, s, s);
    BlockPaths(layout, b, s);
    if Get(root, s.legacy).Some? && Blank(Get(root, s.legacy).value) {
      var filled := if Get(root, s.current).None? then Set(root, s.current, EMPTY) else root;
      SetElsewhere(root, s.current, EMPTY, s.legacy);
      SetElsewhere(root, s.current, EMPTY, b.legacy);
      DeleteKeepsShape(filled, s.legacy, b.legacy);
    }
  }

  /** The pass accepts a document whose shared blocks are blocks, and changes none of its fields. */
  ghost predicate SharedKept(root: Node, layout: Layout, n: nat, flat: Flat)
    requires n <= |layout.shared|
  {
    && (flat.Accepted? <==> forall i :: 0 <= i < n ==> ShapeOk(root, layout.shared[i].legacy))
    && (flat.Accepted? ==> Agrees(layout, flat.root, root))
    && (flat.Accepted? ==> forall b :: b in layout.shared ==> (ShapeOk(flat.root, b.legacy) <==> ShapeOk(root, b.legacy)))
  }

  lemma {:induction false} SharedAllKeeps(root: Node, layout: Layout, n: nat)
    requires BlocksOk(layout) && n <= |layout.shared|
    ensures SharedKept(root, layout, n, SharedAll(root, layout.shared[..n]))
  {
    if n > 0 {
      assert layout.shared[..n][..n - 1] == layout.shared[..n - 1];
      SharedAllKeeps(root, layout, n - 1);
      var front, s := SharedAll(root, layout.shared[..n - 1]), layout.shared[n - 1];
      assert s in layout.shared && s in layout.Blocks();
      if front.Accepted? {
        SharedStep(root, front.root, layout, n);
      }
    }
  }

  lemma SharedStep(root: Node, front: Node, layout: Layout, n: nat)
    requires BlocksOk(layout) && 0 < n <= |layout.shared| && SharedKept(root, layout, n - 1, Accepted(front))
    ensures SharedKept(root, layout, n, SharedOne(Accepted(front), layout.shared[n - 1]))
  {
    var s := layout.shared[n - 1];
    var after := SharedOne(Accepted(front), s);
    assert s in layout.shared && s in layout.Blocks();
    assert after.Accepted? <==> ShapeOk(front, s.legacy);
    if after.Accepted? {
      forall q | Clear(layout, q) ensures Get(after.root, q) == Get(root, q) { SharedOneSpares(front, layout, s, q); }
      forall b | b in layout.shared ensures ShapeOk(after.root, b.legacy) <==> ShapeOk(root, b.legacy) {
        SharedOneKeepsShape(front, layout, s, b);
      }
    }
  }

  lemma AliasKeepsShape(root: Node, m: Move, p: Path)
    requires m.legacy != [] && Independent(m.current, p) && Independent(m.current, m.legacy) && !(m.legacy <= p)
    ensures ShapeOk(AliasOne(root, m), p) <==> ShapeOk(root, p)
  {
    if Get(root, m.legacy).Some? {
      var held := Get(root, m.legacy).value;
      SetElsewhere(root, m.current, held, p);
      DeleteKeepsShape(if Get(root, m.current).None? then Set(root, m.current, held) else root, m.legacy, p);
    }
  }

  lemma {:induction false} AliasAllKeepsShape(root: Node, aliases: seq<Move>, p: Path)
    requires forall m :: m in aliases ==>
               m.legacy != [] && Independent(m.current, p) && Independent(m.current, m.legacy) && !(m.legacy <= p)
    ensures ShapeOk(AliasAll(root, aliases), p) <==> ShapeOk(root, p)
  {
    if aliases != [] {
      AliasAllKeepsShape(root, aliases[..|aliases| - 1], p);
      AliasKeepsShape(AliasAll(root, aliases[..|aliases| - 1]), aliases[|aliases| - 1], p);
    }
  }

  // ---- Picking the blank blocks that move ----

  /** Making a null block a mapping changes that block alone. */
  lemma NullToEmpty(root: Node, p: Path, q: Path)
    requires Get(root, p).Some? && IsNull(Get(root, p).value)
    ensures q == p ==> Get(Set(root, p, EMPTY), q) == Some(EMPTY)
    ensures q <= p && q != p ==> Get(root, q).Some? && Get(root, q).value.Mapping? && Get(Set(root, p, EMPTY), q).Some? && Get(Set(root, p, EMPTY), q).value.Mapping?
    ensures !(q <= p) ==> Get(Set(root, p, EMPTY), q) == Get(root, q)
  {
    SetThenGet(root, p, EMPTY);
    if !(q <= p) {
      WriteBlank(root, p, EMPTY, q);
    } else if q != p {
      SetElsewhere(root, p, EMPTY, q);
      GetBelow(root, q, p[|q|..]);
      assert q + p[|q|..] == p;
    }
  }

  /** What picking leaves: the chosen blocks are empty mappings, and every field reads as before. */
  ghost predicate Selected(doc: Node, layout: Layout, sel: Selection) {
    && Agrees(layout, sel.root, doc)
    && (forall s :: s in sel.chosen ==> s in layout.Blocks() && Get(sel.root, s.legacy) == Some(EMPTY))
    && (doc.Mapping? ==> sel.root.Mapping?)
  }

  lemma SelectStep(doc: Node, layout: Layout, sel: Selection, s: Move, migrate: bool)
    requires BlocksOk(layout) && s in layout.Blocks() && Selected(doc, layout, sel)
    ensures Selected(doc, layout, SelectOne(sel, s, migrate))
  {
    var next := SelectOne(sel, s, migrate);
    BlockPaths(layout, s, s);
    if next != sel && IsNull(Get(sel.root, s.legacy).value) {
      forall q | Clear(layout, q) ensures Get(next.root, q) == Get(doc, q) { NullToEmpty(sel.root, s.legacy, q); }
      forall b | b in sel.chosen ensures Get(next.root, b.legacy) == Some(EMPTY) {
        NullToEmpty(sel.root, s.legacy, b.legacy);
        if b.legacy <= s.legacy && b.legacy != s.legacy { NothingBelow(sel.root, b.legacy, s.legacy); }
      }
      NullToEmpty(sel.root, s.legacy, s.legacy);
    }
  }

  lemma {:induction false} SelectAllKeeps(doc: Node, layout: Layout, n: nat, migrate: bool)
    requires BlocksOk(layout) && n <= |layout.Blocks()|
    ensures Selected(doc, layout, SelectAll(doc, layout.Blocks()[..n], migrate))
  {
    if n > 0 {
      assert layout.Blocks()[..n][..n - 1] == layout.Blocks()[..n - 1];
      SelectAllKeeps(doc, layout, n - 1, migrate);
      SelectStep(doc, layout, SelectAll(doc, layout.Blocks()[..n - 1], migrate), layout.Blocks()[n - 1], migrate);
    }
  }

  // ---- Moving them ----

  /** No move refills an empty block: nothing is written at, above or below it. */
  lemma StaysHollow(root: Node, m: Move, migrate: bool, p: Path)
    requires Hollow(root, p) && m.legacy != [] && Independent(m.current, p)
    ensures Get(MoveOne(root, m, migrate), p) in {Get(root, p), None}
  {
    if View(root, m.legacy).Some? {
      if p <= m.legacy && p != m.legacy {
        NothingBelow(root, p, m.legacy);
      } else {
        DeleteElsewhereOrGone(root, m.legacy, p);
        SetElsewhere(Delete(root, m.legacy), m.current, View(root, m.legacy).value, p);
      }
    }
  }

  lemma DeleteElsewhereOrGone(root: Node, p: Path, q: Path)
    requires p != [] && !(q <= p && q != p)
    ensures Get(Delete(root, p), q) == if p <= q then None else Get(root, q)
  {
    if p <= q {
      DeleteThenGet(root, p, q[|p|..]);
      assert p + q[|p|..] == q;
    } else {
      DeleteElsewhere(root, p, q);
    }
  }

  lemma {:induction false} AllStayHollow(root: Node, moves: seq<Move>, migrate: bool, p: Path)
    requires Hollow(root, p) && forall m :: m in moves ==> m.legacy != [] && Independent(m.current, p)
    ensures Get(MoveAll(root, moves, migrate), p) in {Get(root, p), None}
  {
    if moves != [] {
      AllStayHollow(root, moves[..|moves| - 1], migrate, p);
      StaysHollow(MoveAll(root, moves[..|moves| - 1], migrate), moves[|moves| - 1], migrate, p);
    }
  }

  /** A hollow block moves without changing any field. */
  lemma HollowMoveSpares(root: Node, s: Move, migrate: bool, q: Path)
    requires s.legacy != [] && Independent(s.legacy, s.current) && Hollow(root, s.legacy) && !(q <= s.legacy) && !(q <= s.current)
    ensures Get(MoveOne(root, s, migrate), q) == Get(root, q)
  {
    if View(root, s.legacy).Some? {
      DeleteBlank(root, s.legacy, q);
      DeleteElsewhere(root, s.legacy, s.current);
      if Get(root, s.current).None? { WriteBlank(Delete(root, s.legacy), s.current, View(root, s.legacy).value, q); }
    }
  }

  lemma {:induction false} ChosenSpare(root: Node, layout: Layout, chosen: seq<Move>, migrate: bool)
    requires BlocksOk(layout)
    requires forall s :: s in chosen ==> s in layout.Blocks() && Hollow(root, s.legacy)
    ensures Agrees(layout, MoveAll(root, chosen, migrate), root)
  {
    if chosen != [] {
      var front, s := chosen[..|chosen| - 1], chosen[|chosen| - 1];
      ChosenSpare(root, layout, front, migrate);
      forall b | b in front ensures b.legacy != [] && Independent(b.current, s.legacy) {
        BlockPaths(layout, b, b);
        BlockPaths(layout, s, b);
      }
      AllStayHollow(root, front, migrate, s.legacy);
      BlockPaths(layout, s, s);
      forall q | Clear(layout, q) ensures Get(MoveAll(root, chosen, migrate), q) == Get(root, q) {
        HollowMoveSpares(MoveAll(root, front, migrate), s, migrate, q);
      }
    }
  }

  lemma {:induction false} MoveAllSplit(root: Node, first: seq<Move>, second: seq<Move>, migrate: bool)
    ensures MoveAll(root, first + second, migrate) == MoveAll(MoveAll(root, first, migrate), second, migrate)
  {
    if second == [] {
      assert first + second == first;
    } else {
      MoveAllSplit(root, first, second[..|second| - 1], migrate);
      assert (first + second)[..|first + second| - 1] == first + second[..|second| - 1];
    }
  }

  /** Fields move in table order; the blocks chosen before them move after them and change no field. */
  lemma AllMovedAgrees(doc: Node, layout: Layout, migrate: bool) returns (picked: Node, fields: Node)
    requires WellFormed(layout) && BlocksOk(layout)
    ensures picked == SelectAll(doc, layout.Blocks(), migrate).root && fields == MoveAll(picked, layout.Moves(), migrate)
    ensures Agrees(layout, picked, doc) && Agrees(layout, AllMoved(doc, layout, migrate), fields)
  {
    var sel := SelectAll(doc, layout.Blocks(), migrate);
    assert layout.Blocks()[..|layout.Blocks()|] == layout.Blocks();
    SelectAllKeeps(doc, layout, |layout.Blocks()|, migrate);
    picked, fields := sel.root, MoveAll(sel.root, layout.Moves(), migrate);
    MoveAllSplit(picked, layout.Moves(), sel.chosen, migrate);
    forall s | s in sel.chosen ensures Hollow(fields, s.legacy) { ChosenStayEmpty(doc, layout, migrate, s); }
    ChosenSpare(fields, layout, sel.chosen, migrate);
  }

  /** After the fields moved, a chosen block is still an empty mapping, or gone with the last of them. */
  lemma ChosenStayEmpty(doc: Node, layout: Layout, migrate: bool, s: Move)
    requires WellFormed(layout) && BlocksOk(layout)
    requires s in SelectAll(doc, layout.Blocks(), migrate).chosen
    ensures var root := MoveAll(SelectAll(doc, layout.Blocks(), migrate).root, layout.Moves(), migrate);
            s in layout.Blocks() && Get(root, s.legacy) in {None, Some(EMPTY)}
  {
    var sel := SelectAll(doc, layout.Blocks(), migrate);
    assert layout.Blocks()[..|layout.Blocks()|] == layout.Blocks();
    SelectAllKeeps(doc, layout, |layout.Blocks()|, migrate);
    forall m | m in layout.Moves() ensures m.legacy != [] && Independent(m.current, s.legacy) {
      assert Table(layout, m.legacy) && Target(layout, m.current);
    }
    AllStayHollow(sel.root, layout.Moves(), migrate, s.legacy);
  }
}
