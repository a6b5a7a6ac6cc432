/** What normalizing keeps once the inverted flag is resolved, when the result is accepted, and that it is final. */
module ConfigTheorems {
  import opened Options
  import opened YamlTree
  import opened KeyGroups
  import opened ConfigLayout
  import opened ConfigBlocks
  import opened ConfigMigration

  // ---- Grouping one family ----

  predicate Regroups(root: Node, f: Family, migrate: bool) {
    migrate && Get(root, [f.legacy]).Some? && Get(root, GroupPath(f)).None?
  }

  function NewGroups(root: Node, f: Family, rules: Rules): Node
    requires Get(root, [f.legacy]).Some?
  {
    Sequence(GroupsOf(Items(Get(root, [f.legacy]).value), f.current, rules))
  }

  lemma GroupOneMoves(root: Node, f: Family, migrate: bool, rules: Rules, q: Path)
    requires Independent([f.legacy], GroupPath(f))
    requires q == [f.legacy] || q == GroupPath(f) || (Independent(q, [f.legacy]) && Independent(q, GroupPath(f)))
    ensures Get(GroupOne(root, f, migrate, rules), q) ==
            if q == [f.legacy] then (if migrate || Get(root, GroupPath(f)).Some? then None else Get(root, q))
            else if q == GroupPath(f) && Regroups(root, f, migrate) then Some(NewGroups(root, f, rules))
            else Get(root, q)
  {
    if Get(root, [f.legacy]).Some? {
      var list := NewGroups(root, f, rules);
      var filled := if Get(root, GroupPath(f)).None? then Set(root, GroupPath(f), list) else root;
      SetThenGet(root, GroupPath(f), list);
      if q != GroupPath(f) { SetElsewhere(root, GroupPath(f), list, q); }
      DeleteThenGet(filled, [f.legacy], []);
      assert [f.legacy] + [] == [f.legacy];
      if q != [f.legacy] { DeleteElsewhere(filled, [f.legacy], q); }
    }
  }

  /** Groups written below an absent or grouped `api-keys` keep its legacy view empty. */
  lemma GroupOneKeysView(root: Node, f: Family, migrate: bool, rules: Rules)
    requires f.legacy != "api-keys" && (migrate ==> View(root, API_KEYS).None?)
    ensures View(GroupOne(root, f, migrate, rules), API_KEYS) == View(root, API_KEYS)
  {
    if Get(root, [f.legacy]).Some? {
      var list := NewGroups(root, f, rules);
      SetElsewhere(root, GroupPath(f), list, API_KEYS);
      var filled := if Get(root, GroupPath(f)).None? then Set(root, GroupPath(f), list) else root;
      DeleteElsewhere(filled, [f.legacy], API_KEYS);
    }
  }

  // ---- All families ----

  /** What grouping the first `n` families leaves of the document it started from. */
  ghost predicate Grouped(root: Node, out: Node, layout: Layout, n: nat, migrate: bool)
    requires n <= |layout.families|
  {
    && View(out, API_KEYS) == View(root, API_KEYS)
    && (forall q :: OffFamilies(layout, q) && q != API_KEYS ==> Get(out, q) == Get(root, q))
    && (forall i :: 0 <= i < |layout.families| ==> SlotOk(root, out, layout.families[i], layout.rules, i < n, migrate))
  }

  ghost predicate SlotOk(root: Node, out: Node, f: Family, rules: Rules, done: bool, migrate: bool) {
    && Get(out, [f.legacy]) == (if done && (migrate || Get(root, GroupPath(f)).Some?) then None else Get(root, [f.legacy]))
    && Get(out, GroupPath(f)) == (if done && Regroups(root, f, migrate) then Some(NewGroups(root, f, rules)) else Get(root, GroupPath(f)))
  }

  lemma SlotDone(root: Node, before: Node, f: Family, rules: Rules, migrate: bool)
    requires Independent([f.legacy], GroupPath(f)) && SlotOk(root, before, f, rules, false, migrate)
    ensures SlotOk(root, GroupOne(before, f, migrate, rules), f, rules, true, migrate)
  {
    GroupOneMoves(before, f, migrate, rules, [f.legacy]);
    GroupOneMoves(before, f, migrate, rules, GroupPath(f));
  }

  lemma SlotStays(root: Node, before: Node, f: Family, g: Family, rules: Rules, done: bool, migrate: bool)
    requires Independent([f.legacy], GroupPath(f)) && SlotOk(root, before, g, rules, done, migrate)
    requires Independent([g.legacy], [f.legacy]) && Independent([g.legacy], GroupPath(f))
    requires Independent(GroupPath(g), [f.legacy]) && Independent(GroupPath(g), GroupPath(f))
    ensures SlotOk(root, GroupOne(before, f, migrate, rules), g, rules, done, migrate)
  {
    GroupOneMoves(before, f, migrate, rules, [g.legacy]);
    GroupOneMoves(before, f, migrate, rules, GroupPath(g));
  }

  /** The family at `k` shares no path with another family, nor with any other path of the tables. */
  ghost predicate FamilyAlone(layout: Layout, k: nat)
    requires k < |layout.families|
  {
    var f := layout.families[k];
    && f.legacy != "api-keys" && Independent([f.legacy], GroupPath(f))
    && (forall i :: 0 <= i < |layout.families| && i != k ==>
          var g := layout.families[i];
          && Independent([g.legacy], [f.legacy]) && Independent([g.legacy], GroupPath(f))
          && Independent(GroupPath(g), [f.legacy]) && Independent(GroupPath(g), GroupPath(f)))
    && (forall q :: OffFamilies(layout, q) && q != API_KEYS ==> Independent(q, [f.legacy]) && Independent(q, GroupPath(f)))
  }

  lemma FamilyIsAlone(layout: Layout, k: nat)
    requires WellFormed(layout) && k < |layout.families|
    ensures FamilyAlone(layout, k)
  {
    var f := layout.families[k];
    var keys :| keys in layout.leaves && keys.legacy == API_KEYS;
    assert keys in layout.Moves();
    assert Table(layout, [f.legacy]);
    forall i | 0 <= i < |layout.families| && i != k
      ensures Independent([layout.families[i].legacy], [f.legacy]) && Independent([layout.families[i].legacy], GroupPath(f))
      ensures Independent(GroupPath(layout.families[i]), [f.legacy]) && Independent(GroupPath(layout.families[i]), GroupPath(f))
    {
      var g := layout.families[i];
      FamilyApart(layout, i, k);
      assert Table(layout, [g.legacy]) && g in layout.families && f in layout.families;
      assert GroupPath(f)[1] != GroupPath(g)[1];
    }
    forall q | OffFamilies(layout, q) && q != API_KEYS ensures Independent(q, [f.legacy]) && Independent(q, GroupPath(f)) {
      OffFamilyApart(layout, q, k);
      assert f in layout.families;
    }
  }

  lemma GroupStep(root: Node, before: Node, layout: Layout, n: nat, migrate: bool)
    requires 0 < n <= |layout.families| && FamilyAlone(layout, n - 1)
    requires migrate ==> View(root, API_KEYS).None?
    requires Grouped(root, before, layout, n - 1, migrate)
    ensures Grouped(root, GroupOne(before, layout.families[n - 1], migrate, layout.rules), layout, n, migrate)
  {
    var f := layout.families[n - 1];
    var after := GroupOne(before, f, migrate, layout.rules);
    GroupOneKeysView(before, f, migrate, layout.rules);
    SlotDone(root, before, f, layout.rules, migrate);
    forall q | OffFamilies(layout, q) && q != API_KEYS ensures Get(after, q) == Get(root, q) {
      GroupOneMoves(before, f, migrate, layout.rules, q);
    }
    forall i | 0 <= i < |layout.families| ensures SlotOk(root, after, layout.families[i], layout.rules, i < n, migrate) {
      if i != n - 1 {
        SlotStays(root, before, f, layout.families[i], layout.rules, i < n, migrate);
      }
    }
  }

  lemma {:induction false} GroupAllMoves(root: Node, layout: Layout, n: nat, migrate: bool)
    requires WellFormed(layout) && n <= |layout.families|
    requires migrate ==> View(root, API_KEYS).None?
    ensures Grouped(root, GroupAll(root, layout.families[..n], migrate, layout.rules), layout, n, migrate)
  {
    if n > 0 {
      GroupAllMoves(root, layout, n - 1, migrate);
      assert layout.families[..n][..n - 1] == layout.families[..n - 1];
      FamilyIsAlone(layout, n - 1);
      GroupStep(root, GroupAll(root, layout.families[..n - 1], migrate, layout.rules), layout, n, migrate);
    }
  }

  // ---- Group paths under the table moves ----

  lemma MoveKeepsGroups(root: Node, layout: Layout, j: nat, migrate: bool, f: Family)
    requires WellFormed(layout) && j < |layout.Moves()| && f in layout.families
    ensures Get(MoveOne(root, layout.Moves()[j], migrate), GroupPath(f)) == Get(root, GroupPath(f))
  {
    var m := layout.Moves()[j];
    TableMoves(layout, j);
    assert Independent(m.current, GroupPath(f)) && (m.legacy != API_KEYS ==> Independent(m.legacy, GroupPath(f)));
    MoveSparesGroups(root, m, migrate, f);
  }

  lemma MoveSparesGroups(root: Node, m: Move, migrate: bool, f: Family)
    requires Independent(m.current, GroupPath(f)) && (m.legacy != API_KEYS ==> Independent(m.legacy, GroupPath(f)))
    ensures Get(MoveOne(root, m, migrate), GroupPath(f)) == Get(root, GroupPath(f))
  {
    var q := GroupPath(f);
    if View(root, m.legacy).Some? {
      var gone := Delete(root, m.legacy);
      if m.legacy == API_KEYS {
        assert q == API_KEYS + [f.current];
        DeleteThenGet(root, API_KEYS, [f.current]);
        GetBelow(root, API_KEYS, [f.current]);
      } else {
        DeleteElsewhere(root, m.legacy, q);
      }
      SetElsewhere(gone, m.current, View(root, m.legacy).value, q);
    }
  }

  /** One move leaves this path alone in every document. */
  ghost predicate Spares(m: Move, migrate: bool, p: Path) {
    forall root {:trigger MoveOne(root, m, migrate)} :: Get(MoveOne(root, m, migrate), p) == Get(root, p)
  }

  lemma {:induction false} MoveAllSpares(doc: Node, moves: seq<Move>, migrate: bool, p: Path)
    requires forall m :: m in moves ==> Spares(m, migrate, p)
    ensures Get(MoveAll(doc, moves, migrate), p) == Get(doc, p)
  {
    if moves != [] {
      var front := moves[..|moves| - 1];
      MoveAllSpares(doc, front, migrate, p);
      assert Spares(moves[|moves| - 1], migrate, p);
    }
  }

  lemma MoveAllKeepsGroups(doc: Node, layout: Layout, n: nat, migrate: bool, f: Family)
    requires WellFormed(layout) && n <= |layout.Moves()| && f in layout.families
    ensures Get(MoveAll(doc, layout.Moves()[..n], migrate), GroupPath(f)) == Get(doc, GroupPath(f))
  {
    forall m | m in layout.Moves()[..n]
      ensures Spares(m, migrate, GroupPath(f))
    {
      var j :| 0 <= j < n && layout.Moves()[j] == m;
      forall root
        ensures Get(MoveOne(root, m, migrate), GroupPath(f)) == Get(root, GroupPath(f))
      {
        MoveKeepsGroups(root, layout, j, migrate, f);
      }
    }
    MoveAllSpares(doc, layout.Moves()[..n], migrate, GroupPath(f));
  }

  // ---- Parents of v8 fields stay mappings ----

  /** A proper parent of a v8 field. */
  ghost predicate Parent(layout: Layout, q: Path) {
    q != [] && exists m :: m in layout.Moves() && q <= m.current && q != m.current
  }

  ghost predicate KeepsParent(root: Node, root': Node, q: Path) {
    ParentOk(root, q) ==> ParentOk(root', q)
  }

  /** Paths a pass writes or deletes: table paths and group paths. None lies on a parent. */
  lemma OffParent(layout: Layout, p: Path, q: Path)
    requires WellFormed(layout) && Parent(layout, q)
    requires Table(layout, p) || exists f :: f in layout.families && p == GroupPath(f)
    ensures !(p <= q)
  {
    var m :| m in layout.Moves() && q <= m.current && q != m.current;
    ApartFromField(layout, p, m);
    PrefixOff(p, q, m.current);
  }

  lemma ApartFromField(layout: Layout, p: Path, m: Move)
    requires WellFormed(layout) && m in layout.Moves()
    requires Table(layout, p) || exists f :: f in layout.families && p == GroupPath(f)
    ensures p == m.current || Independent(p, m.current)
  {
    assert Table(layout, m.current);
    var keys :| keys in layout.leaves && keys.legacy == API_KEYS;
    assert keys in layout.Moves() && keys.legacy != m.current;
  }

  lemma PrefixOff(p: Path, q: Path, c: Path)
    requires q <= c && q != c && (p == c || Independent(p, c))
    ensures !(p <= q)
  {
    assert p <= q ==> p <= c;
  }

  lemma EditKeepsParent(root: Node, p: Path, v: Node, q: Path)
    requires !(p <= q)
    ensures KeepsParent(root, Delete(root, p), q) && KeepsParent(root, Set(root, p, v), q)
  {
    DeleteElsewhere(root, p, q);
    SetElsewhere(root, p, v, q);
  }

  lemma MoveOneKeepsParent(root: Node, layout: Layout, j: nat, migrate: bool, q: Path)
    requires WellFormed(layout) && j < |layout.Moves()| && Parent(layout, q)
    ensures KeepsParent(root, MoveOne(root, layout.Moves()[j], migrate), q)
    ensures root.Mapping? ==> MoveOne(root, layout.Moves()[j], migrate).Mapping?
  {
    var m := layout.Moves()[j];
    TableMoves(layout, j);
    OffParent(layout, m.legacy, q);
    OffParent(layout, m.current, q);
    EditKeepsParent(root, m.legacy, BLANK, q);
    EditKeepsParent(Delete(root, m.legacy), m.current, match View(root, m.legacy) case Some(v) => v case None => BLANK, q);
  }

  lemma GroupOneKeepsParent(root: Node, layout: Layout, f: Family, migrate: bool, q: Path)
    requires WellFormed(layout) && f in layout.families && Parent(layout, q)
    ensures KeepsParent(root, GroupOne(root, f, migrate, layout.rules), q)
  {
    assert Table(layout, [f.legacy]);
    OffParent(layout, [f.legacy], q);
    OffParent(layout, GroupPath(f), q);
    var list := if Get(root, [f.legacy]).Some? then NewGroups(root, f, layout.rules) else BLANK;
    EditKeepsParent(root, GroupPath(f), list, q);
    EditKeepsParent(Set(root, GroupPath(f), list), [f.legacy], BLANK, q);
    EditKeepsParent(root, [f.legacy], BLANK, q);
  }

  ghost predicate SparesParent(m: Move, migrate: bool, q: Path) {
    forall root {:trigger MoveOne(root, m, migrate)} :: KeepsParent(root, MoveOne(root, m, migrate), q)
  }

  lemma {:induction false} MoveAllSparesParent(doc: Node, moves: seq<Move>, migrate: bool, q: Path)
    requires forall m :: m in moves ==> SparesParent(m, migrate, q)
    ensures KeepsParent(doc, MoveAll(doc, moves, migrate), q)
  {
    if moves != [] {
      var front := moves[..|moves| - 1];
      MoveAllSparesParent(doc, front, migrate, q);
      assert SparesParent(moves[|moves| - 1], migrate, q);
    }
  }

  lemma MoveAllKeepsParent(doc: Node, layout: Layout, n: nat, migrate: bool, q: Path)
    requires WellFormed(layout) && n <= |layout.Moves()| && Parent(layout, q)
    ensures KeepsParent(doc, MoveAll(doc, layout.Moves()[..n], migrate), q)
  {
    forall m | m in layout.Moves()[..n]
      ensures SparesParent(m, migrate, q)
    {
      var j :| 0 <= j < n && layout.Moves()[j] == m;
      forall root
        ensures KeepsParent(root, MoveOne(root, m, migrate), q)
      {
        MoveOneKeepsParent(root, layout, j, migrate, q);
      }
    }
    MoveAllSparesParent(doc, layout.Moves()[..n], migrate, q);
  }

  lemma {:induction false} GroupAllKeepsParent(root: Node, layout: Layout, n: nat, migrate: bool, q: Path)
    requires WellFormed(layout) && n <= |layout.families| && Parent(layout, q)
    ensures KeepsParent(root, GroupAll(root, layout.families[..n], migrate, layout.rules), q)
  {
    if n > 0 {
      assert layout.families[..n][..n - 1] == layout.families[..n - 1];
      GroupAllKeepsParent(root, layout, n - 1, migrate, q);
      GroupOneKeepsParent(GroupAll(root, layout.families[..n - 1], migrate, layout.rules), layout, layout.families[n - 1], migrate, q);
    }
  }

  // ---- Blank blocks and parents ----

  lemma {:induction false} SelectAllKeepsPlaces(doc: Node, blocks: seq<Move>, migrate: bool, q: Path)
    ensures KeepsParent(doc, SelectAll(doc, blocks, migrate).root, q)
    ensures ShapeOk(doc, q) ==> ShapeOk(SelectAll(doc, blocks, migrate).root, q)
  {
    if blocks != [] {
      SelectAllKeepsPlaces(doc, blocks[..|blocks| - 1], migrate, q);
      var sel, s := SelectAll(doc, blocks[..|blocks| - 1], migrate), blocks[|blocks| - 1];
      if Get(sel.root, s.legacy).Some? && IsNull(Get(sel.root, s.legacy).value) { NullToEmpty(sel.root, s.legacy, q); }
    }
  }

  lemma EmptyMoveKeepsParent(root: Node, s: Move, migrate: bool, q: Path)
    requires s.legacy != [] && Independent(s.legacy, s.current) && !(s.legacy <= q) && Get(root, s.legacy) in {None, Some(EMPTY)}
    ensures KeepsParent(root, MoveOne(root, s, migrate), q)
  {
    EditKeepsParent(root, s.legacy, BLANK, q);
    var gone := Delete(root, s.legacy);
    SetThenGet(gone, s.current, EMPTY);
    if !(s.current <= q) {
      EditKeepsParent(gone, s.current, EMPTY, q);
    } else if q != s.current {
      NothingBelow(Set(gone, s.current, EMPTY), s.current, q);
    }
  }

  lemma {:induction false} ChosenKeepParent(root: Node, layout: Layout, chosen: seq<Move>, migrate: bool, q: Path)
    requires BlocksOk(layout) && Parent(layout, q)
    requires forall s :: s in chosen ==> s in layout.Blocks() && Get(root, s.legacy) in {None, Some(EMPTY)}
    ensures KeepsParent(root, MoveAll(root, chosen, migrate), q)
  {
    if chosen != [] {
      var front, s := chosen[..|chosen| - 1], chosen[|chosen| - 1];
      ChosenKeepParent(root, layout, front, migrate, q);
      forall b | b in front ensures b.legacy != [] && Independent(b.current, s.legacy) {
        BlockPaths(layout, b, b);
        BlockPaths(layout, s, b);
      }
      AllStayHollow(root, front, migrate, s.legacy);
      BlockPaths(layout, s, s);
      BlockOffParent(layout, s, q);
      EmptyMoveKeepsParent(MoveAll(root, front, migrate), s, migrate, q);
    }
  }

  lemma BlockOffParent(layout: Layout, s: Move, q: Path)
    requires BlocksOk(layout) && s in layout.Blocks() && Parent(layout, q)
    ensures !(s.legacy <= q)
  {
    var m :| m in layout.Moves() && q <= m.current && q != m.current;
    assert Target(layout, m.current);
    assert s.legacy <= q ==> s.legacy <= m.current;
  }

  lemma AllMovedKeepsParent(doc: Node, layout: Layout, migrate: bool, q: Path)
    requires WellFormed(layout) && BlocksOk(layout) && Parent(layout, q)
    ensures KeepsParent(doc, AllMoved(doc, layout, migrate), q)
  {
    var moves, sel := layout.Moves(), SelectAll(doc, layout.Blocks(), migrate);
    assert moves[..|moves|] == moves;
    SelectAllKeepsPlaces(doc, layout.Blocks(), migrate, q);
    MoveAllKeepsParent(sel.root, layout, |moves|, migrate, q);
    MoveAllSplit(sel.root, moves, sel.chosen, migrate);
    forall s | s in sel.chosen
      ensures s in layout.Blocks() && Get(MoveAll(sel.root, moves, migrate), s.legacy) in {None, Some(EMPTY)}
    {
      ChosenStayEmpty(doc, layout, migrate, s);
    }
    ChosenKeepParent(MoveAll(sel.root, moves, migrate), layout, sel.chosen, migrate, q);
  }

  // ---- Blocks stay blocks ----

  lemma EditKeepsShape(root: Node, p: Path, c: Path, v: Node, q: Path)
    requires p != [] && Independent(c, q)
    ensures ShapeOk(root, q) ==> ShapeOk(Delete(root, p), q)
    ensures ShapeOk(root, q) <==> ShapeOk(Set(root, c, v), q)
  {
    SetElsewhere(root, c, v, q);
    if p <= q {
      DeleteElsewhereOrGone(root, p, q);
    } else {
      DeleteElsewhere(root, p, q);
    }
  }

  lemma {:induction false} MoveAllKeepsShape(root: Node, moves: seq<Move>, migrate: bool, q: Path)
    requires forall m :: m in moves ==> m.legacy != [] && Independent(m.current, q)
    ensures ShapeOk(root, q) ==> ShapeOk(MoveAll(root, moves, migrate), q)
  {
    if moves != [] {
      var front, m := MoveAll(root, moves[..|moves| - 1], migrate), moves[|moves| - 1];
      MoveAllKeepsShape(root, moves[..|moves| - 1], migrate, q);
      EditKeepsShape(front, m.legacy, m.current, BLANK, q);
      EditKeepsShape(Delete(front, m.legacy), m.legacy, m.current, match View(front, m.legacy) case Some(v) => v case None => BLANK, q);
    }
  }

  lemma {:induction false} GroupAllKeepsShape(root: Node, families: seq<Family>, migrate: bool, rules: Rules, q: Path)
    requires forall f :: f in families ==> Independent(GroupPath(f), q)
    ensures ShapeOk(root, q) ==> ShapeOk(GroupAll(root, families, migrate, rules), q)
  {
    if families != [] {
      var front, f := GroupAll(root, families[..|families| - 1], migrate, rules), families[|families| - 1];
      GroupAllKeepsShape(root, families[..|families| - 1], migrate, rules, q);
      var list := if Get(front, [f.legacy]).Some? then NewGroups(front, f, rules) else BLANK;
      EditKeepsShape(front, [f.legacy], GroupPath(f), list, q);
      EditKeepsShape(Set(front, GroupPath(f), list), [f.legacy], GroupPath(f), BLANK, q);
    }
  }

  /** The root stays a mapping. */
  lemma {:induction false} StaysMapping(doc: Node, moves: seq<Move>, families: seq<Family>, migrate: bool, rules: Rules)
    requires doc.Mapping? && forall m :: m in moves ==> m.legacy != [] && m.current != []
    ensures MoveAll(doc, moves, migrate).Mapping?
    ensures GroupAll(doc, families, migrate, rules).Mapping?
    decreases |moves| + |families|
  {
    if moves != [] { StaysMapping(doc, moves[..|moves| - 1], [], migrate, rules); }
    if families != [] { StaysMapping(doc, [], families[..|families| - 1], migrate, rules); }
  }

  // ---- The theorems ----

  /** A family whose legacy list becomes groups. */
  predicate Migrated(doc: Node, f: Family, migrate: bool) {
    Regroups(doc, f, migrate)
  }

  /** The legacy list a family holds. */
  function LegacyList(doc: Node, f: Family): seq<Node> {
    match Get(doc, [f.legacy]) case Some(list) => Items(list) case None => []
  }

  /** The passes before the version is stamped, seen from the document they started with. */
  lemma PassesKeep(doc: Node, layout: Layout, migrate: bool) returns (moved: Node, grouped: Node)
    requires WellFormed(layout) && BlocksOk(layout)
    ensures moved == AllMoved(doc, layout, migrate)
    ensures grouped == GroupAll(moved, layout.families, migrate, layout.rules)
    ensures forall m :: m in layout.Moves() ==> Effective(moved, layout, m.current) == Effective(doc, layout, m.current)
    ensures migrate ==> forall m :: m in layout.Moves() ==> View(moved, m.legacy).None?
    ensures forall q :: Untouched(layout, q) ==> View(moved, q) == View(doc, q)
    ensures forall f :: f in layout.families ==> Get(moved, GroupPath(f)) == Get(doc, GroupPath(f)) && Get(moved, [f.legacy]) == Get(doc, [f.legacy])
    ensures Grouped(moved, grouped, layout, |layout.families|, migrate)
  {
    assert layout.families[..|layout.families|] == layout.families;
    moved := AllMoved(doc, layout, migrate);
    grouped := GroupAll(moved, layout.families, migrate, layout.rules);
    MovedKeeps(doc, layout, migrate);
    if migrate {
      var keys :| keys in layout.leaves && keys.legacy == API_KEYS;
      assert keys in layout.Moves();
    }
    GroupAllMoves(moved, layout, |layout.families|, migrate);
  }

  /** Moving the fields, and the blank blocks beside them. */
  lemma MovedKeeps(doc: Node, layout: Layout, migrate: bool)
    requires WellFormed(layout) && BlocksOk(layout)
    ensures var moved := AllMoved(doc, layout, migrate);
            && (forall m :: m in layout.Moves() ==> Effective(moved, layout, m.current) == Effective(doc, layout, m.current))
            && (migrate ==> forall m :: m in layout.Moves() ==> View(moved, m.legacy).None?)
            && (forall q :: Untouched(layout, q) ==> View(moved, q) == View(doc, q))
            && (forall f :: f in layout.families ==> Get(moved, GroupPath(f)) == Get(doc, GroupPath(f)) && Get(moved, [f.legacy]) == Get(doc, [f.legacy]))
  {
    var moved := AllMoved(doc, layout, migrate);
    var picked, fields := AllMovedAgrees(doc, layout, migrate);
    FieldsKeep(picked, layout, migrate);
    FieldsAgree(layout, picked, doc);
    UntouchedAgree(layout, picked, doc);
    FieldsAgree(layout, moved, fields);
    UntouchedAgree(layout, moved, fields);
    forall m | m in layout.Moves() ensures migrate ==> View(moved, m.legacy).None? { assert Table(layout, m.legacy); }
    forall f | f in layout.families ensures Get(moved, [f.legacy]) == Get(doc, [f.legacy]) { assert Table(layout, [f.legacy]); }
  }

  lemma FieldsKeep(doc: Node, layout: Layout, migrate: bool)
    requires WellFormed(layout)
    ensures var moved := MoveAll(doc, layout.Moves(), migrate);
            && (forall m :: m in layout.Moves() ==> Effective(moved, layout, m.current) == Effective(doc, layout, m.current))
            && (migrate ==> forall m :: m in layout.Moves() ==> View(moved, m.legacy).None?)
            && (forall q :: Untouched(layout, q) ==> View(moved, q) == View(doc, q))
            && (forall f :: f in layout.families ==> Get(moved, GroupPath(f)) == Get(doc, GroupPath(f)) && Get(moved, [f.legacy]) == Get(doc, [f.legacy]))
  {
    var moves := layout.Moves();
    assert moves[..|moves|] == moves;
    MoveAllKeeps(doc, layout, |moves|, migrate);
    forall f | f in layout.families
      ensures Get(MoveAll(doc, moves, migrate), GroupPath(f)) == Get(doc, GroupPath(f))
      ensures Get(MoveAll(doc, moves, migrate), [f.legacy]) == Get(doc, [f.legacy])
    {
      MoveAllKeepsGroups(doc, layout, |moves|, migrate, f);
      FamilyIsOff(layout, f);
    }
  }

  // ---- Unknown fields ----

  /** What pruning leaves of the value at `q`, unless `q` itself is unknown. */
  function Rest(v: Node, known: map<Path, set<string>>, at: Path, q: Path): Node
    decreases q
  {
    if at !in known then v
    else if q == [] then Prune(v, at, known)
    else Rest(v, known, at + [q[0]], q[1..])
  }

  /** A value read at `q` before pruning, as it is read afterwards. */
  function AfterPrune(value: Option<Node>, known: map<Path, set<string>>, at: Path, q: Path): Option<Node> {
    if value.None? || Unknown(known, at, q) then None else Some(Rest(value.value, known, at, q))
  }

  lemma {:induction false} PruneThenGet(node: Node, known: map<Path, set<string>>, at: Path, q: Path)
    ensures Get(Prune(node, at, known), q) == AfterPrune(Get(node, q), known, at, q)
    decreases q
  {
    if q != [] && at in known && node.Mapping? && q[0] in node.fields {
      PruneThenGet(node.fields[q[0]], known, at + [q[0]], q[1..]);
    }
  }

  lemma {:induction false} IntactStays(v: Node, known: map<Path, set<string>>, at: Path, q: Path)
    ensures Intact(known, at, q) ==> !Unknown(known, at, q) && Rest(v, known, at, q) == v
    ensures !v.Mapping? ==> Rest(v, known, at, q) == v
    ensures v.Mapping? ==> Rest(v, known, at, q).Mapping?
    decreases q
  {
    if q != [] {
      IntactStays(v, known, at + [q[0]], q[1..]);
    }
  }

  /** Pruning leaves intact paths alone, removes unknown ones, and adds nothing. */
  lemma PruneKeeps(node: Node, known: map<Path, set<string>>, q: Path)
    ensures Intact(known, [], q) ==> Get(Prune(node, [], known), q) == Get(node, q)
    ensures Unknown(known, [], q) || Get(node, q).None? ==> Get(Prune(node, [], known), q).None?
    ensures Get(Prune(node, [], known), q) == AfterPrune(Get(node, q), known, [], q)
  {
    PruneThenGet(node, known, [], q);
    if Get(node, q).Some? {
      IntactStays(Get(node, q).value, known, [], q);
    }
  }

  lemma {:induction false} PruneTwice(node: Node, known: map<Path, set<string>>, at: Path)
    ensures Prune(Prune(node, at, known), at, known) == Prune(node, at, known)
    decreases node
  {
    if node.Mapping? && at in known {
      var once := Prune(node, at, known);
      forall f | f in once.fields
        ensures Prune(once.fields[f], at + [f], known) == once.fields[f]
      {
        PruneTwice(node.fields[f], known, at + [f]);
      }
      assert Prune(once, at, known).fields == once.fields;
    }
  }

  /** Stamping a known root field commutes with pruning. */
  lemma PruneStamped(node: Node, known: map<Path, set<string>>)
    requires Intact(known, [], VERSION)
    ensures Prune(Set(Prune(node, [], known), VERSION, EIGHT), [], known) == Set(Prune(node, [], known), VERSION, EIGHT)
  {
    PruneTwice(node, known, []);
    var once := Prune(node, [], known);
    var stamped := Set(once, VERSION, EIGHT);
    assert VERSION[1..] == [];
    assert stamped == Mapping((if once.Mapping? then once.fields else map[])[VERSION[0] := EIGHT]);
    if [] in known {
      assert Prune(once, [], known) == once;
      forall f | f in stamped.fields
        ensures f in known[[]] && Prune(stamped.fields[f], [] + [f], known) == stamped.fields[f]
      {
        if f != VERSION[0] {
          assert f in Prune(once, [], known).fields;
        }
      }
      assert Prune(stamped, [], known).fields == stamped.fields;
    }
  }

  /** What a field outside the tables reads after normalizing: a migration drops what is unknown in it. */
  function Retained(value: Option<Node>, layout: Layout, migrate: bool, q: Path): Option<Node> {
    if migrate then AfterPrune(value, layout.known, [], q) else value
  }

  /** Fields the tables list are retained whole, unknown ones are gone. */
  lemma RetainedMeans(value: Option<Node>, layout: Layout, q: Path)
    ensures Retained(value, layout, false, q) == value
    ensures Intact(layout.known, [], q) ==> Retained(value, layout, true, q) == value
    ensures Unknown(layout.known, [], q) ==> Retained(value, layout, true, q).None?
  {
    if value.Some? {
      IntactStays(value.value, layout.known, [], q);
    }
  }

  lemma StampedElsewhere(layout: Layout, grouped: Node, migrate: bool, q: Path)
    requires WellFormed(layout) && q != VERSION
    requires Table(layout, q) || Native(layout, q) || exists f :: f in layout.families && q == GroupPath(f)
    ensures Get(Stamped(grouped, layout, migrate), q) == Retained(Get(grouped, q), layout, migrate, q)
  {
    assert Table(layout, VERSION);
    assert Independent(VERSION, q);
    PruneKeeps(grouped, layout.known, q);
    SetElsewhere(Prune(grouped, [], layout.known), VERSION, EIGHT, q);
  }

  /** Group paths are below a path about which the tables say nothing. */
  lemma GroupPathIntact(layout: Layout, f: Family)
    requires WellFormed(layout)
    ensures Intact(layout.known, [], GroupPath(f))
  {
    assert Intact(layout.known, [], API_KEYS) && API_KEYS[1..] == [];
    if [] in layout.known {
      assert [] + [API_KEYS[0]] == API_KEYS;
      assert Intact(layout.known, API_KEYS, []);
      assert GroupPath(f)[1..] == [f.current];
    }
  }

  /** After all passes every path of the tables reads as after the moves alone. */
  lemma NormalView(doc: Node, layout: Layout, migrate: bool, moved: Node, grouped: Node, q: Path)
    requires WellFormed(layout) && Grouped(moved, grouped, layout, |layout.families|, migrate)
    requires migrate ==> forall m :: m in layout.Moves() ==> View(moved, m.legacy).None?
    requires exists m :: m in layout.Moves() && (q == m.legacy || q == m.current)
    ensures View(Stamped(grouped, layout, migrate), q) == View(moved, q)
    ensures q != API_KEYS ==> Get(Stamped(grouped, layout, migrate), q) == Get(moved, q)
  {
    assert Table(layout, VERSION);
    assert Table(layout, q) && q != VERSION;
    StampedElsewhere(layout, grouped, migrate, q);
    assert OffFamilies(layout, q);
    RetainedMeans(Get(grouped, q), layout, q);
    assert View(grouped, q) == View(moved, q);
  }

  lemma NormalNative(layout: Layout, migrate: bool, moved: Node, grouped: Node, q: Path)
    requires WellFormed(layout) && Grouped(moved, grouped, layout, |layout.families|, migrate) && Native(layout, q)
    ensures Get(Stamped(grouped, layout, migrate), q) == Retained(Get(moved, q), layout, migrate, q)
  {
    NativeIsOff(layout, q);
    assert Table(layout, VERSION);
    StampedElsewhere(layout, grouped, migrate, q);
    var keys :| keys in layout.leaves && keys.legacy == API_KEYS;
  }

  /**
   Normalizing, with or without migrating, keeps the effective value of every field; outside the tables
   a migration keeps what the v8 layout knows and nothing else.
   */
  lemma TablesKeepFields(doc: Node, layout: Layout, migrate: bool)
    requires WellFormed(layout) && BlocksOk(layout)
    ensures forall m :: m in layout.Moves() ==> Effective(NormalTables(doc, layout, migrate), layout, m.current) == Effective(doc, layout, m.current)
    ensures forall q :: Native(layout, q) ==> Get(NormalTables(doc, layout, migrate), q) == Retained(Get(doc, q), layout, migrate, q)
  {
    var moved, grouped := PassesKeep(doc, layout, migrate);
    var norm := NormalTables(doc, layout, migrate);
    forall m | m in layout.Moves() ensures Effective(norm, layout, m.current) == Effective(doc, layout, m.current) {
      forall n | n in layout.Moves() ensures View(norm, n.legacy) == View(moved, n.legacy) && Get(norm, n.current) == Get(moved, n.current) {
        NormalView(doc, layout, migrate, moved, grouped, n.legacy);
        NormalView(doc, layout, migrate, moved, grouped, n.current);
        CurrentIsNotKeys(layout, n);
      }
      LegacyAgrees(norm, moved, layout.Moves(), m.current);
    }
    forall q | Native(layout, q) ensures Get(norm, q) == Retained(Get(doc, q), layout, migrate, q) {
      NormalNative(layout, migrate, moved, grouped, q);
      NativeIsOff(layout, q);
      var keys :| keys in layout.leaves && keys.legacy == API_KEYS;
      assert Untouched(layout, q);
    }
  }

  lemma CurrentIsNotKeys(layout: Layout, n: Move)
    requires WellFormed(layout) && n in layout.Moves()
    ensures n.current != API_KEYS
  {
    var keys :| keys in layout.leaves && keys.legacy == API_KEYS;
    assert keys in layout.Moves();
  }

  /** The key lists after normalizing: untouched, or groups built from the legacy list. */
  lemma NormalFamily(doc: Node, layout: Layout, migrate: bool, f: Family)
    requires WellFormed(layout) && BlocksOk(layout) && f in layout.families
    ensures var norm := NormalTables(doc, layout, migrate);
            && Get(norm, GroupPath(f)) == (if Migrated(doc, f, migrate) then Some(Sequence(GroupsOf(LegacyList(doc, f), f.current, layout.rules))) else Get(doc, GroupPath(f)))
            && Get(norm, [f.legacy]) == (if migrate || Get(doc, GroupPath(f)).Some? then None else Get(doc, [f.legacy]))
  {
    var moved, grouped := PassesKeep(doc, layout, migrate);
    var i :| 0 <= i < |layout.families| && layout.families[i] == f;
    assert SlotOk(moved, grouped, layout.families[i], layout.rules, i < |layout.families|, migrate);
    assert Table(layout, [f.legacy]);
    StampedElsewhere(layout, grouped, migrate, [f.legacy]);
    RetainedMeans(Get(grouped, [f.legacy]), layout, [f.legacy]);
    assert GroupPath(f) != VERSION;
    StampedElsewhere(layout, grouped, migrate, GroupPath(f));
    GroupPathIntact(layout, f);
    RetainedMeans(Get(grouped, GroupPath(f)), layout, GroupPath(f));
  }

  /**
   A family keeps its effective key list; a list that was regrouped comes back entry by entry with
   auth indexes and per-key nulls cleaned, exactly when all its entries can be grouped.
   */
  lemma TablesKeepFamily(doc: Node, layout: Layout, migrate: bool, f: Family)
    requires WellFormed(layout) && BlocksOk(layout) && f in layout.families
    ensures var norm, list := NormalTables(doc, layout, migrate), LegacyList(doc, f);
            if Migrated(doc, f, migrate) then
              && (GroupsOk(norm, f, layout.rules) <==> AllGroupable(list, f.current, layout.rules))
              && (AllGroupable(list, f.current, layout.rules) && (forall i :: 0 <= i < |list| ==> list[i].Mapping?) ==>
                    FamilyEffective(norm, f, layout.rules) == Some(Sequence(CleanedAll(list, f.current, layout.rules))))
            else
              && (GroupsOk(norm, f, layout.rules) <==> GroupsOk(doc, f, layout.rules))
              && FamilyEffective(norm, f, layout.rules) == FamilyEffective(doc, f, layout.rules)
  {
    NormalFamily(doc, layout, migrate, f);
    RoundTrip(LegacyList(doc, f), f.current, layout.rules);
  }

  lemma PruneKeepsParent(root: Node, known: map<Path, set<string>>, q: Path)
    ensures KeepsParent(root, Prune(root, [], known), q)
  {
    PruneKeeps(root, known, q);
    if Get(root, q).Some? {
      IntactStays(Get(root, q).value, known, [], q);
    }
  }

  lemma TablesKeepParents(doc: Node, layout: Layout, migrate: bool)
    requires WellFormed(layout) && BlocksOk(layout) && doc.Mapping? && ParentsOk(doc, layout.Moves())
    ensures NormalTables(doc, layout, migrate).Mapping? && ParentsOk(NormalTables(doc, layout, migrate), layout.Moves())
  {
    assert layout.families[..|layout.families|] == layout.families;
    var moved := AllMoved(doc, layout, migrate);
    var grouped := GroupAll(moved, layout.families, migrate, layout.rules);
    AllMovedIsMapping(doc, layout, migrate);
    StaysMapping(moved, [], layout.families, migrate, layout.rules);
    forall m, i | m in layout.Moves() && 0 < i < |m.current| ensures ParentOk(NormalTables(doc, layout, migrate), m.current[..i]) {
      var q := m.current[..i];
      assert Parent(layout, q);
      AllMovedKeepsParent(doc, layout, migrate, q);
      GroupAllKeepsParent(moved, layout, |layout.families|, migrate, q);
      assert Table(layout, VERSION);
      OffParent(layout, VERSION, q);
      PruneKeepsParent(grouped, layout.known, q);
      EditKeepsParent(Prune(grouped, [], layout.known), VERSION, EIGHT, q);
    }
  }

  lemma AllMovedIsMapping(doc: Node, layout: Layout, migrate: bool)
    requires WellFormed(layout) && BlocksOk(layout) && doc.Mapping?
    ensures AllMoved(doc, layout, migrate).Mapping?
  {
    var sel := SelectAll(doc, layout.Blocks(), migrate);
    assert layout.Blocks()[..|layout.Blocks()|] == layout.Blocks();
    SelectAllKeeps(doc, layout, |layout.Blocks()|, migrate);
    forall m | m in layout.Moves() + sel.chosen ensures m.legacy != [] && m.current != [] {
      if m in layout.Moves() { assert Table(layout, m.legacy) && Table(layout, m.current); } else { BlockPaths(layout, m, m); }
    }
    StaysMapping(sel.root, layout.Moves() + sel.chosen, [], migrate, layout.rules);
  }

  lemma TablesKeepShapes(doc: Node, layout: Layout, migrate: bool)
    requires WellFormed(layout) && BlocksOk(layout) && ShapesOk(doc, layout)
    ensures ShapesOk(NormalTables(doc, layout, migrate), layout)
  {
    var sel := SelectAll(doc, layout.Blocks(), migrate);
    assert layout.Blocks()[..|layout.Blocks()|] == layout.Blocks();
    SelectAllKeeps(doc, layout, |layout.Blocks()|, migrate);
    forall s | s in layout.shared ensures ShapeOk(NormalTables(doc, layout, migrate), s.legacy) {
      assert s in layout.Blocks();
      if migrate {
        TablesLeaveNoUnknown(doc, layout, s.legacy);
      } else {
        SelectAllKeepsPlaces(doc, layout.Blocks(), migrate, s.legacy);
        forall m | m in layout.Moves() + sel.chosen ensures m.legacy != [] && Independent(m.current, s.legacy) {
          if m in layout.Moves() { AliasBesideBlock(layout, m, s); } else { BlockPaths(layout, m, m); BlockPaths(layout, s, m); }
        }
        MoveAllKeepsShape(sel.root, layout.Moves() + sel.chosen, migrate, s.legacy);
        forall f | f in layout.families ensures Independent(GroupPath(f), s.legacy) { assert Target(layout, GroupPath(f)); }
        GroupAllKeepsShape(AllMoved(doc, layout, migrate), layout.families, migrate, layout.rules, s.legacy);
      }
    }
  }

  lemma TablesKeepVersion(doc: Node, layout: Layout, migrate: bool)
    requires WellFormed(layout) && BlocksOk(layout) && VersionOk(doc)
    ensures VersionOk(NormalTables(doc, layout, migrate))
  {
    var moved, grouped := PassesKeep(doc, layout, migrate);
    SetThenGet(Prune(grouped, [], layout.known), VERSION, EIGHT);
    assert Table(layout, VERSION) && Untouched(layout, VERSION) && OffFamilies(layout, VERSION);
  }

  /**
   For a document whose fields the runtime accepts, the normalized document is accepted too, exactly when
   every key list that was regrouped can be expanded again.
   */
  lemma TablesStayAcceptable(doc: Node, layout: Layout, migrate: bool)
    requires WellFormed(layout) && BlocksOk(layout) && Acceptable(doc, layout)
    ensures Acceptable(NormalTables(doc, layout, migrate), layout) <==>
              forall f :: f in layout.families && Migrated(doc, f, migrate) ==> AllGroupable(LegacyList(doc, f), f.current, layout.rules)
  {
    var norm := NormalTables(doc, layout, migrate);
    TablesKeepParents(doc, layout, migrate);
    TablesKeepVersion(doc, layout, migrate);
    TablesKeepShapes(doc, layout, migrate);
    forall f | f in layout.families
      ensures GroupsOk(norm, f, layout.rules) <==> (Migrated(doc, f, migrate) ==> AllGroupable(LegacyList(doc, f), f.current, layout.rules))
    {
      TablesKeepFamily(doc, layout, migrate, f);
    }
  }

  /** After migrating, no legacy spelling is left: neither a field, nor an alias, nor a key list. */
  lemma TablesLeaveNoLegacy(doc: Node, layout: Layout)
    requires WellFormed(layout) && BlocksOk(layout)
    ensures forall m :: m in layout.Moves() ==> View(NormalTables(doc, layout, true), m.legacy).None?
    ensures forall f :: f in layout.families ==> Get(NormalTables(doc, layout, true), [f.legacy]).None?
    ensures forall s :: s in layout.Blocks() ==> Get(NormalTables(doc, layout, true), s.legacy).None?
    ensures Get(NormalTables(doc, layout, true), VERSION) == Some(EIGHT)
  {
    forall s | s in layout.Blocks() ensures Get(NormalTables(doc, layout, true), s.legacy).None? {
      TablesLeaveNoUnknown(doc, layout, s.legacy);
    }
    var moved, grouped := PassesKeep(doc, layout, true);
    forall m | m in layout.Moves() ensures View(NormalTables(doc, layout, true), m.legacy).None? {
      NormalView(doc, layout, true, moved, grouped, m.legacy);
    }
    forall f | f in layout.families ensures Get(NormalTables(doc, layout, true), [f.legacy]).None? { NormalFamily(doc, layout, true, f); }
    SetThenGet(Prune(grouped, [], layout.known), VERSION, EIGHT);
  }

  /** Nor is any unknown field left. */
  lemma TablesLeaveNoUnknown(doc: Node, layout: Layout, q: Path)
    requires WellFormed(layout) && Unknown(layout.known, [], q)
    ensures Get(NormalTables(doc, layout, true), q).None?
  {
    var grouped := GroupAll(AllMoved(doc, layout, true), layout.families, true, layout.rules);
    PruneKeeps(grouped, layout.known, q);
    assert VERSION[1..] == [] && [] + [VERSION[0]] == VERSION;
    assert Intact(layout.known, VERSION, []);
    assert q[0] != VERSION[0];
    SetElsewhere(Prune(grouped, [], layout.known), VERSION, EIGHT, q);
  }

  /** So normalizing a migrated document again, either way, changes nothing. */
  lemma TablesFinal(doc: Node, layout: Layout, again: bool)
    requires WellFormed(layout) && BlocksOk(layout)
    ensures NormalTables(NormalTables(doc, layout, true), layout, again) == NormalTables(doc, layout, true)
  {
    var norm := NormalTables(doc, layout, true);
    TablesLeaveNoLegacy(doc, layout);
    NothingToSelect(norm, layout.Blocks(), again);
    assert layout.Moves() + [] == layout.Moves();
    NothingToMove(norm, layout.Moves(), again);
    NothingToGroup(norm, layout.families, again, layout.rules);
    var grouped := GroupAll(AllMoved(doc, layout, true), layout.families, true, layout.rules);
    PruneStamped(grouped, layout.known);
    SetSame(norm, VERSION);
  }

  lemma {:induction false} NothingToSelect(root: Node, blocks: seq<Move>, migrate: bool)
    requires forall s :: s in blocks ==> Get(root, s.legacy).None?
    ensures SelectAll(root, blocks, migrate) == Selection(root, [])
  {
    if blocks != [] { NothingToSelect(root, blocks[..|blocks| - 1], migrate); }
  }

  lemma {:induction false} NothingToMove(root: Node, moves: seq<Move>, migrate: bool)
    requires forall m :: m in moves ==> View(root, m.legacy).None?
    ensures MoveAll(root, moves, migrate) == root
  {
    if moves != [] { NothingToMove(root, moves[..|moves| - 1], migrate); }
  }

  lemma {:induction false} NothingToGroup(root: Node, families: seq<Family>, migrate: bool, rules: Rules)
    requires forall f :: f in families ==> Get(root, [f.legacy]).None?
    ensures GroupAll(root, families, migrate, rules) == root
  {
    if families != [] { NothingToGroup(root, families[..|families| - 1], migrate, rules); }
  }

  lemma {:induction false} SetSame(root: Node, p: Path)
    requires Get(root, p).Some?
    ensures Set(root, p, Get(root, p).value) == root
    decreases p
  {
    if p != [] { SetSame(root.fields[p[0]], p[1..]); }
  }
}
