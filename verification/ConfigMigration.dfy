/** What each pass does to the paths of the tables, and what flattenV8 makes of a document whose flag is resolved. */
module ConfigMigration {
  import opened Options
  import opened YamlTree
  import opened KeyGroups
  import opened ConfigLayout
  import opened ConfigBlocks

  // ---- One move, seen through the paths it may touch ----

  /** The paths a move may be observed at: its own two, and everything apart from both. */
  ghost predicate Observes(q: Path, m: Move) {
    q == m.legacy || q == m.current || (Independent(q, m.legacy) && Independent(q, m.current))
  }

  ghost predicate SoundMove(m: Move) {
    m.legacy != [] && m.current != [] && m.current != API_KEYS && Independent(m.legacy, m.current)
  }

  /** What a move does to the value seen at `q`: the legacy field goes, and fills the v8 field only if that was empty. */
  ghost predicate Moved(root: Node, root': Node, m: Move, migrate: bool, q: Path) {
    View(root', q) ==
    if q == m.legacy then (if migrate || Get(root, m.current).Some? then None else View(root, q))
    else if q == m.current && migrate && Get(root, q).None? then View(root, m.legacy)
    else View(root, q)
  }

  lemma MoveOneMoves(root: Node, m: Move, migrate: bool, q: Path)
    requires SoundMove(m) && Observes(q, m)
    ensures Moved(root, MoveOne(root, m, migrate), m, migrate, q)
  {
    DeleteThenGet(root, m.legacy, []);
    assert m.legacy + [] == m.legacy;
    if View(root, m.legacy).Some? {
      DeleteElsewhere(root, m.legacy, m.current);
      if Independent(q, m.legacy) { DeleteElsewhere(root, m.legacy, q); }
      var gone := Delete(root, m.legacy);
      SetThenGet(gone, m.current, View(root, m.legacy).value);
      if q != m.current { SetElsewhere(gone, m.current, View(root, m.legacy).value, q); }
    }
  }

  lemma AliasOneMoves(root: Node, m: Move, q: Path)
    requires SoundMove(m) && Observes(q, m) && m.legacy != API_KEYS
    ensures Moved(root, AliasOne(root, m), m, true, q)
  {
    if Get(root, m.legacy).Some? {
      var held := Get(root, m.legacy).value;
      var filled := if Get(root, m.current).None? then Set(root, m.current, held) else root;
      SetThenGet(root, m.current, held);
      if q != m.current { SetElsewhere(root, m.current, held, q); }
      DeleteThenGet(filled, m.legacy, []);
      assert m.legacy + [] == m.legacy;
      DeleteElsewhere(filled, m.legacy, m.current);
      if Independent(q, m.legacy) { DeleteElsewhere(filled, m.legacy, q); }
    }
  }

  // ---- Legacy spellings of one field ----

  lemma {:induction false} LegacyAgrees(doc: Node, doc': Node, moves: seq<Move>, c: Path)
    requires forall m :: m in moves && m.current == c ==> View(doc, m.legacy) == View(doc', m.legacy)
    ensures Legacy(doc, moves, c) == Legacy(doc', moves, c)
  {
    if moves != [] {
      LegacyAgrees(doc, doc', moves[..|moves| - 1], c);
    }
  }

  /** The k-th spelling decides when all earlier ones are absent and it is present, or all later ones are absent too. */
  lemma {:induction false} LegacyAt(doc: Node, moves: seq<Move>, k: nat, c: Path)
    requires k < |moves| && moves[k].current == c
    requires forall i :: 0 <= i < k && moves[i].current == c ==> View(doc, moves[i].legacy).None?
    requires View(doc, moves[k].legacy).Some? || forall i :: k < i < |moves| && moves[i].current == c ==> View(doc, moves[i].legacy).None?
    ensures Legacy(doc, moves, c) == View(doc, moves[k].legacy)
  {
    var front := moves[..|moves| - 1];
    if k < |front| {
      LegacyAt(doc, front, k, c);
    } else {
      NoLegacy(doc, front, c);
    }
  }

  lemma {:induction false} NoLegacy(doc: Node, moves: seq<Move>, c: Path)
    requires forall m :: m in moves && m.current == c ==> View(doc, m.legacy).None?
    ensures Legacy(doc, moves, c) == None
  {
    if moves != [] {
      NoLegacy(doc, moves[..|moves| - 1], c);
    }
  }

  // ---- The passes over the path table ----

  ghost predicate Emptied(root: Node, moves: seq<Move>, n: nat)
    requires n <= |moves|
  {
    forall i :: 0 <= i < n ==> View(root, moves[i].legacy).None?
  }

  lemma TableMoves(layout: Layout, j: nat)
    requires WellFormed(layout) && j < |layout.Moves()|
    ensures SoundMove(layout.Moves()[j]) && Table(layout, layout.Moves()[j].legacy) && Table(layout, layout.Moves()[j].current)
  {
    var m := layout.Moves()[j];
    assert Table(layout, m.legacy) && Table(layout, m.current);
    var k :| k in layout.leaves && k.legacy == API_KEYS;
    assert k in layout.Moves();
  }

  lemma TableObserves(layout: Layout, j: nat, q: Path)
    requires WellFormed(layout) && j < |layout.Moves()| && (Table(layout, q) || Native(layout, q))
    ensures Observes(q, layout.Moves()[j])
  {
    TableMoves(layout, j);
  }

  /** What one move does to the spellings of the i-th field of the table. */
  ghost predicate SpellingsMoved(root: Node, root': Node, moves: seq<Move>, j: nat, migrate: bool, i: nat)
    requires i < |moves| && j < |moves|
  {
    && Moved(root, root', moves[j], migrate, moves[i].legacy) && Moved(root, root', moves[j], migrate, moves[i].current)
    && moves[i].current != API_KEYS && moves[i].legacy != moves[j].current && moves[i].current != moves[j].legacy && (i != j ==> moves[i].legacy != moves[j].legacy)
  }

  lemma TableSpellings(root: Node, root': Node, layout: Layout, j: nat, migrate: bool)
    requires WellFormed(layout) && j < |layout.Moves()|
    requires forall q :: Table(layout, q) ==> Moved(root, root', layout.Moves()[j], migrate, q)
    ensures forall i :: 0 <= i < |layout.Moves()| ==> SpellingsMoved(root, root', layout.Moves(), j, migrate, i)
  {
    var moves := layout.Moves();
    forall i | 0 <= i < |moves|
      ensures SpellingsMoved(root, root', moves, j, migrate, i)
    {
      TableMoves(layout, i);
      assert moves[i] in moves && moves[j] in moves;
    }
  }

  /** One move, in table order, keeps the effective value of every field. */
  lemma MoveKeepsEffective(root: Node, root': Node, layout: Layout, j: nat, migrate: bool, c: Path)
    requires WellFormed(layout) && j < |layout.Moves()|
    requires forall q :: Table(layout, q) ==> Moved(root, root', layout.Moves()[j], migrate, q)
    requires migrate ==> Emptied(root, layout.Moves(), j)
    requires exists n :: n in layout.Moves() && n.current == c
    ensures Effective(root', layout, c) == Effective(root, layout, c)
    ensures migrate ==> Emptied(root', layout.Moves(), j + 1)
  {
    var moves := layout.Moves();
    TableSpellings(root, root', layout, j, migrate);
    var k :| 0 <= k < |moves| && moves[k].current == c;
    SpellingsKeepEffective(root, root', moves, j, migrate, k);
  }

  lemma SpellingsKeepEffective(root: Node, root': Node, moves: seq<Move>, j: nat, migrate: bool, k: nat)
    requires j < |moves| && k < |moves|
    requires forall i :: 0 <= i < |moves| ==> SpellingsMoved(root, root', moves, j, migrate, i)
    requires migrate ==> Emptied(root, moves, j)
    ensures EffectiveIn(root', moves, moves[k].current) == EffectiveIn(root, moves, moves[k].current)
    ensures migrate ==> Emptied(root', moves, j + 1)
  {
    var m, c := moves[j], moves[k].current;
    forall i | 0 <= i < |moves|
      ensures Moved(root, root', m, migrate, moves[i].legacy) && Moved(root, root', m, migrate, moves[i].current)
      ensures moves[i].current != API_KEYS && moves[i].legacy != m.current && moves[i].current != m.legacy
      ensures i != j ==> moves[i].legacy != m.legacy
    {
      assert SpellingsMoved(root, root', moves, j, migrate, i);
    }
    assert Moved(root, root', m, migrate, moves[k].current);
    if c == m.current && Get(root, c).None? && View(root, m.legacy).Some? && migrate {
      LegacyAt(root, moves, j, c);
    } else if c != m.current || Get(root, c).None? {
      forall n | n in moves && n.current == c ensures View(root, n.legacy) == View(root', n.legacy) {
        var i :| 0 <= i < |moves| && moves[i] == n;
        assert Moved(root, root', m, migrate, moves[i].legacy);
      }
      LegacyAgrees(root, root', moves, c);
    }
  }

  /** The first moves of the table kept every effective value and emptied the legacy paths they migrated. */
  ghost predicate MovesKept(doc: Node, root: Node, layout: Layout, n: nat, migrate: bool)
    requires n <= |layout.Moves()|
  {
    && (forall m :: m in layout.Moves() ==> Effective(root, layout, m.current) == Effective(doc, layout, m.current))
    && (migrate ==> Emptied(root, layout.Moves(), n))
    && (forall q :: Untouched(layout, q) ==> View(root, q) == View(doc, q))
  }

  ghost predicate MovedEverywhere(before: Node, after: Node, layout: Layout, m: Move, migrate: bool) {
    forall q :: Table(layout, q) || Native(layout, q) ==> Moved(before, after, m, migrate, q)
  }

  lemma MoveStep(doc: Node, before: Node, after: Node, layout: Layout, j: nat, migrate: bool)
    requires WellFormed(layout) && j < |layout.Moves()| && MovesKept(doc, before, layout, j, migrate)
    requires MovedEverywhere(before, after, layout, layout.Moves()[j], migrate)
    ensures MovesKept(doc, after, layout, j + 1, migrate)
  {
    var moves, m := layout.Moves(), layout.Moves()[j];
    forall k | k in moves ensures Effective(after, layout, k.current) == Effective(doc, layout, k.current) {
      MoveKeepsEffective(before, after, layout, j, migrate, k.current);
    }
    MoveKeepsEffective(before, after, layout, j, migrate, m.current);
    forall q | Untouched(layout, q) ensures View(after, q) == View(doc, q) {
      UntouchedIsApart(layout, q, m);
    }
  }

  lemma MoveOneAtAll(before: Node, layout: Layout, j: nat, migrate: bool)
    requires WellFormed(layout) && j < |layout.Moves()|
    ensures MovedEverywhere(before, MoveOne(before, layout.Moves()[j], migrate), layout, layout.Moves()[j], migrate)
  {
    TableMoves(layout, j);
    forall q | Table(layout, q) || Native(layout, q)
      ensures Moved(before, MoveOne(before, layout.Moves()[j], migrate), layout.Moves()[j], migrate, q)
    {
      TableObserves(layout, j, q);
      MoveOneMoves(before, layout.Moves()[j], migrate, q);
    }
  }

  lemma NoMoves(doc: Node, layout: Layout, migrate: bool)
    ensures MovesKept(doc, MoveAll(doc, layout.Moves()[..0], migrate), layout, 0, migrate)
  {
    assert layout.Moves()[..0] == [];
    assert MoveAll(doc, [], migrate) == doc;
  }

  lemma OneMoveMore(doc: Node, layout: Layout, n: nat, migrate: bool)
    requires WellFormed(layout) && 0 < n <= |layout.Moves()|
    requires MovesKept(doc, MoveAll(doc, layout.Moves()[..n - 1], migrate), layout, n - 1, migrate)
    ensures MovesKept(doc, MoveAll(doc, layout.Moves()[..n], migrate), layout, n, migrate)
  {
    var before := MoveAll(doc, layout.Moves()[..n - 1], migrate);
    MoveAllLast(doc, layout.Moves(), n, migrate);
    MoveOneAtAll(before, layout, n - 1, migrate);
    MoveStep(doc, before, MoveOne(before, layout.Moves()[n - 1], migrate), layout, n - 1, migrate);
  }

  lemma MoveAllLast(doc: Node, moves: seq<Move>, n: nat, migrate: bool)
    requires 0 < n <= |moves|
    ensures MoveAll(doc, moves[..n], migrate) == MoveOne(MoveAll(doc, moves[..n - 1], migrate), moves[n - 1], migrate)
  {
    assert moves[..n][..n - 1] == moves[..n - 1];
  }

  lemma {:induction false} MoveAllKeeps(doc: Node, layout: Layout, n: nat, migrate: bool)
    requires WellFormed(layout) && n <= |layout.Moves()|
    ensures MovesKept(doc, MoveAll(doc, layout.Moves()[..n], migrate), layout, n, migrate)
  {
    if n == 0 {
      NoMoves(doc, layout, migrate);
    } else {
      MoveAllKeeps(doc, layout, n - 1, migrate);
      OneMoveMore(doc, layout, n, migrate);
    }
  }

  /** Paths no move touches: the version, the legacy key lists, and fields outside the tables. */
  ghost predicate Untouched(layout: Layout, q: Path) {
    Native(layout, q) || q == VERSION || exists f :: f in layout.families && q == [f.legacy]
  }

  lemma UntouchedIsApart(layout: Layout, q: Path, m: Move)
    requires WellFormed(layout) && Untouched(layout, q) && m in layout.Moves()
    ensures (Table(layout, q) || Native(layout, q)) && q != m.legacy && q != m.current && q != API_KEYS
  {
    assert Table(layout, m.legacy) && Table(layout, m.current);
    var k :| k in layout.leaves && k.legacy == API_KEYS;
    assert k in layout.Moves() && Table(layout, API_KEYS);
  }

  /** The aliases are the front of the table, so they keep what moving it keeps. */
  lemma {:induction false} AliasAllKeeps(doc: Node, layout: Layout, n: nat)
    requires WellFormed(layout) && n <= |layout.aliases|
    ensures MovesKept(doc, AliasAll(doc, layout.aliases[..n]), layout, n, true)
  {
    if n == 0 {
      assert AliasAll(doc, layout.aliases[..0]) == MoveAll(doc, layout.Moves()[..0], true);
      NoMoves(doc, layout, true);
    } else {
      AliasAllKeeps(doc, layout, n - 1);
      var before := AliasAll(doc, layout.aliases[..n - 1]);
      AliasAllLast(doc, layout.aliases, n);
      AliasOneAtAll(before, layout, n - 1);
      MoveStep(doc, before, AliasOne(before, layout.aliases[n - 1]), layout, n - 1, true);
    }
  }

  lemma AliasAllLast(doc: Node, aliases: seq<Move>, n: nat)
    requires 0 < n <= |aliases|
    ensures AliasAll(doc, aliases[..n]) == AliasOne(AliasAll(doc, aliases[..n - 1]), aliases[n - 1])
  {
    assert aliases[..n][..n - 1] == aliases[..n - 1];
  }

  lemma AliasOneAtAll(before: Node, layout: Layout, j: nat)
    requires WellFormed(layout) && j < |layout.aliases|
    ensures layout.Moves()[j] == layout.aliases[j]
    ensures MovedEverywhere(before, AliasOne(before, layout.aliases[j]), layout, layout.aliases[j], true)
  {
    var m := layout.aliases[j];
    assert layout.Moves()[j] == m;
    TableMoves(layout, j);
    AliasIsNotKeys(layout, m);
    forall q | Table(layout, q) || Native(layout, q) ensures Moved(before, AliasOne(before, m), m, true, q) {
      TableObserves(layout, j, q);
      AliasOneMoves(before, m, q);
    }
  }

  lemma AliasIsNotKeys(layout: Layout, m: Move)
    requires WellFormed(layout) && m in layout.aliases
    ensures m.legacy != API_KEYS
  {
    var k :| k in layout.leaves && k.legacy == API_KEYS;
    var i :| 0 <= i < |layout.aliases| && layout.aliases[i] == m;
    var j :| 0 <= j < |layout.leaves| && layout.leaves[j] == k;
    assert layout.Moves()[i] == m && layout.Moves()[|layout.aliases| + j] == k;
  }

  // ---- The runtime document ----

  function Pick(root: Node, m: Move): Option<Node> {
    match Get(root, m.current) case Some(v) => Some(v) case None => Get(root, m.legacy)
  }

  lemma LeafOneMoves(root: Node, m: Move, q: Path)
    requires SoundMove(m) && Observes(q, m)
    ensures Get(LeafOne(root, m), q) ==
            if q == m.current then None else if q == m.legacy then Pick(root, m) else Get(root, q)
  {
    if Get(root, m.current).Some? {
      var v, gone := Get(root, m.current).value, Delete(root, m.current);
      DeleteThenGet(root, m.current, []);
      assert m.current + [] == m.current;
      if q != m.current { DeleteElsewhere(root, m.current, q); }
      SetThenGet(gone, m.legacy, v);
      if q != m.legacy { SetElsewhere(gone, m.legacy, v, q); }
    }
  }

  /** How one leaf move changes what a path reads. */
  ghost predicate LeafMoved(before: Node, after: Node, m: Move, q: Path) {
    Get(after, q) == if q == m.current then None else if q == m.legacy then Pick(before, m) else Get(before, q)
  }

  /** The i-th leaf shares no path with the j-th, except itself. */
  ghost predicate LeavesApart(leaves: seq<Move>, i: nat, j: nat)
    requires i < |leaves| && j < |leaves|
  {
    && leaves[i].legacy != leaves[j].current && leaves[i].current != leaves[j].legacy
    && (i != j ==> leaves[i].legacy != leaves[j].legacy && leaves[i].current != leaves[j].current)
  }

  lemma LeafPathsApart(layout: Layout, i: nat, j: nat)
    requires WellFormed(layout) && i < |layout.leaves| && j < |layout.leaves|
    ensures Table(layout, layout.leaves[i].legacy) && Table(layout, layout.leaves[i].current)
    ensures LeavesApart(layout.leaves, i, j)
  {
    var leaves, a := layout.leaves, |layout.aliases|;
    assert layout.Moves()[a + i] == leaves[i] && layout.Moves()[a + j] == leaves[j];
    TableMoves(layout, a + i);
    assert leaves[i] in layout.Moves() && leaves[j] in layout.Moves();
    if i < j { assert layout.Moves()[a + i].legacy != layout.Moves()[a + j].legacy; }
    if i > j { assert layout.Moves()[a + j].legacy != layout.Moves()[a + i].legacy; }
  }

  lemma LeafOneAt(before: Node, layout: Layout, j: nat, q: Path)
    requires WellFormed(layout) && j < |layout.leaves| && (Table(layout, q) || Native(layout, q))
    ensures LeafMoved(before, LeafOne(before, layout.leaves[j]), layout.leaves[j], q)
  {
    var a := |layout.aliases|;
    assert layout.Moves()[a + j] == layout.leaves[j];
    TableMoves(layout, a + j);
    TableObserves(layout, a + j, q);
    LeafOneMoves(before, layout.leaves[j], q);
  }

  /** After n leaves: theirs are moved, the later ones and everything else read as before. */
  ghost predicate LeavesMoved(root: Node, out: Node, layout: Layout, n: nat)
    requires n <= |layout.leaves|
  {
    && (forall i :: 0 <= i < n ==> Get(out, layout.leaves[i].legacy) == Pick(root, layout.leaves[i]))
    && (forall i :: n <= i < |layout.leaves| ==> Get(out, layout.leaves[i].legacy) == Get(root, layout.leaves[i].legacy))
    && (forall i :: n <= i < |layout.leaves| ==> Get(out, layout.leaves[i].current) == Get(root, layout.leaves[i].current))
    && (forall q :: OffLeaves(layout, q) ==> Get(out, q) == Get(root, q))
  }

  lemma LeafStep(root: Node, before: Node, after: Node, layout: Layout, j: nat)
    requires j < |layout.leaves| && LeavesMoved(root, before, layout, j)
    requires forall i :: 0 <= i < |layout.leaves| ==> LeavesApart(layout.leaves, i, j)
    requires forall i :: 0 <= i < |layout.leaves| ==>
               LeafMoved(before, after, layout.leaves[j], layout.leaves[i].legacy) && LeafMoved(before, after, layout.leaves[j], layout.leaves[i].current)
    requires forall q :: OffLeaves(layout, q) ==> LeafMoved(before, after, layout.leaves[j], q)
    ensures LeavesMoved(root, after, layout, j + 1)
  {
    forall i | 0 <= i < |layout.leaves|
      ensures i <= j ==> Get(after, layout.leaves[i].legacy) == Pick(root, layout.leaves[i])
      ensures i > j ==> Get(after, layout.leaves[i].legacy) == Get(root, layout.leaves[i].legacy)
      ensures i > j ==> Get(after, layout.leaves[i].current) == Get(root, layout.leaves[i].current)
    {
      assert LeavesApart(layout.leaves, i, j);
      assert LeafMoved(before, after, layout.leaves[j], layout.leaves[i].legacy);
    }
    forall q | OffLeaves(layout, q)
      ensures Get(after, q) == Get(root, q)
    {
      assert LeafMoved(before, after, layout.leaves[j], q);
    }
  }

  lemma {:induction false} LeafAllMoves(root: Node, layout: Layout, n: nat)
    requires WellFormed(layout) && n <= |layout.leaves|
    ensures LeavesMoved(root, LeafAll(root, layout.leaves[..n]), layout, n)
  {
    if n > 0 {
      LeafAllMoves(root, layout, n - 1);
      assert layout.leaves[..n][..n - 1] == layout.leaves[..n - 1];
      var before, m := LeafAll(root, layout.leaves[..n - 1]), layout.leaves[n - 1];
      forall i | 0 <= i < |layout.leaves|
        ensures LeavesApart(layout.leaves, i, n - 1)
        ensures LeafMoved(before, LeafOne(before, m), m, layout.leaves[i].legacy) && LeafMoved(before, LeafOne(before, m), m, layout.leaves[i].current)
      {
        LeafPathsApart(layout, i, n - 1);
        LeafOneAt(before, layout, n - 1, layout.leaves[i].legacy);
        LeafOneAt(before, layout, n - 1, layout.leaves[i].current);
      }
      forall q | OffLeaves(layout, q)
        ensures LeafMoved(before, LeafOne(before, m), m, q)
      {
        LeafOneAt(before, layout, n - 1, q);
      }
      LeafStep(root, before, LeafOne(before, m), layout, n - 1);
    }
  }

  ghost predicate OffLeaves(layout: Layout, q: Path) {
    (Table(layout, q) || Native(layout, q)) && forall m :: m in layout.leaves ==> q != m.legacy && q != m.current
  }

  lemma DropGroupsView(root: Node, q: Path)
    requires q == API_KEYS || Independent(q, API_KEYS)
    ensures Get(DropGroups(root), q) == View(root, q)
  {
    DeleteThenGet(root, API_KEYS, []);
    assert API_KEYS + [] == API_KEYS;
    if q != API_KEYS { DeleteElsewhere(root, API_KEYS, q); }
  }

  /** The list a family ends up with: its expanded groups, or what the table passes left. */
  function FamilySlot(doc: Node, f: Family, rules: Rules, before: Option<Node>): Option<Node> {
    if Get(doc, GroupPath(f)).Some? then FamilyEffective(doc, f, rules) else before
  }

  lemma FamilyOneSets(root: Node, doc: Node, f: Family, rules: Rules, q: Path)
    requires q == [f.legacy] || Independent(q, [f.legacy])
    ensures FamilyOne(Accepted(root), doc, f, rules).Accepted? <==> GroupsOk(doc, f, rules)
    ensures GroupsOk(doc, f, rules) ==>
              Get(FamilyOne(Accepted(root), doc, f, rules).root, q) ==
              if q == [f.legacy] then FamilySlot(doc, f, rules, Get(root, q)) else Get(root, q)
  {
    if Get(doc, GroupPath(f)).Some? && GroupsOk(doc, f, rules) {
      var list := Sequence(Groups(Get(doc, GroupPath(f)).value, f, rules).items);
      SetThenGet(root, [f.legacy], list);
      if q != [f.legacy] { SetElsewhere(root, [f.legacy], list, q); }
    }
  }

  lemma FamilyApart(layout: Layout, i: nat, j: nat)
    requires WellFormed(layout) && i < |layout.families| && j < |layout.families| && i != j
    ensures Independent([layout.families[i].legacy], [layout.families[j].legacy])
  {
    assert Table(layout, [layout.families[i].legacy]) && Table(layout, [layout.families[j].legacy]);
  }

  lemma OffFamilyApart(layout: Layout, q: Path, i: nat)
    requires WellFormed(layout) && OffFamilies(layout, q) && i < |layout.families|
    ensures q != [layout.families[i].legacy] && Independent(q, [layout.families[i].legacy])
  {
    assert Table(layout, [layout.families[i].legacy]);
  }

  ghost predicate FamilyRead(root: Node, doc: Node, f: Family, rules: Rules, done: bool, out: Node) {
    Get(out, [f.legacy]) == if done then FamilySlot(doc, f, rules, Get(root, [f.legacy])) else Get(root, [f.legacy])
  }

  /** What expanding the first `n` families leaves: their lists, the other lists, and the paths beside all of them. */
  ghost predicate FamiliesDone(root: Node, doc: Node, families: seq<Family>, rules: Rules, beside: iset<Path>, n: nat, flat: Flat)
    requires n <= |families|
  {
    && (flat.Accepted? <==> forall i :: 0 <= i < n ==> GroupsOk(doc, families[i], rules))
    && (flat.Accepted? ==> forall i :: 0 <= i < |families| ==> FamilyRead(root, doc, families[i], rules, i < n, flat.root))
    && (flat.Accepted? ==> forall q :: q in beside ==> Get(flat.root, q) == Get(root, q))
  }

  ghost predicate FamiliesSet(root: Node, doc: Node, layout: Layout, flat: Flat) {
    && (flat.Accepted? <==> forall f :: f in layout.families ==> GroupsOk(doc, f, layout.rules))
    && (flat.Accepted? ==> forall f :: f in layout.families ==> FamilyRead(root, doc, f, layout.rules, true, flat.root))
    && (flat.Accepted? ==> forall q :: OffFamilies(layout, q) ==> Get(flat.root, q) == Get(root, q))
  }

  /** The root fields of the families lie apart, and the other paths lie beside them. */
  ghost predicate FamiliesApart(families: seq<Family>, beside: iset<Path>) {
    && (forall i, j :: 0 <= i < |families| && 0 <= j < |families| && i != j ==> Independent([families[i].legacy], [families[j].legacy]))
    && (forall q, i :: q in beside && 0 <= i < |families| ==> Independent(q, [families[i].legacy]))
  }

  lemma FamilyRefused(root: Node, doc: Node, families: seq<Family>, rules: Rules, beside: iset<Path>, n: nat)
    requires 0 < n <= |families| && FamiliesDone(root, doc, families, rules, beside, n - 1, Refused)
    ensures FamiliesDone(root, doc, families, rules, beside, n, FamilyOne(Refused, doc, families[n - 1], rules))
  {
  }

  lemma FamilyAccepted(root: Node, front: Node, doc: Node, families: seq<Family>, rules: Rules, beside: iset<Path>, n: nat)
    requires FamiliesApart(families, beside)
    requires 0 < n <= |families| && FamiliesDone(root, doc, families, rules, beside, n - 1, Accepted(front))
    ensures FamiliesDone(root, doc, families, rules, beside, n, FamilyOne(Accepted(front), doc, families[n - 1], rules))
  {
    var f := families[n - 1];
    var flat := FamilyOne(Accepted(front), doc, f, rules);
    FamilyOneSets(front, doc, f, rules, [f.legacy]);
    if GroupsOk(doc, f, rules) {
      forall i | 0 <= i < |families| ensures FamilyRead(root, doc, families[i], rules, i < n, flat.root) {
        assert FamilyRead(root, doc, families[i], rules, i < n - 1, front);
        if i != n - 1 { FamilyOneSets(front, doc, f, rules, [families[i].legacy]); }
      }
      forall q | q in beside ensures Get(flat.root, q) == Get(root, q) {
        FamilyOneSets(front, doc, f, rules, q);
      }
    }
  }

  lemma {:induction false} FamilyAllDone(root: Node, doc: Node, families: seq<Family>, rules: Rules, beside: iset<Path>, n: nat)
    requires FamiliesApart(families, beside) && n <= |families|
    ensures FamiliesDone(root, doc, families, rules, beside, n, FamilyAll(root, doc, families[..n], rules))
  {
    if n > 0 {
      FamilyAllDone(root, doc, families, rules, beside, n - 1);
      assert families[..n][..n - 1] == families[..n - 1];
      var front := FamilyAll(root, doc, families[..n - 1], rules);
      if front.Accepted? {
        FamilyAccepted(root, front.root, doc, families, rules, beside, n);
      } else {
        FamilyRefused(root, doc, families, rules, beside, n);
      }
    }
  }

  lemma FamilyAllSets(root: Node, doc: Node, layout: Layout)
    requires WellFormed(layout)
    ensures FamiliesSet(root, doc, layout, FamilyAll(root, doc, layout.families, layout.rules))
  {
    var families, beside := layout.families, iset q: Path | OffFamilies(layout, q);
    assert families[..|families|] == families;
    forall i, j | 0 <= i < |families| && 0 <= j < |families| && i != j ensures Independent([families[i].legacy], [families[j].legacy]) {
      FamilyApart(layout, i, j);
    }
    forall q, i | q in beside && 0 <= i < |families| ensures Independent(q, [families[i].legacy]) { OffFamilyApart(layout, q, i); }
    FamilyAllDone(root, doc, families, layout.rules, beside, |families|);
    AllFamilies(root, doc, families, layout.rules, beside, FamilyAll(root, doc, families, layout.rules));
  }

  lemma AllFamilies(root: Node, doc: Node, families: seq<Family>, rules: Rules, beside: iset<Path>, flat: Flat)
    requires FamiliesDone(root, doc, families, rules, beside, |families|, flat)
    ensures flat.Accepted? <==> forall f :: f in families ==> GroupsOk(doc, f, rules)
    ensures flat.Accepted? ==> forall f :: f in families ==> FamilyRead(root, doc, f, rules, true, flat.root)
  {
    if flat.Accepted? {
      forall f | f in families ensures FamilyRead(root, doc, f, rules, true, flat.root) {
        var i :| 0 <= i < |families| && families[i] == f;
        assert FamilyRead(root, doc, families[i], rules, i < |families|, flat.root);
      }
    }
  }

  ghost predicate OffFamilies(layout: Layout, q: Path) {
    (Table(layout, q) || Native(layout, q)) && forall f :: f in layout.families ==> q != [f.legacy]
  }

  predicate GroupsOk(doc: Node, f: Family, rules: Rules) {
    Get(doc, GroupPath(f)).Some? ==> Groups(Get(doc, GroupPath(f)).value, f, rules).Expanded?
  }

  /** Every shared block is absent, a mapping, or null. */
  ghost predicate ShapesOk(doc: Node, layout: Layout) {
    forall s :: s in layout.shared ==> ShapeOk(doc, s.legacy)
  }

  /** Which documents flattenV8 accepts. */
  ghost predicate Acceptable(doc: Node, layout: Layout) {
    && doc.Mapping? && ParentsOk(doc, layout.Moves()) && ShapesOk(doc, layout) && VersionOk(doc)
    && forall f :: f in layout.families ==> GroupsOk(doc, f, layout.rules)
  }

  /** Documents that agree off the blocks agree at every path of the tables. */
  lemma FieldsAgree(layout: Layout, a: Node, b: Node)
    requires BlocksOk(layout) && Agrees(layout, a, b)
    ensures forall q :: Table(layout, q) || Native(layout, q) ==> Get(a, q) == Get(b, q) && View(a, q) == View(b, q)
    ensures forall f :: f in layout.families ==> Get(a, GroupPath(f)) == Get(b, GroupPath(f))
    ensures forall m :: m in layout.Moves() ==> Effective(a, layout, m.current) == Effective(b, layout, m.current)
    ensures forall n :: 0 <= n <= |layout.Moves()| ==> (Emptied(a, layout.Moves(), n) <==> Emptied(b, layout.Moves(), n))
  {
    forall m | m in layout.Moves()
      ensures View(a, m.legacy) == View(b, m.legacy) && Get(a, m.current) == Get(b, m.current)
    {
      assert Table(layout, m.legacy) && Table(layout, m.current);
    }
    forall m | m in layout.Moves() ensures Effective(a, layout, m.current) == Effective(b, layout, m.current) {
      LegacyAgrees(a, b, layout.Moves(), m.current);
    }
  }

  lemma UntouchedAgree(layout: Layout, a: Node, b: Node)
    requires BlocksOk(layout) && Agrees(layout, a, b)
    ensures forall q :: Untouched(layout, q) ==> View(a, q) == View(b, q)
  {
    forall q | Untouched(layout, q) ensures Clear(layout, q) {
      assert Table(layout, q) || Native(layout, q);
    }
  }

  /** The pass over shared blocks, after the aliases. */
  lemma SharedPass(doc: Node, layout: Layout)
    requires WellFormed(layout) && BlocksOk(layout)
    ensures var aliased := AliasAll(doc, layout.aliases);
            var flat := SharedAll(aliased, layout.shared);
            && (flat.Accepted? <==> ShapesOk(doc, layout))
            && (flat.Accepted? ==> Agrees(layout, flat.root, aliased))
  {
    assert layout.shared[..|layout.shared|] == layout.shared;
    SharedAllKeeps(AliasAll(doc, layout.aliases), layout, |layout.shared|);
    forall s | s in layout.shared
      ensures ShapeOk(AliasAll(doc, layout.aliases), s.legacy) <==> ShapeOk(doc, s.legacy)
    {
      assert s in layout.Blocks();
      forall m | m in layout.aliases
        ensures m.legacy != [] && Independent(m.current, s.legacy) && Independent(m.current, m.legacy) && !(m.legacy <= s.legacy)
      {
        AliasBesideBlock(layout, m, s);
      }
      AliasAllKeepsShape(doc, layout.aliases, s.legacy);
    }
  }

  lemma AliasBesideBlock(layout: Layout, m: Move, s: Move)
    requires WellFormed(layout) && BlocksOk(layout) && m in layout.Moves() && s in layout.Blocks()
    ensures m.legacy != [] && Independent(m.current, s.legacy) && Independent(m.current, m.legacy) && !(m.legacy <= s.legacy)
  {
    assert Table(layout, m.legacy) && Table(layout, m.current) && Target(layout, m.current);
    assert Clear(layout, m.legacy);
  }

  /** The passes of flattenV8 up to the key groups, each with what it leaves behind. */
  lemma FlattenStages(doc: Node, layout: Layout) returns (shaped: Node, dropped: Node, leafed: Node)
    requires WellFormed(layout) && BlocksOk(layout) && doc.Mapping? && ParentsOk(doc, layout.Moves()) && ShapesOk(doc, layout)
    ensures VersionOk(shaped) <==> VersionOk(doc)
    ensures FlattenTables(doc, layout) == if VersionOk(shaped) then FamilyAll(leafed, doc, layout.families, layout.rules) else Refused
    ensures forall m :: m in layout.Moves() ==> Effective(shaped, layout, m.current) == Effective(doc, layout, m.current)
    ensures Emptied(shaped, layout.Moves(), |layout.aliases|)
    ensures forall q :: Untouched(layout, q) ==> View(shaped, q) == View(doc, q)
    ensures forall q :: Table(layout, q) || Native(layout, q) ==> Get(dropped, q) == View(shaped, q)
    ensures LeavesMoved(dropped, leafed, layout, |layout.leaves|)
  {
    SharedPass(doc, layout);
    shaped := ShapedKeeps(doc, layout);
    dropped := DropGroups(shaped);
    leafed := LeafAll(dropped, layout.leaves);
    assert layout.leaves[..|layout.leaves|] == layout.leaves;
    assert Untouched(layout, VERSION) && View(shaped, VERSION) == View(doc, VERSION);
    LeafAllMoves(dropped, layout, |layout.leaves|);
    DropGroupsReads(shaped, layout);
  }

  /** The document after aliases and shared blocks. */
  lemma ShapedKeeps(doc: Node, layout: Layout) returns (shaped: Node)
    requires WellFormed(layout) && BlocksOk(layout) && ShapesOk(doc, layout)
    ensures SharedAll(AliasAll(doc, layout.aliases), layout.shared) == Accepted(shaped)
    ensures forall m :: m in layout.Moves() ==> Effective(shaped, layout, m.current) == Effective(doc, layout, m.current)
    ensures Emptied(shaped, layout.Moves(), |layout.aliases|)
    ensures forall q :: Untouched(layout, q) ==> View(shaped, q) == View(doc, q)
  {
    var aliased := AliasAll(doc, layout.aliases);
    SharedPass(doc, layout);
    shaped := SharedAll(aliased, layout.shared).root;
    assert layout.aliases[..|layout.aliases|] == layout.aliases;
    AliasAllKeeps(doc, layout, |layout.aliases|);
    FieldsAgree(layout, shaped, aliased);
    UntouchedAgree(layout, shaped, aliased);
  }

  lemma DropGroupsReads(root: Node, layout: Layout)
    requires WellFormed(layout)
    ensures forall q :: Table(layout, q) || Native(layout, q) ==> Get(DropGroups(root), q) == View(root, q)
  {
    forall q | Table(layout, q) || Native(layout, q) ensures Get(DropGroups(root), q) == View(root, q) {
      var k :| k in layout.leaves && k.legacy == API_KEYS;
      assert k in layout.Moves() && Table(layout, API_KEYS);
      DropGroupsView(root, q);
    }
  }

  /**
   A runtime document holds the effective value of every table field at its runtime path, the effective
   key list of every family at its root field, and the document's own value outside the tables.
   */
  ghost predicate Runtime(flat: Node, doc: Node, layout: Layout) {
    && (forall m :: m in layout.leaves ==> Get(flat, m.legacy) == Effective(doc, layout, m.current))
    && (forall m :: Historical(layout, m) ==> Get(flat, m.current) == Effective(doc, layout, m.current))
    && (forall f :: f in layout.families ==> Get(flat, [f.legacy]) == FamilyEffective(doc, f, layout.rules))
    && (forall q :: Native(layout, q) ==> Get(flat, q) == Get(doc, q))
  }

  /** An alias of a field that has no runtime leaf. */
  ghost predicate Historical(layout: Layout, m: Move) {
    m in layout.aliases && forall n :: n in layout.leaves ==> n.current != m.current
  }

  /** Which documents flattenV8 accepts once the inverted flag is resolved, and what the runtime then reads. */
  lemma TablesMeaning(doc: Node, layout: Layout)
    requires WellFormed(layout) && BlocksOk(layout)
    ensures FlattenTables(doc, layout).Accepted? <==> Acceptable(doc, layout)
    ensures FlattenTables(doc, layout).Accepted? ==> Runtime(FlattenTables(doc, layout).root, doc, layout)
  {
    SharedPass(doc, layout);
    if doc.Mapping? && ParentsOk(doc, layout.Moves()) && ShapesOk(doc, layout) {
      var shaped, dropped, leafed := FlattenStages(doc, layout);
      FamilyAllSets(leafed, doc, layout);
      var flat := FamilyAll(leafed, doc, layout.families, layout.rules);
      if FlattenTables(doc, layout).Accepted? {
        FieldsFlatten(doc, layout, shaped, dropped, leafed, flat.root);
        RestFlattens(doc, layout, shaped, dropped, leafed, flat.root);
      }
    }
  }

  lemma FieldsFlatten(doc: Node, layout: Layout, shaped: Node, dropped: Node, leafed: Node, flat: Node)
    requires WellFormed(layout) && FamiliesSet(leafed, doc, layout, Accepted(flat))
    requires forall m :: m in layout.Moves() ==> Effective(shaped, layout, m.current) == Effective(doc, layout, m.current)
    requires Emptied(shaped, layout.Moves(), |layout.aliases|)
    requires forall q :: Table(layout, q) || Native(layout, q) ==> Get(dropped, q) == View(shaped, q)
    requires LeavesMoved(dropped, leafed, layout, |layout.leaves|)
    ensures forall m :: m in layout.leaves ==> Get(flat, m.legacy) == Effective(doc, layout, m.current)
    ensures forall m :: Historical(layout, m) ==> Get(flat, m.current) == Effective(doc, layout, m.current)
  {
    forall m | m in layout.leaves ensures Get(flat, m.legacy) == Effective(doc, layout, m.current) {
      assert m in layout.Moves();
      LeafFlattens(doc, layout, m, shaped, dropped, leafed, flat);
    }
    forall m | Historical(layout, m) ensures Get(flat, m.current) == Effective(doc, layout, m.current) {
      assert m in layout.Moves();
      AliasFlattens(doc, layout, m, shaped);
      AliasIsOff(layout, m);
    }
  }

  lemma RestFlattens(doc: Node, layout: Layout, shaped: Node, dropped: Node, leafed: Node, flat: Node)
    requires WellFormed(layout) && FamiliesSet(leafed, doc, layout, Accepted(flat))
    requires forall q :: Untouched(layout, q) ==> View(shaped, q) == View(doc, q)
    requires forall q :: Table(layout, q) || Native(layout, q) ==> Get(dropped, q) == View(shaped, q)
    requires LeavesMoved(dropped, leafed, layout, |layout.leaves|)
    ensures forall f :: f in layout.families ==> Get(flat, [f.legacy]) == FamilyEffective(doc, f, layout.rules)
    ensures forall q :: Native(layout, q) ==> Get(flat, q) == Get(doc, q)
  {
    forall f | f in layout.families ensures Get(flat, [f.legacy]) == FamilyEffective(doc, f, layout.rules) {
      FamilyIsOff(layout, f);
      assert FamilyRead(leafed, doc, f, layout.rules, true, flat);
    }
    forall q | Native(layout, q) ensures Get(flat, q) == Get(doc, q) {
      NativeIsOff(layout, q);
    }
  }

  /** After the aliases, a field's only possible spellings are its v8 path and its runtime path. */
  lemma LeafFlattens(doc: Node, layout: Layout, m: Move, aliased: Node, dropped: Node, leafed: Node, flat: Node)
    requires WellFormed(layout) && m in layout.leaves
    requires Effective(aliased, layout, m.current) == Effective(doc, layout, m.current)
    requires Emptied(aliased, layout.Moves(), |layout.aliases|)
    requires forall q :: Table(layout, q) ==> Get(dropped, q) == View(aliased, q)
    requires forall i :: 0 <= i < |layout.leaves| ==> Get(leafed, layout.leaves[i].legacy) == Pick(dropped, layout.leaves[i])
    requires forall q :: OffFamilies(layout, q) ==> Get(flat, q) == Get(leafed, q)
    ensures Get(flat, m.legacy) == Effective(doc, layout, m.current)
  {
    var i :| 0 <= i < |layout.leaves| && layout.leaves[i] == m;
    TwoSpellingsLeft(layout, aliased, i);
    LeafIsOff(layout, i);
    LeafReads(aliased, dropped, leafed, m);
  }

  lemma LeafIsOff(layout: Layout, i: nat)
    requires WellFormed(layout) && i < |layout.leaves|
    ensures var m := layout.leaves[i];
      OffFamilies(layout, m.legacy) && Table(layout, m.legacy) && Table(layout, m.current) && m.current != API_KEYS
  {
    assert layout.Moves()[|layout.aliases| + i] == layout.leaves[i];
    TableMoves(layout, |layout.aliases| + i);
  }

  lemma LeafReads(aliased: Node, dropped: Node, leafed: Node, m: Move)
    requires m.current != API_KEYS && Get(leafed, m.legacy) == Pick(dropped, m)
    requires Get(dropped, m.current) == View(aliased, m.current) && Get(dropped, m.legacy) == View(aliased, m.legacy)
    ensures Get(leafed, m.legacy) == if Get(aliased, m.current).Some? then Get(aliased, m.current) else View(aliased, m.legacy)
  {
  }

  lemma TwoSpellingsLeft(layout: Layout, aliased: Node, i: nat)
    requires WellFormed(layout) && i < |layout.leaves| && Emptied(aliased, layout.Moves(), |layout.aliases|)
    ensures var m := layout.leaves[i];
      Effective(aliased, layout, m.current) == if Get(aliased, m.current).Some? then Get(aliased, m.current) else View(aliased, m.legacy)
  {
    var moves, a, m := layout.Moves(), |layout.aliases|, layout.leaves[i];
    assert moves[a + i] == m;
    forall j | a <= j < |moves| && j != a + i ensures moves[j].current != m.current { assert layout.leaves[j - a] == moves[j]; }
    LegacyAt(aliased, moves, a + i, m.current);
  }

  lemma AliasFlattens(doc: Node, layout: Layout, m: Move, aliased: Node)
    requires WellFormed(layout) && Historical(layout, m)
    requires Effective(aliased, layout, m.current) == Effective(doc, layout, m.current)
    requires Emptied(aliased, layout.Moves(), |layout.aliases|)
    ensures Get(aliased, m.current) == Effective(doc, layout, m.current)
  {
    var moves := layout.Moves();
    forall j | |layout.aliases| <= j < |moves| ensures moves[j].current != m.current {
      assert layout.leaves[j - |layout.aliases|] == moves[j];
    }
    NoLegacy(aliased, moves, m.current);
  }

  lemma AliasIsOff(layout: Layout, m: Move)
    requires WellFormed(layout) && Historical(layout, m)
    ensures OffLeaves(layout, m.current) && OffFamilies(layout, m.current) && m.current != API_KEYS
  {
    assert m in layout.Moves() && Table(layout, m.current);
    forall n | n in layout.leaves ensures m.current != n.legacy { assert n in layout.Moves(); }
    var k :| k in layout.leaves && k.legacy == API_KEYS;
  }

  lemma FamilyIsOff(layout: Layout, f: Family)
    requires WellFormed(layout) && f in layout.families
    ensures Untouched(layout, [f.legacy]) && OffLeaves(layout, [f.legacy]) && [f.legacy] != API_KEYS
    ensures exists i :: 0 <= i < |layout.families| && layout.families[i] == f
  {
    assert Table(layout, [f.legacy]);
    forall m | m in layout.leaves ensures m in layout.Moves() {}
    var k :| k in layout.leaves && k.legacy == API_KEYS;
  }

  lemma NativeIsOff(layout: Layout, q: Path)
    requires Native(layout, q)
    ensures OffLeaves(layout, q) && OffFamilies(layout, q) && Untouched(layout, q)
    ensures (exists m :: m in layout.leaves && m.legacy == API_KEYS) ==> q != API_KEYS
  {
    forall m | m in layout.leaves ensures q != m.legacy && q != m.current {
      assert m in layout.Moves() && Table(layout, m.legacy) && Table(layout, m.current);
    }
    forall f | f in layout.families ensures q != [f.legacy] { assert Table(layout, [f.legacy]); }
  }
}
