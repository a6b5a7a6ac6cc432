/**
 The theorems on whole documents: reading and normalizing, including the deprecated flag that has the
 opposite sense of one of the fields.
 */
module ConfigToggle {
  import opened Options
  import opened YamlTree
  import opened KeyGroups
  import opened ConfigLayout
  import opened ConfigBlocks
  import opened ConfigMigration
  import opened ConfigTheorems

  ghost predicate Sound(layout: Layout) {
    WellFormed(layout) && BlocksOk(layout) && ToggleOk(layout)
  }

  /** The flag is absent, outvoted by one of the field's own two spellings, or can be read. */
  predicate FlagOk(doc: Node, t: Toggle) {
    Get(doc, t.opposite).Some? ==>
      Get(doc, t.current).Some? || Get(doc, t.legacy).Some? || t.invert(Get(doc, t.opposite).value).Some?
  }

  /** The value of a field: its own spellings first, then the flag that says the opposite. */
  function FieldValue(doc: Node, layout: Layout, c: Path): Option<Node> {
    match Effective(doc, layout, c)
    case Some(n) => Some(n)
    case None =>
      if c == layout.toggle.current && Get(doc, layout.toggle.opposite).Some?
      then layout.toggle.invert(Get(doc, layout.toggle.opposite).value)
      else None
  }

  // ---- What resolving the flag changes ----

  /** Resolving writes the flag's opposite into the field. */
  predicate Fills(doc: Node, t: Toggle, migrate: bool) {
    && migrate && Get(doc, t.opposite).Some? && Get(doc, t.current).None? && Get(doc, t.legacy).None?
    && t.invert(Get(doc, t.opposite).value).Some?
  }

  /** Resolving only removes the flag. */
  predicate Drops(doc: Node, t: Toggle) {
    Get(doc, t.opposite).Some? && Get(doc, t.current).Some?
  }

  lemma ResolvedIs(doc: Node, layout: Layout, migrate: bool)
    requires migrate ==> FlagOk(doc, layout.toggle)
    ensures var t, d := layout.toggle, Resolved(doc, layout, migrate);
            && ToggleAlias(doc, t, migrate) == Some(d)
            && (Drops(doc, t) ==> d == Delete(doc, t.opposite))
            && (Fills(doc, t, migrate) ==> d == Delete(Set(doc, t.legacy, t.invert(Get(doc, t.opposite).value).value), t.opposite))
            && (!Drops(doc, t) && !Fills(doc, t, migrate) ==> d == doc)
  {
  }

  /** Paths beside the flag and its field read as before. */
  lemma ResolvedElsewhere(doc: Node, layout: Layout, migrate: bool, q: Path)
    requires migrate ==> FlagOk(doc, layout.toggle)
    requires Independent(q, layout.toggle.opposite) && Independent(q, layout.toggle.legacy)
    ensures Get(Resolved(doc, layout, migrate), q) == Get(doc, q)
  {
    ResolvedIs(doc, layout, migrate);
    var t := layout.toggle;
    if Fills(doc, t, migrate) {
      var filled := Set(doc, t.legacy, t.invert(Get(doc, t.opposite).value).value);
      SetElsewhere(doc, t.legacy, t.invert(Get(doc, t.opposite).value).value, q);
      DeleteElsewhere(filled, t.opposite, q);
    } else if Drops(doc, t) {
      DeleteElsewhere(doc, t.opposite, q);
    }
  }

  lemma ResolvedHere(doc: Node, layout: Layout, migrate: bool)
    requires ToggleOk(layout) && (migrate ==> FlagOk(doc, layout.toggle))
    ensures var t, d := layout.toggle, Resolved(doc, layout, migrate);
            && Get(d, t.legacy) == (if Fills(doc, t, migrate) then t.invert(Get(doc, t.opposite).value) else Get(doc, t.legacy))
            && Get(d, t.opposite) == (if Fills(doc, t, migrate) || Drops(doc, t) then None else Get(doc, t.opposite))
  {
    ResolvedIs(doc, layout, migrate);
    var t := layout.toggle;
    assert Move(t.legacy, t.current) in layout.Moves() && Table(layout, t.legacy);
    assert t.opposite + [] == t.opposite;
    if Fills(doc, t, migrate) {
      var v := t.invert(Get(doc, t.opposite).value).value;
      SetThenGet(doc, t.legacy, v);
      DeleteElsewhere(Set(doc, t.legacy, v), t.opposite, t.legacy);
      DeleteThenGet(Set(doc, t.legacy, v), t.opposite, []);
    } else if Drops(doc, t) {
      DeleteElsewhere(doc, t.opposite, t.legacy);
      DeleteThenGet(doc, t.opposite, []);
    }
  }

  /** The flag and its field share their parents, which are mappings when either is present. */
  lemma ResolvedParent(doc: Node, layout: Layout, migrate: bool, q: Path)
    requires Sound(layout) && (migrate ==> FlagOk(doc, layout.toggle)) && Parent(layout, q)
    ensures ParentOk(Resolved(doc, layout, migrate), q) <==> ParentOk(doc, q)
  {
    var t := layout.toggle;
    ResolvedIs(doc, layout, migrate);
    FlagOffParent(layout, q);
    if q <= t.opposite && Get(doc, t.opposite).Some? {
      GetBelow(doc, q, t.opposite[|q|..]);
      assert q + t.opposite[|q|..] == t.opposite;
    }
    if Fills(doc, t, migrate) {
      var v := t.invert(Get(doc, t.opposite).value).value;
      SetElsewhere(doc, t.legacy, v, q);
      DeleteElsewhere(Set(doc, t.legacy, v), t.opposite, q);
    } else if Drops(doc, t) {
      DeleteElsewhere(doc, t.opposite, q);
    }
  }

  lemma FlagOffParent(layout: Layout, q: Path)
    requires Sound(layout) && Parent(layout, q)
    ensures !(layout.toggle.legacy <= q) && !(layout.toggle.opposite <= q)
    ensures q <= layout.toggle.legacy <==> q <= layout.toggle.opposite
  {
    ToggleInTable(layout);
    LegacyOffParent(layout, Move(layout.toggle.legacy, layout.toggle.current), q);
    FlagAboveParent(layout, q);
    SiblingParents(layout.toggle.legacy, layout.toggle.opposite, q);
  }

  lemma LegacyOffParent(layout: Layout, m: Move, q: Path)
    requires WellFormed(layout) && Parent(layout, q) && m in layout.Moves()
    ensures !(m.legacy <= q)
  {
    assert Table(layout, m.legacy);
    OffParent(layout, m.legacy, q);
  }

  lemma ToggleInTable(layout: Layout)
    requires ToggleOk(layout)
    ensures Move(layout.toggle.legacy, layout.toggle.current) in layout.Moves() && Table(layout, layout.toggle.legacy)
    ensures var t := layout.toggle; t.opposite != [] && t.legacy != [] && t.opposite[..|t.opposite| - 1] == t.legacy[..|t.legacy| - 1]
  {
  }

  lemma SiblingParents(a: Path, b: Path, q: Path)
    requires a != [] && b != [] && a[..|a| - 1] == b[..|b| - 1] && !(a <= q) && !(b <= q)
    ensures q <= a <==> q <= b
  {
    if q <= a { Siblings(a, b, q); }
    if q <= b { Siblings(b, a, q); }
  }

  lemma FlagAboveParent(layout: Layout, q: Path)
    requires ToggleOk(layout) && Parent(layout, q)
    ensures !(layout.toggle.opposite <= q)
  {
    var m :| m in layout.Moves() && q <= m.current && q != m.current;
    assert Table(layout, m.current);
    assert layout.toggle.opposite <= q ==> layout.toggle.opposite <= m.current;
  }

  lemma Siblings(a: Path, b: Path, q: Path)
    requires a != [] && b != [] && a[..|a| - 1] == b[..|b| - 1] && q <= a && q != a
    ensures q <= b
  {
    assert q == a[..|a| - 1][..|q|];
  }

  /** A later spelling filled in counts only where no earlier one is present. */
  lemma {:induction false} LegacyFilled(doc: Node, d: Node, moves: seq<Move>, k: nat, v: Node)
    requires k < |moves| && View(doc, moves[k].legacy).None? && View(d, moves[k].legacy) == Some(v)
    requires forall i :: 0 <= i < |moves| && i != k ==> View(d, moves[i].legacy) == View(doc, moves[i].legacy)
    requires forall i :: k < i < |moves| ==> moves[i].current != moves[k].current
    ensures var c := moves[k].current;
            Legacy(d, moves, c) == if Legacy(doc, moves, c).Some? then Legacy(doc, moves, c) else Some(v)
  {
    var front, c := moves[..|moves| - 1], moves[k].current;
    if k < |front| {
      LegacyFilled(doc, d, front, k, v);
    } else {
      forall m | m in front && m.current == c ensures View(doc, m.legacy) == View(d, m.legacy) {
        var i :| 0 <= i < |front| && front[i] == m;
      }
      LegacyAgrees(doc, d, front, c);
    }
  }

  lemma {:induction false} LegacyPresent(doc: Node, moves: seq<Move>, m: Move)
    requires m in moves && View(doc, m.legacy).Some?
    ensures Legacy(doc, moves, m.current).Some?
  {
    if m != moves[|moves| - 1] {
      LegacyPresent(doc, moves[..|moves| - 1], m);
    }
  }

  /** Where the flag's field stands in the table: the last spelling of its v8 path. */
  lemma ToggleAt(layout: Layout) returns (k: nat)
    requires Sound(layout)
    ensures k < |layout.Moves()| && layout.Moves()[k] == Move(layout.toggle.legacy, layout.toggle.current)
    ensures forall i :: k < i < |layout.Moves()| ==> layout.Moves()[i].current != layout.toggle.current
    ensures forall i :: 0 <= i < |layout.Moves()| && i != k ==> layout.Moves()[i].legacy != layout.toggle.legacy
  {
    var a := |layout.aliases|;
    var j := LeafIndex(layout, Move(layout.toggle.legacy, layout.toggle.current));
    k := a + j;
    forall i | k < i < |layout.Moves()| ensures layout.Moves()[i].current != layout.toggle.current {
      assert layout.Moves()[i] == layout.leaves[i - a];
    }
  }

  lemma LeafIndex(layout: Layout, m: Move) returns (j: nat)
    requires m in layout.leaves
    ensures j < |layout.leaves| && layout.leaves[j] == m && layout.Moves()[|layout.aliases| + j] == m
  {
    j :| 0 <= j < |layout.leaves| && layout.leaves[j] == m;
  }

  /** Table paths other than the flag's field read as before. */
  lemma ResolvedTable(doc: Node, layout: Layout, migrate: bool, q: Path)
    requires Sound(layout) && (migrate ==> FlagOk(doc, layout.toggle))
    requires (Table(layout, q) && q != layout.toggle.legacy) || (exists f :: f in layout.families && q == GroupPath(f)) || Outside(layout, q)
    ensures Get(Resolved(doc, layout, migrate), q) == Get(doc, q) && View(Resolved(doc, layout, migrate), q) == View(doc, q)
  {
    var t := layout.toggle;
    assert Move(t.legacy, t.current) in layout.Moves() && Table(layout, t.legacy);
    ResolvedElsewhere(doc, layout, migrate, q);
  }

  /** Resolving the flag keeps the value of every field. */
  lemma ResolvedValue(doc: Node, layout: Layout, migrate: bool, c: Path)
    requires Sound(layout) && (migrate ==> FlagOk(doc, layout.toggle))
    requires exists m :: m in layout.Moves() && m.current == c
    ensures FieldValue(Resolved(doc, layout, migrate), layout, c) == FieldValue(doc, layout, c)
    ensures migrate ==> Effective(Resolved(doc, layout, migrate), layout, c) == FieldValue(doc, layout, c)
  {
    var t, d, moves := layout.toggle, Resolved(doc, layout, migrate), layout.Moves();
    var k := ToggleAt(layout);
    ResolvedIs(doc, layout, migrate);
    ResolvedHere(doc, layout, migrate);
    forall i | 0 <= i < |moves|
      ensures Get(d, moves[i].current) == Get(doc, moves[i].current)
      ensures i != k || !Fills(doc, t, migrate) ==> View(d, moves[i].legacy) == View(doc, moves[i].legacy)
    {
      assert Table(layout, moves[i].current) && Table(layout, moves[i].legacy) && moves[i] in moves && moves[k] in moves;
      ResolvedTable(doc, layout, migrate, moves[i].current);
      if i != k { ResolvedTable(doc, layout, migrate, moves[i].legacy); }
    }
    if c == t.current && Fills(doc, t, migrate) {
      LegacyFilled(doc, d, moves, k, t.invert(Get(doc, t.opposite).value).value);
    } else {
      forall m | m in moves && m.current == c ensures View(doc, m.legacy) == View(d, m.legacy) {
        var i :| 0 <= i < |moves| && moves[i] == m;
      }
      LegacyAgrees(doc, d, moves, c);
      if c == t.current && Get(d, t.legacy).Some? { LegacyPresent(d, moves, moves[k]); }
    }
  }

  // ---- Reading a document ----

  /** What a runtime document holds of the document it was read from. */
  ghost predicate ReadsAs(flat: Node, doc: Node, layout: Layout) {
    && (forall m :: m in layout.leaves ==> Get(flat, m.legacy) == FieldValue(doc, layout, m.current))
    && (forall m :: Historical(layout, m) ==> Get(flat, m.current) == FieldValue(doc, layout, m.current))
    && (forall f :: f in layout.families ==> Get(flat, [f.legacy]) == FamilyEffective(doc, f, layout.rules))
    && (forall q :: Outside(layout, q) ==> Get(flat, q) == Get(doc, q))
  }

  lemma ResolvedRest(doc: Node, layout: Layout, migrate: bool)
    requires Sound(layout) && (migrate ==> FlagOk(doc, layout.toggle))
    ensures var d := Resolved(doc, layout, migrate);
            && Get(d, VERSION) == Get(doc, VERSION)
            && (forall f :: f in layout.families ==> Get(d, GroupPath(f)) == Get(doc, GroupPath(f)) && Get(d, [f.legacy]) == Get(doc, [f.legacy]))
            && (forall q :: Outside(layout, q) ==> Get(d, q) == Get(doc, q))
            && (forall s :: s in layout.shared ==> Get(d, s.legacy) == Get(doc, s.legacy))
  {
    var t, d := layout.toggle, Resolved(doc, layout, migrate);
    assert Move(t.legacy, t.current) in layout.Moves();
    ResolvedTable(doc, layout, migrate, VERSION);
    forall f | f in layout.families ensures Get(d, GroupPath(f)) == Get(doc, GroupPath(f)) && Get(d, [f.legacy]) == Get(doc, [f.legacy]) {
      ResolvedTable(doc, layout, migrate, GroupPath(f));
      ResolvedTable(doc, layout, migrate, [f.legacy]);
    }
    forall q | Outside(layout, q) ensures Get(d, q) == Get(doc, q) { ResolvedTable(doc, layout, migrate, q); }
    forall s | s in layout.shared ensures Get(d, s.legacy) == Get(doc, s.legacy) { ResolvedElsewhere(doc, layout, migrate, s.legacy); }
  }

  lemma ResolvedAcceptable(doc: Node, layout: Layout, migrate: bool)
    requires Sound(layout) && (migrate ==> FlagOk(doc, layout.toggle)) && doc.Mapping?
    ensures Acceptable(Resolved(doc, layout, migrate), layout) <==> Acceptable(doc, layout)
  {
    var d := Resolved(doc, layout, migrate);
    ResolvedIs(doc, layout, migrate);
    ResolvedRest(doc, layout, migrate);
    forall m, i | m in layout.Moves() && 0 < i < |m.current| ensures ParentOk(d, m.current[..i]) <==> ParentOk(doc, m.current[..i]) {
      assert Parent(layout, m.current[..i]);
      ResolvedParent(doc, layout, migrate, m.current[..i]);
    }
  }

  /**
   Which documents the runtime accepts, and what it reads of them: the value of every field, whichever
   spelling or flag gives it, every key list, and everything outside the tables.
   */
  lemma FlattenMeaning(doc: Node, layout: Layout)
    requires Sound(layout)
    ensures Flatten(doc, layout).Accepted? <==> FlagOk(doc, layout.toggle) && Acceptable(doc, layout)
    ensures Flatten(doc, layout).Accepted? ==> ReadsAs(Flatten(doc, layout).root, doc, layout)
  {
    if doc.Mapping? && FlagOk(doc, layout.toggle) {
      var d := Resolved(doc, layout, true);
      ResolvedIs(doc, layout, true);
      ResolvedAcceptable(doc, layout, true);
      ResolvedRest(doc, layout, true);
      TablesMeaning(d, layout);
      forall m | m in layout.Moves() ensures Effective(d, layout, m.current) == FieldValue(doc, layout, m.current) {
        ResolvedValue(doc, layout, true, m.current);
      }
    }
  }

  // ---- Normalizing a document ----

  /** Without migrating, a field whose v8 spelling is absent keeps its legacy spelling. */
  lemma {:induction false} UnmovedStays(doc: Node, layout: Layout, n: nat, m: Move)
    requires WellFormed(layout) && n <= |layout.Moves()| && m in layout.Moves() && Get(doc, m.current).None?
    ensures var root := MoveAll(doc, layout.Moves()[..n], false);
            Get(root, m.current).None? && View(root, m.legacy) == View(doc, m.legacy)
  {
    if n > 0 {
      var moves := layout.Moves();
      UnmovedStays(doc, layout, n - 1, m);
      assert moves[..n][..n - 1] == moves[..n - 1];
      var before, step := MoveAll(doc, moves[..n - 1], false), moves[n - 1];
      SameOrApart(layout, m, n - 1);
      TableObserves(layout, n - 1, m.legacy);
      TableObserves(layout, n - 1, m.current);
      MoveOneMoves(before, step, false, m.legacy);
      MoveOneMoves(before, step, false, m.current);
    }
  }

  lemma SameOrApart(layout: Layout, m: Move, j: nat)
    requires WellFormed(layout) && m in layout.Moves() && j < |layout.Moves()|
    ensures SoundMove(layout.Moves()[j]) && Table(layout, m.legacy) && Table(layout, m.current) && m.current != API_KEYS
    ensures m == layout.Moves()[j] || m.legacy != layout.Moves()[j].legacy
    ensures m.legacy != layout.Moves()[j].current
  {
    TableMoves(layout, j);
    var i :| 0 <= i < |layout.Moves()| && layout.Moves()[i] == m;
    TableMoves(layout, i);
    if i < j { assert layout.Moves()[i].legacy != layout.Moves()[j].legacy; }
    if i > j { assert layout.Moves()[j].legacy != layout.Moves()[i].legacy; }
    assert layout.Moves()[j] in layout.Moves();
  }

  lemma PickedAgrees(layout: Layout, a: Node, b: Node, m: Move)
    requires BlocksOk(layout) && Agrees(layout, a, b) && m in layout.Moves()
    ensures View(a, m.legacy) == View(b, m.legacy) && Get(a, m.current) == Get(b, m.current)
  {
    assert Table(layout, m.legacy) && Table(layout, m.current);
  }

  lemma UnmovedStaysNormal(doc: Node, layout: Layout, m: Move)
    requires WellFormed(layout) && BlocksOk(layout) && m in layout.Moves() && Get(doc, m.current).None?
    ensures View(NormalTables(doc, layout, false), m.legacy) == View(doc, m.legacy)
  {
    var moved, grouped := PassesKeep(doc, layout, false);
    var picked, fields := AllMovedAgrees(doc, layout, false);
    PickedAgrees(layout, picked, doc, m);
    PickedAgrees(layout, moved, fields, m);
    assert layout.Moves()[..|layout.Moves()|] == layout.Moves();
    UnmovedStays(picked, layout, |layout.Moves()|, m);
    NormalView(doc, layout, false, moved, grouped, m.legacy);
  }

  /** The flag after normalizing: gone if it was outvoted or migrated, else as it stood. */
  lemma NormalFlag(doc: Node, layout: Layout, migrate: bool)
    requires Sound(layout)
    ensures var t, norm := layout.toggle, NormalTables(doc, layout, migrate);
            Get(norm, t.opposite) == if migrate then None else Get(doc, t.opposite)
  {
    if migrate {
      TablesLeaveNoUnknown(doc, layout, layout.toggle.opposite);
    } else {
      FlagIsNative(layout);
      TablesKeepFields(doc, layout, false);
      assert Get(NormalTables(doc, layout, false), layout.toggle.opposite) == Retained(Get(doc, layout.toggle.opposite), layout, false, layout.toggle.opposite);
    }
  }

  lemma FlagIsNative(layout: Layout)
    requires Sound(layout)
    ensures Native(layout, layout.toggle.opposite)
  {
  }

  /** A normalized document has a readable flag if it has one. */
  lemma NormalFlagOk(doc: Node, layout: Layout, migrate: bool)
    requires Sound(layout) && FlagOk(doc, layout.toggle)
    ensures FlagOk(Normal(doc, layout, migrate), layout.toggle)
  {
    var t, d := layout.toggle, Resolved(doc, layout, migrate);
    NormalFlag(d, layout, migrate);
    ResolvedIs(doc, layout, migrate);
    ResolvedHere(doc, layout, migrate);
    if !migrate && !Drops(doc, t) {
      assert Move(t.legacy, t.current) in layout.Moves();
      if Get(doc, t.opposite).Some? { UnmovedStaysNormal(doc, layout, Move(t.legacy, t.current)); }
    }
  }

  /**
   Normalizing, with or without migrating, keeps the value of every field, whether one of its spellings
   or the opposite flag gives it; outside the tables a migration keeps what the v8 layout knows and
   nothing else.
   */
  lemma NormalizeKeepsFields(doc: Node, layout: Layout, migrate: bool)
    requires Sound(layout) && (migrate ==> FlagOk(doc, layout.toggle))
    ensures forall m :: m in layout.Moves() ==>
              FieldValue(Normal(doc, layout, migrate), layout, m.current) == FieldValue(doc, layout, m.current)
    ensures forall q :: Outside(layout, q) ==> Get(Normal(doc, layout, migrate), q) == Retained(Get(doc, q), layout, migrate, q)
  {
    var d, norm := Resolved(doc, layout, migrate), Normal(doc, layout, migrate);
    TablesKeepFields(d, layout, migrate);
    NormalFlag(d, layout, migrate);
    ResolvedRest(doc, layout, migrate);
    forall m | m in layout.Moves() ensures FieldValue(norm, layout, m.current) == FieldValue(doc, layout, m.current) {
      ResolvedValue(doc, layout, migrate, m.current);
    }
  }

  /**
   Migration preserves meaning. For a document the runtime accepts, the normalized document is accepted
   too, exactly when every key list that was regrouped can be expanded again; and then the runtime reads
   the same value of every field, and outside the tables everything the v8 layout knows.
   */
  lemma NormalizePreservesMeaning(doc: Node, layout: Layout, migrate: bool)
    requires Sound(layout) && Flatten(doc, layout).Accepted?
    ensures Flatten(Normal(doc, layout, migrate), layout).Accepted? <==>
              forall f :: f in layout.families && Migrated(doc, f, migrate) ==> AllGroupable(LegacyList(doc, f), f.current, layout.rules)
    ensures Flatten(Normal(doc, layout, migrate), layout).Accepted? ==>
              var flat, flat' := Flatten(doc, layout).root, Flatten(Normal(doc, layout, migrate), layout).root;
              && (forall m :: m in layout.leaves ==> Get(flat', m.legacy) == Get(flat, m.legacy))
              && (forall m :: Historical(layout, m) ==> Get(flat', m.current) == Get(flat, m.current))
              && (forall f :: f in layout.families && !Migrated(doc, f, migrate) ==> Get(flat', [f.legacy]) == Get(flat, [f.legacy]))
              && (forall q :: Outside(layout, q) ==> Get(flat', q) == Retained(Get(flat, q), layout, migrate, q))
  {
    var norm := Normal(doc, layout, migrate);
    FlattenMeaning(doc, layout);
    FlattenMeaning(norm, layout);
    NormalAcceptable(doc, layout, migrate);
    NormalizeKeepsFields(doc, layout, migrate);
    forall f | f in layout.families && !Migrated(doc, f, migrate)
      ensures FamilyEffective(norm, f, layout.rules) == FamilyEffective(doc, f, layout.rules)
    {
      NormalizeKeepsFamily(doc, layout, migrate, f);
    }
    forall m | m in layout.leaves || m in layout.aliases ensures m in layout.Moves() {}
  }

  lemma NormalAcceptable(doc: Node, layout: Layout, migrate: bool)
    requires Sound(layout) && FlagOk(doc, layout.toggle) && Acceptable(doc, layout)
    ensures FlagOk(Normal(doc, layout, migrate), layout.toggle)
    ensures Acceptable(Normal(doc, layout, migrate), layout) <==>
              forall f :: f in layout.families && Migrated(doc, f, migrate) ==> AllGroupable(LegacyList(doc, f), f.current, layout.rules)
  {
    var d := Resolved(doc, layout, migrate);
    ResolvedAcceptable(doc, layout, migrate);
    ResolvedRest(doc, layout, migrate);
    TablesStayAcceptable(d, layout, migrate);
    NormalFlagOk(doc, layout, migrate);
    forall f | f in layout.families ensures Migrated(d, f, migrate) == Migrated(doc, f, migrate) && LegacyList(d, f) == LegacyList(doc, f) {}
  }

  /**
   A family keeps its effective key list; a list that was regrouped comes back entry by entry with
   auth indexes and per-key nulls cleaned, exactly when all its entries can be grouped.
   */
  lemma NormalizeKeepsFamily(doc: Node, layout: Layout, migrate: bool, f: Family)
    requires Sound(layout) && (migrate ==> FlagOk(doc, layout.toggle)) && f in layout.families
    ensures var norm, list := Normal(doc, layout, migrate), LegacyList(doc, f);
            if Migrated(doc, f, migrate) then
              && (GroupsOk(norm, f, layout.rules) <==> AllGroupable(list, f.current, layout.rules))
              && (AllGroupable(list, f.current, layout.rules) && (forall i :: 0 <= i < |list| ==> list[i].Mapping?) ==>
                    FamilyEffective(norm, f, layout.rules) == Some(Sequence(CleanedAll(list, f.current, layout.rules))))
            else
              && (GroupsOk(norm, f, layout.rules) <==> GroupsOk(doc, f, layout.rules))
              && FamilyEffective(norm, f, layout.rules) == FamilyEffective(doc, f, layout.rules)
  {
    ResolvedRest(doc, layout, migrate);
    TablesKeepFamily(Resolved(doc, layout, migrate), layout, migrate, f);
  }

  /** After migrating, no legacy spelling is left: no field, alias, block, flag, or key list. */
  lemma MigrationLeavesNoLegacy(doc: Node, layout: Layout)
    requires Sound(layout)
    ensures forall m :: m in layout.Moves() ==> View(Normal(doc, layout, true), m.legacy).None?
    ensures forall f :: f in layout.families ==> Get(Normal(doc, layout, true), [f.legacy]).None?
    ensures forall s :: s in layout.Blocks() ==> Get(Normal(doc, layout, true), s.legacy).None?
    ensures Get(Normal(doc, layout, true), layout.toggle.opposite).None?
    ensures Get(Normal(doc, layout, true), VERSION) == Some(EIGHT)
  {
    TablesLeaveNoLegacy(Resolved(doc, layout, true), layout);
    NormalFlag(Resolved(doc, layout, true), layout, true);
  }

  /** Nor is any unknown field left. */
  lemma MigrationLeavesNoUnknown(doc: Node, layout: Layout, q: Path)
    requires WellFormed(layout) && Unknown(layout.known, [], q)
    ensures Get(Normal(doc, layout, true), q).None?
  {
    TablesLeaveNoUnknown(Resolved(doc, layout, true), layout, q);
  }

  /** So normalizing a migrated document again, either way, changes nothing. */
  lemma MigrationIsFinal(doc: Node, layout: Layout, again: bool)
    requires Sound(layout)
    ensures Normal(Normal(doc, layout, true), layout, again) == Normal(doc, layout, true)
  {
    MigrationLeavesNoLegacy(doc, layout);
    TablesFinal(Resolved(doc, layout, true), layout, again);
  }
}
