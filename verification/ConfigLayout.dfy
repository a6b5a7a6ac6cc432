/**
 Reading and migrating a configuration document that may mix the legacy and the v8 layout.
 `Flatten` yields the runtime document, `Normalize` removes or moves legacy fields; the theorems
 say that normalizing keeps every effective value.
 */
module ConfigLayout {
  import opened Options
  import opened YamlTree
  import opened KeyGroups

  /** A field known under an old path and under its v8 path. */
  datatype Move = Move(legacy: Path, current: Path)

  /** A provider's key list: legacy root field, and its name below api-keys. */
  datatype Family = Family(legacy: string, current: string)

  /**
   A deprecated flag opposite in sense to a table field: `invert` reads it and gives the field's
   value, or fails on a node that is not a flag.
   */
  datatype Toggle = Toggle(opposite: Path, legacy: Path, current: Path, invert: Node -> Option<Node>)

  /**
   The path tables: historical aliases in order of precedence, runtime leaf fields, key families, which
   children the v8 layout knows below a path (a path without an entry may hold anything), the blocks that
   only the normalizer moves when they are empty, those flattenV8 moves too, and the inverted flag.
   */
  datatype Layout = Layout(
    aliases: seq<Move>, leaves: seq<Move>, families: seq<Family>, rules: Rules, known: map<Path, set<string>>,
    structs: seq<Move>, shared: seq<Move>, toggle: Toggle)
  {
    function Moves(): seq<Move> { aliases + leaves }

    function Blocks(): seq<Move> { structs + shared }
  }

  const API_KEYS: Path := ["api-keys"]
  const VERSION: Path := ["config-version"]
  const EIGHT := Scalar("!!int", "8")

  function GroupPath(f: Family): Path { ["api-keys", f.current] }

  /** legacyPath: the v8 group mapping reuses the name of the legacy client key list. */
  function View(root: Node, path: Path): Option<Node> {
    var n := Get(root, path);
    if path == API_KEYS && n.Some? && n.value.Mapping? then None else n
  }

  // ---- Side conditions on the tables ----

  ghost predicate Table(layout: Layout, p: Path) {
    || p == VERSION
    || (exists m :: m in layout.Moves() && (p == m.legacy || p == m.current))
    || (exists f :: f in layout.families && p == [f.legacy])
  }

  ghost predicate WellFormed(layout: Layout) {
    var moves := layout.Moves();
    && layout.rules.Valid()
    && (forall p :: Table(layout, p) ==> p != [])
    && (forall p, q :: Table(layout, p) && Table(layout, q) && p != q ==> Independent(p, q))
    && (forall i, j :: 0 <= i < j < |moves| ==> moves[i].legacy != moves[j].legacy)
    && (forall i, j :: 0 <= i < j < |layout.leaves| ==> layout.leaves[i].current != layout.leaves[j].current)
    && (forall m, n :: m in moves && n in moves ==> m.legacy != n.current)
    && (forall m :: m in moves ==> m.legacy != VERSION && m.current != VERSION)
    && (forall i, j :: 0 <= i < j < |layout.families| ==>
          layout.families[i].legacy != layout.families[j].legacy && layout.families[i].current != layout.families[j].current)
    && (forall f, m :: f in layout.families && m in moves ==> [f.legacy] != m.legacy && [f.legacy] != m.current)
    && (forall f :: f in layout.families ==> [f.legacy] != VERSION)
    && (forall f, p :: f in layout.families && Table(layout, p) && p != API_KEYS ==> Independent(p, GroupPath(f)))
    && (exists m :: m in layout.leaves && m.legacy == API_KEYS)
    && (forall m :: m in moves ==> Intact(layout.known, [], m.current))
    && Intact(layout.known, [], API_KEYS) && Intact(layout.known, [], VERSION)
  }

  /** A path that block moves read through: neither end of a block lies at or below it. */
  ghost predicate Clear(layout: Layout, p: Path) {
    forall s :: s in layout.Blocks() ==> !(p <= s.legacy) && !(p <= s.current)
  }

  /** Where normalizing or flattening writes. */
  ghost predicate Target(layout: Layout, c: Path) {
    || (exists m :: m in layout.Moves() && c == m.current)
    || (exists f :: f in layout.families && c == GroupPath(f))
    || (exists s :: s in layout.Blocks() && c == s.current)
  }

  /** Blocks are moved beside the fields, never onto or from under them, and their old places are not v8 places. */
  ghost predicate BlocksOk(layout: Layout) {
    && (forall p :: Table(layout, p) ==> Clear(layout, p))
    && (forall f :: f in layout.families ==> Clear(layout, GroupPath(f)))
    && (forall s, c :: s in layout.Blocks() && Target(layout, c) ==> Independent(s.legacy, c))
    && (forall s :: s in layout.Blocks() ==> Unknown(layout.known, [], s.legacy))
  }

  /** The flag stands next to its field, beside every other path, and is no v8 field. */
  ghost predicate ToggleOk(layout: Layout) {
    var t := layout.toggle;
    && Move(t.legacy, t.current) in layout.leaves && t.legacy != API_KEYS
    && t.opposite != [] && t.legacy != [] && t.opposite[..|t.opposite| - 1] == t.legacy[..|t.legacy| - 1]
    && (forall p :: Table(layout, p) ==> Independent(t.opposite, p))
    && (forall f :: f in layout.families ==> Independent(t.opposite, GroupPath(f)))
    && (forall s :: s in layout.Blocks() ==> !(t.opposite <= s.legacy) && !(t.opposite <= s.current))
    && (forall s :: s in layout.shared ==> Independent(t.opposite, s.legacy) && Independent(t.legacy, s.legacy))
    && Unknown(layout.known, [], t.opposite)
  }

  /** A field outside all tables and beside the inverted flag. */
  ghost predicate Outside(layout: Layout, q: Path) {
    Native(layout, q) && Independent(layout.toggle.opposite, q)
  }

  // ---- Unknown fields ----

  /** Following `q` down from `at`, the tables list every step until a path they say nothing about. */
  predicate Intact(known: map<Path, set<string>>, at: Path, q: Path)
    decreases q
  {
    at in known ==> q != [] && q[0] in known[at] && Intact(known, at + [q[0]], q[1..])
  }

  /** Some step of `q` is a field its parent's table does not list. */
  predicate Unknown(known: map<Path, set<string>>, at: Path, q: Path)
    decreases q
  {
    at in known && q != [] && (q[0] !in known[at] || Unknown(known, at + [q[0]], q[1..]))
  }

  /** Drops every field below `at` that its parent's table does not list. */
  function Prune(node: Node, at: Path, known: map<Path, set<string>>): Node
    decreases node
  {
    if !node.Mapping? || at !in known then node
    else Mapping(map f | f in node.fields && f in known[at] :: Prune(node.fields[f], at + [f], known))
  }

  /** commentUnknownV8Sections; the dropped fields become comments, which trees do not hold. */
  method CommentUnknown(node: Node, at: Path, known: map<Path, set<string>>) returns (out: Node)
    ensures out == Prune(node, at, known)
    decreases node
  {
    if !node.Mapping? || at !in known {
      return node;
    }
    var kept: map<string, Node> := map[];
    var rest := node.fields.Keys;
    while rest != {}
      invariant rest <= node.fields.Keys
      invariant kept == map f | f in node.fields && f !in rest && f in known[at] :: Prune(node.fields[f], at + [f], known)
      decreases |rest|
    {
      var f :| f in rest;
      if f in known[at] {
        var child := CommentUnknown(node.fields[f], at + [f], known);
        kept := kept[f := child];
      }
      rest := rest - {f};
    }
    return Mapping(kept);
  }

  /** A field outside the tables, such as one both layouts spell alike, and no parent of a block. */
  ghost predicate Native(layout: Layout, q: Path) {
    && q != [] && Clear(layout, q)
    && (forall p :: Table(layout, p) ==> Independent(p, q))
    && (forall f :: f in layout.families ==> Independent(GroupPath(f), q))
  }

  // ---- The reference meaning of a document ----

  /** The first legacy spelling of `c`, in table order, that is present. */
  function Legacy(doc: Node, moves: seq<Move>, c: Path): Option<Node> {
    if moves == [] then None
    else
      var m := moves[|moves| - 1];
      match Legacy(doc, moves[..|moves| - 1], c)
      case Some(n) => Some(n)
      case None => if m.current == c then View(doc, m.legacy) else None
  }

  /** Presence decides: the v8 spelling wins, then aliases in order, then the legacy runtime field. */
  function Effective(doc: Node, layout: Layout, c: Path): Option<Node> {
    EffectiveIn(doc, layout.Moves(), c)
  }

  function EffectiveIn(doc: Node, moves: seq<Move>, c: Path): Option<Node> {
    match Get(doc, c)
    case Some(n) => Some(n)
    case None => Legacy(doc, moves, c)
  }

  /** The key list of a family: its groups expanded, else the legacy list as it stands. */
  function FamilyEffective(doc: Node, f: Family, rules: Rules): Option<Node> {
    match Get(doc, GroupPath(f))
    case Some(groups) =>
      (match Groups(groups, f, rules) case Expanded(items) => Some(Sequence(items)) case Rejected => None)
    case None => Get(doc, [f.legacy])
  }

  function Groups(groups: Node, f: Family, rules: Rules): Expansion {
    if groups.Sequence? then ExpandGroups(groups.items, f.current, rules) else Rejected
  }

  // ---- flattenV8 ----

  datatype Flat = Accepted(root: Node) | Refused

  predicate IsContainer(n: Option<Node>) {
    n.Some? ==> n.value.Mapping?
  }

  /** A parent of a v8 field must be absent or a mapping; a null `routing` means defaults in the legacy layout. */
  predicate ParentOk(doc: Node, p: Path) {
    IsContainer(Get(doc, p)) || (p == ["routing"] && IsNull(Get(doc, p).value))
  }

  ghost predicate ParentsOk(doc: Node, moves: seq<Move>) {
    forall m, i :: m in moves && 0 < i < |m.current| ==> ParentOk(doc, m.current[..i])
  }

  function AliasOne(root: Node, m: Move): Node {
    match Get(root, m.legacy)
    case None => root
    case Some(held) => Delete(if Get(root, m.current).None? then Set(root, m.current, held) else root, m.legacy)
  }

  function AliasAll(root: Node, aliases: seq<Move>): Node {
    if aliases == [] then root else AliasOne(AliasAll(root, aliases[..|aliases| - 1]), aliases[|aliases| - 1])
  }

  function DropGroups(root: Node): Node {
    if Get(root, API_KEYS).Some? && Get(root, API_KEYS).value.Mapping? then Delete(root, API_KEYS) else root
  }

  function LeafOne(root: Node, m: Move): Node {
    match Get(root, m.current)
    case None => root
    case Some(v) => Set(Delete(root, m.current), m.legacy, v)
  }

  function LeafAll(root: Node, leaves: seq<Move>): Node {
    if leaves == [] then root else LeafOne(LeafAll(root, leaves[..|leaves| - 1]), leaves[|leaves| - 1])
  }

  function FamilyOne(root: Flat, doc: Node, f: Family, rules: Rules): Flat {
    match Get(doc, GroupPath(f))
    case None => root
    case Some(groups) =>
      match Groups(groups, f, rules)
      case Rejected => Refused
      case Expanded(items) => if root.Refused? then Refused else Accepted(Set(root.root, [f.legacy], Sequence(items)))
  }

  function FamilyAll(root: Node, doc: Node, families: seq<Family>, rules: Rules): Flat {
    if families == [] then Accepted(root)
    else FamilyOne(FamilyAll(root, doc, families[..|families| - 1], rules), doc, families[|families| - 1], rules)
  }

  predicate VersionOk(doc: Node) {
    Get(doc, VERSION).Some? ==> Get(doc, VERSION).value == EIGHT
  }

  /** normalizeV8PrivateIPAlias: None when the flag must be read and is not one. */
  function ToggleAlias(doc: Node, t: Toggle, migrate: bool): Option<Node> {
    match Get(doc, t.opposite)
    case None => Some(doc)
    case Some(flag) =>
      if Get(doc, t.current).Some? then Some(Delete(doc, t.opposite))
      else if !migrate || Get(doc, t.legacy).Some? then Some(doc)
      else
        match t.invert(flag)
        case None => None
        case Some(value) => Some(Delete(Set(doc, t.legacy, value), t.opposite))
  }

  method ResolveToggle(doc: Node, t: Toggle, migrate: bool) returns (out: Option<Node>)
    ensures out == ToggleAlias(doc, t, migrate)
  {
    var flag := YamlPath(doc, t.opposite);
    if flag.None? {
      return Some(doc);
    }
    var current := YamlPath(doc, t.current);
    if current.Some? {
      return Some(Delete(doc, t.opposite));
    }
    var canonical := YamlPath(doc, t.legacy);
    if !migrate || canonical.Some? {
      return Some(doc);
    }
    var value := t.invert(flag.value);
    if value.None? {
      return None;
    }
    var root := Set(doc, t.legacy, value.value);
    root := Delete(root, t.opposite);
    return Some(root);
  }

  const EMPTY := Mapping(map[])

  /** An absent block, a mapping, or a null that stands for defaults. */
  predicate ShapeOk(doc: Node, p: Path) {
    var n := Get(doc, p);
    n.Some? ==> IsNull(n.value) || n.value.Mapping?
  }

  predicate Blank(n: Node) {
    IsNull(n) || n == EMPTY
  }

  /** One block that aliases may have emptied: a blank one moves, anything but a block is refused. */
  function SharedOne(flat: Flat, s: Move): Flat {
    if flat.Refused? then flat
    else
      match Get(flat.root, s.legacy)
      case None => flat
      case Some(block) =>
        if !IsNull(block) && !block.Mapping? then Refused
        else if !Blank(block) then flat
        else Accepted(Delete(if Get(flat.root, s.current).None? then Set(flat.root, s.current, EMPTY) else flat.root, s.legacy))
  }

  function SharedAll(root: Node, shared: seq<Move>): Flat {
    if shared == [] then Accepted(root) else SharedOne(SharedAll(root, shared[..|shared| - 1]), shared[|shared| - 1])
  }

  method MoveShared(doc: Node, shared: seq<Move>) returns (flat: Flat)
    ensures flat == SharedAll(doc, shared)
  {
    var root := doc;
    for i := 0 to |shared|
      invariant Accepted(root) == SharedAll(doc, shared[..i])
    {
      assert shared[..i + 1][..i] == shared[..i];
      var s := shared[i];
      var block := YamlPath(root, s.legacy);
      if block.None? {
        continue;
      }
      if !IsNull(block.value) && !block.value.Mapping? {
        SharedRefusal(doc, shared, i + 1);
        return Refused;
      }
      if !IsNull(block.value) && block.value.fields != map[] {
        continue;
      }
      var current := YamlPath(root, s.current);
      if current.None? {
        root := Set(root, s.current, EMPTY);
      }
      root := Delete(root, s.legacy);
    }
    assert shared[..|shared|] == shared;
    return Accepted(root);
  }

  lemma {:induction false} SharedRefusal(root: Node, shared: seq<Move>, n: nat)
    requires n <= |shared| && SharedAll(root, shared[..n]).Refused?
    ensures SharedAll(root, shared).Refused?
  {
    if n < |shared| {
      assert shared[..|shared| - 1][..n] == shared[..n];
      SharedRefusal(root, shared[..|shared| - 1], n);
    } else {
      assert shared[..n] == shared;
    }
  }

  /** flattenV8 once the inverted flag is resolved. */
  ghost function FlattenTables(doc: Node, layout: Layout): Flat {
    if !doc.Mapping? || !ParentsOk(doc, layout.Moves()) then Refused
    else
      var shaped := SharedAll(AliasAll(doc, layout.aliases), layout.shared);
      if shaped.Refused? || !VersionOk(shaped.root) then Refused
      else FamilyAll(LeafAll(DropGroups(shaped.root), layout.leaves), doc, layout.families, layout.rules)
  }

  ghost function Flatten(doc: Node, layout: Layout): Flat {
    match ToggleAlias(doc, layout.toggle, true)
    case None => Refused
    case Some(resolved) => if doc.Mapping? then FlattenTables(resolved, layout) else Refused
  }

  /** flattenV8 refuses a document in which a parent of a v8 field is not a mapping. */
  method CheckParents(doc: Node, moves: seq<Move>) returns (ok: bool)
    ensures ok <==> ParentsOk(doc, moves)
  {
    for i := 0 to |moves|
      invariant forall k, n :: 0 <= k < i && 0 < n < |moves[k].current| ==> ParentOk(doc, moves[k].current[..n])
    {
      var current := moves[i].current;
      var n := 1;
      while n < |current|
        invariant 1 <= n
        invariant forall k :: 0 < k < n && k < |current| ==> ParentOk(doc, current[..k])
      {
        var parent := YamlPath(doc, current[..n]);
        if parent.Some? && !parent.value.Mapping? && !(current[..n] == ["routing"] && IsNull(parent.value)) {
          assert !ParentOk(doc, moves[i].current[..n]);
          return false;
        }
        n := n + 1;
      }
    }
    return true;
  }

  /** The last pass of flattenV8: every group list expanded into the root field of its family. */
  method MergeKeys(merged: Node, doc: Node, families: seq<Family>, rules: Rules) returns (flat: Flat)
    ensures flat == FamilyAll(merged, doc, families, rules)
  {
    var root := merged;
    for i := 0 to |families|
      invariant Accepted(root) == FamilyAll(merged, doc, families[..i], rules)
    {
      assert families[..i + 1][..i] == families[..i];
      var f := families[i];
      var groups := YamlPath(doc, GroupPath(f));
      if groups.Some? {
        var entries := ExpandV8Groups(groups.value, f.current, rules);
        if entries.Rejected? {
          RefusedStays(merged, doc, families, i + 1, rules);
          return Refused;
        }
        root := Set(root, [f.legacy], Sequence(entries.items));
      }
    }
    assert families[..|families|] == families;
    return Accepted(root);
  }

  /** The passes of flattenV8 over one working copy of the document. */
  method FlattenV8(given: Node, layout: Layout) returns (flat: Flat)
    ensures flat == Flatten(given, layout)
  {
    if !given.Mapping? {
      return Refused;
    }
    var resolved := ResolveToggle(given, layout.toggle, true);
    if resolved.None? {
      return Refused;
    }
    flat := FlattenResolved(resolved.value, layout);
  }

  method FlattenResolved(doc: Node, layout: Layout) returns (flat: Flat)
    ensures flat == FlattenTables(doc, layout)
  {
    if !doc.Mapping? {
      return Refused;
    }
    var ok := CheckParents(doc, layout.Moves());
    if !ok {
      return Refused;
    }
    var root := doc;
    for i := 0 to |layout.aliases|
      invariant root == AliasAll(doc, layout.aliases[..i])
    {
      assert layout.aliases[..i + 1][..i] == layout.aliases[..i];
      var m := layout.aliases[i];
      var held := YamlPath(root, m.legacy);
      if held.Some? {
        var current := YamlPath(root, m.current);
        if current.None? {
          root := Set(root, m.current, held.value);
        }
        root := Delete(root, m.legacy);
      }
    }
    assert layout.aliases[..|layout.aliases|] == layout.aliases;
    var shaped := MoveShared(root, layout.shared);
    if shaped.Refused? {
      return Refused;
    }
    root := shaped.root;
    var version := YamlPath(root, VERSION);
    if version.Some? && version.value != EIGHT {
      return Refused;
    }
    var keys := YamlPath(root, API_KEYS);
    if keys.Some? && keys.value.Mapping? {
      root := Delete(root, API_KEYS);
    }
    ghost var dropped := root;
    for i := 0 to |layout.leaves|
      invariant root == LeafAll(dropped, layout.leaves[..i])
    {
      assert layout.leaves[..i + 1][..i] == layout.leaves[..i];
      var m := layout.leaves[i];
      var value := YamlPath(root, m.current);
      if value.Some? {
        root := Delete(root, m.current);
        root := Set(root, m.legacy, value.value);
      }
    }
    assert layout.leaves[..|layout.leaves|] == layout.leaves;
    flat := MergeKeys(root, doc, layout.families, layout.rules);
  }

  lemma {:induction false} RefusedStays(root: Node, doc: Node, families: seq<Family>, n: nat, rules: Rules)
    requires n <= |families| && FamilyAll(root, doc, families[..n], rules).Refused?
    ensures FamilyAll(root, doc, families, rules).Refused?
  {
    if n < |families| {
      assert families[..|families| - 1][..n] == families[..n];
      RefusedStays(root, doc, families[..|families| - 1], n, rules);
    } else {
      assert families[..n] == families;
    }
  }

  // ---- NormalizeConfigLayout ----

  function MoveOne(root: Node, m: Move, migrate: bool): Node {
    match View(root, m.legacy)
    case None => root
    case Some(held) =>
      if Get(root, m.current).Some? then Delete(root, m.legacy)
      else if migrate then Set(Delete(root, m.legacy), m.current, held)
      else root
  }

  function MoveAll(root: Node, moves: seq<Move>, migrate: bool): Node {
    if moves == [] then root else MoveOne(MoveAll(root, moves[..|moves| - 1], migrate), moves[|moves| - 1], migrate)
  }

  function Items(list: Node): seq<Node> {
    if list.Sequence? then list.items else []
  }

  function GroupOne(root: Node, f: Family, migrate: bool, rules: Rules): Node {
    match Get(root, [f.legacy])
    case None => root
    case Some(held) =>
      if Get(root, GroupPath(f)).Some? then Delete(root, [f.legacy])
      else if migrate then Delete(Set(root, GroupPath(f), Sequence(GroupsOf(Items(held), f.current, rules))), [f.legacy])
      else root
  }

  function GroupAll(root: Node, families: seq<Family>, migrate: bool, rules: Rules): Node {
    if families == [] then root
    else GroupOne(GroupAll(root, families[..|families| - 1], migrate, rules), families[|families| - 1], migrate, rules)
  }

  /** The last steps of a migration: unknown fields go, the version is stamped. */
  function Stamped(grouped: Node, layout: Layout, migrate: bool): Node {
    if migrate then Set(Prune(grouped, [], layout.known), VERSION, EIGHT) else grouped
  }

  /** The document with null blocks made mappings, and the blank blocks that will move with the fields. */
  datatype Selection = Selection(root: Node, chosen: seq<Move>)

  function SelectOne(sel: Selection, s: Move, migrate: bool): Selection {
    match Get(sel.root, s.legacy)
    case None => sel
    case Some(block) =>
      if (!migrate && Get(sel.root, s.current).None?) || !Blank(block) then sel
      else Selection(if IsNull(block) then Set(sel.root, s.legacy, EMPTY) else sel.root, sel.chosen + [s])
  }

  function SelectAll(doc: Node, blocks: seq<Move>, migrate: bool): Selection {
    if blocks == [] then Selection(doc, []) else SelectOne(SelectAll(doc, blocks[..|blocks| - 1], migrate), blocks[|blocks| - 1], migrate)
  }

  /** The document after all moves: fields in table order, then blank blocks. */
  function AllMoved(doc: Node, layout: Layout, migrate: bool): Node {
    var sel := SelectAll(doc, layout.Blocks(), migrate);
    MoveAll(sel.root, layout.Moves() + sel.chosen, migrate)
  }

  /** NormalizeConfigLayout once the inverted flag is resolved. */
  function NormalTables(doc: Node, layout: Layout, migrate: bool): Node {
    Stamped(GroupAll(AllMoved(doc, layout, migrate), layout.families, migrate, layout.rules), layout, migrate)
  }

  function Resolved(doc: Node, layout: Layout, migrate: bool): Node {
    match ToggleAlias(doc, layout.toggle, migrate) case Some(resolved) => resolved case None => doc
  }

  function Normal(doc: Node, layout: Layout, migrate: bool): Node {
    NormalTables(Resolved(doc, layout, migrate), layout, migrate)
  }

  /** Picks the blank blocks and makes null ones mappings in place. */
  method SelectBlocks(doc: Node, blocks: seq<Move>, migrate: bool) returns (root: Node, chosen: seq<Move>)
    ensures Selection(root, chosen) == SelectAll(doc, blocks, migrate)
  {
    root, chosen := doc, [];
    for i := 0 to |blocks|
      invariant Selection(root, chosen) == SelectAll(doc, blocks[..i], migrate)
    {
      assert blocks[..i + 1][..i] == blocks[..i];
      var s := blocks[i];
      var block := YamlPath(root, s.legacy);
      var current := YamlPath(root, s.current);
      if block.None? || (!migrate && current.None?) {
        continue;
      }
      if IsNull(block.value) {
        root := Set(root, s.legacy, EMPTY);
      } else if !block.value.Mapping? || block.value.fields != map[] {
        continue;
      }
      chosen := chosen + [s];
    }
    assert blocks[..|blocks|] == blocks;
  }

  /** The loop of NormalizeConfigLayout over the path table. */
  method MoveFields(doc: Node, moves: seq<Move>, migrate: bool) returns (root: Node)
    ensures root == MoveAll(doc, moves, migrate)
  {
    root := doc;
    for i := 0 to |moves|
      invariant root == MoveAll(doc, moves[..i], migrate)
    {
      assert moves[..i + 1][..i] == moves[..i];
      var m := moves[i];
      var held := YamlPath(root, m.legacy);
      if held.None? || (m.legacy == API_KEYS && held.value.Mapping?) {
        continue;
      }
      var current := YamlPath(root, m.current);
      if current.None? && !migrate {
        continue;
      }
      root := Delete(root, m.legacy);
      if current.None? {
        root := Set(root, m.current, held.value);
      }
    }
    assert moves[..|moves|] == moves;
  }

  /** The loop of NormalizeConfigLayout over the key families. */
  method GroupKeys(doc: Node, families: seq<Family>, migrate: bool, rules: Rules) returns (root: Node)
    ensures root == GroupAll(doc, families, migrate, rules)
  {
    root := doc;
    for i := 0 to |families|
      invariant root == GroupAll(doc, families[..i], migrate, rules)
    {
      assert families[..i + 1][..i] == families[..i];
      var f := families[i];
      var held := YamlPath(root, [f.legacy]);
      if held.None? {
        continue;
      }
      var groups := YamlPath(root, GroupPath(f));
      if groups.None? {
        if !migrate {
          continue;
        }
        root := Set(root, GroupPath(f), Sequence(GroupsOf(Items(held.value), f.current, rules)));
      }
      root := Delete(root, [f.legacy]);
    }
    assert families[..|families|] == families;
  }

  /** None when flattenV8 refuses the document. */
  method NormalizeConfigLayout(doc: Node, layout: Layout, migrate: bool) returns (out: Option<Node>)
    ensures out == if Flatten(doc, layout).Refused? then None else Some(Normal(doc, layout, migrate))
  {
    var flat := FlattenV8(doc, layout);
    if flat.Refused? {
      return None;
    }
    var resolved := ResolveToggle(doc, layout.toggle, migrate);
    if resolved.None? {
      return None;
    }
    var root, chosen := SelectBlocks(resolved.value, layout.Blocks(), migrate);
    root := MoveFields(root, layout.Moves() + chosen, migrate);
    root := GroupKeys(root, layout.families, migrate, layout.rules);
    if migrate {
      root := CommentUnknown(root, [], layout.known);
      root := Set(root, VERSION, EIGHT);
    }
    return Some(root);
  }
}
