/** An excerpt of the real path tables: the side conditions hold of it, and migration can be refused on it. */
module ConfigExample {
  import opened Options
  import opened YamlTree
  import opened KeyGroups
  import opened ConfigLayout
  import opened ConfigMigration
  import opened ConfigTheorems
  import opened ConfigToggle

  const OLD_RELAY: Path := ["codex", "live-media-relay"]
  const RELAY: Path := ["oauth", "providers", "codex", "live-media-relay"]
  const DISABLE := "disable-private-remote-ips"
  const ALLOW := "allow-private-remote-ips"

  const INJECT_ALIAS := Move(["oauth", "providers", "xai", "inject-x-search"], ["upstream", "xai", "inject-x-search"])
  const INJECT := Move(["xai", "inject-x-search"], ["upstream", "xai", "inject-x-search"])
  const CLIENT_KEYS := Move(API_KEYS, ["access", "api-keys"])
  const PRIVATE_IPS := Move(OLD_RELAY + [DISABLE], RELAY + [DISABLE])
  const RETRY := Move(["request-retry"], ["routing", "retry", "request-retry"])
  const GEMINI := Family("gemini-api-key", "gemini")
  const COMPATIBLE := Family(OPENAI, OPENAI)

  const CODEX_BLOCK := Move(["codex"], ["oauth", "providers", "codex"])
  const RELAY_BLOCK := Move(OLD_RELAY, RELAY)
  const XAI_BLOCK := Move(["xai"], ["upstream", "xai"])
  const SHARED_XAI := Move(["oauth", "providers", "xai"], ["upstream", "xai"])

  /** What the v8 layout lists below its sections; `api-keys` holds families and is not listed. */
  const KNOWN: map<Path, set<string>> := map[
    [] := {"models", "config-version", "api-keys", "plugins", "quota-exceeded", "client", "access", "oauth", "upstream", "routing"},
    ["access"] := {"api-keys"},
    ["oauth"] := {"providers"},
    ["oauth", "providers"] := {"codex"},
    ["oauth", "providers", "codex"] := {"live-media-relay"},
    RELAY := {DISABLE},
    ["upstream"] := {"xai"},
    ["upstream", "xai"] := {"inject-x-search"},
    ["routing"] := {"retry"},
    ["routing", "retry"] := {"request-retry"}]

  function Excerpt(inRange: string -> bool, invert: Node -> Option<Node>): Layout {
    Layout(
      [INJECT_ALIAS], [INJECT, CLIENT_KEYS, PRIVATE_IPS, RETRY], [GEMINI, COMPATIBLE], Rules(SHARED_FIELDS, inRange), KNOWN,
      [CODEX_BLOCK, RELAY_BLOCK, XAI_BLOCK], [SHARED_XAI],
      Toggle(OLD_RELAY + [ALLOW], PRIVATE_IPS.legacy, PRIVATE_IPS.current, invert))
  }

  const FIELDS := [INJECT_ALIAS, INJECT, CLIENT_KEYS, PRIVATE_IPS, RETRY]
  const BLOCKS := [CODEX_BLOCK, RELAY_BLOCK, XAI_BLOCK, SHARED_XAI]

  lemma ExcerptTables(inRange: string -> bool, invert: Node -> Option<Node>)
    ensures Excerpt(inRange, invert).Moves() == FIELDS && Excerpt(inRange, invert).Blocks() == BLOCKS
  {
  }

  lemma ExcerptPaths(inRange: string -> bool, invert: Node -> Option<Node>, p: Path)
    requires Table(Excerpt(inRange, invert), p)
    ensures p in {VERSION, INJECT_ALIAS.legacy, INJECT.current, INJECT.legacy, API_KEYS, CLIENT_KEYS.current,
                  PRIVATE_IPS.legacy, PRIVATE_IPS.current, RETRY.legacy, RETRY.current, [GEMINI.legacy], [COMPATIBLE.legacy]}
  {
    ExcerptTables(inRange, invert);
  }

  lemma Differ(p: Path, q: Path, k: nat)
    requires k < |p| && k < |q| && p[k] != q[k]
    ensures Independent(p, q)
  {
  }

  lemma ExcerptIsApart(inRange: string -> bool, invert: Node -> Option<Node>, p: Path, q: Path)
    requires Table(Excerpt(inRange, invert), p) && Table(Excerpt(inRange, invert), q) && p != q
    ensures Independent(p, q)
  {
    ExcerptPaths(inRange, invert, p);
    ExcerptPaths(inRange, invert, q);
    if p[0] != q[0] { Differ(p, q, 0); } else { Differ(p, q, 2); }
  }

  lemma KnownStep(at: Path, q: Path)
    requires at in KNOWN && q != [] && q[0] in KNOWN[at] && Intact(KNOWN, at + [q[0]], q[1..])
    ensures Intact(KNOWN, at, q)
  {
  }

  lemma KnownLast(at: Path, f: string, p: Path)
    requires at in KNOWN && f in KNOWN[at] && p == at + [f] && p !in KNOWN
    ensures Intact(KNOWN, at, [f])
  {
  }

  lemma UnknownStep(at: Path, q: Path)
    requires at in KNOWN && q != [] && (q[0] !in KNOWN[at] || Unknown(KNOWN, at + [q[0]], q[1..]))
    ensures Unknown(KNOWN, at, q)
  {
  }

  /** The v8 spellings are listed from the root down. */
  lemma FieldsAreKnown()
    ensures forall m :: m in FIELDS ==> Intact(KNOWN, [], m.current)
    ensures Intact(KNOWN, [], API_KEYS) && Intact(KNOWN, [], VERSION)
  {
    KnownLast([], "api-keys", API_KEYS);
    KnownLast([], "config-version", VERSION);
    InjectIsKnown();
    RelayIsKnown();
    KnownLast(["access"], "api-keys", ["access", "api-keys"]);
    assert [] + ["access"] == ["access"] && CLIENT_KEYS.current[1..] == ["api-keys"];
    KnownStep([], CLIENT_KEYS.current);
    RetryIsKnown();
  }

  lemma InjectIsKnown()
    ensures Intact(KNOWN, [], INJECT.current)
  {
    KnownLast(["upstream", "xai"], "inject-x-search", ["upstream", "xai", "inject-x-search"]);
    assert ["upstream"] + ["xai"] == ["upstream", "xai"] && ["xai", "inject-x-search"][1..] == ["inject-x-search"];
    KnownStep(["upstream"], ["xai", "inject-x-search"]);
    assert [] + ["upstream"] == ["upstream"] && INJECT.current[1..] == ["xai", "inject-x-search"];
    KnownStep([], INJECT.current);
  }

  lemma RetryIsKnown()
    ensures Intact(KNOWN, [], RETRY.current)
  {
    KnownLast(["routing", "retry"], "request-retry", ["routing", "retry", "request-retry"]);
    assert ["routing"] + ["retry"] == ["routing", "retry"] && ["retry", "request-retry"][1..] == ["request-retry"];
    KnownStep(["routing"], ["retry", "request-retry"]);
    assert [] + ["routing"] == ["routing"] && RETRY.current[1..] == ["retry", "request-retry"];
    KnownStep([], RETRY.current);
  }

  lemma RelayIsKnown()
    ensures Intact(KNOWN, [], PRIVATE_IPS.current)
  {
    KnownLast(RELAY, DISABLE, PRIVATE_IPS.current);
    assert ["oauth", "providers", "codex"] + ["live-media-relay"] == RELAY && ["live-media-relay", DISABLE][1..] == [DISABLE];
    KnownStep(["oauth", "providers", "codex"], ["live-media-relay", DISABLE]);
    assert ["oauth", "providers"] + ["codex"] == ["oauth", "providers", "codex"];
    assert ["codex", "live-media-relay", DISABLE][1..] == ["live-media-relay", DISABLE];
    KnownStep(["oauth", "providers"], ["codex", "live-media-relay", DISABLE]);
    assert ["oauth"] + ["providers"] == ["oauth", "providers"];
    assert ["providers", "codex", "live-media-relay", DISABLE][1..] == ["codex", "live-media-relay", DISABLE];
    KnownStep(["oauth"], ["providers", "codex", "live-media-relay", DISABLE]);
    assert [] + ["oauth"] == ["oauth"];
    assert PRIVATE_IPS.current[1..] == ["providers", "codex", "live-media-relay", DISABLE];
    KnownStep([], PRIVATE_IPS.current);
  }

  /** The old places of blocks, and the flag, are unknown to the v8 layout. */
  lemma BlocksAreUnknown()
    ensures forall s :: s in BLOCKS ==> Unknown(KNOWN, [], s.legacy)
    ensures Unknown(KNOWN, [], OLD_RELAY + [ALLOW])
  {
    UnknownStep([], CODEX_BLOCK.legacy);
    UnknownStep([], RELAY_BLOCK.legacy);
    UnknownStep([], XAI_BLOCK.legacy);
    UnknownStep([], OLD_RELAY + [ALLOW]);
    UnknownStep(["oauth", "providers"], ["xai"]);
    assert ["oauth"] + ["providers"] == ["oauth", "providers"] && ["providers", "xai"][1..] == ["xai"];
    UnknownStep(["oauth"], ["providers", "xai"]);
    assert [] + ["oauth"] == ["oauth"] && SHARED_XAI.legacy[1..] == ["providers", "xai"];
    UnknownStep([], SHARED_XAI.legacy);
  }

  lemma FieldsDiffer()
    ensures forall i, j :: 0 <= i < j < |FIELDS| ==> FIELDS[i].legacy != FIELDS[j].legacy
    ensures forall i, j :: 1 <= i < j < |FIELDS| ==> FIELDS[i].current != FIELDS[j].current
  {
  }

  lemma FieldsMove()
    ensures forall m, n :: m in FIELDS && n in FIELDS ==> m.legacy != n.current
    ensures forall m :: m in FIELDS ==> m.legacy != VERSION && m.current != VERSION
    ensures forall m, f :: m in FIELDS && f in [GEMINI, COMPATIBLE] ==> [f.legacy] != m.legacy && [f.legacy] != m.current
  {
    forall m, n | m in FIELDS && n in FIELDS ensures m.legacy != n.current {
      assert m.legacy[0] != n.current[0] || m.legacy[2] != n.current[2];
    }
  }

  lemma FamiliesDiffer(inRange: string -> bool, invert: Node -> Option<Node>)
    ensures var layout := Excerpt(inRange, invert);
            && (forall f :: f in layout.families ==> [f.legacy] != VERSION)
            && (forall i, j :: 0 <= i < j < |layout.families| ==>
                  layout.families[i].legacy != layout.families[j].legacy && layout.families[i].current != layout.families[j].current)
            && (forall f, p :: f in layout.families && Table(layout, p) && p != API_KEYS ==> Independent(p, GroupPath(f)))
  {
    var layout := Excerpt(inRange, invert);
    forall f, p | f in layout.families && Table(layout, p) && p != API_KEYS ensures Independent(p, GroupPath(f)) {
      ExcerptPaths(inRange, invert, p);
      Differ(p, GroupPath(f), 0);
    }
  }

  lemma LeavesDiffer(inRange: string -> bool, invert: Node -> Option<Node>)
    ensures var layout := Excerpt(inRange, invert);
            && (forall i, j :: 0 <= i < j < |layout.leaves| ==> layout.leaves[i].current != layout.leaves[j].current)
            && CLIENT_KEYS in layout.leaves
  {
    var layout := Excerpt(inRange, invert);
    FieldsDiffer();
    assert forall j :: 0 <= j < |layout.leaves| ==> layout.leaves[j] == FIELDS[j + 1];
    assert CLIENT_KEYS == layout.leaves[1];
  }

  lemma RulesAreValid(inRange: string -> bool)
    ensures Rules(SHARED_FIELDS, inRange).Valid()
  {
  }

  lemma ExcerptIsWellFormed(inRange: string -> bool, invert: Node -> Option<Node>)
    ensures WellFormed(Excerpt(inRange, invert))
  {
    var layout := Excerpt(inRange, invert);
    ExcerptTables(inRange, invert);
    FieldsDiffer();
    FieldsMove();
    FieldsAreKnown();
    RulesAreValid(inRange);
    LeavesDiffer(inRange, invert);
    FamiliesDiffer(inRange, invert);
    forall p | Table(layout, p) ensures p != [] { ExcerptPaths(inRange, invert, p); }
    forall p, q | Table(layout, p) && Table(layout, q) && p != q ensures Independent(p, q) {
      ExcerptIsApart(inRange, invert, p, q);
    }
    assert layout.families == [GEMINI, COMPATIBLE] && layout.known == KNOWN;
  }

  lemma ExcerptTargets(inRange: string -> bool, invert: Node -> Option<Node>, c: Path)
    requires Target(Excerpt(inRange, invert), c)
    ensures c in {INJECT.current, CLIENT_KEYS.current, PRIVATE_IPS.current, RETRY.current, GroupPath(GEMINI), GroupPath(COMPATIBLE),
                  CODEX_BLOCK.current, RELAY_BLOCK.current, XAI_BLOCK.current}
  {
    ExcerptTables(inRange, invert);
  }

  lemma ExcerptBlocksAreApart(inRange: string -> bool, invert: Node -> Option<Node>, s: Move, c: Path)
    requires s in BLOCKS && Target(Excerpt(inRange, invert), c)
    ensures Independent(s.legacy, c)
  {
    ExcerptTargets(inRange, invert, c);
    if s.legacy[0] != c[0] { Differ(s.legacy, c, 0); } else { Differ(s.legacy, c, 2); }
  }

  lemma ExcerptIsClear(inRange: string -> bool, invert: Node -> Option<Node>, p: Path)
    requires Table(Excerpt(inRange, invert), p) || p == OLD_RELAY + [ALLOW] || p == GroupPath(GEMINI) || p == GroupPath(COMPATIBLE)
    ensures Clear(Excerpt(inRange, invert), p)
  {
    ExcerptTables(inRange, invert);
    if Table(Excerpt(inRange, invert), p) { ExcerptPaths(inRange, invert, p); }
    forall s | s in BLOCKS ensures !(p <= s.legacy) && !(p <= s.current) {
      NotAbove(p, s.legacy);
      NotAbove(p, s.current);
    }
  }

  lemma NotAbove(p: Path, q: Path)
    requires p != [] && q != [] && (p[0] != q[0] || |q| < |p| || (|p| > 2 && p[2] != q[2]))
    ensures !(p <= q)
  {
  }

  lemma ExcerptIsSound(inRange: string -> bool, invert: Node -> Option<Node>)
    ensures Sound(Excerpt(inRange, invert))
  {
    ExcerptIsWellFormed(inRange, invert);
    ExcerptBlocks(inRange, invert);
    ExcerptToggle(inRange, invert);
  }

  lemma ExcerptBlocks(inRange: string -> bool, invert: Node -> Option<Node>)
    ensures BlocksOk(Excerpt(inRange, invert))
  {
    var layout := Excerpt(inRange, invert);
    ExcerptTables(inRange, invert);
    BlocksAreUnknown();
    forall p | Table(layout, p) ensures Clear(layout, p) { ExcerptIsClear(inRange, invert, p); }
    forall f | f in layout.families ensures Clear(layout, GroupPath(f)) { ExcerptIsClear(inRange, invert, GroupPath(f)); }
    forall s, c | s in layout.Blocks() && Target(layout, c) ensures Independent(s.legacy, c) {
      ExcerptBlocksAreApart(inRange, invert, s, c);
    }
  }

  lemma ExcerptToggle(inRange: string -> bool, invert: Node -> Option<Node>)
    ensures ToggleOk(Excerpt(inRange, invert))
  {
    var layout := Excerpt(inRange, invert);
    var t := layout.toggle;
    BlocksAreUnknown();
    ExcerptTables(inRange, invert);
    assert PRIVATE_IPS == layout.leaves[2];
    forall p | Table(layout, p) ensures Independent(t.opposite, p) {
      ExcerptPaths(inRange, invert, p);
      if p[0] != t.opposite[0] { Differ(t.opposite, p, 0); } else { Differ(t.opposite, p, 2); }
    }
    forall f | f in layout.families ensures Independent(t.opposite, GroupPath(f)) { Differ(t.opposite, GroupPath(f), 0); }
    ExcerptIsClear(inRange, invert, t.opposite);
    assert layout.shared == [SHARED_XAI];
    Differ(t.opposite, SHARED_XAI.legacy, 0);
    Differ(t.legacy, SHARED_XAI.legacy, 0);
  }

  // ---- Migration can be refused ----

  /** A legacy document with one provider entry. */
  function OneEntry(f: Family, entry: Node): Node {
    Mapping(map[f.legacy := Sequence([entry])])
  }

  /** A key list the legacy loader reads as empty, and an entry it reads as unset. */
  const NULL := Scalar("!!null", "null")
  const NO_KEYS := Mapping(map["name" := Scalar("!!str", "x"), ENTRIES := NULL])

  /**
   Read as it stands, but refused after migrating: a compatible provider whose key list is null, and a
   null entry in a native provider's list. The loader turns either null into defaults.
   */
  lemma MigrationCanBeRefused(inRange: string -> bool, invert: Node -> Option<Node>, f: Family, entry: Node)
    requires (f, entry) in {(COMPATIBLE, NO_KEYS), (GEMINI, NULL)}
    ensures var doc, layout := OneEntry(f, entry), Excerpt(inRange, invert);
            Flatten(doc, layout).Accepted? && Flatten(Normal(doc, layout, true), layout).Refused?
  {
    assert Field(NO_KEYS, ENTRIES) == Some(NULL);
    RefusedAfterMigration(inRange, invert, f, entry);
  }

  lemma RefusedAfterMigration(inRange: string -> bool, invert: Node -> Option<Node>, f: Family, entry: Node)
    requires f in [GEMINI, COMPATIBLE] && !Groupable(entry, f.current, Rules(SHARED_FIELDS, inRange))
    ensures var doc, layout := OneEntry(f, entry), Excerpt(inRange, invert);
            Flatten(doc, layout).Accepted? && Flatten(Normal(doc, layout, true), layout).Refused?
  {
    var layout, doc := Excerpt(inRange, invert), OneEntry(f, entry);
    ExcerptIsSound(inRange, invert);
    OneEntryReads(inRange, invert, f, entry);
    FlattenMeaning(doc, layout);
    NormalizePreservesMeaning(doc, layout, true);
    NotAllGroupable(entry, f.current, layout.rules);
    assert layout.families == [GEMINI, COMPATIBLE];
    assert Migrated(doc, f, true) && LegacyList(doc, f) == [entry];
  }

  lemma NotAllGroupable(entry: Node, provider: string, rules: Rules)
    requires !Groupable(entry, provider, rules)
    ensures !AllGroupable([entry], provider, rules)
  {
    assert [entry][0] == entry;
  }

  lemma OneEntryReads(inRange: string -> bool, invert: Node -> Option<Node>, f: Family, entry: Node)
    requires f in [GEMINI, COMPATIBLE]
    ensures var doc, layout := OneEntry(f, entry), Excerpt(inRange, invert);
            && FlagOk(doc, layout.toggle) && Acceptable(doc, layout)
            && Get(doc, [f.legacy]) == Some(Sequence([entry])) && Get(doc, GroupPath(f)) == None
  {
    var layout, doc := Excerpt(inRange, invert), OneEntry(f, entry);
    ExcerptTables(inRange, invert);
    assert Field(doc, f.legacy) == Get(doc, [f.legacy]);
    assert forall g :: g in layout.families ==> Get(doc, GroupPath(g)) == None;
    assert Get(doc, VERSION) == None && Get(doc, layout.toggle.opposite) == None;
    assert layout.shared == [SHARED_XAI] && Get(doc, SHARED_XAI.legacy) == None;
    forall m, i | m in layout.Moves() && 0 < i < |m.current| ensures ParentOk(doc, m.current[..i]) {
      assert m.current[..i][0] == m.current[0] != f.legacy;
      assert Get(doc, m.current[..i]) == None;
    }
  }
}
