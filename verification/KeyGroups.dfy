/**
 API keys in two layouts: a flat list of entries per provider (legacy), and groups of keys that
 share an endpoint and routing fields (v8). Expanding a group list gives the flat list back.
 */
module KeyGroups {
  import opened Options
  import opened YamlTree

  const OPENAI := "openai-compatibility"
  const ENTRIES := "api-key-entries"
  const POOL := "connection-pool"
  const AUTH_FIELDS: set<string> := {"auth_index", "auth-index"}

  /** Which fields besides base-url a group hands down to its keys, and which weights are in range. */
  datatype Rules = Rules(shared: set<string>, inRange: string -> bool)
  {
    predicate Inherited(field: string) {
      field == "base-url" || field in shared
    }

    predicate Valid() {
      POOL in shared && shared !! (AUTH_FIELDS + {"name", "keys", "weight"})
    }
  }

  const SHARED_FIELDS: set<string> := {
    "priority", "prefix", "proxy-url", "headers", "models", "excluded-models", "disable-cooling",
    "request-retry", "request-scoped-errors", "connection-pool"}

  datatype Expansion = Expanded(items: seq<Node>) | Rejected

  function WithoutAuth(key: Node): Node {
    if key.Mapping? then Mapping(key.fields - AUTH_FIELDS) else key
  }

  function WithoutAuthAll(keys: seq<Node>): (r: seq<Node>)
    ensures |r| == |keys| && forall i :: 0 <= i < |keys| ==> r[i] == WithoutAuth(keys[i])
  {
    if keys == [] then [] else WithoutAuthAll(keys[..|keys| - 1]) + [WithoutAuth(keys[|keys| - 1])]
  }

  /** validateWeightSequenceNode: an explicit weight must be an integer within range. */
  predicate WeightsOk(keys: seq<Node>, rules: Rules) {
    forall i :: 0 <= i < |keys| ==> WeightOk(keys[i], rules)
  }

  predicate WeightOk(key: Node, rules: Rules) {
    key.Mapping? && "weight" in key.fields ==>
      var w := key.fields["weight"];
      w.Scalar? && w.tag == "!!int" && rules.inRange(w.value)
  }

  /** mergeConnectionPoolNode */
  function MergePool(base: Option<Node>, over: Node): Node {
    if base.None? || !base.value.Mapping? || !over.Mapping? then over
    else Mapping(base.value.fields + map f | f in over.fields && !IsNull(over.fields[f]) :: over.fields[f])
  }

  function Field(n: Node, field: string): (r: Option<Node>)
    ensures r == Get(n, [field])
  {
    assert [field][1..] == [];
    if n.Mapping? && field in n.fields then Some(n.fields[field]) else None
  }

  /** One flat entry: inherited group fields, overridden by the key's own non-null fields. */
  function EntryOf(group: Node, key: Node, rules: Rules): Node
    requires group.Mapping? && key.Mapping?
  {
    var inherited := map f | f in group.fields && rules.Inherited(f) :: group.fields[f];
    var own := map f | f in key.fields && f !in AUTH_FIELDS && !IsNull(key.fields[f]) ::
                 if f == POOL then MergePool(Field(group, POOL), key.fields[f]) else key.fields[f];
    Mapping(inherited + own)
  }

  function EntriesOf(group: Node, keys: seq<Node>, rules: Rules): Expansion
    requires group.Mapping?
  {
    if keys == [] then Expanded([])
    else
      var front := EntriesOf(group, keys[..|keys| - 1], rules);
      var key := keys[|keys| - 1];
      if front.Rejected? || !key.Mapping? || "base-url" in key.fields then Rejected
      else Expanded(front.items + [EntryOf(group, key, rules)])
  }

  function ExpandGroup(group: Node, provider: string, rules: Rules): Expansion {
    if !group.Mapping? then Rejected
    else
      var keys := Field(group, "keys");
      if keys.None? || !keys.value.Sequence? || !WeightsOk(keys.value.items, rules) then Rejected
      else if provider == OPENAI then
        var rest := Mapping(group.fields - {"keys"} - AUTH_FIELDS);
        Expanded([Set(rest, [ENTRIES], Sequence(WithoutAuthAll(keys.value.items)))])
      else if exists f :: f in group.fields && f != "name" && f != "keys" && !rules.Inherited(f) then Rejected
      else EntriesOf(group, keys.value.items, rules)
  }

  function ExpandGroups(groups: seq<Node>, provider: string, rules: Rules): Expansion {
    if groups == [] then Expanded([])
    else
      var front := ExpandGroups(groups[..|groups| - 1], provider, rules);
      var last := ExpandGroup(groups[|groups| - 1], provider, rules);
      if front.Rejected? || last.Rejected? then Rejected else Expanded(front.items + last.items)
  }

  /** expandV8Groups */
  method ExpandV8Groups(groups: Node, provider: string, rules: Rules) returns (out: Expansion)
    ensures out == if groups.Sequence? then ExpandGroups(groups.items, provider, rules) else Rejected
  {
    if !groups.Sequence? {
      return Rejected;
    }
    var items: seq<Node> := [];
    for i := 0 to |groups.items|
      invariant ExpandGroups(groups.items[..i], provider, rules) == Expanded(items)
    {
      assert groups.items[..i + 1][..i] == groups.items[..i];
      var expansion := ExpandGroup(groups.items[i], provider, rules);
      if expansion.Rejected? {
        RejectedStays(groups.items, i + 1, provider, rules);
        return Rejected;
      }
      items := items + expansion.items;
    }
    assert groups.items[..|groups.items|] == groups.items;
    return Expanded(items);
  }

  lemma {:induction false} RejectedStays(groups: seq<Node>, n: nat, provider: string, rules: Rules)
    requires n <= |groups| && ExpandGroups(groups[..n], provider, rules).Rejected?
    ensures ExpandGroups(groups, provider, rules).Rejected?
  {
    if n < |groups| {
      assert groups[..|groups| - 1][..n] == groups[..n];
      RejectedStays(groups[..|groups| - 1], n, provider, rules);
    } else {
      assert groups[..n] == groups;
    }
  }

  // ---- Grouping legacy entries ----

  function GroupName(provider: string, number: nat): Node {
    Scalar("!!str", provider + "-" + Decimal(number))
  }

  function Decimal(n: nat): string {
    if n < 10 then ["0123456789"[n]] else Decimal(n / 10) + ["0123456789"[n % 10]]
  }

  /** What is left of a legacy entry as the one key of its group. */
  function KeyOfEntry(entry: Node, rules: Rules): Node {
    if entry.Mapping? then Mapping(map f | f in entry.fields && !rules.Inherited(f) :: entry.fields[f]) else entry
  }

  /** One group per legacy entry. */
  function GroupOf(entry: Node, provider: string, number: nat, rules: Rules): Node {
    if provider == OPENAI then
      var entries := match Field(entry, ENTRIES) case Some(e) => e case None => Sequence([]);
      Delete(Set(entry, ["keys"], entries), [ENTRIES])
    else
      var shared := if entry.Mapping? then map f | f in entry.fields && rules.Inherited(f) :: entry.fields[f] else map[];
      Mapping(map["name" := GroupName(provider, number)] + shared + map["keys" := Sequence([KeyOfEntry(entry, rules)])])
  }

  /** groupLegacyKeys */
  function GroupsOf(entries: seq<Node>, provider: string, rules: Rules): (r: seq<Node>)
    ensures |r| == |entries|
  {
    if entries == [] then []
    else GroupsOf(entries[..|entries| - 1], provider, rules) + [GroupOf(entries[|entries| - 1], provider, |entries|, rules)]
  }

  // ---- The round trip ----

  /** A legacy entry as the grouped layout hands it back: no auth index, and null only where a group may hold it. */
  function Cleaned(entry: Node, provider: string, rules: Rules): Node
    requires entry.Mapping?
  {
    if provider == OPENAI then
      var keys := match Field(entry, ENTRIES) case Some(e) => (if e.Sequence? then e.items else []) case None => [];
      Mapping((entry.fields - AUTH_FIELDS - {"keys"})[ENTRIES := Sequence(WithoutAuthAll(keys))])
    else
      Mapping(map f | f in entry.fields && f !in AUTH_FIELDS && (rules.Inherited(f) || !IsNull(entry.fields[f])) :: entry.fields[f])
  }

  /** The legacy entries whose group the expansion accepts. */
  predicate Groupable(entry: Node, provider: string, rules: Rules) {
    if provider == OPENAI then
      match Field(entry, ENTRIES)
      case Some(e) => e.Sequence? && WeightsOk(e.items, rules)
      case None => true
    else entry.Mapping? && WeightOk(entry, rules)
  }

  lemma CompatibleRoundTrip(entry: Node, number: nat, rules: Rules)
    ensures Groupable(entry, OPENAI, rules) <==> ExpandGroup(GroupOf(entry, OPENAI, number, rules), OPENAI, rules).Expanded?
    ensures Groupable(entry, OPENAI, rules) && entry.Mapping? ==>
              ExpandGroup(GroupOf(entry, OPENAI, number, rules), OPENAI, rules) == Expanded([Cleaned(entry, OPENAI, rules)])
  {
    var group := GroupOf(entry, OPENAI, number, rules);
    var entries := match Field(entry, ENTRIES) case Some(e) => e case None => Sequence([]);
    var fields := if entry.Mapping? then entry.fields else map[];
    assert group == Mapping(fields["keys" := entries] - {ENTRIES}) by {
      SetField(entry, "keys", entries);
      DeleteField(Set(entry, ["keys"], entries), ENTRIES);
    }
    assert Field(group, "keys") == Some(entries);
    if entries.Sequence? {
      var rest := Mapping(group.fields - {"keys"} - AUTH_FIELDS);
      SetField(rest, ENTRIES, Sequence(WithoutAuthAll(entries.items)));
      if entry.Mapping? {
        assert rest.fields[ENTRIES := Sequence(WithoutAuthAll(entries.items))] == Cleaned(entry, OPENAI, rules).fields;
      }
    }
  }

  lemma SetField(n: Node, f: string, v: Node)
    ensures Set(n, [f], v) == Mapping((if n.Mapping? then n.fields else map[])[f := v])
  {
    assert [f][1..] == [];
  }

  lemma DeleteField(n: Node, f: string)
    requires n.Mapping?
    ensures Delete(n, [f]) == Mapping(n.fields - {f})
  {
    assert Get(n, [f]) == Field(n, f);
    if f !in n.fields { assert n.fields - {f} == n.fields; }
  }

  lemma GroupShape(entry: Node, provider: string, number: nat, rules: Rules)
    requires rules.Valid() && provider != OPENAI
    ensures var group := GroupOf(entry, provider, number, rules);
            && group.Mapping? && Field(group, "keys") == Some(Sequence([KeyOfEntry(entry, rules)]))
            && (forall f :: f in group.fields ==> f == "name" || f == "keys" || rules.Inherited(f))
            && (entry.Mapping? ==> forall f :: rules.Inherited(f) ==> Field(group, f) == Field(entry, f))
  {
  }

  lemma NativeRoundTrip(entry: Node, provider: string, number: nat, rules: Rules)
    requires rules.Valid() && provider != OPENAI
    ensures Groupable(entry, provider, rules) <==> ExpandGroup(GroupOf(entry, provider, number, rules), provider, rules).Expanded?
    ensures Groupable(entry, provider, rules) ==>
              ExpandGroup(GroupOf(entry, provider, number, rules), provider, rules) == Expanded([Cleaned(entry, provider, rules)])
  {
    var group, key := GroupOf(entry, provider, number, rules), KeyOfEntry(entry, rules);
    GroupShape(entry, provider, number, rules);
    assert WeightOk(key, rules) <==> WeightOk(entry, rules);
    OneKey(group, key, rules);
    if entry.Mapping? {
      EntryRoundTrip(entry, provider, group, key, rules);
    }
  }

  lemma OneKey(group: Node, key: Node, rules: Rules)
    requires group.Mapping?
    ensures WeightsOk([key], rules) <==> WeightOk(key, rules)
    ensures EntriesOf(group, [key], rules) ==
            if key.Mapping? && "base-url" !in key.fields then Expanded([EntryOf(group, key, rules)]) else Rejected
  {
    assert [key][0] == key && [key][..0] == [] && EntriesOf(group, [], rules) == Expanded([]);
  }

  lemma EntryRoundTrip(entry: Node, provider: string, group: Node, key: Node, rules: Rules)
    requires rules.Valid() && provider != OPENAI && entry.Mapping? && group.Mapping? && key.Mapping?
    requires key.fields == map f | f in entry.fields && !rules.Inherited(f) :: entry.fields[f]
    requires forall f :: rules.Inherited(f) ==> Field(group, f) == Field(entry, f)
    ensures EntryOf(group, key, rules) == Cleaned(entry, provider, rules)
  {
    var item, cleaned := EntryOf(group, key, rules).fields, Cleaned(entry, provider, rules).fields;
    forall f ensures (f in item <==> f in cleaned) && (f in item ==> item[f] == cleaned[f]) {
      assert rules.Inherited(f) ==> Field(group, f) == Field(entry, f);
    }
    assert item == cleaned;
  }

  lemma ExpandOneMore(front: seq<Node>, last: Node, provider: string, rules: Rules)
    ensures var a, b := ExpandGroups(front, provider, rules), ExpandGroup(last, provider, rules);
      ExpandGroups(front + [last], provider, rules) == if a.Rejected? || b.Rejected? then Rejected else Expanded(a.items + b.items)
  {
    assert (front + [last])[..|front|] == front;
  }

  /**
   Expanding the groups built from legacy entries is accepted exactly when every entry is groupable,
   and then gives back the same entries in the same order, cleaned.
   */
  lemma {:induction false} RoundTrip(entries: seq<Node>, provider: string, rules: Rules)
    requires rules.Valid()
    ensures ExpandGroups(GroupsOf(entries, provider, rules), provider, rules).Expanded? <==> AllGroupable(entries, provider, rules)
    ensures AllGroupable(entries, provider, rules) && (forall i :: 0 <= i < |entries| ==> entries[i].Mapping?) ==>
              ExpandGroups(GroupsOf(entries, provider, rules), provider, rules) == Expanded(CleanedAll(entries, provider, rules))
  {
    if entries != [] {
      var front, last := entries[..|entries| - 1], entries[|entries| - 1];
      RoundTrip(front, provider, rules);
      if provider == OPENAI {
        CompatibleRoundTrip(last, |entries|, rules);
      } else {
        NativeRoundTrip(last, provider, |entries|, rules);
      }
      ExpandOneMore(GroupsOf(front, provider, rules), GroupOf(last, provider, |entries|, rules), provider, rules);
    }
  }

  predicate AllGroupable(entries: seq<Node>, provider: string, rules: Rules) {
    entries == [] || (AllGroupable(entries[..|entries| - 1], provider, rules) && Groupable(entries[|entries| - 1], provider, rules))
  }

  function CleanedAll(entries: seq<Node>, provider: string, rules: Rules): (r: seq<Node>)
    requires forall i :: 0 <= i < |entries| ==> entries[i].Mapping?
    ensures |r| == |entries| && forall i :: 0 <= i < |r| ==> r[i] == Cleaned(entries[i], provider, rules)
  {
    if entries == [] then []
    else CleanedAll(entries[..|entries| - 1], provider, rules) + [Cleaned(entries[|entries| - 1], provider, rules)]
  }

  /** A per-key pool overrides the group's pool field by field and inherits every field it omits or leaves null. */
  lemma PoolOverridesByField(group: Node, key: Node, f: string, rules: Rules)
    requires rules.Valid()
    requires group.Mapping? && key.Mapping? && POOL in key.fields && key.fields[POOL].Mapping?
    requires POOL in group.fields && group.fields[POOL].Mapping?
    ensures Get(EntryOf(group, key, rules), [POOL, f]) ==
            (if f in key.fields[POOL].fields && !IsNull(key.fields[POOL].fields[f]) then Some(key.fields[POOL].fields[f])
             else Get(group, [POOL, f]))
  {
    assert [POOL, f][1..] == [f];
    var pool := MergePool(Some(group.fields[POOL]), key.fields[POOL]);
    assert EntryOf(group, key, rules).fields[POOL] == pool;
    assert Field(pool, f) == (if f in key.fields[POOL].fields && !IsNull(key.fields[POOL].fields[f]) then Some(key.fields[POOL].fields[f])
                              else Field(group.fields[POOL], f));
  }
}
