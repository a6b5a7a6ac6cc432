/**
 The in-process Antigravity reasoning replay cache: a request reads a snapshot of one
 conversation, runs for a long time, and publishes or deletes "only if unchanged".
 `Next` is the specification of one locked operation, `ReplayCache` the imperative cache
 proved against it; `AntigravityHistory` is about every run of `Next` steps.
 */
module AntigravityReplay {
  import opened Options
  import Eviction

  const TTL: int := 3_600_000_000_000
  const MAX_ENTRIES: nat := 10240
  const EVICT_BATCH: nat := 128
  const MAX_ITEMS: nat := 4096
  const MAX_BYTES: nat := 16 * 1024 * 1024

  type Key = string
  type Nonce = string

  /** A replay item as the normalizer sees it: already canonical, rewritable to a canonical form, or rejected. */
  datatype Item = Canonical(bytes: string) | Rewritable(bytes: string, canonical: string) | Rejected(bytes: string)

  datatype Entry = Entry(items: seq<Item>, timestamp: int, revision: nat, branch: Nonce, deleted: bool)

  datatype Snapshot = Snapshot(items: seq<Item>, loaded: bool, found: bool, revision: nat, branch: Nonce, evictionEpoch: nat)

  const NO_SNAPSHOT := Snapshot([], false, false, 0, "", 0)

  datatype State = State(entries: map<Key, Entry>, nextRevision: nat, evictionEpoch: nat)

  const EMPTY := State(map[], 0, 0)

  // ---- Normalization of item lists ----

  function NormalizeItem(item: Item): Option<Item> {
    match item
    case Canonical(_) => Some(item)
    case Rewritable(_, canonical) => Some(Canonical(canonical))
    case Rejected(_) => None
  }

  function NormalForms(items: seq<Item>): seq<Item> {
    if items == [] then []
    else
      var rest := NormalForms(items[..|items| - 1]);
      match NormalizeItem(items[|items| - 1])
      case Some(item) => rest + [item]
      case None => rest
  }

  function TotalBytes(items: seq<Item>): nat {
    if items == [] then 0 else TotalBytes(items[..|items| - 1]) + |items[|items| - 1].bytes|
  }

  function Normalize(items: seq<Item>): Option<seq<Item>> {
    var forms := NormalForms(items);
    if |items| > MAX_ITEMS || TotalBytes(forms) > MAX_BYTES || forms == [] then None else Some(forms)
  }

  /** What the cache may hold for a live conversation. */
  ghost predicate Storable(items: seq<Item>) {
    && 0 < |items| <= MAX_ITEMS
    && TotalBytes(items) <= MAX_BYTES
    && forall item :: item in items ==> item.Canonical?
  }

  lemma {:induction false} NormalFormsAreCanonical(items: seq<Item>)
    ensures |NormalForms(items)| <= |items|
    ensures forall item :: item in NormalForms(items) ==> item.Canonical?
  {
    if items != [] {
      NormalFormsAreCanonical(items[..|items| - 1]);
    }
  }

  lemma {:induction false} CanonicalIsNormal(items: seq<Item>)
    requires forall item :: item in items ==> item.Canonical?
    ensures NormalForms(items) == items
  {
    if items != [] {
      CanonicalIsNormal(items[..|items| - 1]);
      assert items == items[..|items| - 1] + [items[|items| - 1]];
    }
  }

  /** Exactly the storable lists are their own normal form, and a normal form is always storable. */
  lemma NormalizeYieldsStorable(items: seq<Item>)
    ensures Normalize(items).Some? ==> Storable(Normalize(items).value)
    ensures Storable(items) <==> Normalize(items) == Some(items)
  {
    NormalFormsAreCanonical(items);
    if Storable(items) {
      CanonicalIsNormal(items);
    }
  }

  lemma {:induction false} TotalBytesPrefix(items: seq<Item>, n: nat)
    requires n <= |items|
    ensures TotalBytes(items[..n]) <= TotalBytes(items)
  {
    if n < |items| {
      TotalBytesPrefix(items[..|items| - 1], n);
      assert items[..|items| - 1][..n] == items[..n];
    } else {
      assert items[..n] == items;
    }
  }

  lemma {:induction false} NormalFormsPrefix(items: seq<Item>, n: nat)
    requires n <= |items|
    ensures NormalForms(items[..n]) <= NormalForms(items)
  {
    if n < |items| {
      NormalFormsPrefix(items[..|items| - 1], n);
      assert items[..|items| - 1][..n] == items[..n];
    } else {
      assert items[..n] == items;
    }
  }

  /** The loop of the source, which gives up as soon as the running byte total is too large. */
  method NormalizeItems(items: seq<Item>) returns (normalized: Option<seq<Item>>)
    ensures normalized == Normalize(items)
  {
    if |items| > MAX_ITEMS {
      return None;
    }
    var kept: seq<Item>, total := [], 0;
    for i := 0 to |items|
      invariant kept == NormalForms(items[..i])
      invariant total == TotalBytes(kept) <= MAX_BYTES
    {
      assert items[..i + 1][..i] == items[..i];
      match NormalizeItem(items[i])
      case None =>
      case Some(item) =>
        assert (kept + [item])[..|kept|] == kept;
        total := total + |item.bytes|;
        if total > MAX_BYTES {
          NormalFormsPrefix(items, i + 1);
          assert NormalForms(items)[..|kept| + 1] == kept + [item];
          TotalBytesPrefix(NormalForms(items), |kept| + 1);
          return None;
        }
        kept := kept + [item];
    }
    assert items[..|items|] == items;
    return if kept == [] then None else Some(kept);
  }

  // ---- One locked operation ----

  datatype Op =
    | Store(key: Key, items: seq<Item>, now: int, nonce: Nonce)
    | Read(key: Key, now: int, nonce: Nonce)
    | Replace(key: Key, snapshot: Snapshot, items: seq<Item>, now: int, nonce: Nonce)
    | DeleteIf(key: Key, snapshot: Snapshot, now: int, nonce: Nonce)
    | Delete(key: Key, now: int, nonce: Nonce)
    | Clear
    | Purge(now: int)

  function Ages(entries: map<Key, Entry>): map<Key, int> {
    map k | k in entries :: entries[k].timestamp
  }

  predicate Expired(entry: Entry, now: int) {
    now - entry.timestamp > TTL
  }

  function Put(s: State, key: Key, items: seq<Item>, branch: Nonce, deleted: bool, now: int): State {
    State(s.entries[key := Entry(items, now, s.nextRevision + 1, branch, deleted)], s.nextRevision + 1, s.evictionEpoch)
  }

  function Evict(s: State, victims: set<Key>): State {
    State(s.entries - victims, s.nextRevision, s.evictionEpoch + |victims|)
  }

  /** When `full`, one oldest-first batch leaves; ties may be broken either way. */
  ghost predicate Trimmed(before: State, after: State, full: bool) {
    if full then exists victims :: Eviction.OldestBatch(Ages(before.entries), victims, EVICT_BATCH) && after == Evict(before, victims)
    else after == before
  }

  /** Writes an entry with a fresh revision, evicting afterwards when the cache overflows. */
  ghost predicate Written(s: State, key: Key, items: seq<Item>, branch: Nonce, deleted: bool, now: int, s': State) {
    var put := Put(s, key, items, branch, deleted, now);
    Trimmed(put, s', |put.entries| > MAX_ENTRIES)
  }

  /** Fences a miss with a tombstone, making room first. */
  ghost predicate Reserved(s: State, key: Key, now: int, nonce: Nonce, s': State) {
    exists room :: Trimmed(s, room, |s.entries| >= MAX_ENTRIES) && s' == Put(room, key, [], nonce, true, now)
  }

  predicate Hit(s: State, key: Key, now: int) {
    key in s.entries && !Expired(s.entries[key], now)
  }

  function Drop(s: State, key: Key): State {
    if key in s.entries then Evict(s, {key}) else s
  }

  function Touch(s: State, key: Key, now: int): State
    requires key in s.entries
  {
    s.(entries := s.entries[key := s.entries[key].(timestamp := now)])
  }

  predicate Matches(s: State, key: Key, snapshot: Snapshot) {
    if key in s.entries then snapshot.found && s.entries[key].revision == snapshot.revision
    else !snapshot.found && s.evictionEpoch == snapshot.evictionEpoch
  }

  predicate Descends(s: State, key: Key, snapshot: Snapshot, items: seq<Item>) {
    && key in s.entries && !s.entries[key].deleted
    && snapshot.branch != "" && s.entries[key].branch == snapshot.branch
    && s.entries[key].items <= items
  }

  function PublishBranch(s: State, key: Key, snapshot: Snapshot, items: seq<Item>, nonce: Nonce): Nonce {
    if snapshot.branch == "" || (Matches(s, key, snapshot) && !(snapshot.items <= items)) then nonce else snapshot.branch
  }

  function ExpiredKeys(s: State, now: int): set<Key> {
    set k | k in s.entries && Expired(s.entries[k], now)
  }

  /** Whether the operation takes effect; for Replace and DeleteIf this is the value returned. */
  predicate Succeeds(s: State, op: Op) {
    match op
    case Store(key, items, _, _) => key != "" && Normalize(items).Some?
    case Read(key, _, _) => key != ""
    case Replace(key, snapshot, items, _, _) =>
      && key != "" && Normalize(items).Some?
      && (snapshot.loaded ==> Matches(s, key, snapshot) || Descends(s, key, snapshot, Normalize(items).value))
    case DeleteIf(key, snapshot, _, _) => key != "" && (snapshot.loaded ==> Matches(s, key, snapshot))
    case Delete(key, _, _) => key != ""
    case Clear => true
    case Purge(_) => true
  }

  ghost predicate Next(s: State, op: Op, s': State) {
    if !Succeeds(s, op) then s' == s else
    match op
    case Store(key, items, now, nonce) => Written(s, key, Normalize(items).value, nonce, false, now, s')
    case Read(key, now, nonce) =>
      if Hit(s, key, now) then s' == Touch(s, key, now) else Reserved(Drop(s, key), key, now, nonce, s')
    case Replace(key, snapshot, items, now, nonce) =>
      var normalized := Normalize(items).value;
      var branch := if snapshot.loaded then PublishBranch(s, key, snapshot, normalized, nonce) else nonce;
      Written(s, key, normalized, branch, false, now, s')
    case DeleteIf(key, _, now, nonce) => Written(s, key, [], nonce, true, now, s')
    case Delete(key, now, nonce) => Written(s, key, [], nonce, true, now, s')
    case Clear => s' == State(map[], s.nextRevision, s.evictionEpoch + 1)
    case Purge(now) => s' == Evict(s, ExpiredKeys(s, now))
  }

  /** The snapshot a Read hands to its request: always of the entry the key holds afterwards. */
  function Issue(s': State, key: Key): Snapshot
    requires key in s'.entries
  {
    var entry := s'.entries[key];
    Snapshot(if entry.deleted then [] else entry.items, true, true, entry.revision, entry.branch, s'.evictionEpoch)
  }

  // ---- The cache object ----

  class ReplayCache {
    var entries: map<Key, Entry>
    var nextRevision: nat
    var evictionEpoch: nat

    ghost function Abstract(): State
      reads this
    {
      State(entries, nextRevision, evictionEpoch)
    }

    constructor ()
      ensures Abstract() == EMPTY
    {
      entries, nextRevision, evictionEpoch := map[], 0, 0;
    }

    method EvictOldest(count: nat)
      modifies this
      ensures exists victims ::
                && Eviction.OldestBatch(Ages(old(entries)), victims, count)
                && Abstract() == Evict(old(Abstract()), victims)
    {
      ghost var before := entries;
      var batch, victims := Eviction.SelectOldest(Ages(entries), count);
      ghost var gone: set<Key> := {};
      for i := 0 to |batch|
        invariant nextRevision == old(nextRevision)
        invariant evictionEpoch == old(evictionEpoch) + i
        invariant gone == set k | k in batch[..i]
        invariant entries == before - gone
      {
        assert batch[..i + 1] == batch[..i] + [batch[i]];
        Eviction.RemoveOneMore(before, gone, batch[i]);
        evictionEpoch := evictionEpoch + 1;
        entries := entries - {batch[i]};
        gone := gone + {batch[i]};
      }
      assert batch[..|batch|] == batch;
      assert Abstract() == Evict(old(Abstract()), victims);
    }

    method Write(key: Key, entry: Entry)
      requires entry.revision == nextRevision + 1
      modifies this
      ensures Written(old(Abstract()), key, entry.items, entry.branch, entry.deleted, entry.timestamp, Abstract())
    {
      nextRevision := nextRevision + 1;
      entries := entries[key := entry];
      if |entries| > MAX_ENTRIES {
        EvictOldest(EVICT_BATCH);
      }
    }

    /** CacheAntigravityReasoningReplayItemsBestEffort */
    method CacheItems(key: Key, items: seq<Item>, now: int, nonce: Nonce) returns (stored: bool)
      modifies this
      ensures Next(old(Abstract()), Store(key, items, now, nonce), Abstract())
      ensures stored == Succeeds(old(Abstract()), Store(key, items, now, nonce))
    {
      if key == "" {
        return false;
      }
      var normalized := NormalizeItems(items);
      if normalized.None? {
        return false;
      }
      Write(key, Entry(normalized.value, now, nextRevision + 1, nonce, false));
      return true;
    }

    /** reserveAntigravityReasoningReplayAbsentLocked */
    method ReserveAbsent(key: Key, now: int, nonce: Nonce) returns (snapshot: Snapshot)
      modifies this
      ensures Reserved(old(Abstract()), key, now, nonce, Abstract())
      ensures snapshot == Issue(Abstract(), key)
    {
      if |entries| >= MAX_ENTRIES {
        EvictOldest(EVICT_BATCH);
      }
      ghost var room := Abstract();
      assert Trimmed(old(Abstract()), room, |old(entries)| >= MAX_ENTRIES);
      nextRevision := nextRevision + 1;
      var entry := Entry([], now, nextRevision, nonce, true);
      entries := entries[key := entry];
      snapshot := Snapshot([], true, true, entry.revision, entry.branch, evictionEpoch);
      assert Abstract() == Put(room, key, [], nonce, true, now);
    }

    /** GetAntigravityReasoningReplayItemsWithSnapshotRequired, local mode */
    method GetWithSnapshot(key: Key, now: int, nonce: Nonce) returns (items: seq<Item>, snapshot: Snapshot, found: bool)
      modifies this
      ensures Next(old(Abstract()), Read(key, now, nonce), Abstract())
      ensures key == "" ==> !found && snapshot == NO_SNAPSHOT
      ensures key != "" ==> key in entries && snapshot == Issue(Abstract(), key)
      ensures found <==> Hit(old(Abstract()), key, now) && key != "" && !old(entries)[key].deleted && old(entries)[key].items != []
      ensures items == if found then old(entries)[key].items else []
    {
      if key == "" {
        return [], NO_SNAPSHOT, false;
      }
      if key !in entries {
        snapshot := ReserveAbsent(key, now, nonce);
        return [], snapshot, false;
      }
      var entry := entries[key];
      if now - entry.timestamp > TTL {
        evictionEpoch := evictionEpoch + 1;
        entries := entries - {key};
        snapshot := ReserveAbsent(key, now, nonce);
        return [], snapshot, false;
      }
      entry := entry.(timestamp := now);
      entries := entries[key := entry];
      snapshot := Snapshot([], true, true, entry.revision, entry.branch, evictionEpoch);
      if entry.deleted || |entry.items| == 0 {
        return [], snapshot, false;
      }
      snapshot := snapshot.(items := entry.items);
      return entry.items, snapshot, true;
    }

    /** ReplaceAntigravityReasoningReplayItemsIfUnchanged, local mode; None is the invalid-items error. */
    method ReplaceIfUnchanged(key: Key, snapshot: Snapshot, items: seq<Item>, now: int, nonce: Nonce) returns (published: Option<bool>)
      modifies this
      ensures Next(old(Abstract()), Replace(key, snapshot, items, now, nonce), Abstract())
      ensures published.None? <==> key != "" && Normalize(items).None?
      ensures published == Some(true) <==> Succeeds(old(Abstract()), Replace(key, snapshot, items, now, nonce))
    {
      if key == "" {
        return Some(false);
      }
      var normal := NormalizeItems(items);
      if normal.None? {
        return None;
      }
      var normalized := normal.value;
      if !snapshot.loaded {
        NormalizeYieldsStorable(items);
        NormalizeYieldsStorable(normalized);
        var stored := CacheItems(key, normalized, now, nonce);
        return Some(stored);
      }
      var found := key in entries;
      var matchesSnapshot := found == snapshot.found
        && ((found && entries[key].revision == snapshot.revision) || (!found && snapshot.evictionEpoch == evictionEpoch));
      var isDescendant := false;
      if found && !entries[key].deleted && snapshot.branch != "" && entries[key].branch == snapshot.branch {
        isDescendant := ItemsPrefix(entries[key].items, normalized);
      }
      if !matchesSnapshot && !isDescendant {
        return Some(false);
      }
      var branch := snapshot.branch;
      var continues := ItemsPrefix(snapshot.items, normalized);
      if branch == "" || (matchesSnapshot && !continues) {
        branch := nonce;
      }
      Write(key, Entry(normalized, now, nextRevision + 1, branch, false));
      return Some(true);
    }

    /** DeleteAntigravityReasoningReplayItemsIfUnchanged, local mode */
    method DeleteIfUnchanged(key: Key, snapshot: Snapshot, now: int, nonce: Nonce) returns (deleted: bool)
      modifies this
      ensures Next(old(Abstract()), DeleteIf(key, snapshot, now, nonce), Abstract())
      ensures deleted == Succeeds(old(Abstract()), DeleteIf(key, snapshot, now, nonce))
    {
      if key == "" {
        return false;
      }
      if !snapshot.loaded {
        DeleteItem(key, now, nonce);
        return true;
      }
      var found := key in entries;
      if found != snapshot.found || (found && entries[key].revision != snapshot.revision) || (!found && snapshot.evictionEpoch != evictionEpoch) {
        return false;
      }
      Write(key, Entry([], now, nextRevision + 1, nonce, true));
      return true;
    }

    /** DeleteAntigravityReasoningReplayItemRequired */
    method DeleteItem(key: Key, now: int, nonce: Nonce)
      modifies this
      ensures Next(old(Abstract()), Delete(key, now, nonce), Abstract())
    {
      if key != "" {
        Write(key, Entry([], now, nextRevision + 1, nonce, true));
      }
    }

    method ClearAll()
      modifies this
      ensures Next(old(Abstract()), Clear, Abstract())
    {
      entries, evictionEpoch := map[], evictionEpoch + 1;
    }

    method PurgeExpired(now: int)
      modifies this
      ensures Next(old(Abstract()), Purge(now), Abstract())
    {
      var rest, gone: set<Key> := entries.Keys, {};
      while rest != {}
        invariant rest <= old(entries).Keys && gone <= ExpiredKeys(old(Abstract()), now)
        invariant ExpiredKeys(old(Abstract()), now) - rest <= gone && gone !! rest
        invariant entries == old(entries) - gone
        invariant nextRevision == old(nextRevision) && evictionEpoch == old(evictionEpoch) + |gone|
        decreases |rest|
      {
        var key :| key in rest;
        if now - entries[key].timestamp > TTL {
          evictionEpoch := evictionEpoch + 1;
          entries := entries - {key};
          gone := gone + {key};
        }
        rest := rest - {key};
      }
      assert gone == ExpiredKeys(old(Abstract()), now);
    }
  }

  /** antigravityReasoningReplayItemsPrefix */
  method ItemsPrefix(prefix: seq<Item>, items: seq<Item>) returns (yes: bool)
    ensures yes <==> prefix <= items
  {
    if |prefix| > |items| {
      return false;
    }
    for i := 0 to |prefix|
      invariant prefix[..i] == items[..i]
    {
      if prefix[i] != items[i] {
        return false;
      }
    }
    return true;
  }
}
