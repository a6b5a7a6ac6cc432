/**
 The process-local Claude thinking replay cache: signed assistant turns per session, with an exact
 running byte total and limits per session and for the whole cache.
 */
module ClaudeReplay {
  import opened Options
  import opened MapSums
  import Eviction
  import SetSizes

  const MAX_ENTRIES := 10240
  const EVICT_BATCH := 128
  const MAX_SESSION_BYTES := 0x80_0000
  const MAX_SESSION_TURNS := 64
  const MAX_TOTAL_BYTES := 0x1000_0000

  /** The empty key stands for a missing model family or session. */
  type Key = string
  type Generation = nat

  /** A stored content array: its length, its canonical JSON if it has one, and the bytes themselves. */
  datatype Content = Content(bytes: nat, canonical: Option<nat>, payload: nat)

  datatype Entry = Entry(contents: seq<Content>, timestamp: int, generation: Generation, deleted: bool)

  datatype Snapshot = Snapshot(loaded: bool, found: bool, generation: Generation)

  // ---- One session ----

  function Bytes(contents: seq<Content>): nat {
    if contents == [] then 0 else contents[0].bytes + Bytes(contents[1..])
  }

  predicate SessionFits(contents: seq<Content>) {
    |contents| <= MAX_SESSION_TURNS && Bytes(contents) <= MAX_SESSION_BYTES
  }

  /** The size part of a content's validity; its JSON shape is decided elsewhere. */
  predicate ValidSize(content: Content) {
    0 < content.bytes <= MAX_SESSION_BYTES
  }

  predicate SameJson(a: Content, b: Content) {
    a.canonical.Some? && a.canonical == b.canonical
  }

  /** Drops turns from the front until both session limits hold. */
  function TrimSession(contents: seq<Content>): seq<Content> {
    if SessionFits(contents) || contents == [] then contents else TrimSession(contents[1..])
  }

  function AppendTurn(contents: seq<Content>, content: Content): seq<Content> {
    if exists i :: 0 <= i < |contents| && SameJson(contents[i], content) then contents
    else TrimSession(contents + [content])
  }

  method Append(contents: seq<Content>, content: Content) returns (cloned: seq<Content>)
    ensures cloned == AppendTurn(contents, content)
  {
    cloned := contents;
    for i := 0 to |cloned|
      invariant forall j :: 0 <= j < i ==> !SameJson(contents[j], content)
    {
      if SameJson(cloned[i], content) {
        return;
      }
    }
    cloned := cloned + [content];
    while |cloned| > MAX_SESSION_TURNS || Bytes(cloned) > MAX_SESSION_BYTES
      invariant TrimSession(cloned) == TrimSession(contents + [content])
      decreases |cloned|
    {
      if |cloned| == 0 {
        break;
      }
      cloned := cloned[1..];
    }
  }

  /** Trimming keeps the longest suffix within the limits. */
  lemma {:induction false} TrimIsLongest(contents: seq<Content>) returns (k: nat)
    ensures k <= |contents| && TrimSession(contents) == contents[k..] && SessionFits(contents[k..])
    ensures forall j :: 0 <= j < k ==> !SessionFits(contents[j..])
  {
    if SessionFits(contents) || contents == [] {
      k := 0;
      assert contents[0..] == contents;
    } else {
      var inner := TrimIsLongest(contents[1..]);
      k := inner + 1;
      assert contents[1..][inner..] == contents[k..];
      forall j | 0 <= j < k
        ensures !SessionFits(contents[j..])
      {
        if j > 0 {
          assert contents[1..][j - 1..] == contents[j..];
        } else {
          assert contents[0..] == contents;
        }
      }
    }
  }

  /** A valid new turn always survives: at most older turns are dropped for it. A turn already there changes nothing. */
  lemma NewTurnSurvives(contents: seq<Content>, content: Content) returns (k: nat)
    requires ValidSize(content)
    ensures (exists i :: 0 <= i < |contents| && SameJson(contents[i], content)) ==> AppendTurn(contents, content) == contents
    ensures (forall i :: 0 <= i < |contents| ==> !SameJson(contents[i], content)) ==>
              k <= |contents| && AppendTurn(contents, content) == contents[k..] + [content] && SessionFits(contents[k..] + [content])
  {
    var all := contents + [content];
    k := TrimIsLongest(all);
    assert all[|contents|..] == [content];
    assert Bytes([content]) == content.bytes + Bytes([]);
    assert SessionFits([content]);
    assert k <= |contents|;
    assert all[k..] == contents[k..] + [content];
  }

  lemma AppendFits(contents: seq<Content>, content: Content)
    requires SessionFits(contents) && ValidSize(content)
    ensures SessionFits(AppendTurn(contents, content))
  {
    var _ := TrimIsLongest(contents + [content]);
  }

  // ---- The whole cache ----

  function Ages(entries: map<Key, Entry>): map<Key, int> {
    map k | k in entries :: entries[k].timestamp
  }

  function Sizes(entries: map<Key, Entry>): map<Key, nat> {
    map k | k in entries :: Bytes(entries[k].contents)
  }

  ghost function Total(entries: map<Key, Entry>): nat {
    Sum(Sizes(entries))
  }

  /** The bytes an entry adds to the total, none when it is absent. */
  function Share(entries: map<Key, Entry>, key: Key): nat {
    if key in entries then Bytes(entries[key].contents) else 0
  }

  ghost predicate Within(entries: map<Key, Entry>) {
    |entries| <= MAX_ENTRIES && Total(entries) <= MAX_TOTAL_BYTES
  }

  ghost predicate SessionsFit(entries: map<Key, Entry>) {
    forall k :: k in entries ==> SessionFits(entries[k].contents)
  }

  /** Oldest-first batches are evicted, exactly as long as a limit is exceeded. */
  ghost predicate Enforced(before: map<Key, Entry>, after: map<Key, Entry>, rounds: nat)
    decreases rounds
  {
    if Within(before) then rounds == 0 && after == before
    else rounds > 0 && exists victims :: Batch(before, victims) && Enforced(before - victims, after, rounds - 1)
  }

  ghost predicate Batch(entries: map<Key, Entry>, victims: set<Key>) {
    Eviction.OldestBatch(Ages(entries), victims, EVICT_BATCH)
  }

  /** One entry written, then the limits enforced. */
  ghost predicate Written(before: map<Key, Entry>, key: Key, entry: Entry, after: map<Key, Entry>) {
    Settled(before[key := entry], after)
  }

  ghost predicate Settled(before: map<Key, Entry>, after: map<Key, Entry>) {
    exists rounds: nat :: Enforced(before, after, rounds)
  }

  // ---- Operations ----

  /** A request's call, with the fresh generation it draws and the clock it sees. */
  datatype Op =
    | Store(key: Key, content: Content, wellFormed: bool, generation: Generation, now: int)
    | Read(key: Key, generation: Generation, now: int)
    | Replace(key: Key, snapshot: Snapshot, content: Content, wellFormed: bool, generation: Generation, now: int)
    | DeleteIf(key: Key, snapshot: Snapshot, generation: Generation, now: int)
    | Drop(key: Key)
    | Clear
    | Purge(now: int)

  function Tombstone(generation: Generation, now: int): Entry {
    Entry([], now, generation, true)
  }

  predicate Live(ttl: nat, entries: map<Key, Entry>, key: Key, now: int) {
    key in entries && now - entries[key].timestamp <= ttl
  }

  /** The snapshot describes the state held now. */
  predicate Matches(entries: map<Key, Entry>, key: Key, snapshot: Snapshot) {
    (key in entries <==> snapshot.found) && (key in entries ==> entries[key].generation == snapshot.generation)
  }

  predicate Succeeds(entries: map<Key, Entry>, op: Op) {
    match op
    case Store(key, content, wellFormed, _, _) => key != "" && ValidSize(content) && wellFormed
    case Read(key, _, _) => key != ""
    case Replace(key, snapshot, content, wellFormed, _, _) =>
      key != "" && ValidSize(content) && wellFormed && (snapshot.loaded ==> Matches(entries, key, snapshot))
    case DeleteIf(key, snapshot, _, _) => key != "" && (snapshot.loaded ==> Matches(entries, key, snapshot))
    case Drop(key) => key != ""
    case Clear => true
    case Purge(_) => true
  }

  /** A miss puts a tombstone, which enforcement may evict, back in place. */
  ghost predicate Reserved(before: map<Key, Entry>, key: Key, tombstone: Entry, after: map<Key, Entry>) {
    exists settled :: Written(before, key, tombstone, settled) && after == settled[key := tombstone]
  }

  /** What a publication appends to. */
  function Base(entries: map<Key, Entry>, key: Key, snapshot: Snapshot): seq<Content> {
    if snapshot.loaded && key in entries then entries[key].contents else []
  }

  ghost predicate Next(ttl: nat, before: map<Key, Entry>, op: Op, after: map<Key, Entry>) {
    if !Succeeds(before, op) then after == before else
    match op
    case Store(key, content, _, generation, now) => Written(before, key, Entry([content], now, generation, false), after)
    case Read(key, generation, now) =>
      if Live(ttl, before, key, now) then after == before[key := before[key].(timestamp := now)]
      else Reserved(before, key, Tombstone(generation, now), after)
    case Replace(key, snapshot, content, _, generation, now) =>
      Written(before, key, Entry(AppendTurn(Base(before, key, snapshot), content), now, generation, false), after)
    case DeleteIf(key, snapshot, generation, now) =>
      after == if snapshot.loaded then before[key := Tombstone(generation, now)] else before - {key}
    case Drop(key) => after == before - {key}
    case Clear => after == map[]
    case Purge(now) => after == map k | k in before && now - before[k].timestamp <= ttl :: before[k]
  }

  lemma OneRound(entries: map<Key, Entry>, victims: set<Key>, after: map<Key, Entry>, rounds: nat)
    requires !Within(entries) && Batch(entries, victims) && Enforced(entries - victims, after, rounds)
    ensures Enforced(entries, after, rounds + 1)
  {
  }

  /** After `rounds` rounds the eviction of `start` stands at `now`. */
  ghost predicate Leads(start: map<Key, Entry>, now: map<Key, Entry>, rounds: nat) {
    forall after, more: nat :: Enforced(now, after, more) ==> Enforced(start, after, rounds + more)
  }

  lemma LeadsFromStart(start: map<Key, Entry>)
    ensures Leads(start, start, 0)
  {
  }

  lemma LeadsOn(start: map<Key, Entry>, now: map<Key, Entry>, victims: set<Key>, rounds: nat)
    requires Leads(start, now, rounds) && !Within(now) && Batch(now, victims)
    ensures Leads(start, now - victims, rounds + 1)
  {
    forall after, more: nat | Enforced(now - victims, after, more)
      ensures Enforced(start, after, rounds + 1 + more)
    {
      OneRound(now, victims, after, more);
      assert Enforced(start, after, rounds + (more + 1));
    }
  }

  lemma LeadsHere(start: map<Key, Entry>, now: map<Key, Entry>, rounds: nat)
    requires Leads(start, now, rounds) && Within(now)
    ensures Settled(start, now)
  {
    assert Enforced(now, now, 0);
    assert Enforced(start, now, rounds + 0);
  }

  lemma TotalUpdate(entries: map<Key, Entry>, key: Key, entry: Entry)
    ensures Total(entries[key := entry]) == Total(entries) - Share(entries, key) + Bytes(entry.contents)
  {
    assert Sizes(entries[key := entry]) == Sizes(entries)[key := Bytes(entry.contents)];
    SumUpdate(Sizes(entries), key, Bytes(entry.contents));
  }

  lemma TotalWithout(entries: map<Key, Entry>, key: Key)
    requires key in entries
    ensures Total(entries - {key}) == Total(entries) - Share(entries, key)
    ensures |entries - {key}| == |entries| - 1
  {
    assert Sizes(entries - {key}) == Sizes(entries) - {key};
    SumWithout(Sizes(entries), key);
    assert (entries - {key}).Keys == entries.Keys - {key};
  }

  class ReplayCache {
    const ttl: nat
    var entries: map<Key, Entry>
    var totalBytes: int

    ghost predicate Valid()
      reads this
    {
      totalBytes == Total(entries) && SessionsFit(entries)
    }

    constructor (ttl: nat)
      ensures Valid() && entries == map[] && this.ttl == ttl
    {
      this.ttl, entries, totalBytes := ttl, map[], 0;
    }

    method Remove(key: Key)
      requires Valid() && key in entries
      modifies this
      ensures Valid() && entries == old(entries) - {key}
    {
      TotalWithout(entries, key);
      totalBytes := totalBytes - Bytes(entries[key].contents);
      entries := entries - {key};
    }

    method EvictOldest(count: nat) returns (ghost victims: set<Key>)
      requires Valid()
      modifies this
      ensures Valid() && entries == old(entries) - victims
      ensures Eviction.OldestBatch(Ages(old(entries)), victims, count)
    {
      ghost var before := entries;
      var batch;
      batch, victims := Eviction.SelectOldest(Ages(entries), count);
      ghost var gone: set<Key> := {};
      for i := 0 to |batch|
        invariant Valid()
        invariant entries == before - gone && gone <= victims
        invariant forall j :: 0 <= j < i ==> batch[j] in gone
        invariant forall j :: i <= j < |batch| ==> batch[j] in victims && batch[j] in entries
      {
        Eviction.RemoveOneMore(before, gone, batch[i]);
        Remove(batch[i]);
        gone := gone + {batch[i]};
      }
      assert gone == victims;
    }

    method EvictRound(ghost start: map<Key, Entry>, ghost rounds: nat)
      requires Valid() && !Within(entries) && entries != map[] && Leads(start, entries, rounds)
      modifies this
      ensures Valid() && Leads(start, entries, rounds + 1) && |entries| < |old(entries)|
    {
      ghost var before := entries;
      ghost var victims := EvictOldest(EVICT_BATCH);
      BatchShrinks(before, victims);
      LeadsOn(start, before, victims, rounds);
    }

    /** The branch that resets the total on an empty map cannot be reached. */
    method EnforceLimits()
      requires Valid()
      modifies this
      ensures Valid() && Settled(old(entries), entries) && Within(entries)
    {
      ghost var rounds := 0;
      ghost var start := entries;
      LeadsFromStart(start);
      while |entries| > MAX_ENTRIES || totalBytes > MAX_TOTAL_BYTES
        invariant Valid()
        invariant Leads(start, entries, rounds)
        decreases |entries|
      {
        if |entries| == 0 {
          EmptyIsWithin(entries);
          assert false;
        }
        EvictRound(start, rounds);
        rounds := rounds + 1;
      }
      LeadsHere(start, entries, rounds);
    }

    method Put(key: Key, entry: Entry)
      requires Valid() && SessionFits(entry.contents)
      modifies this
      ensures Valid() && Written(old(entries), key, entry, entries) && Within(entries)
    {
      TotalUpdate(entries, key, entry);
      if key in entries {
        totalBytes := totalBytes - Bytes(entries[key].contents);
      }
      totalBytes := totalBytes + Bytes(entry.contents);
      entries := entries[key := entry];
      EnforceLimits();
    }

    /** CacheClaudeThinkingReplayBestEffort; `wellFormed` says whether the content is an acceptable JSON array. */
    method CacheTurn(key: Key, content: Content, wellFormed: bool, generation: Generation, now: int) returns (ok: bool)
      requires Valid()
      modifies this
      ensures Valid()
      ensures Next(ttl, old(entries), Op.Store(key, content, wellFormed, generation, now), entries)
      ensures ok <==> Succeeds(old(entries), Op.Store(key, content, wellFormed, generation, now))
      ensures if ok then Within(entries) else entries == old(entries)
    {
      if key == "" || !ValidSize(content) || !wellFormed {
        return false;
      }
      assert Bytes([content]) == content.bytes + Bytes([]);
      Put(key, Entry([content], now, generation, false));
      return true;
    }

    /** A miss leaves a tombstone behind, so that the snapshot of a miss can also be checked later. */
    method GetWithSnapshot(key: Key, generation: Generation, now: int)
      returns (contents: seq<Content>, snapshot: Snapshot, found: bool)
      requires Valid()
      modifies this
      ensures Valid() && (Within(old(entries)) ==> Within(entries))
      ensures Next(ttl, old(entries), Op.Read(key, generation, now), entries)
      ensures key == "" ==> !snapshot.loaded && !found
      ensures key != "" ==> key in entries && snapshot == Snapshot(true, true, entries[key].generation)
      ensures key != "" ==> contents == (if entries[key].deleted then [] else entries[key].contents) && (found <==> contents != [])
    {
      if key == "" {
        return [], Snapshot(false, false, 0), false;
      }
      var live := key in entries && now - entries[key].timestamp <= ttl;
      ghost var start := entries;
      var entry: Entry;
      if !live {
        if key in entries {
          Remove(key);
        }
        entry := Tombstone(generation, now);
        ghost var absent := entries;
        assert absent[key := entry] == start[key := entry];
        Put(key, entry);
        ReservationFits(start, key, entry, entries);
      } else {
        entry := entries[key].(timestamp := now);
        TouchKeepsTotal(entries, key, entry);
      }
      ghost var settled := entries;
      TouchKeepsTotal(entries, key, entry);
      entries := entries[key := entry];
      assert !live ==> Written(start, key, entry, settled);
      snapshot := Snapshot(true, true, entry.generation);
      contents := if entry.deleted then [] else entry.contents;
      found := contents != [];
    }

    /** Appends a turn to exactly the state the snapshot read, or changes nothing. */
    method ReplaceIfUnchanged(key: Key, snapshot: Snapshot, content: Content, wellFormed: bool, generation: Generation, now: int)
      returns (ok: bool)
      requires Valid()
      modifies this
      ensures Valid()
      ensures Next(ttl, old(entries), Op.Replace(key, snapshot, content, wellFormed, generation, now), entries)
      ensures ok <==> Succeeds(old(entries), Op.Replace(key, snapshot, content, wellFormed, generation, now))
      ensures if ok then Within(entries) else entries == old(entries)
    {
      if key == "" || !ValidSize(content) || !wellFormed {
        return false;
      }
      if !snapshot.loaded {
        FirstTurn(content);
        ok := CacheTurn(key, content, wellFormed, generation, now);
        return;
      }
      if !Matches(entries, key, snapshot) {
        return false;
      }
      var previous := if key in entries then entries[key].contents else [];
      var contents := Append(previous, content);
      AppendFits(previous, content);
      Put(key, Entry(contents, now, generation, false));
      return true;
    }

    method Delete(key: Key)
      requires Valid()
      modifies this
      ensures Valid() && (Within(old(entries)) ==> Within(entries))
      ensures Next(ttl, old(entries), Op.Drop(key), entries)
    {
      if key == "" {
        return;
      }
      if key in entries {
        TotalWithout(entries, key);
        Remove(key);
      } else {
        assert entries - {key} == entries;
      }
    }

    /** Leaves a tombstone in place of exactly the state the snapshot read; it does not enforce the limits. */
    method DeleteIfUnchanged(key: Key, snapshot: Snapshot, generation: Generation, now: int) returns (ok: bool)
      requires Valid()
      modifies this
      ensures Valid()
      ensures Next(ttl, old(entries), Op.DeleteIf(key, snapshot, generation, now), entries)
      ensures ok <==> Succeeds(old(entries), Op.DeleteIf(key, snapshot, generation, now))
      ensures Within(old(entries)) && snapshot.found ==> Within(entries)
    {
      if key == "" {
        return false;
      }
      if !snapshot.loaded {
        Delete(key);
        return true;
      }
      if !Matches(entries, key, snapshot) {
        return false;
      }
      TotalUpdate(entries, key, Tombstone(generation, now));
      if Within(entries) {
        DeleteKeepsLimitsIff(entries, key, generation, now);
      }
      if key in entries {
        totalBytes := totalBytes - Bytes(entries[key].contents);
      }
      entries := entries[key := Tombstone(generation, now)];
      return true;
    }

    method ClearAll()
      modifies this
      ensures Valid() && Next(ttl, old(entries), Op.Clear, entries)
    {
      entries, totalBytes := map[], 0;
    }

    method PurgeExpired(now: int)
      requires Valid()
      modifies this
      ensures Valid() && Next(ttl, old(entries), Op.Purge(now), entries)
      ensures Within(old(entries)) ==> Within(entries)
    {
      var rest := entries.Keys;
      ghost var start := entries;
      while rest != {}
        invariant Valid() && rest <= entries.Keys
        invariant forall k :: k in entries ==> k in start && entries[k] == start[k]
        invariant forall k :: k in start && k !in entries ==> now - start[k].timestamp > ttl
        invariant forall k :: k in entries && k !in rest ==> now - start[k].timestamp <= ttl
        decreases |rest|
      {
        var key :| key in rest;
        RemoveExpired(key, now);
        rest := rest - {key};
      }
      PurgedIs(ttl, start, entries, now);
    }

    method RemoveExpired(key: Key, now: int)
      requires Valid() && key in entries
      modifies this
      ensures Valid() && entries == if now - old(entries)[key].timestamp > ttl then old(entries) - {key} else old(entries)
    {
      if now - entries[key].timestamp > ttl {
        Remove(key);
      }
    }
  }

  /** Without the expired entries, and with nothing else changed. */
  lemma PurgedIs(ttl: nat, before: map<Key, Entry>, after: map<Key, Entry>, now: int)
    requires forall k :: k in after ==> k in before && after[k] == before[k] && now - before[k].timestamp <= ttl
    requires forall k :: k in before && k !in after ==> now - before[k].timestamp > ttl
    ensures Next(ttl, before, Op.Purge(now), after)
    ensures Within(before) ==> Within(after)
  {
    FewerEntriesFit(after, before);
  }

  lemma FewerEntriesFit(small: map<Key, Entry>, large: map<Key, Entry>)
    requires forall k :: k in small ==> k in large && small[k] == large[k]
    ensures Within(large) ==> Within(small)
  {
    SumSubmap(Sizes(small), Sizes(large));
    SetSizes.Subset(small.Keys, large.Keys);
  }

  lemma FirstTurn(content: Content)
    requires ValidSize(content)
    ensures AppendTurn([], content) == [content]
  {
    assert [] + [content] == [content];
    assert Bytes([content]) == content.bytes + Bytes([]);
  }

  /** Writing an entry with the same contents as the present one, or an empty one, changes no total. */
  lemma TouchKeepsTotal(entries: map<Key, Entry>, key: Key, entry: Entry)
    requires Bytes(entry.contents) == Share(entries, key)
    ensures Total(entries[key := entry]) == Total(entries)
  {
    TotalUpdate(entries, key, entry);
  }

  // ---- What enforcing the limits does ----

  /** Sizes and contents after one batch has gone. */
  lemma BatchRemoves(entries: map<Key, Entry>, victims: set<Key>)
    requires Batch(entries, victims)
    ensures victims <= entries.Keys && |entries - victims| == |entries| - |victims|
    ensures |victims| == if EVICT_BATCH < |entries| then EVICT_BATCH else |entries|
    ensures entries - victims == map[] <==> |entries| <= EVICT_BATCH
  {
    assert Ages(entries).Keys == entries.Keys;
    assert (entries - victims).Keys == entries.Keys - victims;
    assert |(entries - victims).Keys| == |entries - victims|;
  }

  lemma FirstRound(before: map<Key, Entry>, after: map<Key, Entry>, rounds: nat) returns (victims: set<Key>)
    requires Enforced(before, after, rounds) && !Within(before)
    ensures rounds > 0 && Batch(before, victims) && Enforced(before - victims, after, rounds - 1)
  {
    victims :| Batch(before, victims) && Enforced(before - victims, after, rounds - 1);
  }

  /** What is left after some rounds: entries of the start, all of them, none, or at least one batch fewer. */
  ghost predicate LeftOver(before: map<Key, Entry>, after: map<Key, Entry>) {
    && (forall k :: k in after ==> k in before && after[k] == before[k])
    && (after == before || after == map[] || |after| + EVICT_BATCH <= |before|)
  }

  lemma LeftOverOfRound(before: map<Key, Entry>, victims: set<Key>, after: map<Key, Entry>)
    requires Batch(before, victims) && LeftOver(before - victims, after)
    ensures LeftOver(before, after)
  {
    BatchRemoves(before, victims);
  }

  /** Enforcement only removes, ends within the limits, and removes a full batch if anything. */
  lemma {:induction false} EnforcedShrinks(before: map<Key, Entry>, after: map<Key, Entry>, rounds: nat)
    requires Enforced(before, after, rounds)
    ensures Within(after) && LeftOver(before, after)
    decreases rounds
  {
    if !Within(before) {
      var victims := FirstRound(before, after, rounds);
      EnforcedShrinks(before - victims, after, rounds - 1);
      LeftOverOfRound(before, victims, after);
    }
  }

  /** The entry reserved for a miss keeps its place or leaves room for it to be put back. */
  lemma ReservationFits(before: map<Key, Entry>, key: Key, entry: Entry, after: map<Key, Entry>)
    requires Written(before, key, entry, after) && entry.contents == []
    ensures Share(after, key) == 0
    ensures |before| <= MAX_ENTRIES ==> |after[key := entry]| <= MAX_ENTRIES
  {
    var rounds := Rounds(before[key := entry], after);
    RoomForOne(before, key, entry, after, rounds);
  }

  lemma Rounds(before: map<Key, Entry>, after: map<Key, Entry>) returns (rounds: nat)
    requires Settled(before, after)
    ensures Enforced(before, after, rounds)
  {
    rounds :| Enforced(before, after, rounds);
  }

  lemma RoomForOne(before: map<Key, Entry>, key: Key, entry: Entry, after: map<Key, Entry>, rounds: nat)
    requires Enforced(before[key := entry], after, rounds) && entry.contents == []
    ensures Share(after, key) == 0
    ensures |before| <= MAX_ENTRIES ==> |after[key := entry]| <= MAX_ENTRIES
  {
    EnforcedShrinks(before[key := entry], after, rounds);
    RoomLeft(before, key, entry, after);
  }

  lemma RoomLeft(before: map<Key, Entry>, key: Key, entry: Entry, after: map<Key, Entry>)
    requires forall k :: k in after ==> k in before[key := entry] && after[k] == before[key := entry][k]
    requires |after| <= MAX_ENTRIES && entry.contents == []
    requires after == before[key := entry] || after == map[] || |after| + EVICT_BATCH <= |before[key := entry]|
    ensures Share(after, key) == 0
    ensures |before| <= MAX_ENTRIES ==> |after[key := entry]| <= MAX_ENTRIES
  {
    SetSizes.Update(before, key, entry);
    SetSizes.Update(after, key, entry);
    if key in after {
      assert after[key] == before[key := entry][key] == entry;
    }
  }

  /**
   Deletion with a loaded snapshot skips enforcement, so it keeps the cache within its limits exactly
   when the key is present or there is room for one more entry.
   */
  lemma DeleteKeepsLimitsIff(before: map<Key, Entry>, key: Key, generation: Generation, now: int)
    requires Within(before)
    ensures Within(before[key := Tombstone(generation, now)]) <==> key in before || |before| < MAX_ENTRIES
  {
    TotalUpdate(before, key, Tombstone(generation, now));
    SetSizes.Update(before, key, Tombstone(generation, now));
  }

  lemma EmptyIsWithin(entries: map<Key, Entry>)
    requires |entries| == 0
    ensures Within(entries)
  {
    assert Sizes(entries) == map[];
  }

  lemma BatchShrinks(entries: map<Key, Entry>, victims: set<Key>)
    requires Batch(entries, victims) && entries != map[]
    ensures |entries - victims| < |entries|
  {
    BatchRemoves(entries, victims);
  }
}
