/** The Codex replay cache: lists of items cut into turns by marker items, bounded per session and in number. */
module CodexReplay {
  import opened Options
  import Eviction
  import SetSizes

  const MAX_TURNS := 256
  const MAX_BYTES := 0x100_0000
  const MAX_ENTRIES := 10240
  const EVICT_BATCH := 128

  /** `marker` holds the trimmed id when the item is a turn marker; ids of stored foreign markers may be empty. */
  datatype Item = Item(marker: Option<string>, bytes: nat, payload: nat)

  function Bytes(items: seq<Item>): nat {
    if items == [] then 0 else Bytes(items[..|items| - 1]) + items[|items| - 1].bytes
  }

  /** Turns counted as the code does: the first one needs no marker. */
  function Turns(items: seq<Item>): nat {
    if |items| <= 1 then 1
    else Turns(items[..|items| - 1]) + (if items[|items| - 1].marker.Some? then 1 else 0)
  }

  predicate Fits(items: seq<Item>) {
    Turns(items) <= MAX_TURNS && Bytes(items) <= MAX_BYTES
  }

  /** A place where a list may be cut. */
  predicate Boundary(items: seq<Item>, k: nat) {
    k == 0 || (k < |items| && items[k].marker.Some?)
  }

  /** The first marker at or after `from`, or the length. */
  function NextMarker(items: seq<Item>, from: nat): (k: nat)
    requires from <= |items|
    ensures from <= k <= |items| && (k < |items| ==> items[k].marker.Some?)
    ensures forall j :: from <= j < k ==> items[j].marker.None?
    decreases |items| - from
  {
    if from == |items| || items[from].marker.Some? then from else NextMarker(items, from + 1)
  }

  /** Drops whole turns from the front until both limits hold. */
  function Trim(items: seq<Item>): seq<Item>
    decreases |items|
  {
    if Fits(items) then items
    else
      assert items != [];
      var k := NextMarker(items, 1);
      if k == |items| then [] else Trim(items[k..])
  }

  method TrimItems(given: seq<Item>) returns (items: seq<Item>)
    ensures items == Trim(given)
  {
    items := given;
    while true
      invariant Trim(items) == Trim(given)
      decreases |items|
    {
      var turnStarts, totalBytes := [0], 0;
      for index := 0 to |items|
        invariant totalBytes == Bytes(items[..index])
        invariant |turnStarts| == Turns(items[..index]) >= 1
        invariant |turnStarts| > 1 ==> turnStarts[1] < index && turnStarts[1] == NextMarker(items, 1)
        invariant |turnStarts| == 1 ==> forall j :: 0 < j < index ==> items[j].marker.None?
      {
        assert items[..index + 1][..index] == items[..index];
        totalBytes := totalBytes + items[index].bytes;
        if index > 0 && items[index].marker.Some? {
          turnStarts := turnStarts + [index];
        }
      }
      assert items[..|items|] == items;
      if |turnStarts| <= MAX_TURNS && totalBytes <= MAX_BYTES {
        return;
      }
      if |turnStarts| <= 1 {
        return [];
      }
      items := items[turnStarts[1]..];
    }
  }

  /** Trimming returns the longest suffix that starts at a turn boundary and meets both limits, or nothing. */
  lemma {:induction false} TrimIsLongest(items: seq<Item>) returns (k: nat)
    ensures k <= |items| && Trim(items) == items[k..]
    ensures Fits(items[k..]) && (Boundary(items, k) || k == |items|)
    ensures forall j :: 0 <= j < k && Boundary(items, j) ==> !Fits(items[j..])
    decreases |items|
  {
    if Fits(items) {
      k := 0;
    } else {
      var next := NextMarker(items, 1);
      if next == |items| {
        k := |items|;
      } else {
        var inner := TrimIsLongest(items[next..]);
        k := next + inner;
        assert items[next..][inner..] == items[k..];
        forall j | 0 <= j < k && Boundary(items, j)
          ensures !Fits(items[j..])
        {
          if j > 0 {
            assert j >= next;
            assert Boundary(items[next..], j - next) && items[next..][j - next..] == items[j..];
          }
        }
      }
    }
    assert items[0..] == items;
  }

  // ---- Appending a turn ----

  predicate HasTurn(items: seq<Item>, id: string) {
    exists i :: 0 <= i < |items| && items[i].marker == Some(id)
  }

  /** Lists from before markers existed are dropped. */
  function Marked(existing: seq<Item>): seq<Item> {
    if existing != [] && existing[0].marker.None? then [] else existing
  }

  function TurnId(turn: seq<Item>): string {
    if turn != [] && turn[0].marker.Some? then turn[0].marker.value else ""
  }

  function Append(existing: seq<Item>, turn: seq<Item>): seq<Item> {
    if TurnId(turn) != "" && HasTurn(Marked(existing), TurnId(turn)) then Trim(Marked(existing))
    else Trim(Marked(existing) + turn)
  }

  method AppendTurn(given: seq<Item>, turn: seq<Item>) returns (items: seq<Item>)
    ensures items == Append(given, turn)
  {
    var existing := given;
    if |existing| > 0 && existing[0].marker.None? {
      existing := [];
    }
    var turnId := "";
    if |turn| > 0 && turn[0].marker.Some? {
      turnId := turn[0].marker.value;
    }
    if turnId != "" {
      for i := 0 to |existing|
        invariant forall j :: 0 <= j < i ==> existing[j].marker != Some(turnId)
      {
        if existing[i].marker == Some(turnId) {
          items := TrimItems(existing);
          return;
        }
      }
    }
    items := TrimItems(existing + turn);
  }

  /** Everything stored meets both limits. */
  lemma AppendFits(existing: seq<Item>, turn: seq<Item>)
    ensures Fits(Append(existing, turn))
  {
    var _ := TrimIsLongest(Marked(existing));
    var _ := TrimIsLongest(Marked(existing) + turn);
  }

  /** A new turn that is within the limits itself is never trimmed: only older turns before it are. */
  lemma NewTurnSurvives(existing: seq<Item>, turn: seq<Item>) returns (k: nat)
    requires turn != [] && turn[0].marker.Some? && Fits(turn)
    requires TurnId(turn) == "" || !HasTurn(Marked(existing), TurnId(turn))
    ensures k <= |Marked(existing)| && (k == |Marked(existing)| || Boundary(Marked(existing), k))
    ensures Append(existing, turn) == Marked(existing)[k..] + turn
  {
    var all := Marked(existing) + turn;
    k := TrimIsLongest(all);
    var start := |Marked(existing)|;
    assert all[start..] == turn && Boundary(all, start);
    assert k <= start;
    assert all[k..] == Marked(existing)[k..] + turn;
    if 0 < k < start {
      assert all[k] == Marked(existing)[k];
    }
  }

  /** A list that already holds the turn keeps it through the trim that an append performs. */
  predicate KeepsTurn(existing: seq<Item>, id: string) {
    HasTurn(Marked(existing), id) ==> HasTurn(Trim(Marked(existing)), id)
  }

  /** A trimmed list still starts with a marker. */
  lemma TrimStartsMarked(items: seq<Item>)
    requires items != [] ==> items[0].marker.Some?
    ensures Marked(Trim(items)) == Trim(items)
  {
    var k := TrimIsLongest(items);
    if k < |items| {
      assert items[k..][0] == items[k];
    }
  }

  /** The turn is in the list after an append exactly when the trim of a list that held it already does not lose it. */
  lemma AppendedTurnIsHeldIff(existing: seq<Item>, turn: seq<Item>)
    requires TurnId(turn) != "" && Fits(turn)
    ensures HasTurn(Append(existing, turn), TurnId(turn)) <==> KeepsTurn(existing, TurnId(turn))
  {
    if !HasTurn(Marked(existing), TurnId(turn)) {
      var k := NewTurnSurvives(existing, turn);
      assert Append(existing, turn)[|Marked(existing)[k..]|] == turn[0];
    }
  }

  /** An appended list is its own marked part. */
  lemma AppendIsMarked(existing: seq<Item>, turn: seq<Item>)
    requires TurnId(turn) != "" && Fits(turn)
    ensures Marked(Append(existing, turn)) == Append(existing, turn)
  {
    if HasTurn(Marked(existing), TurnId(turn)) {
      TrimStartsMarked(Marked(existing));
    } else {
      TrimStartsMarked(Marked(existing) + turn);
    }
  }

  /**
   Retrying an append of an identified turn changes nothing exactly when the first append left the turn in
   the list. A list within the limits always meets the condition.
   */
  lemma AppendIsIdempotentIff(existing: seq<Item>, turn: seq<Item>)
    requires TurnId(turn) != "" && Fits(turn)
    ensures Append(Append(existing, turn), turn) == Append(existing, turn) <==> KeepsTurn(existing, TurnId(turn))
    ensures Fits(Marked(existing)) ==> KeepsTurn(existing, TurnId(turn))
  {
    var once := Append(existing, turn);
    AppendFits(existing, turn);
    AppendIsMarked(existing, turn);
    AppendedTurnIsHeldIff(existing, turn);
    if !HasTurn(once, TurnId(turn)) {
      var k := NewTurnSurvives(once, turn);
      assert Append(once, turn)[|once[k..]|] == turn[0];
    }
  }

  /** A stored list over the byte limit whose first turn is appended again: the trim drops that very turn. */
  lemma AppendCanDropItsTurn()
    ensures var a, big, b := Item(Some("a"), 1, 0), Item(None, MAX_BYTES, 1), Item(Some("b"), 1, 2);
      var existing, turn := [a, big, b], [a];
      && HasTurn(existing, "a") && Append(existing, turn) == [b] && Append([b], turn) == [b, a]
  {
    var a, big, b := Item(Some("a"), 1, 0), Item(None, MAX_BYTES, 1), Item(Some("b"), 1, 2);
    var existing := [a, big, b];
    assert existing[0].marker == Some("a");
    assert existing[..2] == [a, big] && [a, big][..1] == [a] && [a][..0] == [];
    assert Bytes([a]) == 1 && Bytes([a, big]) == 1 + MAX_BYTES && Bytes(existing) == 2 + MAX_BYTES;
    assert NextMarker(existing, 1) == 2 && existing[2..] == [b];
    assert [b][..0] == [] && Bytes([b]) == 1 && Fits([b]);
    assert Trim(existing) == [b];
    assert [b] + [a] == [b, a] && [b, a][..1] == [b] && Bytes([b, a]) == 2;
    assert Turns([b]) == 1 && Turns([b, a]) == 2;
  }

  // ---- The process-local cache ----

  type Key = nat

  datatype Entry = Entry(items: seq<Item>, timestamp: int)

  function Ages(entries: map<Key, Entry>): map<Key, int> {
    map k | k in entries :: entries[k].timestamp
  }

  ghost predicate Bounded(entries: map<Key, Entry>) {
    |entries| <= MAX_ENTRIES && forall k :: k in entries ==> Fits(entries[k].items)
  }

  /** After a write, possibly with one oldest-first batch evicted. */
  ghost predicate Settled(written: map<Key, Entry>, after: map<Key, Entry>) {
    if |written| <= MAX_ENTRIES then after == written
    else exists victims :: Eviction.OldestBatch(Ages(written), victims, EVICT_BATCH) && after == written - victims
  }

  class ReplayCache {
    const ttl: nat
    var entries: map<Key, Entry>

    constructor (ttl: nat)
      ensures this.ttl == ttl && entries == map[]
    {
      this.ttl, entries := ttl, map[];
    }

    method EvictOldest(count: nat)
      modifies this
      ensures exists victims :: Eviction.OldestBatch(Ages(old(entries)), victims, count) && entries == old(entries) - victims
    {
      ghost var before := entries;
      var batch, victims := Eviction.SelectOldest(Ages(entries), count);
      ghost var gone: set<Key> := {};
      for i := 0 to |batch|
        invariant gone == set k | k in batch[..i]
        invariant entries == before - gone
      {
        assert batch[..i + 1] == batch[..i] + [batch[i]];
        Eviction.RemoveOneMore(before, gone, batch[i]);
        entries := entries - {batch[i]};
        gone := gone + {batch[i]};
      }
      assert batch[..|batch|] == batch;
      assert Eviction.OldestBatch(Ages(before), victims, count) && entries == before - victims;
    }

    method Write(key: Key, items: seq<Item>, now: int)
      modifies this
      ensures Settled(old(entries)[key := Entry(items, now)], entries)
    {
      entries := entries[key := Entry(items, now)];
      if |entries| > MAX_ENTRIES {
        EvictOldest(EVICT_BATCH);
      }
    }

    /** Replaces the list; `valid` are the items that survived normalisation. */
    method CacheItems(key: Key, valid: seq<Item>, now: int) returns (ok: bool)
      modifies this
      ensures ok <==> Trim(valid) != []
      ensures if ok then Settled(old(entries)[key := Entry(Trim(valid), now)], entries) else entries == old(entries)
    {
      var normalized := TrimItems(valid);
      if normalized == [] {
        return false;
      }
      Write(key, normalized, now);
      return true;
    }

    /** What an append builds on: nothing when the entry is missing or has expired. */
    ghost function Base(key: Key, now: int): seq<Item>
      reads this
    {
      if key in entries && now - entries[key].timestamp <= ttl then entries[key].items else []
    }

    method AppendItems(key: Key, valid: seq<Item>, now: int) returns (ok: bool)
      modifies this
      ensures ok <==> Trim(valid) != []
      ensures ok ==> Settled(old(entries)[key := Entry(Append(old(Base(key, now)), Trim(valid)), now)], entries)
      ensures !ok ==> entries == old(entries)
    {
      var normalized := TrimItems(valid);
      if normalized == [] {
        return false;
      }
      var items := if key in entries then entries[key].items else [];
      if key !in entries || now - entries[key].timestamp > ttl {
        items := [];
      }
      items := AppendTurn(items, normalized);
      Write(key, items, now);
      return true;
    }

    /** A hit refreshes the timestamp; an expired entry is removed. */
    method Get(key: Key, now: int) returns (items: Option<seq<Item>>)
      modifies this
      ensures items == if key in old(entries) && now - old(entries)[key].timestamp <= ttl then Some(old(entries)[key].items) else None
      ensures entries == if items.Some? then old(entries)[key := Entry(items.value, now)] else old(entries) - {key}
    {
      if key !in entries {
        assert entries - {key} == entries;
        return None;
      }
      if now - entries[key].timestamp > ttl {
        entries := entries - {key};
        return None;
      }
      entries := entries[key := entries[key].(timestamp := now)];
      return Some(entries[key].items);
    }
  }

  lemma BatchRemoves(entries: map<Key, Entry>, victims: set<Key>)
    requires Eviction.OldestBatch(Ages(entries), victims, EVICT_BATCH) && |entries| > EVICT_BATCH
    ensures |entries - victims| == |entries| - EVICT_BATCH
  {
    assert Ages(entries).Keys == entries.Keys;
    assert (entries - victims).Keys == entries.Keys - victims;
  }

  /** Every write keeps the entry bound and the per-session limits. */
  lemma WritesKeepBounds(before: map<Key, Entry>, key: Key, items: seq<Item>, now: int, after: map<Key, Entry>)
    requires Bounded(before) && Fits(items) && Settled(before[key := Entry(items, now)], after)
    ensures Bounded(after)
  {
    var written := before[key := Entry(items, now)];
    SetSizes.Update(before, key, Entry(items, now));
    if |written| > MAX_ENTRIES {
      var victims :| Eviction.OldestBatch(Ages(written), victims, EVICT_BATCH) && after == written - victims;
      BatchRemoves(written, victims);
    }
  }

  /** Everything an append or a replacement stores is within the limits. */
  lemma StoredListsFit(existing: seq<Item>, valid: seq<Item>)
    ensures Fits(Trim(valid)) && Fits(Append(existing, Trim(valid)))
  {
    var _ := TrimIsLongest(valid);
    AppendFits(existing, Trim(valid));
  }
}
