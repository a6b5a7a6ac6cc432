/** Which sessions the enforcement of the Claude cache's limits leaves, and whether a published turn is among them. */
module ClaudeEviction {
  import opened Options
  import opened ClaudeReplay
  import opened MapSums
  import SetSizes

  /** How many sessions the last batch would hold if eviction went on to the end. */
  function TailSize(n: nat): nat
    requires n > 0
  {
    (n - 1) % EVICT_BATCH + 1
  }

  /** The youngest sessions, just those that whole batches cannot reach without emptying the cache. */
  ghost predicate Tail(entries: map<Key, Entry>, tail: set<Key>) {
    && entries != map[] && tail <= entries.Keys && |tail| == TailSize(|entries|)
    && forall t, k :: t in tail && k in entries && k !in tail ==> entries[k].timestamp < entries[t].timestamp
  }

  function Only(entries: map<Key, Entry>, keys: set<Key>): map<Key, Entry> {
    map k | k in entries && k in keys :: entries[k]
  }

  lemma OnlySums(entries: map<Key, Entry>, keys: set<Key>)
    ensures Total(Only(entries, keys)) <= Total(entries)
    ensures entries.Keys <= keys ==> Only(entries, keys) == entries
  {
    SumSubmap(Sizes(Only(entries, keys)), Sizes(entries));
  }

  /** Some key of a nonempty set is as old as any. */
  lemma {:induction false} OldestOf(entries: map<Key, Entry>, keys: set<Key>) returns (oldest: Key)
    requires keys != {} && keys <= entries.Keys
    ensures oldest in keys && forall k :: k in keys ==> entries[oldest].timestamp <= entries[k].timestamp
    decreases |keys|
  {
    oldest :| oldest in keys;
    if keys != {oldest} {
      var other := OldestOf(entries, keys - {oldest});
      if entries[other].timestamp < entries[oldest].timestamp {
        oldest := other;
      }
    }
  }

  lemma {:induction false} YoungestKeys(entries: map<Key, Entry>, n: nat) returns (young: set<Key>)
    requires n <= |entries|
    requires forall k, l :: k in entries && l in entries && k != l ==> entries[k].timestamp != entries[l].timestamp
    ensures young <= entries.Keys && |young| == n
    ensures forall t, k :: t in young && k in entries && k !in young ==> entries[k].timestamp < entries[t].timestamp
    decreases |entries| - n
  {
    if n == |entries| {
      young := entries.Keys;
    } else {
      young := YoungestKeys(entries, n + 1);
      var oldest := OldestOf(entries, young);
      young := young - {oldest};
    }
  }

  /** Sessions with distinct timestamps always have a tail. */
  lemma TailExists(entries: map<Key, Entry>) returns (tail: set<Key>)
    requires entries != map[]
    requires forall k, l :: k in entries && l in entries && k != l ==> entries[k].timestamp != entries[l].timestamp
    ensures Tail(entries, tail)
  {
    tail := YoungestKeys(entries, TailSize(|entries|));
  }

  /** A batch that does not take everything misses the tail. */
  lemma BatchMissesTail(entries: map<Key, Entry>, victims: set<Key>, tail: set<Key>)
    requires Tail(entries, tail) && Batch(entries, victims) && |entries| > EVICT_BATCH
    ensures victims !! tail
  {
    var others := entries.Keys - tail;
    BatchRemoves(entries, victims);
    assert |others| == |entries| - |tail| >= EVICT_BATCH;
    if v :| v in victims && v in tail {
      if others <= victims {
        assert |others + {v}| == |others| + 1;
        SetSizes.Subset(others + {v}, victims);
      } else {
        var k :| k in others && k !in victims;
        assert Ages(entries)[v] <= Ages(entries)[k];
      }
    }
  }

  lemma TailSizeAfterBatch(n: nat)
    requires n > EVICT_BATCH
    ensures TailSize(n - EVICT_BATCH) == TailSize(n)
  {
  }

  lemma TailOfRest(entries: map<Key, Entry>, rest: map<Key, Entry>, tail: set<Key>)
    requires Tail(entries, tail) && tail <= rest.Keys
    requires forall k :: k in rest ==> k in entries && rest[k] == entries[k]
    requires |rest| > 0 && TailSize(|rest|) == TailSize(|entries|)
    ensures Tail(rest, tail)
  {
  }

  lemma TailIsLeft(entries: map<Key, Entry>, victims: set<Key>, tail: set<Key>)
    requires tail <= entries.Keys && victims !! tail
    ensures tail <= (entries - victims).Keys
    ensures forall k :: k in entries - victims ==> k in entries && (entries - victims)[k] == entries[k]
  {
  }

  /** The tail of the cache is still its tail after such a batch. */
  lemma TailAfterBatch(entries: map<Key, Entry>, victims: set<Key>, tail: set<Key>)
    requires Tail(entries, tail) && Batch(entries, victims) && |entries| > EVICT_BATCH
    ensures Tail(entries - victims, tail) && Only(entries - victims, tail) == Only(entries, tail)
  {
    var rest := entries - victims;
    BatchMissesTail(entries, victims, tail);
    BatchRemoves(entries, victims);
    TailSizeAfterBatch(|entries|);
    TailIsLeft(entries, victims, tail);
    TailOfRest(entries, rest, tail);
    OnlyAfterBatch(entries, victims, tail);
  }

  lemma OnlyAfterBatch(entries: map<Key, Entry>, victims: set<Key>, tail: set<Key>)
    requires victims !! tail
    ensures Only(entries - victims, tail) == Only(entries, tail)
  {
  }

  /** A cache of at most one batch is its own tail. */
  lemma SmallTail(entries: map<Key, Entry>, tail: set<Key>)
    requires Tail(entries, tail) && |entries| <= EVICT_BATCH
    ensures Only(entries, tail) == entries
    ensures Within(entries) <==> Total(Only(entries, tail)) <= MAX_TOTAL_BYTES
  {
    SameSize(tail, entries.Keys);
    OnlySums(entries, tail);
  }

  lemma {:induction false} SameSize<T>(a: set<T>, b: set<T>)
    requires a <= b && |a| == |b|
    ensures a == b
  {
    if x :| x in b && x !in a {
      SetSizes.Subset(a, b - {x});
    }
  }

  /** The tail is all there or nothing is left. */
  ghost predicate TailStays(before: map<Key, Entry>, after: map<Key, Entry>, tail: set<Key>) {
    after != map[] ==> forall k :: k in tail ==> k in before && k in after && after[k] == before[k]
  }

  /** The cache is emptied exactly when the tail alone exceeds the byte limit, and otherwise the tail stays whole. */
  ghost predicate TailOutcome(before: map<Key, Entry>, after: map<Key, Entry>, tail: set<Key>) {
    (after == map[] <==> Total(Only(before, tail)) > MAX_TOTAL_BYTES) && TailStays(before, after, tail)
  }

  lemma OutcomeOfNone(entries: map<Key, Entry>, tail: set<Key>)
    requires Within(entries) && Tail(entries, tail)
    ensures TailOutcome(entries, entries, tail)
  {
    OnlySums(entries, tail);
  }

  lemma OutcomeOfBatch(before: map<Key, Entry>, victims: set<Key>, after: map<Key, Entry>, tail: set<Key>)
    requires Only(before - victims, tail) == Only(before, tail) && TailOutcome(before - victims, after, tail)
    ensures TailOutcome(before, after, tail)
  {
  }

  lemma OutcomeOfLast(before: map<Key, Entry>, victims: set<Key>, after: map<Key, Entry>, rounds: nat, tail: set<Key>)
    requires !Within(before) && Tail(before, tail) && |before| <= EVICT_BATCH
    requires Batch(before, victims) && Enforced(before - victims, after, rounds)
    ensures TailOutcome(before, after, tail)
  {
    SmallTail(before, tail);
    BatchRemoves(before, victims);
    EnforcedShrinks(before - victims, after, rounds);
  }

  lemma {:induction false} TailDecidesRounds(before: map<Key, Entry>, after: map<Key, Entry>, rounds: nat, tail: set<Key>)
    requires Enforced(before, after, rounds) && Tail(before, tail)
    ensures TailOutcome(before, after, tail)
    decreases rounds
  {
    if Within(before) {
      OutcomeOfNone(before, tail);
    } else {
      var victims := FirstRound(before, after, rounds);
      if |before| > EVICT_BATCH {
        TailAfterBatch(before, victims, tail);
        TailDecidesRounds(before - victims, after, rounds - 1, tail);
        OutcomeOfBatch(before, victims, after, tail);
      } else {
        OutcomeOfLast(before, victims, after, rounds - 1, tail);
      }
    }
  }

  /** What enforcement leaves, decided beforehand from the tail's own bytes. */
  lemma TailDecides(before: map<Key, Entry>, after: map<Key, Entry>, tail: set<Key>)
    requires Tail(before, tail)
    ensures Settled(before, after) ==> TailOutcome(before, after, tail)
  {
    if Settled(before, after) {
      var rounds := Rounds(before, after);
      TailDecidesRounds(before, after, rounds, tail);
    }
  }

  /** The youngest key is in the tail. */
  lemma YoungestInTail(entries: map<Key, Entry>, tail: set<Key>, key: Key)
    requires Tail(entries, tail) && key in entries
    requires forall k :: k in entries && k != key ==> entries[k].timestamp < entries[key].timestamp
    ensures key in tail
  {
    var t :| t in tail;
  }

  /** A turn just published, younger than every other session, is kept exactly when the tail it belongs to fits. */
  lemma YoungestSurvivesIff(before: map<Key, Entry>, key: Key, entry: Entry, after: map<Key, Entry>, tail: set<Key>)
    requires Tail(before[key := entry], tail)
    requires forall k :: k in before && k != key ==> before[k].timestamp < entry.timestamp
    ensures Written(before, key, entry, after) ==> (key in after <==> Total(Only(before[key := entry], tail)) <= MAX_TOTAL_BYTES)
  {
    YoungestInTail(before[key := entry], tail, key);
    TailDecides(before[key := entry], after, tail);
  }

  /** A cache of at most one batch is emptied completely exactly when it exceeds the byte limit. */
  lemma SmallCacheIsEmptied(before: map<Key, Entry>, after: map<Key, Entry>)
    requires before != map[] && |before| <= EVICT_BATCH
    ensures Settled(before, after) ==> (after == map[] <==> Total(before) > MAX_TOTAL_BYTES)
  {
    assert Tail(before, before.Keys);
    OnlySums(before, before.Keys);
    TailDecides(before, after, before.Keys);
  }

  // ---- A publication that is lost ----

  /** The n-th session key. */
  function Name(n: nat): Key {
    seq(n + 1, _ => 's')
  }

  /** n sessions of one 8 MiB turn each, one second apart. */
  function FullSessions(n: nat): map<Key, Entry> {
    if n == 0 then map[]
    else FullSessions(n - 1)[Name(n) := FullSession(n)]
  }

  lemma OneTurn(content: Content)
    ensures Bytes([content]) == content.bytes
  {
    assert [content][1..] == [];
  }

  function FullSession(n: nat): Entry {
    Entry([Content(MAX_SESSION_BYTES, None, n)], n, n, false)
  }

  lemma {:induction false} FullSessionNames(n: nat)
    ensures forall k :: k in FullSessions(n) ==> |k| <= n + 1 && SessionFits(FullSessions(n)[k].contents)
  {
    if n > 0 {
      FullSessionNames(n - 1);
      OneTurn(Content(MAX_SESSION_BYTES, None, n));
    }
  }

  ghost predicate FullCount(entries: map<Key, Entry>, n: nat) {
    |entries| == n && Total(entries) == n * MAX_SESSION_BYTES
  }

  lemma NoSessions()
    ensures FullCount(map[], 0)
  {
    assert Sizes(map[]) == map[];
  }

  lemma AddSession(before: map<Key, Entry>, key: Key, entry: Entry)
    requires key !in before
    ensures |before[key := entry]| == |before| + 1 && Total(before[key := entry]) == Total(before) + Bytes(entry.contents)
  {
    TotalUpdate(before, key, entry);
    SetSizes.Update(before, key, entry);
  }

  lemma AddFullSession(before: map<Key, Entry>, n: nat)
    requires FullCount(before, n) && Name(n + 1) !in before
    ensures FullCount(before[Name(n + 1) := FullSession(n + 1)], n + 1)
  {
    OneTurn(Content(MAX_SESSION_BYTES, None, n + 1));
    AddSession(before, Name(n + 1), FullSession(n + 1));
  }

  lemma {:induction false} FullSessionsAre(n: nat)
    ensures FullCount(FullSessions(n), n)
  {
    if n == 0 {
      NoSessions();
    } else {
      FullSessionsAre(n - 1);
      FullSessionNames(n - 1);
      assert |Name(n)| == n + 1;
      AddFullSession(FullSessions(n - 1), n - 1);
    }
  }

  /** A cache of at most one batch can leave in one round. */
  lemma OneBatchEmpties(before: map<Key, Entry>)
    requires 0 < |before| <= EVICT_BATCH && Total(before) > MAX_TOTAL_BYTES
    ensures Settled(before, map[])
  {
    assert Ages(before).Keys == before.Keys && |Ages(before).Keys| == |before.Keys|;
    assert Batch(before, before.Keys);
    assert before - before.Keys == map[];
    NoSessions();
    assert Within(map[]) && Enforced(map[], map[], 0);
    OneRound(before, before.Keys, map[], 0);
  }

  /** 32 full sessions are within the limits; one more byte published in a 33rd leaves nothing, and only that. */
  lemma PublicationCanBeLost(after: map<Key, Entry>)
    ensures Within(FullSessions(32)) && SessionsFit(FullSessions(32))
    ensures Written(FullSessions(32), Name(33), Entry([Content(1, None, 0)], 33, 33, false), after) <==> after == map[]
  {
    FullSessionsAre(32);
    FullSessionNames(32);
    var key, entry := Name(33), Entry([Content(1, None, 0)], 33, 33, false);
    assert key !in FullSessions(32);
    OneTurn(Content(1, None, 0));
    AddSession(FullSessions(32), key, entry);
    SmallCacheIsEmptied(FullSessions(32)[key := entry], after);
    OneBatchEmpties(FullSessions(32)[key := entry]);
  }
}
