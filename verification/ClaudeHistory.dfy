/** Runs of the Claude cache with any number of requests that hold snapshots: limits, exactness, and no stale publication. */
module ClaudeHistory {
  import opened Options
  import opened ClaudeReplay
  import SetSizes

  /** A snapshot handed to a request, with what the request read. */
  datatype Issued = Issued(key: Key, snapshot: Snapshot, contents: seq<Content>, deleted: bool)

  datatype History = History(entries: map<Key, Entry>, used: set<Generation>, issued: set<Issued>)

  const START := History(map[], {}, {})

  function Generations(op: Op): set<Generation> {
    if op.Store? || op.Read? || op.Replace? || op.DeleteIf? then {op.generation} else {}
  }

  /** A loaded snapshot comes from an earlier read of the same key. */
  ghost predicate Presents(h: History, op: Op) {
    (op.Replace? || op.DeleteIf?) && op.snapshot.loaded ==>
      exists i :: i in h.issued && i.key == op.key && i.snapshot == op.snapshot
  }

  function Issue(entries: map<Key, Entry>, key: Key): Issued
    requires key in entries
  {
    Issued(key, Snapshot(true, true, entries[key].generation), entries[key].contents, entries[key].deleted)
  }

  ghost predicate Step(ttl: nat, h: History, op: Op, h': History) {
    && Next(ttl, h.entries, op, h'.entries) && Presents(h, op)
    && Generations(op) !! h.used && h'.used == h.used + Generations(op)
    && (if op.Read? && op.key != "" then op.key in h'.entries && h'.issued == h.issued + {Issue(h'.entries, op.key)}
        else h'.issued == h.issued)
  }

  // ---- The invariant ----

  ghost predicate EntryOk(h: History, k: Key)
    requires k in h.entries
  {
    h.entries[k].generation in h.used && SessionFits(h.entries[k].contents)
  }

  ghost predicate Apart(h: History, k: Key, l: Key)
    requires k in h.entries && l in h.entries
  {
    k != l ==> h.entries[k].generation != h.entries[l].generation
  }

  /** An entry with the generation a snapshot read still holds what it read. */
  ghost predicate Agrees(h: History, i: Issued, k: Key)
    requires k in h.entries
  {
    h.entries[k].generation == i.snapshot.generation ==>
      k == i.key && h.entries[k].contents == i.contents && h.entries[k].deleted == i.deleted
  }

  ghost predicate SnapshotOk(h: History, i: Issued) {
    && i.snapshot.loaded && i.snapshot.found && i.snapshot.generation in h.used
    && forall k :: k in h.entries ==> Agrees(h, i, k)
  }

  ghost predicate Inv(h: History) {
    && (forall k :: k in h.entries ==> EntryOk(h, k))
    && (forall k, l :: k in h.entries && l in h.entries ==> Apart(h, k, l))
    && (forall i :: i in h.issued ==> SnapshotOk(h, i))
  }

  // ---- One step ----

  /** After a step a key holds what it held, up to the timestamp, or what the step wrote under its fresh generation. */
  ghost predicate KeptOrFresh(entries: map<Key, Entry>, op: Op, entries': map<Key, Entry>, k: Key)
    requires k in entries'
  {
    || (k in entries && entries[k] == entries'[k].(timestamp := entries[k].timestamp))
    || (!op.Clear? && !op.Purge? && !op.Drop? && k == op.key && entries'[k].generation == op.generation && SessionFits(entries'[k].contents))
  }

  lemma WrittenKeeps(before: map<Key, Entry>, key: Key, entry: Entry, after: map<Key, Entry>, k: Key)
    requires Written(before, key, entry, after) && k in after
    ensures if k == key then after[k] == entry else k in before && after[k] == before[k]
  {
    var rounds := Rounds(before[key := entry], after);
    EnforcedShrinks(before[key := entry], after, rounds);
  }

  lemma ReservedKeeps(before: map<Key, Entry>, key: Key, tombstone: Entry, after: map<Key, Entry>, k: Key)
    requires Reserved(before, key, tombstone, after) && k in after
    ensures if k == key then after[k] == tombstone else k in before && after[k] == before[k]
  {
    var settled :| Written(before, key, tombstone, settled) && after == settled[key := tombstone];
    if k != key {
      WrittenKeeps(before, key, tombstone, settled, k);
    }
  }

  lemma NextKeepsOrFresh(ttl: nat, h: History, op: Op, entries': map<Key, Entry>, k: Key)
    requires Next(ttl, h.entries, op, entries') && k in entries'
    requires forall l :: l in h.entries ==> EntryOk(h, l)
    ensures KeptOrFresh(h.entries, op, entries', k)
  {
    if Succeeds(h.entries, op) {
      match op
      case Store(key, content, _, generation, now) =>
        FirstTurn(content);
        AppendFits([], content);
        WrittenKeeps(h.entries, key, Entry([content], now, generation, false), entries', k);
      case Read(key, generation, now) =>
        if !Live(ttl, h.entries, key, now) {
          ReservedKeeps(h.entries, key, Tombstone(generation, now), entries', k);
        }
      case Replace(key, snapshot, content, _, generation, now) =>
        var base := Base(h.entries, key, snapshot);
        assert key in h.entries ==> EntryOk(h, key);
        AppendFits(base, content);
        WrittenKeeps(h.entries, key, Entry(AppendTurn(base, content), now, generation, false), entries', k);
      case _ =>
    }
  }

  lemma StepKeepsEntries(ttl: nat, h: History, op: Op, h': History)
    requires Inv(h) && Step(ttl, h, op, h')
    ensures forall k :: k in h'.entries ==> KeptOrFresh(h.entries, op, h'.entries, k)
  {
    forall k | k in h'.entries
      ensures KeptOrFresh(h.entries, op, h'.entries, k)
    {
      NextKeepsOrFresh(ttl, h, op, h'.entries, k);
    }
  }

  lemma OldSnapshotStays(h: History, op: Op, h': History, i: Issued)
    requires SnapshotOk(h, i) && Generations(op) !! h.used && h'.used == h.used + Generations(op)
    requires forall k :: k in h'.entries ==> KeptOrFresh(h.entries, op, h'.entries, k)
    ensures SnapshotOk(h', i)
  {
    forall k | k in h'.entries
      ensures Agrees(h', i, k)
    {
      assert KeptOrFresh(h.entries, op, h'.entries, k);
      assert k in h.entries ==> Agrees(h, i, k);
    }
  }

  lemma EntriesStayOk(h: History, op: Op, h': History)
    requires Inv(h) && Generations(op) !! h.used && h'.used == h.used + Generations(op)
    requires forall k :: k in h'.entries ==> KeptOrFresh(h.entries, op, h'.entries, k)
    ensures forall k :: k in h'.entries ==> EntryOk(h', k)
    ensures forall k, l :: k in h'.entries && l in h'.entries ==> Apart(h', k, l)
  {
    forall k | k in h'.entries
      ensures EntryOk(h', k)
    {
      assert KeptOrFresh(h.entries, op, h'.entries, k);
      assert k in h.entries ==> EntryOk(h, k);
    }
    forall k, l | k in h'.entries && l in h'.entries
      ensures Apart(h', k, l)
    {
      assert KeptOrFresh(h.entries, op, h'.entries, k) && KeptOrFresh(h.entries, op, h'.entries, l);
      assert k in h.entries ==> EntryOk(h, k);
      assert l in h.entries ==> EntryOk(h, l);
      assert k in h.entries && l in h.entries ==> Apart(h, k, l);
    }
  }

  lemma NewSnapshotOk(h: History, key: Key)
    requires key in h.entries
    requires forall k :: k in h.entries ==> EntryOk(h, k)
    requires forall k, l :: k in h.entries && l in h.entries ==> Apart(h, k, l)
    ensures SnapshotOk(h, Issue(h.entries, key))
  {
    assert EntryOk(h, key);
    forall k | k in h.entries
      ensures Agrees(h, Issue(h.entries, key), k)
    {
      assert Apart(h, k, key);
    }
  }

  lemma StepKeepsInv(ttl: nat, h: History, op: Op, h': History)
    requires Inv(h) && Step(ttl, h, op, h')
    ensures Inv(h')
  {
    StepKeepsEntries(ttl, h, op, h');
    EntriesStayOk(h, op, h');
    forall i | i in h'.issued
      ensures SnapshotOk(h', i)
    {
      if i in h.issued {
        OldSnapshotStays(h, op, h', i);
      } else {
        NewSnapshotOk(h', op.key);
      }
    }
  }

  lemma WrittenWithin(before: map<Key, Entry>, key: Key, entry: Entry, after: map<Key, Entry>)
    requires Written(before, key, entry, after)
    ensures Within(after)
  {
    var rounds := Rounds(before[key := entry], after);
    EnforcedShrinks(before[key := entry], after, rounds);
  }

  lemma ReservedWithin(before: map<Key, Entry>, key: Key, tombstone: Entry, after: map<Key, Entry>)
    requires Reserved(before, key, tombstone, after) && tombstone.contents == [] && |before| <= MAX_ENTRIES
    ensures Within(after)
  {
    var settled :| Written(before, key, tombstone, settled) && after == settled[key := tombstone];
    WrittenWithin(before, key, tombstone, settled);
    ReservationFits(before, key, tombstone, settled);
    TouchKeepsTotal(settled, key, tombstone);
  }

  lemma TouchWithin(before: map<Key, Entry>, key: Key, now: int)
    requires Within(before) && key in before
    ensures Within(before[key := before[key].(timestamp := now)])
  {
    TouchKeepsTotal(before, key, before[key].(timestamp := now));
    SetSizes.Update(before, key, before[key].(timestamp := now));
  }

  /** Every step keeps both limits: the snapshots in circulation have all found an entry. */
  lemma StepKeepsLimits(ttl: nat, h: History, op: Op, h': History)
    requires Inv(h) && Within(h.entries) && Step(ttl, h, op, h')
    ensures Within(h'.entries)
  {
    if Succeeds(h.entries, op) {
      match op
      case Store(key, content, _, generation, now) =>
        WrittenWithin(h.entries, key, Entry([content], now, generation, false), h'.entries);
      case Read(key, generation, now) =>
        if Live(ttl, h.entries, key, now) {
          TouchWithin(h.entries, key, now);
        } else {
          ReservedWithin(h.entries, key, Tombstone(generation, now), h'.entries);
        }
      case Replace(key, snapshot, content, _, generation, now) =>
        WrittenWithin(h.entries, key, Entry(AppendTurn(Base(h.entries, key, snapshot), content), now, generation, false), h'.entries);
      case DeleteIf(key, snapshot, generation, now) =>
        if snapshot.loaded {
          var i :| i in h.issued && i.key == key && i.snapshot == snapshot;
          assert SnapshotOk(h, i);
          DeleteKeepsLimitsIff(h.entries, key, generation, now);
        } else {
          FewerEntriesFit(h'.entries, h.entries);
        }
      case Clear => EmptyIsWithin(h'.entries);
      case _ => FewerEntriesFit(h'.entries, h.entries);
    }
  }

  // ---- Runs ----

  datatype Run = Run(at: seq<History>, ops: seq<Op>)

  ghost predicate IsRun(ttl: nat, run: Run) {
    && |run.at| == |run.ops| + 1 && run.at[0] == START
    && forall n {:trigger run.ops[n]} :: 0 <= n < |run.ops| ==> Step(ttl, run.at[n], run.ops[n], run.at[n + 1])
  }

  /** In every reachable state both limits hold, whatever snapshots the requests present. */
  lemma {:induction false} Reachable(ttl: nat, run: Run, n: nat)
    requires IsRun(ttl, run) && n < |run.at|
    ensures Inv(run.at[n]) && Within(run.at[n].entries)
  {
    if n == 0 {
      EmptyIsWithin(run.at[0].entries);
    } else {
      Reachable(ttl, run, n - 1);
      StepKeepsInv(ttl, run.at[n - 1], run.ops[n - 1], run.at[n]);
      StepKeepsLimits(ttl, run.at[n - 1], run.ops[n - 1], run.at[n]);
    }
  }

  /** A publication that goes through with a loaded snapshot appends to exactly the contents its request read. */
  lemma PublishesOnWhatItRead(ttl: nat, run: Run, n: nat, i: Issued)
    requires IsRun(ttl, run) && n < |run.ops| && run.ops[n].Replace? && Succeeds(run.at[n].entries, run.ops[n])
    requires i in run.at[n].issued && i.key == run.ops[n].key && i.snapshot == run.ops[n].snapshot
    ensures var op := run.ops[n];
      Written(run.at[n].entries, op.key, Entry(AppendTurn(i.contents, op.content), op.now, op.generation, false), run.at[n + 1].entries)
  {
    Reachable(ttl, run, n);
    assert SnapshotOk(run.at[n], i) && Agrees(run.at[n], i, i.key);
  }

  /** The state a snapshot read is no longer held anywhere. */
  ghost predicate Gone(h: History, i: Issued) {
    i.snapshot.generation in h.used && forall k :: k in h.entries ==> h.entries[k].generation != i.snapshot.generation
  }

  lemma {:induction false} StaysGone(ttl: nat, run: Run, m: nat, n: nat, i: Issued)
    requires IsRun(ttl, run) && m <= n < |run.at| && Gone(run.at[m], i)
    ensures Gone(run.at[n], i)
  {
    if m < n {
      StaysGone(ttl, run, m, n - 1, i);
      Reachable(ttl, run, n - 1);
      StepKeepsEntries(ttl, run.at[n - 1], run.ops[n - 1], run.at[n]);
      forall k | k in run.at[n].entries
        ensures run.at[n].entries[k].generation != i.snapshot.generation
      {
        assert KeptOrFresh(run.at[n - 1].entries, run.ops[n - 1], run.at[n].entries, k);
      }
    }
  }

  /** Once its key no longer holds the generation a snapshot read, that snapshot never publishes or deletes again. */
  lemma NoStalePublication(ttl: nat, run: Run, m: nat, n: nat, i: Issued)
    requires IsRun(ttl, run) && m <= n < |run.ops| && i in run.at[m].issued
    requires i.key !in run.at[m].entries || run.at[m].entries[i.key].generation != i.snapshot.generation
    requires run.ops[n].Replace? || run.ops[n].DeleteIf?
    requires run.ops[n].key == i.key && run.ops[n].snapshot == i.snapshot
    ensures !Succeeds(run.at[n].entries, run.ops[n]) && run.at[n + 1].entries == run.at[n].entries
  {
    Reachable(ttl, run, m);
    assert SnapshotOk(run.at[m], i);
    forall k | k in run.at[m].entries
      ensures run.at[m].entries[k].generation != i.snapshot.generation
    {
      assert Agrees(run.at[m], i, k);
    }
    StaysGone(ttl, run, m, n, i);
  }
}
