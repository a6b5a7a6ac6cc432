/**
 What every run of the in-process replay cache keeps: revisions are never reused, the lists
 stored under one branch only grow, and a snapshot whose conversation was cut off stays dead.
 */
module AntigravityHistory {
  import opened Options
  import opened AntigravityReplay
  import Eviction
  import SetSizes

  /** A snapshot together with the key it was read for. */
  datatype Issued = Issued(key: Key, snapshot: Snapshot)

  /** The cache together with every nonce drawn and every snapshot handed out so far. */
  datatype History = History(state: State, used: set<Nonce>, issued: set<Issued>)

  const START := History(EMPTY, {}, {})

  function Nonces(op: Op): set<Nonce> {
    match op
    case Store(_, _, _, nonce) => {nonce}
    case Read(_, _, nonce) => {nonce}
    case Replace(_, _, _, _, nonce) => {nonce}
    case DeleteIf(_, _, _, nonce) => {nonce}
    case Delete(_, _, nonce) => {nonce}
    case Clear => {}
    case Purge(_) => {}
  }

  /** Snapshots are opaque to callers: they present the zero value or one they were given, for any key. */
  ghost predicate Presents(h: History, snapshot: Snapshot) {
    !snapshot.loaded || exists i :: i in h.issued && i.snapshot == snapshot
  }

  ghost predicate Step(h: History, op: Op, h': History) {
    && Next(h.state, op, h'.state)
    && Nonces(op) !! h.used && "" !in Nonces(op)
    && (op.Replace? || op.DeleteIf? ==> Presents(h, op.snapshot))
    && h'.used == h.used + Nonces(op)
    && (if op.Read? && op.key != "" && op.key in h'.state.entries
        then h'.issued == h.issued + {Issued(op.key, Issue(h'.state, op.key))}
        else h'.issued == h.issued)
  }

  // ---- The invariant ----

  ghost predicate EntryOk(h: History, k: Key) {
    k in h.state.entries ==>
      var e := h.state.entries[k];
      && 1 <= e.revision <= h.state.nextRevision
      && e.branch in h.used && e.branch != ""
      && (if e.deleted then e.items == [] else Storable(e.items))
  }

  ghost predicate Apart(h: History, k: Key, l: Key) {
    k in h.state.entries && l in h.state.entries && k != l ==>
      && h.state.entries[k].revision != h.state.entries[l].revision
      && h.state.entries[k].branch != h.state.entries[l].branch
  }

  /** What entry `k` of a later cache says about an issued snapshot. */
  ghost predicate Agrees(h: History, i: Issued, k: Key) {
    k in h.state.entries ==>
      var e := h.state.entries[k];
      && (e.revision == i.snapshot.revision ==>
            k == i.key && e.branch == i.snapshot.branch && e.items == i.snapshot.items && (e.deleted <==> e.items == []))
      && (e.branch == i.snapshot.branch ==>
            k == i.key && i.snapshot.items <= e.items && (e.revision != i.snapshot.revision ==> !e.deleted))
  }

  ghost predicate SnapshotOk(h: History, i: Issued) {
    && i.key != "" && i.snapshot.loaded && i.snapshot.found
    && 1 <= i.snapshot.revision <= h.state.nextRevision
    && i.snapshot.branch in h.used && i.snapshot.branch != ""
  }

  ghost predicate Inv(h: History) {
    && (forall k :: EntryOk(h, k))
    && (forall k, l :: Apart(h, k, l))
    && (forall i :: i in h.issued ==> SnapshotOk(h, i))
    && (forall i, k :: i in h.issued ==> Agrees(h, i, k))
  }

  ghost predicate Bounded(s: State) {
    |s.entries| <= MAX_ENTRIES
  }

  // ---- Building blocks: every operation is a removal, a touch, or one write with a fresh revision ----

  /** Entries may disappear; nothing else changes. */
  ghost predicate Shrinks(s: State, s': State) {
    && s'.nextRevision == s.nextRevision
    && forall k :: k in s'.entries ==> k in s.entries && s'.entries[k] == s.entries[k]
  }

  /** One key receives a fresh revision, on a fresh branch or extending the branch it holds. */
  ghost predicate Writes(h: History, key: Key, nonce: Nonce, s': State) {
    && key in s'.entries
    && s'.nextRevision == h.state.nextRevision + 1
    && (forall k :: k in s'.entries && k != key ==> k in h.state.entries && s'.entries[k] == h.state.entries[k])
    && var e := s'.entries[key];
    && e.revision == s'.nextRevision
    && (if e.deleted then e.items == [] else Storable(e.items))
    && (e.branch == nonce || ExtendsHeld(h.state, key, e))
  }

  ghost predicate ExtendsHeld(s: State, key: Key, e: Entry) {
    key in s.entries && s.entries[key].branch == e.branch && s.entries[key].items <= e.items && !e.deleted
  }

  lemma ShrinkKeepsInv(h: History, s': State, more: set<Nonce>)
    requires Inv(h) && Shrinks(h.state, s')
    ensures Inv(History(s', h.used + more, h.issued))
  {
    var h' := History(s', h.used + more, h.issued);
    forall k ensures EntryOk(h', k) { assert EntryOk(h, k); }
    forall k, l ensures Apart(h', k, l) { assert Apart(h, k, l); }
    forall i | i in h.issued ensures SnapshotOk(h', i) { assert SnapshotOk(h, i); }
    forall i, k | i in h.issued ensures Agrees(h', i, k) { assert Agrees(h, i, k); }
  }

  lemma WriteKeepsInv(h: History, key: Key, nonce: Nonce, s': State)
    requires Inv(h) && Writes(h, key, nonce, s') && nonce !in h.used && nonce != ""
    ensures Inv(History(s', h.used + {nonce}, h.issued))
  {
    var h' := History(s', h.used + {nonce}, h.issued);
    forall k ensures EntryOk(h', k) { assert EntryOk(h, k) && EntryOk(h, key); }
    forall k, l ensures Apart(h', k, l) {
      assert Apart(h, k, l) && EntryOk(h, k) && EntryOk(h, l);
    }
    forall i | i in h.issued ensures SnapshotOk(h', i) { assert SnapshotOk(h, i); }
    forall i, k | i in h.issued ensures Agrees(h', i, k) {
      assert SnapshotOk(h, i) && Agrees(h, i, k) && Agrees(h, i, key);
    }
  }

  lemma TouchKeepsInv(h: History, key: Key, now: int, more: set<Nonce>)
    requires Inv(h) && key in h.state.entries
    ensures Inv(History(Touch(h.state, key, now), h.used + more, h.issued))
  {
    var h' := History(Touch(h.state, key, now), h.used + more, h.issued);
    forall k ensures EntryOk(h', k) { assert EntryOk(h, k); }
    forall k, l ensures Apart(h', k, l) { assert Apart(h, k, l); }
    forall i | i in h.issued ensures SnapshotOk(h', i) { assert SnapshotOk(h, i); }
    forall i, k | i in h.issued ensures Agrees(h', i, k) { assert Agrees(h, i, k); }
  }

  lemma IssueKeepsInv(h: History, key: Key)
    requires Inv(h) && key != "" && key in h.state.entries
    ensures Inv(h.(issued := h.issued + {Issued(key, Issue(h.state, key))}))
  {
    var i := Issued(key, Issue(h.state, key));
    var h' := h.(issued := h.issued + {i});
    forall k ensures EntryOk(h', k) { assert EntryOk(h, k); }
    forall k, l ensures Apart(h', k, l) { assert Apart(h, k, l); }
    assert EntryOk(h, key);
    forall j | j in h'.issued ensures SnapshotOk(h', j) { assert j != i ==> SnapshotOk(h, j); }
    forall j, k | j in h'.issued ensures Agrees(h', j, k) {
      if j in h.issued {
        assert Agrees(h, j, k);
      } else {
        assert Apart(h, k, key) && EntryOk(h, k);
      }
    }
  }

  // ---- Each step is: remove, then touch or write, then remove ----

  lemma TrimmedShrinks(before: State, after: State, full: bool)
    requires Trimmed(before, after, full)
    ensures Shrinks(before, after)
  {
  }

  /** The intermediate states of a successful operation that writes one key. */
  lemma WriteStages(h: History, op: Op, h': History) returns (room: State, put: State)
    requires Inv(h) && Step(h, op, h') && Succeeds(h.state, op)
    requires !op.Clear? && !op.Purge? && !(op.Read? && Hit(h.state, op.key, op.now))
    ensures op.key != "" && Shrinks(h.state, room) && Shrinks(put, h'.state)
    ensures Writes(History(room, h.used, h.issued), op.key, op.nonce, put)
    ensures op.Read? ==> put == h'.state
  {
    var s := h.state;
    room := s;
    match op
    case Store(key, items, now, nonce) =>
      put := Put(s, key, Normalize(items).value, nonce, false, now);
      NormalizeYieldsStorable(items);
      TrimmedShrinks(put, h'.state, |put.entries| > MAX_ENTRIES);
    case Read(key, now, nonce) =>
      room :| Trimmed(Drop(s, key), room, |Drop(s, key).entries| >= MAX_ENTRIES) && h'.state == Put(room, key, [], nonce, true, now);
      TrimmedShrinks(Drop(s, key), room, |Drop(s, key).entries| >= MAX_ENTRIES);
      put := h'.state;
    case Replace(key, snapshot, items, now, nonce) =>
      var normalized := Normalize(items).value;
      var branch := if snapshot.loaded then PublishBranch(s, key, snapshot, normalized, nonce) else nonce;
      put := Put(s, key, normalized, branch, false, now);
      NormalizeYieldsStorable(items);
      if branch != nonce {
        var i :| i in h.issued && i.snapshot == snapshot;
        assert SnapshotOk(h, i) && Agrees(h, i, key);
        assert ExtendsHeld(s, key, put.entries[key]);
      }
      TrimmedShrinks(put, h'.state, |put.entries| > MAX_ENTRIES);
    case DeleteIf(key, _, now, nonce) =>
      put := Put(s, key, [], nonce, true, now);
      TrimmedShrinks(put, h'.state, |put.entries| > MAX_ENTRIES);
    case Delete(key, now, nonce) =>
      put := Put(s, key, [], nonce, true, now);
      TrimmedShrinks(put, h'.state, |put.entries| > MAX_ENTRIES);
  }

  lemma StepKeepsInv(h: History, op: Op, h': History)
    requires Inv(h) && Step(h, op, h')
    ensures Inv(h')
  {
    var unissued := History(h'.state, h'.used, h.issued);
    assert Inv(unissued) by {
      if !Succeeds(h.state, op) || op.Clear? || op.Purge? {
        ShrinkKeepsInv(h, h'.state, Nonces(op));
      } else if op.Read? && Hit(h.state, op.key, op.now) {
        TouchKeepsInv(h, op.key, op.now, Nonces(op));
      } else {
        var room, put := WriteStages(h, op, h');
        ShrinkKeepsInv(h, room, {});
        assert h.used + {} == h.used;
        WriteKeepsInv(History(room, h.used, h.issued), op.key, op.nonce, put);
        ShrinkKeepsInv(History(put, h'.used, h.issued), h'.state, {});
        assert h'.used + {} == h'.used;
      }
    }
    if h'.issued != h.issued {
      IssueKeepsInv(unissued, op.key);
    }
  }

  lemma SubmapSize(small: map<Key, Entry>, large: map<Key, Entry>)
    requires small.Keys <= large.Keys
    ensures |small| <= |large|
  {
    SetSizes.Subset(small.Keys, large.Keys);
  }

  lemma TrimmedBound(before: State, after: State, limit: nat)
    requires Trimmed(before, after, |before.entries| >= limit) && |before.entries| <= limit && limit > EVICT_BATCH
    ensures |after.entries| < limit
  {
    if |before.entries| >= limit {
      var victims :| Eviction.OldestBatch(Ages(before.entries), victims, EVICT_BATCH) && after == Evict(before, victims);
      assert Ages(before.entries).Keys == before.entries.Keys;
      assert after.entries.Keys == before.entries.Keys - victims;
    }
  }

  /** The entry bound holds after every operation. */
  lemma StepKeepsBound(s: State, op: Op, s': State)
    requires Bounded(s) && Next(s, op, s')
    ensures Bounded(s')
  {
    if !Succeeds(s, op) || op.Clear? || op.Purge? || (op.Read? && Hit(s, op.key, op.now)) {
      SubmapSize(s'.entries, s.entries);
    } else if op.Read? {
      ReservedBound(s, op.key, op.now, op.nonce, s');
    } else {
      WrittenBound(s, op, s');
    }
  }

  lemma ReservedBound(s: State, key: Key, now: int, nonce: Nonce, s': State)
    requires Bounded(s) && Reserved(Drop(s, key), key, now, nonce, s')
    ensures Bounded(s')
  {
    var dropped := Drop(s, key);
    SubmapSize(dropped.entries, s.entries);
    var room :| Trimmed(dropped, room, |dropped.entries| >= MAX_ENTRIES) && s' == Put(room, key, [], nonce, true, now);
    TrimmedBound(dropped, room, MAX_ENTRIES);
    assert s'.entries.Keys == room.entries.Keys + {key};
  }

  lemma WrittenBound(s: State, op: Op, s': State)
    requires Bounded(s) && Next(s, op, s') && Succeeds(s, op)
    requires op.Store? || op.Replace? || op.DeleteIf? || op.Delete?
    ensures Bounded(s')
  {
    match op
    case Store(key, items, now, nonce) => PutBound(s, key, Normalize(items).value, nonce, false, now, s');
    case Replace(key, snapshot, items, now, nonce) =>
      var normalized := Normalize(items).value;
      var branch := if snapshot.loaded then PublishBranch(s, key, snapshot, normalized, nonce) else nonce;
      PutBound(s, key, normalized, branch, false, now, s');
    case DeleteIf(key, _, now, nonce) => PutBound(s, key, [], nonce, true, now, s');
    case Delete(key, now, nonce) => PutBound(s, key, [], nonce, true, now, s');
  }

  lemma PutBound(s: State, key: Key, items: seq<Item>, branch: Nonce, deleted: bool, now: int, s': State)
    requires Bounded(s) && Written(s, key, items, branch, deleted, now, s')
    ensures Bounded(s')
  {
    var put := Put(s, key, items, branch, deleted, now);
    assert put.entries.Keys == s.entries.Keys + {key};
    TrimmedBound(put, s', MAX_ENTRIES + 1);
  }

  // ---- Two points of one run ----

  /** How a later history relates to an earlier one. */
  ghost predicate Evolves(h: History, h': History) {
    && h.state.nextRevision <= h'.state.nextRevision
    && h.used <= h'.used && h.issued <= h'.issued
    && (forall k :: KeepsRevision(h, h', k))
    && (forall k :: KeepsBranch(h, h', k))
  }

  /** An old revision found later still labels the very same content. */
  ghost predicate KeepsRevision(h: History, h': History, k: Key) {
    k in h'.state.entries && h'.state.entries[k].revision <= h.state.nextRevision ==>
      && k in h.state.entries
      && h.state.entries[k] == h'.state.entries[k].(timestamp := h.state.entries[k].timestamp)
  }

  /** An old branch found later is held by the same key and its list has only grown. */
  ghost predicate KeepsBranch(h: History, h': History, k: Key) {
    k in h'.state.entries && h'.state.entries[k].branch in h.used ==>
      && k in h.state.entries
      && h.state.entries[k].branch == h'.state.entries[k].branch
      && h.state.entries[k].items <= h'.state.entries[k].items
  }

  lemma StepEvolves(h: History, op: Op, h': History)
    requires Inv(h) && Step(h, op, h')
    ensures Evolves(h, h')
  {
    if !Succeeds(h.state, op) || op.Clear? || op.Purge? || (op.Read? && Hit(h.state, op.key, op.now)) {
      forall k ensures KeepsRevision(h, h', k) && KeepsBranch(h, h', k) {}
    } else {
      var room, put := WriteStages(h, op, h');
      forall k ensures KeepsRevision(h, h', k) && KeepsBranch(h, h', k) {
        assert k in h'.state.entries ==> h'.state.entries[k] == put.entries[k];
      }
    }
  }

  lemma EvolvesTransitive(a: History, b: History, c: History)
    requires Evolves(a, b) && Evolves(b, c)
    ensures Evolves(a, c)
  {
    forall k ensures KeepsRevision(a, c, k) && KeepsBranch(a, c, k) {
      assert KeepsRevision(b, c, k) && KeepsBranch(b, c, k);
      assert KeepsRevision(a, b, k) && KeepsBranch(a, b, k);
    }
  }

  lemma EvolvesFromItself(h: History)
    ensures Evolves(h, h)
  {
    forall k ensures KeepsRevision(h, h, k) && KeepsBranch(h, h, k) {}
  }

  lemma ReachableStepEvolves(run: Run, n: nat)
    requires IsRun(run) && n < |run.ops|
    ensures Evolves(run.at[n], run.at[n + 1])
  {
    Reachable(run, n);
    StepEvolves(run.at[n], run.ops[n], run.at[n + 1]);
  }

  // ---- Runs ----

  datatype Run = Run(at: seq<History>, ops: seq<Op>)

  ghost predicate IsRun(run: Run) {
    && |run.at| == |run.ops| + 1 && run.at[0] == START
    && forall n {:trigger run.ops[n]} :: 0 <= n < |run.ops| ==> Step(run.at[n], run.ops[n], run.at[n + 1])
  }

  /** Every reachable history satisfies the invariant, the entry bound, and the item limits inside it. */
  lemma {:induction false} Reachable(run: Run, n: nat)
    requires IsRun(run) && n < |run.at|
    ensures Inv(run.at[n]) && Bounded(run.at[n].state)
  {
    if n > 0 {
      Reachable(run, n - 1);
      StepKeepsInv(run.at[n - 1], run.ops[n - 1], run.at[n]);
      StepKeepsBound(run.at[n - 1].state, run.ops[n - 1], run.at[n].state);
    }
  }

  lemma {:induction false} RunEvolves(run: Run, m: nat, n: nat)
    requires IsRun(run) && m <= n < |run.at|
    ensures Evolves(run.at[m], run.at[n])
  {
    if m == n {
      EvolvesFromItself(run.at[n]);
    } else {
      RunEvolves(run, m, n - 1);
      ReachableStepEvolves(run, n - 1);
      EvolvesTransitive(run.at[m], run.at[n - 1], run.at[n]);
    }
  }

  /** Revisions are ABA-free: two entries carrying one revision, at any two times and under any two keys, are the same content. */
  lemma RevisionsNeverReused(run: Run, m: nat, n: nat, k: Key, l: Key)
    requires IsRun(run) && m <= n < |run.at|
    requires k in run.at[m].state.entries && l in run.at[n].state.entries
    requires run.at[m].state.entries[k].revision == run.at[n].state.entries[l].revision
    ensures k == l
    ensures var e, e' := run.at[m].state.entries[k], run.at[n].state.entries[l];
            e.items == e'.items && e.branch == e'.branch && e.deleted == e'.deleted
  {
    Reachable(run, m);
    RunEvolves(run, m, n);
    assert EntryOk(run.at[m], k) && KeepsRevision(run.at[m], run.at[n], l) && Apart(run.at[m], k, l);
  }

  /** Branch growth: the lists stored under one branch, in time order, extend each other, always under one key. */
  lemma BranchesGrow(run: Run, m: nat, n: nat, k: Key, l: Key)
    requires IsRun(run) && m <= n < |run.at|
    requires k in run.at[m].state.entries && l in run.at[n].state.entries
    requires run.at[m].state.entries[k].branch == run.at[n].state.entries[l].branch
    ensures k == l
    ensures run.at[m].state.entries[k].items <= run.at[n].state.entries[l].items
  {
    Reachable(run, m);
    RunEvolves(run, m, n);
    assert EntryOk(run.at[m], k) && KeepsBranch(run.at[m], run.at[n], l) && Apart(run.at[m], k, l);
  }

  /** A revision match means the entry still holds exactly what the snapshot read. */
  lemma SnapshotIsExact(run: Run, n: nat, i: Issued, k: Key)
    requires IsRun(run) && n < |run.at| && i in run.at[n].issued
    requires k in run.at[n].state.entries && run.at[n].state.entries[k].revision == i.snapshot.revision
    ensures k == i.key
    ensures var e := run.at[n].state.entries[k];
            e.items == i.snapshot.items && e.branch == i.snapshot.branch && (e.deleted <==> i.snapshot.items == [])
  {
    Reachable(run, n);
    assert Agrees(run.at[n], i, k);
  }

  // ---- No resurrection ----

  /** The conversation the snapshot was read from is still the one its key holds. */
  ghost predicate Live(s: State, i: Issued) {
    i.key in s.entries && s.entries[i.key].branch == i.snapshot.branch
  }

  /** The operations that cut a key's conversation off: removal by any cause, or an overwrite that does not extend it. */
  ghost predicate Fences(s: State, op: Op, s': State, key: Key) {
    || key !in s'.entries
    || (Succeeds(s, op) && match op
        case Store(k, _, _, _) => k == key
        case Read(k, now, _) => k == key && !Hit(s, key, now)
        case Replace(k, snapshot, items, _, _) =>
          k == key && (snapshot.loaded ==> Matches(s, key, snapshot) && !(snapshot.items <= Normalize(items).value))
        case DeleteIf(k, _, _, _) => k == key
        case Delete(k, _, _) => k == key
        case Clear => true
        case Purge(now) => key in ExpiredKeys(s, now))
  }

  /** A fenced key holds nothing, or an entry whose revision and branch are both new. */
  ghost predicate Renewed(h: History, s': State, key: Key) {
    key in s'.entries ==> s'.entries[key].revision > h.state.nextRevision && s'.entries[key].branch !in h.used
  }

  lemma FenceRenews(h: History, op: Op, h': History, key: Key)
    requires Inv(h) && Step(h, op, h') && Fences(h.state, op, h'.state, key)
    ensures Renewed(h, h'.state, key)
  {
    if key in h'.state.entries && !op.Clear? && !op.Purge? {
      var room, put := WriteStages(h, op, h');
    }
  }

  /** A snapshot stays live through a step exactly when the step is not a fence for its key. */
  lemma LiveUntilFenced(h: History, op: Op, h': History, i: Issued)
    requires Inv(h) && Step(h, op, h') && i in h.issued && Live(h.state, i)
    ensures Live(h'.state, i) <==> !Fences(h.state, op, h'.state, i.key)
  {
    assert SnapshotOk(h, i);
    if Fences(h.state, op, h'.state, i.key) {
      FenceRenews(h, op, h', i.key);
    } else if Succeeds(h.state, op) && !op.Clear? && !op.Purge? && !(op.Read? && Hit(h.state, op.key, op.now)) {
      var room, put := WriteStages(h, op, h');
      if op.key == i.key {
        var j :| j in h.issued && j.snapshot == op.snapshot;
        assert SnapshotOk(h, j) && Agrees(h, j, op.key);
      }
    }
  }

  /** In any reachable state a snapshot can publish some list exactly when its conversation is live. */
  lemma PublishableIffLive(run: Run, n: nat, i: Issued, now: int, nonce: Nonce)
    requires IsRun(run) && n < |run.at| && i in run.at[n].issued
    ensures (exists items :: Succeeds(run.at[n].state, Replace(i.key, i.snapshot, items, now, nonce))) <==> Live(run.at[n].state, i)
  {
    var h := run.at[n];
    Reachable(run, n);
    assert SnapshotOk(h, i) && Agrees(h, i, i.key) && EntryOk(h, i.key);
    if Live(h.state, i) {
      var held := h.state.entries[i.key];
      var items := if held.deleted then [Canonical("x")] else held.items;
      assert held.deleted ==> Storable(items) by { assert TotalBytes([Canonical("x")]) == TotalBytes([]) + 1; }
      NormalizeYieldsStorable(items);
      assert Succeeds(h.state, Replace(i.key, i.snapshot, items, now, nonce));
    }
  }

  /** And it can delete exactly while its key holds the very entry it read. */
  lemma DeletableIffHeld(run: Run, n: nat, i: Issued, now: int, nonce: Nonce)
    requires IsRun(run) && n < |run.at| && i in run.at[n].issued
    ensures var s := run.at[n].state;
            Succeeds(s, DeleteIf(i.key, i.snapshot, now, nonce)) <==>
              && i.key in s.entries && s.entries[i.key].revision == i.snapshot.revision
              && s.entries[i.key].items == i.snapshot.items && s.entries[i.key].branch == i.snapshot.branch
  {
    Reachable(run, n);
    assert SnapshotOk(run.at[n], i) && Agrees(run.at[n], i, i.key);
  }

  /**
   No resurrection: once its key was fenced, a snapshot taken before never again publishes to
   or deletes any key, and whatever its key holds later has a fresh revision and a fresh branch.
   */
  lemma NoResurrection(run: Run, m: nat, n: nat, i: Issued)
    requires IsRun(run) && m < n < |run.ops| && i in run.at[m].issued
    requires Fences(run.at[m].state, run.ops[m], run.at[m + 1].state, i.key)
    ensures Renewed(run.at[m], run.at[n].state, i.key)
    ensures (run.ops[n].Replace? || run.ops[n].DeleteIf?) && run.ops[n].snapshot == i.snapshot ==>
              !Succeeds(run.at[n].state, run.ops[n]) && run.at[n + 1].state == run.at[n].state
  {
    var fenced, now := run.at[m], run.at[n];
    Reachable(run, m);
    FenceRenews(fenced, run.ops[m], run.at[m + 1], i.key);
    RunEvolves(run, m + 1, n);
    RunEvolves(run, m, n);
    Reachable(run, n);
    assert Renewed(fenced, now.state, i.key) by {
      assert KeepsRevision(run.at[m + 1], now, i.key) && KeepsBranch(run.at[m + 1], now, i.key);
      assert KeepsRevision(fenced, now, i.key) && KeepsBranch(fenced, now, i.key);
    }
    assert i in now.issued && SnapshotOk(fenced, i) && SnapshotOk(now, i);
    if (run.ops[n].Replace? || run.ops[n].DeleteIf?) && run.ops[n].snapshot == i.snapshot {
      assert Agrees(now, i, run.ops[n].key);
    }
  }

  /** The branch a publication or deletion puts its key on: the snapshot's own when the list extends what was read, else a fresh one. */
  function PublishedBranch(op: Op): Nonce
    requires op.Replace? || op.DeleteIf?
  {
    if op.Replace? && op.snapshot.loaded && Normalize(op.items).Some? && op.snapshot.items <= Normalize(op.items).value then op.snapshot.branch
    else op.nonce
  }

  lemma PublishedEntry(h: History, op: Op, h': History)
    requires Inv(h) && Step(h, op, h') && (op.Replace? || op.DeleteIf?) && Succeeds(h.state, op)
    ensures op.key in h'.state.entries ==>
              var e := h'.state.entries[op.key];
              && e.items == (if op.Replace? then Normalize(op.items).value else []) && e.branch == PublishedBranch(op)
              && e.revision > h.state.nextRevision
  {
    if op.Replace? && op.snapshot.loaded {
      var i :| i in h.issued && i.snapshot == op.snapshot;
      assert SnapshotOk(h, i) && Agrees(h, i, op.key);
    }
  }

  /**
   The read after a publication or deletion: a hit returns exactly the published list, on its branch and
   under a new revision; a miss returns nothing and a branch of its own.
   */
  lemma PublishThenRead(run: Run, n: nat)
    requires IsRun(run) && n + 1 < |run.ops|
    requires var op := run.ops[n]; (op.Replace? || op.DeleteIf?) && Succeeds(run.at[n].state, op)
    requires run.ops[n + 1].Read? && run.ops[n + 1].key == run.ops[n].key
    ensures var op, next := run.ops[n], run.ops[n + 1];
            && op.key in run.at[n + 2].state.entries
            && var read := Issue(run.at[n + 2].state, op.key);
            if Hit(run.at[n + 1].state, op.key, next.now) then
              && read.items == (if op.Replace? then Normalize(op.items).value else []) && read.branch == PublishedBranch(op)
              && read.revision > run.at[n].state.nextRevision
            else read.items == [] && read.branch == next.nonce && next.nonce !in run.at[n + 1].used
  {
    Reachable(run, n);
    PublishedEntry(run.at[n], run.ops[n], run.at[n + 1]);
    assert Step(run.at[n + 1], run.ops[n + 1], run.at[n + 2]);
  }
}
