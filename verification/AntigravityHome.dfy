/**
 The Home mode of the Antigravity replay cache: the same protocol over a shared key-value store,
 with a four-attempt compare-and-swap loop. `HomeClient` is one client among arbitrary others;
 `HomeHistory` interleaves many clients that all follow the protocol.
 */
module AntigravityHome {
  import opened Options
  import opened AntigravityReplay

  const MAX_SERIALIZED: nat := 24 * 1024 * 1024
  const ATTEMPTS: nat := 4

  /** Upper bound on the JSON text of the generation marker, its quotes and the list brackets. */
  const MARKER_BYTES: nat := 1024

  /** A stored value as it decodes: marked by this protocol, a list from before markers, or undecodable bytes. */
  datatype Value =
    | Marked(generation: Nonce, branch: Nonce, deleted: bool, items: seq<Item>)
    | Legacy(items: seq<Item>)
    | Garbage(size: nat)

  function Tombstone(generation: Nonce, branch: Nonce): Value {
    Marked(generation, branch, true, [])
  }

  /** Base64 text of `n` bytes with its quotes and separator. */
  function EncodedBytes(n: nat): nat {
    (n + 2) / 3 * 4 + 3
  }

  function EncodedSize(items: seq<Item>): nat {
    if items == [] then 0 else EncodedSize(items[..|items| - 1]) + EncodedBytes(|items[|items| - 1].bytes|)
  }

  function SerializedSize(v: Value): nat {
    match v
    case Marked(_, _, _, items) => MARKER_BYTES + EncodedSize(items)
    case Legacy(items) => 2 + EncodedSize(items)
    case Garbage(size) => size
  }

  lemma {:induction false} EncodedSizeBound(items: seq<Item>)
    ensures 3 * EncodedSize(items) <= 4 * TotalBytes(items) + 17 * |items|
  {
    if items != [] {
      EncodedSizeBound(items[..|items| - 1]);
    }
  }

  /** Whatever the protocol publishes is small enough for every later reader to accept. */
  lemma StorableFits(generation: Nonce, branch: Nonce, items: seq<Item>)
    requires Storable(items)
    ensures SerializedSize(Marked(generation, branch, false, items)) <= MAX_SERIALIZED
  {
    EncodedSizeBound(items);
  }

  /** The state a request read; `raw` is None when the value was too large to keep. */
  datatype HomeSnapshot = HomeSnapshot(raw: Option<Value>, items: seq<Item>, found: bool, branch: Nonce)

  function Branch(v: Value): Nonce {
    if v.Marked? then v.branch else ""
  }

  /** The items a reader accepts from a value; None when it must treat the value as holding nothing. */
  function ReadableItems(v: Value): Option<seq<Item>> {
    if v.Garbage? || (v.Marked? && v.deleted) || v.items == [] || |v.items| > MAX_ITEMS then None
    else if Normalize(v.items).None? || |Normalize(v.items).value| != |v.items| then None
    else Normalize(v.items)
  }

  /** GetAntigravityReasoningReplayItemsWithSnapshotRequired once a value was found or reserved. */
  function SnapshotOf(v: Value): HomeSnapshot {
    if SerializedSize(v) > MAX_SERIALIZED then HomeSnapshot(None, [], true, "")
    else
      var items := match ReadableItems(v) case Some(read) => read case None => [];
      HomeSnapshot(Some(v), items, true, Branch(v))
  }

  /** A value a later request may have put on the snapshot's branch and that `items` still extends. */
  ghost predicate Descendant(v: Value, snapshot: HomeSnapshot, items: seq<Item>) {
    && v.Marked? && !v.deleted && snapshot.branch != "" && v.branch == snapshot.branch
    && Normalize(v.items).Some? && |Normalize(v.items).value| == |v.items| && Normalize(v.items).value <= items
    && SerializedSize(v) <= MAX_SERIALIZED
  }

  /** The branch a publication goes to, decided once from the snapshot; None asks for a fresh one. */
  function TargetBranch(snapshot: HomeSnapshot, items: seq<Item>): Option<Nonce> {
    if snapshot.branch == "" || !(snapshot.items <= items) then None else Some(snapshot.branch)
  }

  // ---- One client against arbitrary others ----

  datatype SwapResult = Swapped | Unchanged | Failed

  /** One successful swap of this client: what it overwrote and with what. */
  datatype Swap = Swap(before: Option<Value>, after: Value)

  class SharedKey {
    var value: Option<Value>
    ghost var log: seq<Swap>

    constructor (initial: Option<Value>)
      ensures value == initial && log == []
    {
      value, log := initial, [];
    }

    /** Other clients write, delete and expire at will. */
    method Interfere()
      modifies this`value
    {
      value := *;
    }

    method Get() returns (answer: Option<Value>, failed: bool)
      modifies this`value
    {
      Interfere();
      answer, failed := value, *;
    }

    /** A failed call may still have reached the store. */
    method CompareAndSwap(expected: Option<Value>, expectedFound: bool, after: Value) returns (result: SwapResult)
      modifies this
      ensures result == Swapped ==> log == old(log) + [Swap(if expectedFound then expected else None, after)]
      ensures result == Swapped ==> (expectedFound ==> expected.Some?)
      ensures result == Unchanged ==> log == old(log)
      ensures result == Failed ==> log == old(log) || log == old(log) + [Swap(if expectedFound then expected else None, after)]
      ensures result == Failed && log != old(log) ==> (expectedFound ==> expected.Some?)
    {
      Interfere();
      var lostRequest, lostAnswer: bool := *, *;
      if lostRequest {
        return Failed;
      }
      if (if expectedFound then value.Some? && value == expected else value.None?) {
        log := log + [Swap(value, after)];
        value := Some(after);
        return if lostAnswer then Failed else Swapped;
      }
      return if lostAnswer then Failed else Unchanged;
    }
  }

  /** What one publication may do to the store: overwrite the snapshot itself or a live descendant, with the promised value. */
  ghost predicate Refines(swap: Swap, snapshot: HomeSnapshot, items: seq<Item>, nonce: Nonce) {
    && swap.after.Marked? && !swap.after.deleted && swap.after.items == items
    && swap.after.branch == (match TargetBranch(snapshot, items) case Some(b) => b case None => nonce)
    && (|| (if snapshot.found then snapshot.raw.Some? && swap.before == snapshot.raw else swap.before.None?)
        || (swap.before.Some? && Descendant(swap.before.value, snapshot, items)))
  }

  /**
   ReplaceAntigravityReasoningReplayItemsIfUnchanged in Home mode. Whatever others do between its
   steps it writes at most once, and only over the snapshot value or over a live value of the same
   branch whose items are a prefix of what it writes. None is an error return.
   */
  method PublishIfUnchanged(store: SharedKey, snapshot: HomeSnapshot, items: seq<Item>, nonce: Nonce, generations: seq<Nonce>)
    returns (published: Option<bool>)
    requires |generations| == ATTEMPTS
    modifies store
    ensures Normalize(items).None? ==> published.None? && store.log == old(store.log)
    ensures published == Some(false) ==> store.log == old(store.log)
    ensures store.log != old(store.log) ==>
              exists swap :: store.log == old(store.log) + [swap] && Refines(swap, snapshot, Normalize(items).value, nonce)
    ensures published == Some(true) ==> store.log != old(store.log)
  {
    var normal := NormalizeItems(items);
    if normal.None? {
      return None;
    }
    var normalized := normal.value;
    var expected, expectedFound := snapshot.raw, snapshot.found;
    var branch := snapshot.branch;
    var continues := ItemsPrefix(snapshot.items, normalized);
    if branch == "" || !continues {
      branch := nonce;
    }
    for attempt := 0 to ATTEMPTS
      invariant store.log == old(store.log)
      invariant || (expected == snapshot.raw && expectedFound == snapshot.found)
                || (expectedFound && expected.Some? && Descendant(expected.value, snapshot, normalized))
    {
      var result := store.CompareAndSwap(expected, expectedFound, Marked(generations[attempt], branch, false, normalized));
      ghost var swap := Swap(if expectedFound then expected else None, Marked(generations[attempt], branch, false, normalized));
      assert store.log != old(store.log) ==> store.log == old(store.log) + [swap] && Refines(swap, snapshot, normalized, nonce);
      if result != Unchanged {
        return if result == Swapped then Some(true) else None;
      }
      var current, failed := store.Get();
      if failed {
        return None;
      }
      if current.None? || SerializedSize(current.value) > MAX_SERIALIZED {
        return Some(false);
      }
      var v := current.value;
      if !v.Marked? || v.deleted || snapshot.branch == "" || v.branch != snapshot.branch {
        return Some(false);
      }
      var held := NormalizeItems(v.items);
      if held.None? || |held.value| != |v.items| {
        return Some(false);
      }
      var prefix := ItemsPrefix(held.value, normalized);
      if !prefix {
        return Some(false);
      }
      expected, expectedFound := current, true;
    }
    return Some(false);
  }
}

/** Many clients over one store, every one following the protocol; calls interleave step by step. */
module HomeHistory {
  import opened Options
  import opened AntigravityReplay
  import opened AntigravityHome

  type CallId = nat

  datatype Issued = Issued(key: Key, snapshot: HomeSnapshot)

  /** A publication in flight: the value its next compare-and-swap expects, and how many it has tried. */
  datatype Call = Call(key: Key, snapshot: HomeSnapshot, items: seq<Item>, expected: Option<Value>, attempts: nat, fetching: bool)

  datatype Home = Home(store: map<Key, Value>, used: set<Nonce>, issued: set<Issued>, calls: map<CallId, Call>)

  datatype Step =
    | Find(key: Key)
    | Reserve(key: Key, generation: Nonce, branch: Nonce)
    | Begin(id: CallId, key: Key, snapshot: HomeSnapshot, items: seq<Item>)
    | CasWrite(id: CallId, generation: Nonce, branch: Nonce)
    | CasMiss(id: CallId)
    | Fetch(id: CallId)
    | GiveUp(id: CallId)
    | Set(key: Key, items: seq<Item>, generation: Nonce, branch: Nonce)
    | SetTombstone(key: Key, generation: Nonce, branch: Nonce)
    | DeleteIf(key: Key, snapshot: HomeSnapshot, generation: Nonce, branch: Nonce)
    | Expire(key: Key)
    | Foreign(key: Key, value: Value)

  ghost predicate Fresh(h: Home, generation: Nonce, branch: Nonce) {
    generation !in h.used && branch !in h.used && generation != branch && generation != "" && branch != ""
  }

  function Write(h: Home, key: Key, value: Value, nonces: set<Nonce>): Home {
    h.(store := h.store[key := value], used := h.used + nonces)
  }

  /** A compare-and-swap with an existing expected value succeeds exactly on equality. */
  predicate CasHits(h: Home, key: Key, expected: Option<Value>) {
    expected.Some? && key in h.store && h.store[key] == expected.value
  }

  ghost predicate Next(h: Home, step: Step, h': Home) {
    match step
    case Find(key) =>
      key in h.store && h' == h.(issued := h.issued + {Issued(key, SnapshotOf(h.store[key]))})
    case Reserve(key, generation, branch) =>
      var reservation := Tombstone(generation, branch);
      key !in h.store && Fresh(h, generation, branch)
      && h' == Write(h, key, reservation, {generation, branch}).(issued := h.issued + {Issued(key, SnapshotOf(reservation))})
    case Begin(id, key, snapshot, items) =>
      id !in h.calls && Normalize(items).Some? && (exists i :: i in h.issued && i.snapshot == snapshot)
      && h' == h.(calls := h.calls[id := Call(key, snapshot, Normalize(items).value, snapshot.raw, 0, false)])
    case CasWrite(id, generation, branch) =>
      && id in h.calls && !h.calls[id].fetching && CasHits(h, h.calls[id].key, h.calls[id].expected)
      && var call := h.calls[id];
      && Fresh(h, generation, branch)
      && var target := match TargetBranch(call.snapshot, call.items) case Some(b) => b case None => branch;
      && h' == Write(h, call.key, Marked(generation, target, false, call.items), {generation, branch}).(calls := h.calls - {id})
    case CasMiss(id) =>
      && id in h.calls && !h.calls[id].fetching && !CasHits(h, h.calls[id].key, h.calls[id].expected)
      && h' == h.(calls := h.calls[id := h.calls[id].(fetching := true, attempts := h.calls[id].attempts + 1)])
    case Fetch(id) =>
      && id in h.calls && h.calls[id].fetching
      && var call := h.calls[id];
      if call.key in h.store && Descendant(h.store[call.key], call.snapshot, call.items) && call.attempts < ATTEMPTS
      then h' == h.(calls := h.calls[id := call.(expected := Some(h.store[call.key]), fetching := false)])
      else h' == h.(calls := h.calls - {id})
    case GiveUp(id) =>
      id in h.calls && h' == h.(calls := h.calls - {id})
    case Set(key, items, generation, branch) =>
      Normalize(items).Some? && Fresh(h, generation, branch)
      && h' == Write(h, key, Marked(generation, branch, false, Normalize(items).value), {generation, branch})
    case SetTombstone(key, generation, branch) =>
      Fresh(h, generation, branch) && h' == Write(h, key, Tombstone(generation, branch), {generation, branch})
    case DeleteIf(key, snapshot, generation, branch) =>
      && (exists i :: i in h.issued && i.snapshot == snapshot) && Fresh(h, generation, branch)
      && h' == if CasHits(h, key, snapshot.raw) then Write(h, key, Tombstone(generation, branch), {generation, branch}) else h
    case Expire(key) =>
      h' == h.(store := h.store - {key})
    case Foreign(key, value) =>
      !value.Marked? && h' == h.(store := h.store[key := value])
  }

  /** Values from before the markers may be there from the start. */
  ghost predicate Init(h: Home) {
    && h.used == {} && h.issued == {} && h.calls == map[]
    && forall k :: k in h.store ==> !h.store[k].Marked?
  }

  // ---- The invariant ----

  ghost predicate ValueOk(h: Home, k: Key) {
    k in h.store && h.store[k].Marked? ==>
      var v := h.store[k];
      && v.generation in h.used && v.branch in h.used && v.branch != ""
      && (if v.deleted then v.items == [] else Storable(v.items))
  }

  ghost predicate Apart(h: Home, k: Key, l: Key) {
    k in h.store && l in h.store && k != l && h.store[k].Marked? && h.store[l].Marked? ==>
      h.store[k].generation != h.store[l].generation && h.store[k].branch != h.store[l].branch
  }

  ghost predicate SnapshotOk(h: Home, i: Issued) {
    && i.snapshot.found
    && (i.snapshot.raw.Some? ==> i.snapshot == SnapshotOf(i.snapshot.raw.value))
    && (i.snapshot.raw.None? ==> i.snapshot.branch == "")
    && (MarkedSnapshot(i) ==>
          var r := i.snapshot.raw.value;
          && r.generation in h.used && r.branch in h.used && r.branch != ""
          && (if r.deleted then r.items == [] else Storable(r.items)))
  }

  /** The snapshots that take part in the generation protocol: those of a marked value. */
  predicate MarkedSnapshot(i: Issued) {
    i.snapshot.raw.Some? && i.snapshot.raw.value.Marked?
  }

  ghost predicate Agrees(h: Home, i: Issued, k: Key) {
    k in h.store && h.store[k].Marked? && MarkedSnapshot(i) ==>
      var v, r := h.store[k], i.snapshot.raw.value;
      && (v.generation == r.generation ==> k == i.key && v == r)
      && (v.branch == r.branch ==> k == i.key && r.items <= v.items && (v != r ==> !v.deleted))
  }

  /** A call in flight expects its snapshot or a value it checked to be a descendant. */
  ghost predicate CallOk(h: Home, id: CallId) {
    id in h.calls ==>
      var call := h.calls[id];
      && Storable(call.items)
      && (exists i :: i in h.issued && i.snapshot == call.snapshot)
      && (call.expected == call.snapshot.raw || (call.expected.Some? && Descendant(call.expected.value, call.snapshot, call.items)))
  }

  ghost predicate Inv(h: Home) {
    && (forall k :: ValueOk(h, k))
    && (forall k, l :: Apart(h, k, l))
    && (forall i :: i in h.issued ==> SnapshotOk(h, i))
    && (forall i, k :: i in h.issued ==> Agrees(h, i, k))
    && (forall id :: CallOk(h, id))
  }

  /** A marked snapshot's items and branch are those of the value it holds. */
  lemma MarkedSnapshotItems(h: Home, i: Issued)
    requires SnapshotOk(h, i) && MarkedSnapshot(i)
    ensures i.snapshot.items == i.snapshot.raw.value.items && i.snapshot.branch == i.snapshot.raw.value.branch
  {
    NormalizeYieldsStorable(i.snapshot.raw.value.items);
  }

  /** The write shared by all steps: a fresh generation, on a fresh branch or extending the branch the key holds. */
  ghost predicate GoodWrite(h: Home, key: Key, v: Value, nonces: set<Nonce>) {
    && v.Marked? && v.generation in nonces && v.generation !in h.used && v.branch != ""
    && (if v.deleted then v.items == [] else Storable(v.items))
    && ((v.branch in nonces && v.branch !in h.used) || ExtendsHeld(h, key, v))
  }

  ghost predicate ExtendsHeld(h: Home, key: Key, v: Value) {
    && key in h.store && h.store[key].Marked? && v.Marked?
    && v.branch == h.store[key].branch && h.store[key].items <= v.items && !v.deleted
  }

  lemma WriteKeepsInv(h: Home, key: Key, v: Value, nonces: set<Nonce>)
    requires Inv(h) && GoodWrite(h, key, v, nonces)
    ensures Inv(Write(h, key, v, nonces))
  {
    var h' := Write(h, key, v, nonces);
    forall k ensures ValueOk(h', k) { assert ValueOk(h, k) && ValueOk(h, key); }
    forall k, l ensures Apart(h', k, l) { assert Apart(h, k, l) && ValueOk(h, k) && ValueOk(h, l); }
    forall i | i in h'.issued ensures SnapshotOk(h', i) { assert SnapshotOk(h, i); }
    forall i, k | i in h'.issued ensures Agrees(h', i, k) {
      assert SnapshotOk(h, i) && Agrees(h, i, k) && Agrees(h, i, key);
    }
    forall id ensures CallOk(h', id) { assert CallOk(h, id); }
  }

  /** Steps that write nothing marked: values leave, calls come and go. */
  lemma QuietKeepsInv(h: Home, h': Home)
    requires Inv(h) && h'.used == h.used && h'.issued == h.issued
    requires forall k :: k in h'.store && h'.store[k].Marked? ==> k in h.store && h'.store[k] == h.store[k]
    requires forall id :: CallOk(h', id)
    ensures Inv(h')
  {
    forall k ensures ValueOk(h', k) { assert ValueOk(h, k); }
    forall k, l ensures Apart(h', k, l) { assert Apart(h, k, l); }
    forall i | i in h'.issued ensures SnapshotOk(h', i) { assert SnapshotOk(h, i); }
    forall i, k | i in h'.issued ensures Agrees(h', i, k) { assert Agrees(h, i, k); }
  }

  lemma IssueKeepsInv(h: Home, key: Key)
    requires Inv(h) && key in h.store
    ensures Inv(h.(issued := h.issued + {Issued(key, SnapshotOf(h.store[key]))}))
  {
    var i := Issued(key, SnapshotOf(h.store[key]));
    var h' := h.(issued := h.issued + {i});
    forall k ensures ValueOk(h', k) { assert ValueOk(h, k); }
    forall k, l ensures Apart(h', k, l) { assert Apart(h, k, l); }
    forall j | j in h'.issued ensures SnapshotOk(h', j) { assert j != i ==> SnapshotOk(h, j); assert ValueOk(h, key); }
    forall j, k | j in h'.issued ensures Agrees(h', j, k) {
      assert j != i ==> Agrees(h, j, k);
      assert Apart(h, k, key);
    }
    forall id ensures CallOk(h', id) { assert CallOk(h, id); }
  }

  // ---- What a successful compare-and-swap overwrites ----

  /** The marked value a step puts under a key, with the nonces it draws. */
  datatype Publication = Publication(key: Key, value: Value, nonces: set<Nonce>)

  function Published(h: Home, step: Step): Option<Publication> {
    match step
    case Reserve(k, g, b) => Some(Publication(k, Tombstone(g, b), {g, b}))
    case CasWrite(id, g, b) =>
      if id !in h.calls then None
      else
        var call := h.calls[id];
        var target := match TargetBranch(call.snapshot, call.items) case Some(c) => c case None => b;
        Some(Publication(call.key, Marked(g, target, false, call.items), {g, b}))
    case Set(k, items, g, b) =>
      if Normalize(items).None? then None else Some(Publication(k, Marked(g, b, false, Normalize(items).value), {g, b}))
    case SetTombstone(k, g, b) => Some(Publication(k, Tombstone(g, b), {g, b}))
    case DeleteIf(k, snapshot, g, b) => if CasHits(h, k, snapshot.raw) then Some(Publication(k, Tombstone(g, b), {g, b})) else None
    case _ => None
  }

  /** A swap under a marked snapshot happens on the snapshot's own key while its branch is still the one stored. */
  lemma CasHitsOnBranch(h: Home, i: Issued, key: Key, expected: Option<Value>, items: seq<Item>)
    requires Inv(h) && i in h.issued && i.snapshot.branch != "" && CasHits(h, key, expected)
    requires expected == i.snapshot.raw || (expected.Some? && Descendant(expected.value, i.snapshot, items))
    ensures key == i.key && h.store[key].Marked? && h.store[key].branch == i.snapshot.branch
    ensures i.snapshot.items <= h.store[key].items
    ensures if expected == i.snapshot.raw then h.store[key].items == i.snapshot.items else h.store[key].items <= items
  {
    assert SnapshotOk(h, i) && MarkedSnapshot(i);
    MarkedSnapshotItems(h, i);
    assert Agrees(h, i, key);
    if expected != i.snapshot.raw {
      NormalizeYieldsStorable(expected.value.items);
      assert ValueOk(h, key);
    }
  }

  lemma PublishIsGood(h: Home, step: Step, h': Home)
    requires Inv(h) && Next(h, step, h') && Published(h, step).Some?
    ensures var p := Published(h, step).value;
            GoodWrite(h, p.key, p.value, p.nonces) && h'.store == h.store[p.key := p.value] && h'.used == h.used + p.nonces
  {
    match step
    case CasWrite(id, g, b) =>
      var call := h.calls[id];
      assert CallOk(h, id);
      var i :| i in h.issued && i.snapshot == call.snapshot;
      if TargetBranch(call.snapshot, call.items).Some? {
        CasHitsOnBranch(h, i, call.key, call.expected, call.items);
        assert ExtendsHeld(h, call.key, Published(h, step).value.value);
      }
    case Set(k, items, g, b) => NormalizeYieldsStorable(items);
    case _ =>
  }

  lemma StepKeepsInv(h: Home, step: Step, h': Home)
    requires Inv(h) && Next(h, step, h')
    ensures Inv(h')
  {
    if Published(h, step).Some? {
      var p := Published(h, step).value;
      PublishIsGood(h, step, h');
      WriteKeepsInv(h, p.key, p.value, p.nonces);
      var written := Write(h, p.key, p.value, p.nonces);
      if step.Reserve? {
        IssueKeepsInv(written, p.key);
      } else if step.CasWrite? {
        forall id ensures CallOk(h', id) { assert CallOk(written, id); }
        QuietKeepsInv(written, h');
      }
    } else if step.Find? {
      IssueKeepsInv(h, step.key);
    } else {
      if step.Begin? {
        NormalizeYieldsStorable(step.items);
      }
      forall id ensures CallOk(h', id) { assert CallOk(h, id); }
      QuietKeepsInv(h, h');
    }
  }

  // ---- Two points of one run ----

  ghost predicate KeepsGeneration(h: Home, h': Home, k: Key) {
    k in h'.store && h'.store[k].Marked? && h'.store[k].generation in h.used ==> k in h.store && h.store[k] == h'.store[k]
  }

  ghost predicate KeepsBranch(h: Home, h': Home, k: Key) {
    k in h'.store && h'.store[k].Marked? && h'.store[k].branch in h.used ==>
      k in h.store && h.store[k].Marked? && h.store[k].branch == h'.store[k].branch && h.store[k].items <= h'.store[k].items
  }

  ghost predicate Evolves(h: Home, h': Home) {
    && h.used <= h'.used && h.issued <= h'.issued
    && (forall k :: KeepsGeneration(h, h', k))
    && (forall k :: KeepsBranch(h, h', k))
  }

  lemma StepEvolves(h: Home, step: Step, h': Home)
    requires Inv(h) && Next(h, step, h')
    ensures Evolves(h, h')
  {
    if Published(h, step).Some? {
      PublishIsGood(h, step, h');
    }
    forall k ensures KeepsGeneration(h, h', k) && KeepsBranch(h, h', k) {}
  }

  datatype Run = Run(at: seq<Home>, steps: seq<Step>)

  ghost predicate IsRun(run: Run) {
    && |run.at| == |run.steps| + 1 && Init(run.at[0])
    && forall n {:trigger run.steps[n]} :: 0 <= n < |run.steps| ==> Next(run.at[n], run.steps[n], run.at[n + 1])
  }

  lemma {:induction false} Reachable(run: Run, n: nat)
    requires IsRun(run) && n < |run.at|
    ensures Inv(run.at[n])
  {
    if n > 0 {
      Reachable(run, n - 1);
      StepKeepsInv(run.at[n - 1], run.steps[n - 1], run.at[n]);
    }
  }

  lemma {:induction false} RunEvolves(run: Run, m: nat, n: nat)
    requires IsRun(run) && m <= n < |run.at|
    ensures Evolves(run.at[m], run.at[n])
  {
    if m == n {
      forall k ensures KeepsGeneration(run.at[m], run.at[n], k) && KeepsBranch(run.at[m], run.at[n], k) {}
    } else {
      RunEvolves(run, m, n - 1);
      Reachable(run, n - 1);
      StepEvolves(run.at[n - 1], run.steps[n - 1], run.at[n]);
      forall k ensures KeepsGeneration(run.at[m], run.at[n], k) && KeepsBranch(run.at[m], run.at[n], k) {
        assert KeepsGeneration(run.at[n - 1], run.at[n], k) && KeepsBranch(run.at[n - 1], run.at[n], k);
        assert KeepsGeneration(run.at[m], run.at[n - 1], k) && KeepsBranch(run.at[m], run.at[n - 1], k);
      }
    }
  }

  /** Branch growth across clients: two values of one branch, at any two times, lie under one key and the later extends the earlier. */
  lemma BranchesGrow(run: Run, m: nat, n: nat, k: Key, l: Key)
    requires IsRun(run) && m <= n < |run.at|
    requires k in run.at[m].store && run.at[m].store[k].Marked?
    requires l in run.at[n].store && run.at[n].store[l].Marked? && run.at[n].store[l].branch == run.at[m].store[k].branch
    ensures k == l && run.at[m].store[k].items <= run.at[n].store[l].items
  {
    Reachable(run, m);
    RunEvolves(run, m, n);
    assert ValueOk(run.at[m], k) && KeepsBranch(run.at[m], run.at[n], l) && Apart(run.at[m], k, l);
  }

  /**
   The compare-and-swap loop refines the one-step local rule: at the instant of its successful swap
   the stored value is the snapshot itself, or a live value of the snapshot's branch that the new
   list extends, and the branch written is the one the local rule picks for that stored value.
   */
  lemma SwapRefinesLocalRule(run: Run, n: nat, id: CallId, generation: Nonce, branch: Nonce)
    requires IsRun(run) && n < |run.steps| && run.steps[n] == CasWrite(id, generation, branch)
    ensures id in run.at[n].calls && run.at[n].calls[id].key in run.at[n].store
    ensures var call := run.at[n].calls[id];
            var before, after := run.at[n].store[call.key], run.at[n + 1].store;
            && (Some(before) == call.snapshot.raw || Descendant(before, call.snapshot, call.items))
            && call.key in after && after[call.key].Marked? && after[call.key].items == call.items && !after[call.key].deleted
            && after[call.key].branch ==
                 (if call.snapshot.branch == "" || (Some(before) == call.snapshot.raw && !(call.snapshot.items <= call.items))
                  then branch else call.snapshot.branch)
  {
    var h := run.at[n];
    Reachable(run, n);
    assert Next(h, run.steps[n], run.at[n + 1]) && CallOk(h, id);
    var call := h.calls[id];
    var i :| i in h.issued && i.snapshot == call.snapshot;
    if call.snapshot.branch != "" {
      CasHitsOnBranch(h, i, call.key, call.expected, call.items);
    }
  }

  /** The step replaces what `key` holds by nothing or by a value that is not on its branch. */
  ghost predicate CutsOff(h: Home, h': Home, i: Issued) {
    !(i.key in h'.store && h'.store[i.key].Marked? && h'.store[i.key].branch == i.snapshot.branch)
  }

  /**
   No resurrection across clients: once a key no longer stores the snapshot's branch, no call holding
   that snapshot ever swaps again, not even one already in flight with an older expected value.
   */
  lemma NoResurrection(run: Run, m: nat, n: nat, i: Issued)
    requires IsRun(run) && m <= n < |run.steps| && i in run.at[m].issued && MarkedSnapshot(i)
    requires CutsOff(run.at[m], run.at[m], i)
    ensures CutsOff(run.at[n], run.at[n], i)
    ensures run.steps[n].CasWrite? && run.steps[n].id in run.at[n].calls ==> run.at[n].calls[run.steps[n].id].snapshot != i.snapshot
    ensures run.steps[n].DeleteIf? && run.steps[n].snapshot == i.snapshot ==> run.at[n + 1] == run.at[n]
  {
    var h := run.at[n];
    Reachable(run, m);
    Reachable(run, n);
    RunEvolves(run, m, n);
    assert SnapshotOk(run.at[m], i) && SnapshotOk(h, i);
    assert KeepsBranch(run.at[m], h, i.key);
    assert Next(h, run.steps[n], run.at[n + 1]);
    if run.steps[n].CasWrite? && h.calls[run.steps[n].id].snapshot == i.snapshot {
      var call := h.calls[run.steps[n].id];
      assert CallOk(h, run.steps[n].id);
      CasHitsOnBranch(h, i, call.key, call.expected, call.items);
      assert false;
    }
    if run.steps[n].DeleteIf? && run.steps[n].snapshot == i.snapshot && CasHits(h, run.steps[n].key, i.snapshot.raw) {
      CasHitsOnBranch(h, i, run.steps[n].key, i.snapshot.raw, []);
      assert false;
    }
  }
}
