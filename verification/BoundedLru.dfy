/** A bounded cache that evicts the least recently used value: a map into a list of elements, refining a recency list. */
module BoundedLru {
  import opened Options
  import Eviction

  datatype Pair<+K, +V> = Pair(key: K, value: V)

  /**
   The specification: cached pairs, most recently used first; `created` and `dropped` record every value
   ever created and every one evicted or deleted, in order.
   */
  datatype Recency<K, V> = Recency(capacity: nat, list: seq<Pair<K, V>>, created: seq<Pair<K, V>>, dropped: seq<Pair<K, V>>)

  datatype Op<K, V> = GetOrAdd(key: K, value: V) | Get(key: K) | Delete(key: K)

  /** The place of a key, or the length when it is absent. */
  function IndexOf<K(==), V>(list: seq<Pair<K, V>>, key: K): (i: nat)
    ensures i <= |list| && (i < |list| ==> list[i].key == key)
    ensures forall j :: 0 <= j < i ==> list[j].key != key
  {
    if list == [] || list[0].key == key then 0 else 1 + IndexOf(list[1..], key)
  }

  function Without<T>(list: seq<T>, i: nat): seq<T>
    requires i < |list|
  {
    list[..i] + list[i + 1..]
  }

  function Touch<T>(list: seq<T>, i: nat): seq<T>
    requires i < |list|
  {
    [list[i]] + Without(list, i)
  }

  function Apply<K(==), V>(r: Recency<K, V>, op: Op<K, V>): Recency<K, V> {
    var i := IndexOf(r.list, op.key);
    if i < |r.list| then
      if op.Delete? then r.(list := Without(r.list, i), dropped := r.dropped + [r.list[i]])
      else r.(list := Touch(r.list, i))
    else if op.GetOrAdd? then
      var added := r.(list := [Pair(op.key, op.value)] + r.list, created := r.created + [Pair(op.key, op.value)]);
      if |added.list| <= r.capacity then added
      else added.(list := added.list[..|r.list|], dropped := r.dropped + [added.list[|r.list|]])
    else r
  }

  // ---- Laws of the recency list ----

  ghost predicate DistinctKeys<K, V>(list: seq<Pair<K, V>>) {
    forall i, j :: 0 <= i < j < |list| ==> list[i].key != list[j].key
  }

  /** Every value ever created is cached or was dropped, exactly once. */
  ghost predicate Conserved<K, V>(r: Recency<K, V>) {
    multiset(r.created) == multiset(r.list) + multiset(r.dropped)
  }

  /** No key twice, never too many values, and none lost. */
  ghost predicate Inv<K, V>(r: Recency<K, V>) {
    r.capacity > 0 && |r.list| <= r.capacity && DistinctKeys(r.list) && Conserved(r)
  }

  lemma WithoutCounts<T>(list: seq<T>, i: nat)
    requires i < |list|
    ensures multiset(list) == multiset(Without(list, i)) + multiset{list[i]}
  {
    assert list == list[..i] + [list[i]] + list[i + 1..];
  }

  lemma FrontCounts<T>(x: T, list: seq<T>)
    ensures multiset([x] + list) == multiset(list) + multiset{x}
  {
  }

  lemma AppendCounts<T>(list: seq<T>, x: T)
    ensures multiset(list + [x]) == multiset(list) + multiset{x}
  {
  }

  lemma ApplyConserves<K, V>(r: Recency<K, V>, op: Op<K, V>)
    requires Conserved(r)
    ensures Conserved(Apply(r, op))
  {
    var i := IndexOf(r.list, op.key);
    if i < |r.list| {
      WithoutCounts(r.list, i);
      FrontCounts(r.list[i], Without(r.list, i));
      AppendCounts(r.dropped, r.list[i]);
    } else if op.GetOrAdd? {
      MissAdds(r, op.key, op.value);
      AddConserves(r, Pair(op.key, op.value));
    }
  }

  /** What a miss does: a new front element, and the last one gone if there is one too many. */
  lemma MissAdds<K, V>(r: Recency<K, V>, key: K, value: V)
    requires IndexOf(r.list, key) == |r.list|
    ensures var all := [Pair(key, value)] + r.list;
      Apply(r, GetOrAdd(key, value))
      == if |all| <= r.capacity then r.(list := all, created := r.created + [Pair(key, value)])
         else r.(list := Without(all, |r.list|), created := r.created + [Pair(key, value)], dropped := r.dropped + [all[|r.list|]])
  {
    var all := [Pair(key, value)] + r.list;
    assert Without(all, |r.list|) == all[..|r.list|];
  }

  lemma AddConserves<K, V>(r: Recency<K, V>, pair: Pair<K, V>)
    requires Conserved(r)
    ensures var all := [pair] + r.list;
      && Conserved(r.(list := all, created := r.created + [pair]))
      && Conserved(r.(list := Without(all, |r.list|), created := r.created + [pair], dropped := r.dropped + [all[|r.list|]]))
  {
    var all := [pair] + r.list;
    FrontCounts(pair, r.list);
    AppendCounts(r.created, pair);
    WithoutCounts(all, |r.list|);
    AppendCounts(r.dropped, all[|r.list|]);
  }

  lemma ApplyKeepsDistinct<K, V>(r: Recency<K, V>, op: Op<K, V>)
    requires DistinctKeys(r.list)
    ensures DistinctKeys(Apply(r, op).list)
  {
  }

  lemma ApplyKeepsInv<K, V>(r: Recency<K, V>, op: Op<K, V>)
    requires Inv(r)
    ensures Inv(Apply(r, op))
  {
    ApplyConserves(r, op);
    ApplyKeepsDistinct(r, op);
  }

  /** The state after a list of calls on a new cache. */
  function Run<K(==), V>(capacity: int, ops: seq<Op<K, V>>): (r: Recency<K, V>)
    ensures r.capacity == if capacity < 1 then 1 else capacity
  {
    if ops == [] then Recency(if capacity < 1 then 1 else capacity, [], [], [])
    else Apply(Run(capacity, ops[..|ops| - 1]), ops[|ops| - 1])
  }

  /** Every run keeps the bound, distinct keys and conservation of values. */
  lemma {:induction false} RunKeepsInv<K, V>(capacity: int, ops: seq<Op<K, V>>)
    ensures Inv(Run(capacity, ops))
  {
    if ops != [] {
      RunKeepsInv(capacity, ops[..|ops| - 1]);
      ApplyKeepsInv(Run(capacity, ops[..|ops| - 1]), ops[|ops| - 1]);
    }
  }

  /** One more than the place of the last call that asks for the key, zero when there is none. */
  function LastAsked<K(==), V>(ops: seq<Op<K, V>>, key: K): nat {
    if ops == [] then 0
    else if !ops[|ops| - 1].Delete? && ops[|ops| - 1].key == key then |ops|
    else LastAsked(ops[..|ops| - 1], key)
  }

  lemma {:induction false} AskedWithin<K, V>(ops: seq<Op<K, V>>, key: K)
    ensures LastAsked(ops, key) <= |ops|
  {
    if ops != [] {
      AskedWithin(ops[..|ops| - 1], key);
    }
  }

  ghost predicate ByRecency<K(!new), V(!new)>(list: seq<Pair<K, V>>, ops: seq<Op<K, V>>) {
    forall i, j :: 0 <= i < j < |list| ==> LastAsked(ops, list[i].key) > LastAsked(ops, list[j].key)
  }

  lemma AskedAfter<K, V>(ops: seq<Op<K, V>>, op: Op<K, V>, key: K)
    ensures LastAsked(ops + [op], key) == if !op.Delete? && op.key == key then |ops| + 1 else LastAsked(ops, key)
  {
    assert (ops + [op])[..|ops|] == ops;
  }

  /** Where the elements of a touched list come from. */
  lemma TouchMembers<T>(list: seq<T>, i: nat)
    requires i < |list|
    ensures forall x :: x in Touch(list, i) <==> x in list
    ensures forall j :: 0 <= j < |list| ==> Touch(list, i)[j] == list[if j == 0 then i else if j <= i then j - 1 else j]
  {
    assert list == list[..i] + [list[i]] + list[i + 1..];
  }

  lemma FrontKeepsOrder<K(!new), V(!new)>(first: Pair<K, V>, others: seq<Pair<K, V>>, ops: seq<Op<K, V>>, op: Op<K, V>)
    requires ByRecency(others, ops) && !op.Delete? && first.key == op.key
    requires forall j :: 0 <= j < |others| ==> others[j].key != op.key
    ensures ByRecency([first] + others, ops + [op])
  {
    var list := [first] + others;
    forall i, j | 0 <= i < j < |list|
      ensures LastAsked(ops + [op], list[i].key) > LastAsked(ops + [op], list[j].key)
    {
      assert list[j] == others[j - 1];
      AskedAfter(ops, op, list[i].key);
      AskedAfter(ops, op, list[j].key);
      AskedWithin(ops, list[j].key);
    }
  }

  lemma OthersKeepOrder<K(!new), V(!new)>(list: seq<Pair<K, V>>, ops: seq<Op<K, V>>, op: Op<K, V>)
    requires ByRecency(list, ops)
    requires op.Delete? || forall j :: 0 <= j < |list| ==> list[j].key != op.key
    ensures ByRecency(list, ops + [op])
  {
    forall i, j | 0 <= i < j < |list|
      ensures LastAsked(ops + [op], list[i].key) > LastAsked(ops + [op], list[j].key)
    {
      AskedAfter(ops, op, list[i].key);
      AskedAfter(ops, op, list[j].key);
    }
  }

  lemma WithoutKeepsOrder<K(!new), V(!new)>(list: seq<Pair<K, V>>, i: nat, ops: seq<Op<K, V>>)
    requires ByRecency(list, ops) && DistinctKeys(list) && i < |list|
    ensures ByRecency(Without(list, i), ops)
    ensures forall j :: 0 <= j < |list| - 1 ==> Without(list, i)[j].key != list[i].key
  {
    assert forall j :: 0 <= j < |list| - 1 ==> Without(list, i)[j] == list[if j < i then j else j + 1];
  }

  /** A key just asked for comes first; the order of the others stays. */
  lemma ApplyKeepsOrder<K(!new), V(!new)>(r: Recency<K, V>, ops: seq<Op<K, V>>, op: Op<K, V>)
    requires DistinctKeys(r.list) && ByRecency(r.list, ops)
    ensures ByRecency(Apply(r, op).list, ops + [op])
  {
    var k := IndexOf(r.list, op.key);
    if k < |r.list| {
      WithoutKeepsOrder(r.list, k, ops);
      if op.Delete? {
        OthersKeepOrder(Without(r.list, k), ops, op);
      } else {
        FrontKeepsOrder(r.list[k], Without(r.list, k), ops, op);
      }
    } else if op.GetOrAdd? {
      FrontKeepsOrder(Pair(op.key, op.value), r.list, ops, op);
    } else {
      OthersKeepOrder(r.list, ops, op);
    }
  }

  /** The list is ordered by when each key was last asked for, over the whole history of calls. */
  lemma {:induction false} ListIsByRecency<K(!new), V(!new)>(capacity: int, ops: seq<Op<K, V>>)
    ensures ByRecency(Run(capacity, ops).list, ops)
  {
    if ops != [] {
      var before, op := ops[..|ops| - 1], ops[|ops| - 1];
      ListIsByRecency(capacity, before);
      RunKeepsInv(capacity, before);
      ApplyKeepsOrder(Run(capacity, before), before, op);
      assert before + [op] == ops;
    }
  }

  /** When a new key overflows the cache, the pair dropped is the one whose key was asked for least recently. */
  lemma EvictsLeastRecent<K(!new), V(!new)>(capacity: int, ops: seq<Op<K, V>>, key: K, value: V)
    requires |Run(capacity, ops).list| == Run(capacity, ops).capacity
    requires IndexOf(Run(capacity, ops).list, key) == |Run(capacity, ops).list|
    ensures var r := Run(capacity, ops);
      var oldest := r.list[|r.list| - 1];
      && Apply(r, GetOrAdd(key, value)).dropped == r.dropped + [oldest]
      && (forall i :: 0 <= i < |r.list| - 1 ==> LastAsked(ops, oldest.key) < LastAsked(ops, r.list[i].key))
      && Apply(r, GetOrAdd(key, value)).list == [Pair(key, value)] + r.list[..|r.list| - 1]
  {
    RunKeepsInv(capacity, ops);
    ListIsByRecency(capacity, ops);
  }

  // ---- The cache ----

  /** A list element; the linked list library is taken as a sequence of references to these. */
  class Element<K, V> {
    const key: K
    const value: V

    constructor (key: K, value: V)
      ensures this.key == key && this.value == value
    {
      this.key, this.value := key, value;
    }
  }

  function Pairs<K, V>(order: seq<Element<K, V>>): (pairs: seq<Pair<K, V>>)
    ensures |pairs| == |order|
  {
    seq(|order|, i requires 0 <= i < |order| => Pair(order[i].key, order[i].value))
  }

  function Position<K, V>(order: seq<Element<K, V>>, element: Element<K, V>): (i: nat)
    ensures i <= |order| && (i < |order| ==> order[i] == element)
    ensures i == |order| <==> element !in order
  {
    if order == [] || order[0] == element then 0 else 1 + Position(order[1..], element)
  }

  /** The map and the list hold the same elements, each once and under its own key. */
  ghost predicate Linked<K(!new), V>(entries: map<K, Element<K, V>>, order: seq<Element<K, V>>) {
    && (forall i :: 0 <= i < |order| ==> order[i].key in entries && entries[order[i].key] == order[i])
    && (forall k :: k in entries ==> entries[k] in order && entries[k].key == k)
    && (forall i, j :: 0 <= i < j < |order| ==> order[i].key != order[j].key)
  }

  /** An element of a linked map and list sits where its key does. */
  lemma PlaceOf<K(!new), V>(entries: map<K, Element<K, V>>, order: seq<Element<K, V>>, key: K)
    requires Linked(entries, order)
    ensures key in entries ==> entries[key] in order && Position(order, entries[key]) == IndexOf(Pairs(order), key) < |order|
    ensures key !in entries ==> IndexOf(Pairs(order), key) == |order|
  {
    var i := IndexOf(Pairs(order), key);
    if i < |order| {
      assert Pairs(order)[i].key == order[i].key == key;
    }
    if key in entries {
      var p := Position(order, entries[key]);
      assert Pairs(order)[p].key == order[p].key == key;
    }
  }

  lemma TouchLinked<K(!new), V>(entries: map<K, Element<K, V>>, order: seq<Element<K, V>>, i: nat)
    requires Linked(entries, order) && i < |order|
    ensures Linked(entries, Touch(order, i)) && Pairs(Touch(order, i)) == Touch(Pairs(order), i)
  {
    TouchMembers(order, i);
    TouchMembers(Pairs(order), i);
  }

  /** The element of a cached key, moved to the front. */
  lemma HitAt<K(!new), V>(entries: map<K, Element<K, V>>, order: seq<Element<K, V>>, key: K)
    requires Linked(entries, order) && key in entries
    ensures var i := IndexOf(Pairs(order), key);
            && i < |order| && entries[key] in order && Position(order, entries[key]) == i && Pairs(order)[i].value == entries[key].value
            && Linked(entries, Touch(order, i)) && Pairs(Touch(order, i)) == Touch(Pairs(order), i)
  {
    PlaceOf(entries, order, key);
    TouchLinked(entries, order, Position(order, entries[key]));
  }

  lemma WithoutMembers<T>(list: seq<T>, i: nat)
    requires i < |list|
    ensures forall x :: x in list && x != list[i] ==> x in Without(list, i)
    ensures forall j :: 0 <= j < |list| - 1 ==> Without(list, i)[j] == list[if j < i then j else j + 1]
  {
    assert list == list[..i] + [list[i]] + list[i + 1..];
  }

  lemma WithoutLinked<K(!new), V>(entries: map<K, Element<K, V>>, order: seq<Element<K, V>>, i: nat)
    requires Linked(entries, order) && i < |order|
    ensures Linked(entries - {order[i].key}, Without(order, i)) && Pairs(Without(order, i)) == Without(Pairs(order), i)
  {
    WithoutMembers(order, i);
    WithoutMembers(Pairs(order), i);
  }

  lemma FrontLinked<K(!new), V>(entries: map<K, Element<K, V>>, order: seq<Element<K, V>>, element: Element<K, V>)
    requires Linked(entries, order) && element.key !in entries
    ensures Linked(entries[element.key := element], [element] + order)
    ensures Pairs([element] + order) == [Pair(element.key, element.value)] + Pairs(order)
  {
  }

  /** The map counts what the list holds. */
  lemma SameCount<K(!new), V>(entries: map<K, Element<K, V>>, order: seq<Element<K, V>>)
    requires Linked(entries, order)
    ensures |entries| == |order|
  {
    var keys := seq(|order|, i requires 0 <= i < |order| => order[i].key);
    Eviction.DistinctCount(keys);
    forall k | k in entries
      ensures k in keys
    {
      assert keys[Position(order, entries[k])] == k;
    }
    assert (set k | k in keys) == entries.Keys;
  }

  class Cache<K(==, !new), V> {
    const capacity: nat
    const hasCallback: bool
    var entries: map<K, Element<K, V>>
    var order: seq<Element<K, V>>
    var notified: seq<Pair<K, V>>
    ghost var created: seq<Pair<K, V>>
    ghost var dropped: seq<Pair<K, V>>

    ghost predicate Valid()
      reads this
    {
      Linked(entries, order) && notified == (if hasCallback then dropped else []) && Inv(Value())
    }

    ghost function Value(): Recency<K, V>
      reads this
    {
      Recency(capacity, Pairs(order), created, dropped)
    }

    constructor (capacity: int, hasCallback: bool)
      ensures Valid() && Value() == Run<K, V>(capacity, []) && this.hasCallback == hasCallback
    {
      this.capacity := if capacity < 1 then 1 else capacity;
      this.hasCallback := hasCallback;
      entries, order, notified, created, dropped := map[], [], [], [], [];
    }

    method MoveToFront(element: Element<K, V>)
      requires element in order
      modifies this`order
      ensures order == Touch(old(order), Position(old(order), element))
    {
      order := Touch(order, Position(order, element));
    }

    /** Takes an element out of the map and the list, and passes it to the callback if there is one. */
    method Drop(element: Element<K, V>)
      requires element in order
      modifies this`order, this`entries, this`notified, this`dropped
      ensures order == Without(old(order), Position(old(order), element)) && entries == old(entries) - {element.key}
      ensures dropped == old(dropped) + [Pair(element.key, element.value)]
      ensures notified == if hasCallback then old(notified) + [Pair(element.key, element.value)] else old(notified)
    {
      entries := entries - {element.key};
      order := Without(order, Position(order, element));
      dropped := dropped + [Pair(element.key, element.value)];
      if hasCallback {
        notified := notified + [Pair(element.key, element.value)];
      }
    }

    /** `create` runs only on a miss. */
    method GetOrAdd(key: K, create: () -> V) returns (value: V)
      requires Valid()
      modifies this
      ensures Valid() && Value() == Apply(old(Value()), Op.GetOrAdd(key, create()))
      ensures var i := IndexOf(old(Value()).list, key);
        value == if i < |old(Value()).list| then old(Value()).list[i].value else create()
    {
      PlaceOf(entries, order, key);
      if key in entries {
        value := Hit(key, Op.GetOrAdd(key, create()));
        return;
      }
      value := create();
      Add(key, value);
    }

    method Hit(key: K, ghost op: Op<K, V>) returns (value: V)
      requires Valid() && key in entries && op.key == key && !op.Delete?
      modifies this
      ensures Valid() && Value() == Apply(old(Value()), op)
      ensures var i := IndexOf(old(Value()).list, key); i < |old(Value()).list| && value == old(Value()).list[i].value
    {
      ghost var before := Value();
      ApplyKeepsInv(before, op);
      var element := entries[key];
      HitAt(entries, order, key);
      value := element.value;
      MoveToFront(element);
      assert Value() == Apply(before, op);
    }

    method Add(key: K, value: V)
      requires Valid() && key !in entries
      modifies this
      ensures Valid() && Value() == Apply(old(Value()), Op.GetOrAdd(key, value))
    {
      ghost var before := Value();
      ApplyKeepsInv(before, Op.GetOrAdd(key, value));
      PlaceOf(entries, order, key);
      MissAdds(before, key, value);
      var element := new Element(key, value);
      FrontLinked(entries, order, element);
      order := [element] + order;
      entries := entries[key := element];
      created := created + [Pair(key, value)];
      ghost var all := Pairs(order);
      assert all == [Pair(key, value)] + before.list;
      if |order| > capacity {
        DropLast();
        assert Value().list == Without(all, |all| - 1);
      }
      assert Value() == Apply(before, Op.GetOrAdd(key, value));
    }

    method DropLast()
      requires Linked(entries, order) && order != [] && notified == (if hasCallback then dropped else [])
      modifies this`order, this`entries, this`notified, this`dropped
      ensures Linked(entries, order) && notified == (if hasCallback then dropped else [])
      ensures Pairs(order) == Without(old(Pairs(order)), |old(order)| - 1)
      ensures dropped == old(dropped) + [old(Pairs(order))[|old(order)| - 1]]
    {
      LastPosition(entries, order);
      WithoutLinked(entries, order, |order| - 1);
      Drop(order[|order| - 1]);
    }

    method Get(key: K) returns (value: Option<V>)
      requires Valid()
      modifies this
      ensures Valid() && Value() == Apply(old(Value()), Op.Get(key))
      ensures var i := IndexOf(old(Value()).list, key);
        value == if i < |old(Value()).list| then Some(old(Value()).list[i].value) else None
    {
      PlaceOf(entries, order, key);
      if key !in entries {
        return None;
      }
      var hit := Hit(key, Op.Get(key));
      return Some(hit);
    }

    method Delete(key: K) returns (ok: bool)
      requires Valid()
      modifies this
      ensures Valid() && Value() == Apply(old(Value()), Op.Delete(key))
      ensures ok <==> IndexOf(old(Value()).list, key) < |old(Value()).list|
    {
      ApplyKeepsInv(Value(), Op.Delete(key));
      PlaceOf(entries, order, key);
      if key !in entries {
        return false;
      }
      WithoutLinked(entries, order, Position(order, entries[key]));
      Drop(entries[key]);
      return true;
    }

    method Len() returns (n: nat)
      requires Valid()
      ensures n == |Value().list|
    {
      SameCount(entries, order);
      return |entries|;
    }
  }

  lemma LastPosition<K(!new), V>(entries: map<K, Element<K, V>>, order: seq<Element<K, V>>)
    requires Linked(entries, order) && order != []
    ensures Position(order, order[|order| - 1]) == |order| - 1
  {
  }
}
