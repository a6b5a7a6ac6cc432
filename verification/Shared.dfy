/** The optional value returned by lookups that can miss. */
module Options {
  datatype Option<+T> = None | Some(value: T)
}

/** Sums over finite maps, used wherever a cache keeps a running byte total. */
module MapSums {

  /** The sum of all values of `m`. */
  ghost function Sum<K>(m: map<K, nat>): (total: nat)
    ensures m == map[] ==> total == 0
    decreases |m|
  {
    if m == map[] then 0
    else
      var k :| k in m;
      assert |(m - {k}).Keys| < |m.Keys| by { assert (m - {k}).Keys == m.Keys - {k}; }
      m[k] + Sum(m - {k})
  }

  /** Removing a key takes exactly its value out of the sum, whichever key the definition picks first. */
  lemma {:induction false} SumWithout<K>(m: map<K, nat>, k: K)
    requires k in m
    ensures Sum(m) == m[k] + Sum(m - {k})
    decreases |m|
  {
    var pick :| pick in m && Sum(m) == m[pick] + Sum(m - {pick});
    if pick != k {
      assert |(m - {pick}).Keys| < |m.Keys| by { assert (m - {pick}).Keys == m.Keys - {pick}; }
      assert |(m - {k}).Keys| < |m.Keys| by { assert (m - {k}).Keys == m.Keys - {k}; }
      SumWithout(m - {pick}, k);
      SumWithout(m - {k}, pick);
      assert m - {pick} - {k} == m - {k} - {pick};
    }
  }

  /** Fewer keys with the same values sum to no more. */
  lemma {:induction false} SumSubmap<K>(small: map<K, nat>, large: map<K, nat>)
    requires forall k :: k in small ==> k in large && small[k] == large[k]
    ensures Sum(small) <= Sum(large)
    decreases |small|
  {
    if small != map[] {
      var k :| k in small && Sum(small) == small[k] + Sum(small - {k});
      SumWithout(large, k);
      assert |(small - {k}).Keys| < |small.Keys| by { assert (small - {k}).Keys == small.Keys - {k}; }
      SumSubmap(small - {k}, large - {k});
    }
  }

  /** Writing a key replaces its old contribution, zero when it was absent. */
  lemma SumUpdate<K>(m: map<K, nat>, k: K, v: nat)
    ensures Sum(m[k := v]) == Sum(m) - (if k in m then m[k] else 0) + v
  {
    SumWithout(m[k := v], k);
    assert m[k := v] - {k} == m - {k};
    if k in m {
      SumWithout(m, k);
    } else {
      assert m - {k} == m;
    }
  }
}

/** Oldest-first batch eviction, shared by the bounded caches of `internal/cache`. */
module Eviction {

  /** `victims` is one batch of at most `count` keys, none younger than a survivor. */
  ghost predicate OldestBatch<K>(ages: map<K, int>, victims: set<K>, count: nat) {
    && victims <= ages.Keys
    && |victims| == (if count < |ages| then count else |ages|)
    && forall v, k :: v in victims && k in ages && k !in victims ==> ages[v] <= ages[k]
  }

  ghost predicate Sorted<K>(ages: map<K, int>, order: seq<K>) {
    && |order| == |ages|
    && (forall k :: k in order ==> k in ages)
    && (forall k :: k in ages ==> k in order)
    && (forall i, j :: 0 <= i < j < |order| ==> order[i] != order[j])
    && (forall i, j :: 0 <= i < j < |order| ==> ages[order[i]] <= ages[order[j]])
  }

  /** All keys, oldest first; ties come out in any order. */
  method SortByAge<K(==)>(ages: map<K, int>) returns (order: seq<K>)
    ensures Sorted(ages, order)
  {
    order := [];
    var rest := ages.Keys;
    while rest != {}
      invariant rest <= ages.Keys
      invariant |order| + |rest| == |ages|
      invariant forall k :: k in order <==> k in ages && k !in rest
      invariant forall i, j :: 0 <= i < j < |order| ==> order[i] != order[j]
      invariant forall i, j :: 0 <= i < j < |order| ==> ages[order[i]] <= ages[order[j]]
      invariant forall i, k :: 0 <= i < |order| && k in rest ==> ages[order[i]] <= ages[k]
      decreases |rest|
    {
      var oldest := Oldest(ages, rest);
      order, rest := order + [oldest], rest - {oldest};
    }
  }

  method Oldest<K(==)>(ages: map<K, int>, among: set<K>) returns (oldest: K)
    requires among != {} && among <= ages.Keys
    ensures oldest in among
    ensures forall k :: k in among ==> ages[oldest] <= ages[k]
  {
    oldest :| oldest in among;
    var rest := among - {oldest};
    while rest != {}
      invariant oldest in among && rest <= among
      invariant forall k :: k in among && k !in rest ==> ages[oldest] <= ages[k]
      decreases |rest|
    {
      var k :| k in rest;
      if ages[k] < ages[oldest] {
        oldest := k;
      }
      rest := rest - {k};
    }
  }

  /** The candidates one eviction batch deletes, in deletion order. */
  method SelectOldest<K(==)>(ages: map<K, int>, count: nat) returns (batch: seq<K>, ghost victims: set<K>)
    ensures OldestBatch(ages, victims, count)
    ensures |batch| == |victims|
    ensures forall i, j :: 0 <= i < j < |batch| ==> batch[i] != batch[j]
    ensures victims == set k | k in batch
  {
    var order := SortByAge(ages);
    var size := if count > |order| then |order| else count;
    batch := order[..size];
    PrefixIsOldestBatch(ages, order, size);
    victims := set k | k in batch;
  }

  /** The first `count` keys of a list sorted by age form an oldest batch. */
  lemma PrefixIsOldestBatch<K>(ages: map<K, int>, order: seq<K>, count: nat)
    requires Sorted(ages, order) && count <= |order|
    ensures OldestBatch(ages, (set k | k in order[..count]), count)
  {
    var victims := set k | k in order[..count];
    DistinctCount(order[..count]);
    assert forall i :: 0 <= i < count ==> order[..count][i] in victims;
    forall v, k | v in victims && k in ages && k !in victims
      ensures ages[v] <= ages[k]
    {
      var i :| 0 <= i < count && order[i] == v;
      var j :| 0 <= j < |order| && order[j] == k;
    }
  }

  lemma {:induction false} DistinctCount<K>(s: seq<K>)
    requires forall i, j :: 0 <= i < j < |s| ==> s[i] != s[j]
    ensures |set k | k in s| == |s|
  {
    if s == [] {
      assert (set k | k in s) == {};
    } else {
      var rest := s[..|s| - 1];
      DistinctCount(rest);
      assert s == rest + [s[|s| - 1]];
      assert (set k | k in s) == (set k | k in rest) + {s[|s| - 1]};
    }
  }

  lemma RemoveOneMore<K, V>(m: map<K, V>, gone: set<K>, k: K)
    ensures m - gone - {k} == m - (gone + {k})
  {
  }
}

/** Sizes of finite sets and maps. */
module SetSizes {
  lemma Update<K, V>(m: map<K, V>, k: K, v: V)
    ensures |m[k := v]| == |m| + (if k in m then 0 else 1)
  {
    assert m[k := v].Keys == m.Keys + {k};
  }

  lemma {:induction false} Subset<T>(a: set<T>, b: set<T>)
    requires a <= b
    ensures |a| <= |b|
  {
    if a != {} {
      var x :| x in a;
      Subset(a - {x}, b - {x});
    }
  }
}
