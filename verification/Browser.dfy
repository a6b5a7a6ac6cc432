/** The browse cache object: its loops over the record map, proved against `BrowseCache.Ingest`. */
module Browser {
  import opened Options
  import opened MapSums
  import opened BrowseCache
  import opened BrowseBudgets

  lemma OldestIsUnique(records: Records, keys: set<Key>, k: Key)
    requires SerialsDiffer(records) && IsOldest(records, keys, k) && keys <= records.Keys
    ensures Oldest(records, keys) == k
  {
  }

  lemma RemoveBytes(records: Records, k: Key)
    requires k in records
    ensures Bytes(records - {k}) == Bytes(records) - records[k].size
  {
    assert Sizes(records - {k}) == Sizes(records) - {k};
    SumWithout(Sizes(records), k);
  }

  /** Two victim sets that agree on what is still cached. */
  ghost predicate SameVictims(records: Records, v: set<Key>, w: set<Key>) {
    forall k :: k in records ==> (k in v <==> k in w)
  }

  lemma {:induction false} MakeRoomPresent(records: Records, v: set<Key>, w: set<Key>, size: nat)
    requires SameVictims(records, v, w)
    ensures MakeRoom(records, v, size) == MakeRoom(records, w, size)
    decreases |Present(records, v)|
  {
    assert Present(records, v) == Present(records, w);
    if OverBudget(records, Bytes(records), size) && Present(records, v) != {} {
      var k := Oldest(records, Present(records, v));
      assert Present(records - {k}, v) == Present(records, v) - {k};
      MakeRoomPresent(records - {k}, v, w, size);
    }
  }

  lemma {:induction false} FreeAddressPresent(records: Records, v: set<Key>, w: set<Key>, link: int, name: string)
    requires SameVictims(records, v, w)
    ensures FreeAddress(records, v, link, name) == FreeAddress(records, w, link, name)
    decreases |Present(records, v)|
  {
    var candidates := v * Group(records, link, name, A);
    assert candidates == w * Group(records, link, name, A);
    if |Group(records, link, name, A)| >= MAX_ADDRESSES && candidates != {} {
      var k := Oldest(records, candidates);
      assert Present(records - {k}, v) == Present(records, v) - {k};
      FreeAddressPresent(records - {k}, v, w, link, name);
    }
  }

  /** The member of `keys` with the smallest serial. */
  method FindOldest(records: Records, keys: set<Key>) returns (oldest: Option<Key>)
    requires SerialsDiffer(records) && keys <= records.Keys
    ensures oldest == if keys == {} then None else Some(Oldest(records, keys))
  {
    oldest := None;
    var rest := keys;
    while rest != {}
      invariant rest <= keys
      invariant oldest.None? <==> rest == keys
      invariant oldest.Some? ==> IsOldest(records, keys - rest, oldest.value)
      decreases |rest|
    {
      var k :| k in rest;
      if oldest.None? || records[k].serial < records[oldest.value].serial {
        oldest := Some(k);
      }
      rest := rest - {k};
    }
    if oldest.Some? {
      assert keys - rest == keys;
      OldestIsUnique(records, keys, oldest.value);
    }
  }

  /** The quota count of a name and the instances already known, in one pass over the cache. */
  method CountFor(service: Service, records: Records, k: Key) returns (count: nat, instances: set<(int, string)>)
    ensures count == |Group(records, k.link, k.name, KindOf(k.data))|
    ensures instances == Instances(service, records)
  {
    count, instances := 0, {};
    var rest := records.Keys;
    ghost var group: set<Key> := {};
    while rest != {}
      invariant rest <= records.Keys
      invariant forall l :: l in group <==> l in Group(records, k.link, k.name, KindOf(k.data)) && l !in rest
      invariant count == |group|
      invariant forall i :: i in instances <==> exists l :: l in records && l !in rest && i in InstancesOf(service, l)
      decreases |rest|
    {
      var l :| l in rest;
      if l.link == k.link && l.name == k.name && Together(KindOf(k.data), KindOf(l.data)) {
        count := count + 1;
        group := group + {l};
      }
      instances := instances + InstancesOf(service, l);
      rest := rest - {l};
    }
    assert group == Group(records, k.link, k.name, KindOf(k.data));
  }

  class Browser {
    const service: Service
    var records: Records
    var bytes: int
    var serial: nat

    ghost function Abstract(): Cache
      reads this
    {
      Cache(records, serial)
    }

    ghost predicate Valid()
      reads this
    {
      ServiceOk(service) && WithinBudgets(service, Abstract()) && bytes == Bytes(records)
    }

    /** newBrowseCache, for a service type and an optional subtype of it. */
    constructor (base: string, subtype: Option<string>)
      ensures Valid() && Abstract() == Cache(map[], 0)
      ensures service == Service(match subtype case None => base case Some(sub) => sub + "._sub." + base, base)
    {
      service := Service(match subtype case None => base case Some(sub) => sub + "._sub." + base, base);
      records, bytes, serial := map[], 0, 0;
      ServiceNames(base, match subtype case None => "" case Some(sub) => sub);
      ReachableWithinBudgets(Service(match subtype case None => base case Some(sub) => sub + "._sub." + base, base), []);
      assert Sizes(map[]) == map[];
    }

    method Remove(k: Key)
      requires k in records && bytes == Bytes(records)
      modifies this
      ensures records == old(records) - {k} && serial == old(serial) && bytes == Bytes(records)
    {
      RemoveBytes(records, k);
      bytes := bytes - records[k].size;
      records := records - {k};
    }

    method Prune(now: int)
      requires bytes == Bytes(records)
      modifies this
      ensures Abstract() == BrowseCache.Prune(old(Abstract()), now) && bytes == Bytes(records)
    {
      var rest := records.Keys;
      while rest != {}
        invariant rest <= records.Keys <= old(records).Keys
        invariant records == map k | k in old(records) && (k in rest || now < old(records)[k].expires) :: old(records)[k]
        invariant serial == old(serial) && bytes == Bytes(records)
        decreases |rest|
      {
        var k :| k in rest;
        if now >= records[k].expires {
          Remove(k);
        }
        rest := rest - {k};
      }
    }

    /** evictFlushed: drops the oldest of the matching flush victims still cached. */
    method EvictFlushed(victims: set<Key>, matching: set<Key>) returns (evicted: bool, left: set<Key>)
      requires bytes == Bytes(records) && SerialsDiffer(records) && matching <= victims && matching <= records.Keys
      modifies this
      ensures serial == old(serial) && bytes == Bytes(records)
      ensures evicted <==> matching != {}
      ensures evicted ==> records == old(records) - {Oldest(old(records), matching)} && |records| == |old(records)| - 1
      ensures !evicted ==> records == old(records)
      ensures SameVictims(records, left, victims) && left <= victims
    {
      var oldest := FindOldest(records, matching);
      match oldest
      case None => return false, victims;
      case Some(k) =>
        ghost var before := records;
        Remove(k);
        assert records.Keys == before.Keys - {k};
        return true, victims - {k};
    }

    method MakeRoomFor(size: nat, victims: set<Key>) returns (left: set<Key>)
      requires bytes == Bytes(records) && SerialsDiffer(records)
      modifies this
      ensures records == MakeRoom(old(records), victims, size) && SerialsDiffer(records)
      ensures serial == old(serial) && bytes == Bytes(records)
      ensures SameVictims(records, left, victims) && left <= victims
    {
      left := victims;
      while |records| >= RR_LIMIT || bytes + size > BYTE_LIMIT
        invariant serial == old(serial) && bytes == Bytes(records) && SerialsDiffer(records)
        invariant MakeRoom(records, left, size) == MakeRoom(old(records), victims, size)
        invariant SameVictims(records, left, victims) && left <= victims
        decreases |records|
      {
        ghost var before := records;
        var evicted, less := EvictFlushed(left, Present(records, left));
        if !evicted {
          break;
        }
        MakeRoomPresent(records, less, left, size);
        left := less;
      }
    }

    method FreeAddressOf(k: Key, count: nat, victims: set<Key>) returns (left: set<Key>, remaining: nat)
      requires bytes == Bytes(records) && SerialsDiffer(records) && count == |Group(records, k.link, k.name, A)|
      modifies this
      ensures records == FreeAddress(old(records), victims, k.link, k.name)
      ensures serial == old(serial) && bytes == Bytes(records)
      ensures remaining == |Group(records, k.link, k.name, A)|
      ensures SameVictims(records, left, victims) && left <= victims
    {
      left, remaining := victims, count;
      while remaining >= MAX_ADDRESSES
        invariant serial == old(serial) && bytes == Bytes(records) && SerialsDiffer(records)
        invariant remaining == |Group(records, k.link, k.name, A)|
        invariant FreeAddress(records, left, k.link, k.name) == FreeAddress(old(records), victims, k.link, k.name)
        invariant SameVictims(records, left, victims) && left <= victims
        decreases remaining
      {
        ghost var before := records;
        var evicted, less := EvictFlushed(left, left * Group(records, k.link, k.name, A));
        if !evicted {
          break;
        }
        FreeAddressStep(before, left, less, k.link, k.name);
        left, remaining := less, remaining - 1;
      }
    }

    /** The admission of a record the cache does not hold yet. */
    method AdmitNew(k: Key, size: nat, victims: set<Key>) returns (accepted: bool, left: set<Key>)
      requires bytes == Bytes(records) && SerialsDiffer(records)
      modifies this
      ensures (records, accepted) == Admit(service, old(records), victims, k, size)
      ensures serial == old(serial) && bytes == Bytes(records)
      ensures SameVictims(records, left, victims) && left <= victims
    {
      left := MakeRoomFor(size, victims);
      if |records| >= RR_LIMIT || bytes + size > BYTE_LIMIT {
        return false, left;
      }
      var count, instances := CountFor(service, records, k);
      var unseen := InstancesOf(service, k) - instances;
      if unseen != {} && |instances| >= MAX_SERVICES {
        return false, left;
      }
      accepted, left := AdmitSlot(k, count, left, victims);
    }

    /** The per-name quota: free an address slot, or replace the oldest SRV or TXT record. */
    method AdmitSlot(k: Key, counted: nat, victims: set<Key>, ghost all: set<Key>) returns (accepted: bool, left: set<Key>)
      requires bytes == Bytes(records) && SerialsDiffer(records)
      requires counted == |Group(records, k.link, k.name, KindOf(k.data))| && SameVictims(records, victims, all)
      modifies this
      ensures serial == old(serial) && bytes == Bytes(records)
      ensures SameVictims(records, left, all) && left <= victims
      ensures (records, accepted) == TakeSlot(old(records), all, k)
    {
      left := victims;
      if IsAddress(KindOf(k.data)) {
        var count;
        SameAddressGroup(records, k);
        left, count := FreeSlot(k, counted, victims, all);
        SameAddressGroup(records, k);
        return count < Limit(KindOf(k.data)), left;
      }
      accepted := MakeSlot(k, counted);
    }

    /** Flush victims give way to a new address. */
    method FreeSlot(k: Key, counted: nat, victims: set<Key>, ghost all: set<Key>) returns (left: set<Key>, count: nat)
      requires bytes == Bytes(records) && SerialsDiffer(records)
      requires counted == |Group(records, k.link, k.name, A)| && SameVictims(records, victims, all)
      modifies this
      ensures serial == old(serial) && bytes == Bytes(records)
      ensures SameVictims(records, left, all) && left <= victims
      ensures records == FreeAddress(old(records), all, k.link, k.name) && count == |Group(records, k.link, k.name, A)|
    {
      ghost var before := records;
      FreeAddressPresent(records, victims, all, k.link, k.name);
      FreeAddressShrinks(records, victims, k.link, k.name);
      left, count := FreeAddressOf(k, counted, victims);
      StillPresent(before, records, victims, left, victims + all, {});
    }

    /** A name at its SRV or TXT limit gives up its oldest record of that type. */
    method MakeSlot(k: Key, count: nat) returns (accepted: bool)
      requires bytes == Bytes(records) && SerialsDiffer(records) && !IsAddress(KindOf(k.data))
      requires count == |Group(records, k.link, k.name, KindOf(k.data))|
      modifies this
      ensures serial == old(serial) && bytes == Bytes(records)
      ensures (records, accepted) == TakeSlot(old(records), {}, k)
    {
      var kind := KindOf(k.data);
      if count >= Limit(kind) {
        if kind != SRV && kind != TXT {
          return false;
        }
        var oldest := FindOldest(records, Group(records, k.link, k.name, kind));
        Remove(oldest.value);
      }
      return true;
    }

    method InsertOne(rr: RR, link: int, now: int, victims: set<Key>) returns (left: set<Key>)
      requires Valid() && (Announces(service, rr) ==> KeyOf(link, rr) !in victims)
      modifies this
      ensures Valid() && Abstract() == Insert(service, old(Abstract()), victims, rr, link, now)
      ensures SameVictims(records, left, victims) && left <= victims
    {
      left := victims;
      InsertKeepsBudgets(service, Abstract(), victims, rr, link, now);
      if Admissible(service, rr) {
        var k := KeyOf(link, rr);
        if rr.ttl == 0 {
          SayGoodbye(k, now);
        } else {
          left := Store(k, Entry(Cache(records, serial), rr, link, now), victims);
        }
      }
    }

    method SayGoodbye(k: Key, now: int)
      requires bytes == Bytes(records)
      modifies this
      ensures records == ClipAll(old(records), {k}, now) && serial == old(serial) && bytes == Bytes(records)
    {
      ghost var before := records;
      if k in records && records[k].expires > now + SECOND {
        records := records[k := records[k].(expires := now + SECOND)];
      }
      assert records == ClipAll(before, {k}, now);
      assert Sizes(records) == Sizes(before);
    }

    /** A known record is renewed in place. */
    method Renew(k: Key, r: Record, ghost victims: set<Key>)
      requires Valid() && k in records && GoodEntry(service, Abstract(), k, r)
      modifies this
      ensures Abstract() == Announce(service, old(Abstract()), victims, k, r) && bytes == Bytes(records)
    {
      RenewBytes(service, Abstract(), k, r);
      serial := serial + 1;
      bytes := bytes + r.size - records[k].size;
      records := records[k := r];
    }

    /** A new record is stored if the budgets and quotas admit it. */
    method AddNew(k: Key, r: Record, victims: set<Key>) returns (left: set<Key>)
      requires bytes == Bytes(records) && SerialsDiffer(records) && k !in records && k !in victims
      requires k !in Admit(service, records, victims, k, r.size).0
      modifies this
      ensures Abstract() == Announce(service, old(Abstract()), victims, k, r) && bytes == Bytes(records)
      ensures SameVictims(records, left, victims) && left <= victims
    {
      var accepted: bool;
      accepted, left := AdmitNew(k, r.size, victims);
      if accepted {
        AddBytes(records, k, r);
        serial := serial + 1;
        records := records[k := r];
        bytes := bytes + r.size;
      }
    }

    method Store(k: Key, r: Record, victims: set<Key>) returns (left: set<Key>)
      requires Valid() && k !in victims && GoodEntry(service, Abstract(), k, r)
      modifies this
      ensures Abstract() == Announce(service, old(Abstract()), victims, k, r) && bytes == Bytes(records)
      ensures SameVictims(records, left, victims) && left <= victims
    {
      if k in records {
        Renew(k, r, victims);
        left := victims;
      } else {
        AdmitFits(service, Abstract(), victims, k, r.size);
        left := AddNew(k, r, victims);
      }
    }

    /** Phase one of a packet: find and clip the flush victims. */
    method MarkFlushed(packet: seq<RR>, link: int, now: int, incoming: set<Key>) returns (victims: set<Key>)
      requires bytes == Bytes(records)
      modifies this
      ensures victims == MarkedByAll(service, old(records), packet, link, now, incoming)
      ensures records == ClipAll(old(records), victims, now) && serial == old(serial) && bytes == Bytes(records)
    {
      ghost var start := records;
      victims := {};
      for i := 0 to |packet|
        invariant serial == old(serial) && bytes == old(bytes)
        invariant victims == MarkedByAll(service, start, packet[..i], link, now, incoming)
        invariant records == ClipAll(start, victims, now)
      {
        assert packet[..i + 1][..i] == packet[..i];
        var marked := MarkedBy(service, records, packet[i], link, now, incoming);
        ClipMore(service, start, victims, packet[i], link, now, incoming);
        victims := victims + marked;
        records := ClipAll(records, marked, now);
      }
      assert packet[..|packet|] == packet;
      assert Sizes(records) == Sizes(start);
    }

    /** One member of the packet; `all` are the victims the packet started with. */
    method IngestOne(rr: RR, link: int, now: int, victims: set<Key>, ghost all: set<Key>) returns (left: set<Key>)
      requires Valid() && (Announces(service, rr) ==> KeyOf(link, rr) !in all)
      requires SameVictims(records, victims, all) && victims <= all
      modifies this
      ensures Valid() && Abstract() == Insert(service, old(Abstract()), all, rr, link, now)
      ensures SameVictims(records, left, all) && left <= all
    {
      ghost var before := Abstract();
      InsertPresent(service, before, victims, all, rr, link, now);
      InsertKeys(service, before, all, rr, link, now);
      left := InsertOne(rr, link, now, victims);
      StillPresent(before.records, records, victims, left, all, if Announces(service, rr) then {KeyOf(link, rr)} else {});
    }

    /** ingest: `fromPeer` is the outcome of the header and source address checks. */
    method Ingest(packet: seq<RR>, link: int, now: int, fromPeer: bool)
      requires Valid()
      modifies this
      ensures Valid()
      ensures Abstract() == if fromPeer then BrowseCache.Ingest(service, old(Abstract()), packet, link, now) else BrowseCache.Prune(old(Abstract()), now)
    {
      PruneKeepsBudgets(service, Abstract(), now);
      Prune(now);
      if fromPeer {
        IngestPruned(packet, link, now);
      }
    }

    method IngestPruned(packet: seq<RR>, link: int, now: int)
      requires Valid()
      modifies this
      ensures Valid()
      ensures var victims := Victims(service, old(Abstract()), packet, link, now);
              Abstract() == InsertAll(service, Cache(ClipAll(old(records), victims, now), old(serial)), victims, packet, link, now)
    {
      var incoming := set rr | rr in packet && Announces(service, rr) :: KeyOf(link, rr);
      MarkedAreVictims(service, Abstract(), packet, link, now);
      ClipKeepsBudgets(service, Abstract(), Victims(service, Abstract(), packet, link, now), now);
      var victims := MarkFlushed(packet, link, now, incoming);
      InsertPacket(packet, link, now, victims, incoming);
    }

    /** Phase two: the members of the packet in order. */
    method InsertPacket(packet: seq<RR>, link: int, now: int, flushed: set<Key>, ghost incoming: set<Key>)
      requires Valid() && incoming == Incoming(service, packet, link) && flushed !! incoming
      modifies this
      ensures Valid() && Abstract() == InsertAll(service, old(Abstract()), flushed, packet, link, now)
    {
      ghost var start, all := Abstract(), flushed;
      var victims := flushed;
      for i := 0 to |packet|
        invariant Valid()
        invariant Abstract() == InsertAll(service, start, all, packet[..i], link, now)
        invariant SameVictims(records, victims, all) && victims <= all
      {
        assert packet[..i + 1][..i] == packet[..i];
        assert Announces(service, packet[i]) ==> KeyOf(link, packet[i]) in incoming;
        victims := IngestOne(packet[i], link, now, victims, all);
      }
      assert packet[..|packet|] == packet;
    }
  }

  lemma PruneKeepsBudgets(service: Service, s: Cache, now: int)
    requires WithinBudgets(service, s)
    ensures WithinBudgets(service, BrowseCache.Prune(s, now))
  {
    ShrinkKeepsBudgets(service, s, BrowseCache.Prune(s, now).records);
  }

  lemma ClipKeepsBudgets(service: Service, s: Cache, keys: set<Key>, now: int)
    requires WithinBudgets(service, s)
    ensures WithinBudgets(service, Cache(ClipAll(s.records, keys, now), s.serial))
  {
    ShrinkKeepsBudgets(service, s, ClipAll(s.records, keys, now));
  }

  lemma RenewBytes(service: Service, s: Cache, k: Key, r: Record)
    requires RecordsOk(service, s) && k in s.records && r.size == Size(k)
    ensures Bytes(s.records[k := r]) == Bytes(s.records) && s.records[k].size == Size(k)
  {
    assert Sizes(s.records[k := r]) == Sizes(s.records);
  }

  /** The records one cache-flush member marks. */
  function MarkedBy(service: Service, records: Records, rr: RR, link: int, now: int, incoming: set<Key>): set<Key> {
    set k | k in records && k !in incoming && now - records[k].received >= SECOND && FlushedBy(service, rr, link, k)
  }

  function MarkedByAll(service: Service, records: Records, packet: seq<RR>, link: int, now: int, incoming: set<Key>): set<Key> {
    if packet == [] then {}
    else MarkedByAll(service, records, packet[..|packet| - 1], link, now, incoming)
         + MarkedBy(service, records, packet[|packet| - 1], link, now, incoming)
  }

  /** Clipping does not change what later members mark, and clipping twice is clipping once. */
  lemma ClipMore(service: Service, start: Records, victims: set<Key>, rr: RR, link: int, now: int, incoming: set<Key>)
    ensures var clipped := ClipAll(start, victims, now);
            var marked := MarkedBy(service, clipped, rr, link, now, incoming);
            && marked == MarkedBy(service, start, rr, link, now, incoming)
            && ClipAll(clipped, marked, now) == ClipAll(start, victims + marked, now)
  {
  }

  lemma {:induction false} MarkedByAllMeans(service: Service, records: Records, packet: seq<RR>, link: int, now: int, incoming: set<Key>)
    ensures forall k :: k in MarkedByAll(service, records, packet, link, now, incoming) <==>
              k in records && k !in incoming && now - records[k].received >= SECOND && exists rr :: rr in packet && FlushedBy(service, rr, link, k)
  {
    if packet != [] {
      var front, last := packet[..|packet| - 1], packet[|packet| - 1];
      assert packet == front + [last];
      MarkedByAllMeans(service, records, front, link, now, incoming);
    }
  }

  lemma MarkedAreVictims(service: Service, s: Cache, packet: seq<RR>, link: int, now: int)
    ensures MarkedByAll(service, s.records, packet, link, now, Incoming(service, packet, link)) == Victims(service, s, packet, link, now)
  {
    MarkedByAllMeans(service, s.records, packet, link, now, Incoming(service, packet, link));
  }

  lemma FreeAddressStep(before: Records, left: set<Key>, less: set<Key>, link: int, name: string)
    requires left * Group(before, link, name, A) != {} && |Group(before, link, name, A)| >= MAX_ADDRESSES
    requires var after := before - {Oldest(before, left * Group(before, link, name, A))}; SameVictims(after, less, left)
    ensures var after := before - {Oldest(before, left * Group(before, link, name, A))};
            && FreeAddress(after, less, link, name) == FreeAddress(before, left, link, name)
            && |Group(after, link, name, A)| == |Group(before, link, name, A)| - 1
  {
    var k := Oldest(before, left * Group(before, link, name, A));
    FreeAddressPresent(before - {k}, less, left, link, name);
    assert Group(before - {k}, link, name, A) == Group(before, link, name, A) - {k};
  }

  lemma SameAddressGroup(records: Records, k: Key)
    requires IsAddress(KindOf(k.data))
    ensures Group(records, k.link, k.name, KindOf(k.data)) == Group(records, k.link, k.name, A)
  {
  }

  /** Forgetting evicted victims does not matter: only those still cached are ever looked at. */
  lemma AdmitPresent(service: Service, records: Records, v: set<Key>, w: set<Key>, k: Key, size: nat)
    requires SameVictims(records, v, w)
    ensures Admit(service, records, v, k, size) == Admit(service, records, w, k, size)
  {
    MakeRoomPresent(records, v, w, size);
    MakeRoomShrinks(records, v, size);
    var room := MakeRoom(records, v, size);
    assert room == MakeRoom(records, w, size);
    TakeSlotPresent(room, v, w, k);
  }

  lemma TakeSlotPresent(records: Records, v: set<Key>, w: set<Key>, k: Key)
    requires SameVictims(records, v, w)
    ensures TakeSlot(records, v, k) == TakeSlot(records, w, k)
  {
    FreeAddressPresent(records, v, w, k.link, k.name);
  }

  lemma InsertPresent(service: Service, s: Cache, v: set<Key>, w: set<Key>, rr: RR, link: int, now: int)
    requires SameVictims(s.records, v, w)
    ensures Insert(service, s, v, rr, link, now) == Insert(service, s, w, rr, link, now)
  {
    AdmitPresent(service, s.records, v, w, KeyOf(link, rr), Size(KeyOf(link, rr)));
  }

  lemma InsertKeys(service: Service, s: Cache, victims: set<Key>, rr: RR, link: int, now: int)
    requires WithinBudgets(service, s)
    ensures Insert(service, s, victims, rr, link, now).records.Keys <= s.records.Keys + if Announces(service, rr) then {KeyOf(link, rr)} else {}
  {
    AdmitFits(service, s, victims, KeyOf(link, rr), Size(KeyOf(link, rr)));
  }

  lemma StillPresent(before: Records, after: Records, victims: set<Key>, left: set<Key>, all: set<Key>, added: set<Key>)
    requires after.Keys <= before.Keys + added && added !! all && left <= victims <= all
    requires SameVictims(before, victims, all) && SameVictims(after, left, victims)
    ensures SameVictims(after, left, all)
  {
  }
}
