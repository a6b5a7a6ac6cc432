/** Every reachable browse cache satisfies all its budgets at once. */
module BrowseBudgets {
  import opened MapSums
  import opened BrowseCache
  import SetSizes

  /** Records may go or have their expiry changed; nothing else differs. */
  ghost predicate Shrunk(records: Records, records': Records) {
    forall k :: k in records' ==> k in records && records'[k].(expires := records[k].expires) == records[k]
  }

  lemma ShrinkKeepsBudgets(service: Service, s: Cache, records': Records)
    requires WithinBudgets(service, s) && Shrunk(s.records, records')
    ensures WithinBudgets(service, Cache(records', s.serial))
  {
    SetSizes.Subset(records'.Keys, s.records.Keys);
    SumSubmap(Sizes(records'), Sizes(s.records));
    ShrinkKeepsGroups(s.records, records');
    InstancesShrink(service, s.records, records');
  }

  /** Pruning and clipping shrink a cache. */
  lemma StartShrinks(s: Cache, victims: set<Key>, now: int)
    ensures Shrunk(s.records, Prune(s, now).records)
    ensures Shrunk(s.records, ClipAll(s.records, victims, now))
  {
  }

  lemma ShrinkKeepsGroups(records: Records, records': Records)
    requires GroupsWithinLimits(records) && records'.Keys <= records.Keys
    ensures GroupsWithinLimits(records')
  {
    forall link, name, kind ensures |Group(records', link, name, kind)| <= Limit(kind) {
      SetSizes.Subset(Group(records', link, name, kind), Group(records, link, name, kind));
    }
  }

  lemma InstancesShrink(service: Service, records: Records, records': Records)
    requires records'.Keys <= records.Keys
    ensures Instances(service, records') <= Instances(service, records)
    ensures |Instances(service, records')| <= |Instances(service, records)|
  {
    SetSizes.Subset(Instances(service, records'), Instances(service, records));
  }

  /** Evictions before an insertion never take away the room its instance had. */
  lemma InstanceStillFits(service: Service, records: Records, records': Records, k: Key)
    requires records'.Keys <= records.Keys && |Instances(service, records)| <= MAX_SERVICES
    requires InstanceFits(service, records, k)
    ensures InstanceFits(service, records', k)
  {
    InstancesShrink(service, records, records');
    var all, left := Instances(service, records), Instances(service, records');
    if InstancesOf(service, k) - left != {} && |all| == MAX_SERVICES {
      var i :| i in InstancesOf(service, k) - left;
      assert i in all;
      SetSizes.Subset(left, all - {i});
    }
  }

  lemma {:induction false} MakeRoomShrinks(records: Records, victims: set<Key>, size: nat)
    ensures var out := MakeRoom(records, victims, size);
            && (forall k :: k in out ==> k in records && out[k] == records[k])
            && (forall k :: k in records && k !in out ==> k in victims)
    decreases |Present(records, victims)|
  {
    var present := Present(records, victims);
    if OverBudget(records, Bytes(records), size) && present != {} {
      var k := Oldest(records, present);
      assert Present(records - {k}, victims) == present - {k};
      MakeRoomShrinks(records - {k}, victims, size);
    }
  }

  lemma {:induction false} FreeAddressShrinks(records: Records, victims: set<Key>, link: int, name: string)
    ensures var out := FreeAddress(records, victims, link, name);
            && (forall k :: k in out ==> k in records && out[k] == records[k])
            && (forall k :: k in records && k !in out ==> k in victims * Group(records, link, name, A))
    decreases |Present(records, victims)|
  {
    var candidates := victims * Group(records, link, name, A);
    if |Group(records, link, name, A)| >= MAX_ADDRESSES && candidates != {} {
      var k := Oldest(records, candidates);
      assert Present(records - {k}, victims) == Present(records, victims) - {k};
      FreeAddressShrinks(records - {k}, victims, link, name);
    }
  }

  /** Who may leave to make room for `k`: flush victims, or one SRV or TXT record of the same name and type. */
  ghost predicate MayLeave(victims: set<Key>, k: Key, gone: Key) {
    gone in victims || (gone.link == k.link && gone.name == k.name && KindOf(gone.data) == KindOf(k.data) && (k.data.Srv? || k.data.Txt?))
  }

  /** An accepted record fits every budget of the cache it is added to. */
  ghost predicate Fits(service: Service, records: Records, k: Key, size: nat) {
    && |records| < RR_LIMIT && Bytes(records) + size <= BYTE_LIMIT
    && |Group(records, k.link, k.name, KindOf(k.data))| < Limit(KindOf(k.data))
    && InstanceFits(service, records, k)
  }

  lemma AdmitFits(service: Service, s: Cache, victims: set<Key>, k: Key, size: nat)
    requires WithinBudgets(service, s)
    ensures var (out, accepted) := Admit(service, s.records, victims, k, size);
            && (forall l :: l in out ==> l in s.records && out[l] == s.records[l])
            && (forall l :: l in s.records && l !in out ==> MayLeave(victims, k, l))
            && (accepted ==> Fits(service, out, k, size))
  {
    var room := MakeRoom(s.records, victims, size);
    MakeRoomShrinks(s.records, victims, size);
    if !OverBudget(room, Bytes(room), size) && InstanceFits(service, room, k) {
      ShrinkKeepsBudgets(service, s, room);
      var out, accepted := AdmitSlot(service, room, victims, k);
      assert (out, accepted) == Admit(service, s.records, victims, k, size);
      SetSizes.Subset(out.Keys, room.Keys);
      SumSubmap(Sizes(out), Sizes(room));
      InstanceStillFits(service, room, out, k);
    }
  }

  /** The per-name quota, once the cache-wide budgets have room. */
  lemma AdmitSlot(service: Service, room: Records, victims: set<Key>, k: Key) returns (out: Records, accepted: bool)
    requires GroupsWithinLimits(room)
    ensures forall l :: l in out ==> l in room && out[l] == room[l]
    ensures forall l :: l in room && l !in out ==> MayLeave(victims, k, l)
    ensures accepted ==> |Group(out, k.link, k.name, KindOf(k.data))| < Limit(KindOf(k.data))
    ensures (out, accepted) == TakeSlot(room, victims, k)
  {
    var kind := KindOf(k.data);
    FreeAddressShrinks(room, victims, k.link, k.name);
    var freed := if IsAddress(kind) then FreeAddress(room, victims, k.link, k.name) else room;
    ShrinkKeepsGroups(room, freed);
    var group := Group(freed, k.link, k.name, kind);
    out, accepted := freed, |group| < Limit(kind);
    if |group| >= Limit(kind) && (kind == SRV || kind == TXT) {
      var oldest := Oldest(freed, group);
      out, accepted := freed - {oldest}, true;
      assert Group(out, k.link, k.name, kind) == group - {oldest};
    }
  }

  /** What an insertion must bring to keep the budgets. */
  ghost predicate GoodEntry(service: Service, s: Cache, k: Key, r: Record) {
    Describes(service, k, r) && r.serial == s.serial + 1
  }

  lemma WriteKeepsRecords(service: Service, s: Cache, k: Key, r: Record)
    requires RecordsOk(service, s) && SerialsDiffer(s.records) && GoodEntry(service, s, k, r)
    ensures RecordsOk(service, Cache(s.records[k := r], s.serial + 1)) && SerialsDiffer(s.records[k := r])
  {
  }

  lemma AddKeepsBudgets(service: Service, s: Cache, k: Key, r: Record)
    requires WithinBudgets(service, s) && ServiceOk(service) && k !in s.records && Fits(service, s.records, k, r.size)
    requires GoodEntry(service, s, k, r)
    ensures WithinBudgets(service, Cache(s.records[k := r], s.serial + 1))
  {
    WriteKeepsRecords(service, s, k, r);
    assert s.records[k := r].Keys == s.records.Keys + {k};
    AddBytes(s.records, k, r);
    AddKeepsGroups(s.records, k, r);
    DescribedInstance(service, k, r);
    InstancesAdd(service, s.records, k, r);
  }

  lemma AddBytes(records: Records, k: Key, r: Record)
    requires k !in records
    ensures Bytes(records[k := r]) == Bytes(records) + r.size
  {
    assert Sizes(records[k := r]) == Sizes(records)[k := r.size];
    SumUpdate(Sizes(records), k, r.size);
  }

  lemma AddKeepsGroups(records: Records, k: Key, r: Record)
    requires k !in records && GroupsWithinLimits(records)
    requires |Group(records, k.link, k.name, KindOf(k.data))| < Limit(KindOf(k.data))
    ensures GroupsWithinLimits(records[k := r])
  {
    var after := records[k := r];
    forall link, name, kind ensures |Group(after, link, name, kind)| <= Limit(kind) {
      if k.link == link && k.name == name && Together(kind, KindOf(k.data)) {
        assert Group(after, link, name, kind) == Group(records, link, name, kind) + {k};
        assert Group(records, link, name, kind) == Group(records, k.link, k.name, KindOf(k.data));
      } else {
        assert Group(after, link, name, kind) == Group(records, link, name, kind);
      }
    }
  }

  /** A record speaks about at most one instance. */
  lemma DescribedInstance(service: Service, k: Key, r: Record)
    requires ServiceOk(service) && Describes(service, k, r)
    ensures |InstancesOf(service, k)| <= 1
  {
    assert k.data.Ptr? ==> k.name == service.browse;
  }

  lemma InstancesAdd(service: Service, records: Records, k: Key, r: Record)
    requires |InstancesOf(service, k)| <= 1
    requires InstanceFits(service, records, k) && |Instances(service, records)| <= MAX_SERVICES
    ensures |Instances(service, records[k := r])| <= MAX_SERVICES
  {
    var before, own := Instances(service, records), InstancesOf(service, k);
    assert Instances(service, records[k := r]) <= before + own;
    SetSizes.Subset(Instances(service, records[k := r]), before + own);
    if own - before == {} {
      assert before + own == before;
    }
  }

  lemma RefreshKeepsBudgets(service: Service, s: Cache, k: Key, r: Record)
    requires WithinBudgets(service, s) && k in s.records && GoodEntry(service, s, k, r)
    ensures WithinBudgets(service, Cache(s.records[k := r], s.serial + 1))
  {
    WriteKeepsRecords(service, s, k, r);
    assert s.records[k := r].Keys == s.records.Keys;
    assert Describes(service, k, s.records[k]);
    assert Sizes(s.records[k := r]) == Sizes(s.records);
    SameKeysSameGroups(s.records, s.records[k := r]);
    InstancesShrink(service, s.records, s.records[k := r]);
  }

  lemma SameKeysSameGroups(records: Records, records': Records)
    requires GroupsWithinLimits(records) && records'.Keys == records.Keys
    ensures GroupsWithinLimits(records')
  {
    ShrinkKeepsGroups(records, records');
  }

  lemma EntryIsGood(service: Service, s: Cache, rr: RR, link: int, now: int)
    requires Admissible(service, rr)
    ensures GoodEntry(service, s, KeyOf(link, rr), Entry(s, rr, link, now))
  {
  }

  lemma InsertKeepsBudgets(service: Service, s: Cache, victims: set<Key>, rr: RR, link: int, now: int)
    requires WithinBudgets(service, s) && ServiceOk(service)
    ensures WithinBudgets(service, Insert(service, s, victims, rr, link, now))
  {
    var k := KeyOf(link, rr);
    if Admissible(service, rr) && rr.ttl == 0 {
      ShrinkKeepsBudgets(service, s, ClipAll(s.records, {k}, now));
    } else if Admissible(service, rr) {
      EntryIsGood(service, s, rr, link, now);
      AnnounceKeepsBudgets(service, s, victims, k, Entry(s, rr, link, now));
    }
  }

  lemma AnnounceKeepsBudgets(service: Service, s: Cache, victims: set<Key>, k: Key, r: Record)
    requires WithinBudgets(service, s) && ServiceOk(service) && GoodEntry(service, s, k, r)
    ensures WithinBudgets(service, Announce(service, s, victims, k, r))
  {
    if k in s.records {
      RefreshKeepsBudgets(service, s, k, r);
    } else {
      AdmitFits(service, s, victims, k, r.size);
      var (out, accepted) := Admit(service, s.records, victims, k, r.size);
      ShrinkKeepsBudgets(service, s, out);
      if accepted {
        AddKeepsBudgets(service, Cache(out, s.serial), k, r);
      }
    }
  }

  lemma {:induction false} InsertAllKeepsBudgets(service: Service, s: Cache, victims: set<Key>, packet: seq<RR>, link: int, now: int)
    requires WithinBudgets(service, s) && ServiceOk(service)
    ensures WithinBudgets(service, InsertAll(service, s, victims, packet, link, now))
  {
    if packet != [] {
      InsertAllKeepsBudgets(service, s, victims, packet[..|packet| - 1], link, now);
      InsertKeepsBudgets(service, InsertAll(service, s, victims, packet[..|packet| - 1], link, now), victims, packet[|packet| - 1], link, now);
    }
  }

  /** One packet, whatever it holds, keeps every budget. */
  lemma IngestKeepsBudgets(service: Service, s: Cache, packet: seq<RR>, link: int, now: int)
    requires WithinBudgets(service, s) && ServiceOk(service)
    ensures WithinBudgets(service, Ingest(service, s, packet, link, now))
  {
    var pruned := Prune(s, now);
    var victims := Victims(service, pruned, packet, link, now);
    StartShrinks(s, victims, now);
    StartShrinks(pruned, victims, now);
    ShrinkKeepsBudgets(service, s, pruned.records);
    ShrinkKeepsBudgets(service, pruned, ClipAll(pruned.records, victims, now));
    InsertAllKeepsBudgets(service, Cache(ClipAll(pruned.records, victims, now), pruned.serial), victims, packet, link, now);
  }

  // ---- Runs ----

  /** What happens to a cache over its life: packets on any link and pruning, at any times. */
  datatype Event = Packet(rrs: seq<RR>, link: int, now: int) | Pruning(now: int)

  ghost function Apply(service: Service, s: Cache, e: Event): Cache {
    match e
    case Packet(rrs, link, now) => Ingest(service, s, rrs, link, now)
    case Pruning(now) => Prune(s, now)
  }

  ghost function After(service: Service, events: seq<Event>): Cache {
    if events == [] then Cache(map[], 0) else Apply(service, After(service, events[..|events| - 1]), events[|events| - 1])
  }

  /** Every reachable cache satisfies all its budgets at once. */
  lemma {:induction false} ReachableWithinBudgets(service: Service, events: seq<Event>)
    requires ServiceOk(service)
    ensures WithinBudgets(service, After(service, events))
  {
    if events == [] {
      assert Sizes(map[]) == map[];
      forall link, name, kind ensures |Group(map[], link, name, kind)| <= Limit(kind) {
        assert Group(map[], link, name, kind) == {};
      }
      assert Instances(service, map[]) == {};
    } else {
      ReachableWithinBudgets(service, events[..|events| - 1]);
      var s := After(service, events[..|events| - 1]);
      match events[|events| - 1]
      case Packet(rrs, link, now) => IngestKeepsBudgets(service, s, rrs, link, now);
      case Pruning(now) => ShrinkKeepsBudgets(service, s, Prune(s, now).records);
    }
  }
}
