/** What one packet does to the records it names, and to those it does not (RFC 6762, sections 10.1 and 10.2). */
module BrowseFlush {
  import opened BrowseCache
  import opened BrowseBudgets

  /** The packet member speaks about the name and type of `l` on its link. */
  ghost predicate Mentions(service: Service, rr: RR, link: int, l: Key) {
    Admissible(service, rr) && l.link == link && l.name == BrowseName(rr.name) && KindOf(l.data) == KindOf(rr.data)
  }

  ghost predicate OneMember(service: Service, s: Cache, s': Cache, victims: set<Key>, rr: RR, link: int, now: int, l: Key) {
    var k := KeyOf(link, rr);
    && (l != k && l in s'.records ==> l in s.records && s'.records[l] == s.records[l])
    && (l in s.records && l !in s'.records ==> l in victims || (Mentions(service, rr, link, l) && (l.data.Srv? || l.data.Txt?)))
    && (l == k && !Announces(service, rr) && l in s'.records ==>
          l in s.records && s'.records[l] == if Admissible(service, rr) then Clip(s.records[l], now) else s.records[l])
    && (l == k && Announces(service, rr) && l in s.records ==> l in s'.records && s'.records[l].received == now)
  }

  /** What an announcement may do to the other records. */
  lemma AnnounceAt(service: Service, s: Cache, victims: set<Key>, k: Key, r: Record, l: Key)
    requires WithinBudgets(service, s)
    ensures var s' := Announce(service, s, victims, k, r);
      && (l != k && l in s'.records ==> l in s.records && s'.records[l] == s.records[l])
      && (l in s.records && l !in s'.records ==> MayLeave(victims, k, l))
      && (l == k && l in s.records ==> l in s'.records && s'.records[l] == r)
  {
    if k !in s.records {
      AdmitFits(service, s, victims, k, r.size);
    }
  }

  lemma QuietAt(service: Service, s: Cache, victims: set<Key>, rr: RR, link: int, now: int, l: Key)
    requires !Announces(service, rr)
    ensures OneMember(service, s, Insert(service, s, victims, rr, link, now), victims, rr, link, now, l)
  {
  }

  lemma AnnouncedAt(service: Service, s: Cache, s': Cache, victims: set<Key>, rr: RR, link: int, now: int, l: Key)
    requires Announces(service, rr)
    requires var k, r := KeyOf(link, rr), Entry(s, rr, link, now);
      && (l != k && l in s'.records ==> l in s.records && s'.records[l] == s.records[l])
      && (l in s.records && l !in s'.records ==> MayLeave(victims, k, l))
      && (l == k && l in s.records ==> l in s'.records && s'.records[l] == r)
    ensures OneMember(service, s, s', victims, rr, link, now, l)
  {
  }

  /** One member of the packet, seen at one key. */
  lemma InsertAt(service: Service, s: Cache, victims: set<Key>, rr: RR, link: int, now: int, l: Key)
    requires WithinBudgets(service, s)
    ensures OneMember(service, s, Insert(service, s, victims, rr, link, now), victims, rr, link, now, l)
  {
    if Announces(service, rr) {
      AnnounceAt(service, s, victims, KeyOf(link, rr), Entry(s, rr, link, now), l);
      AnnouncedAt(service, s, Insert(service, s, victims, rr, link, now), victims, rr, link, now, l);
    } else {
      QuietAt(service, s, victims, rr, link, now, l);
    }
  }

  /** A record the packet does not announce again can only lose time. */
  ghost predicate OnlyClipped(s: Cache, s': Cache, now: int, l: Key) {
    l in s'.records ==> l in s.records && (s'.records[l] == s.records[l] || s'.records[l] == Clip(s.records[l], now))
  }

  lemma IncomingSplit(service: Service, front: seq<RR>, last: RR, link: int, l: Key)
    ensures l in Incoming(service, front + [last], link) <==>
            l in Incoming(service, front, link) || (Announces(service, last) && KeyOf(link, last) == l)
  {
  }

  lemma LastInsert(service: Service, s: Cache, victims: set<Key>, packet: seq<RR>, link: int, now: int, l: Key)
    requires WithinBudgets(service, s) && ServiceOk(service) && packet != []
    ensures var mid := InsertAll(service, s, victims, packet[..|packet| - 1], link, now);
      OneMember(service, mid, InsertAll(service, s, victims, packet, link, now), victims, packet[|packet| - 1], link, now, l)
  {
    InsertAllKeepsBudgets(service, s, victims, packet[..|packet| - 1], link, now);
    InsertAt(service, InsertAll(service, s, victims, packet[..|packet| - 1], link, now), victims, packet[|packet| - 1], link, now, l);
  }

  /** The last member of a packet and the cache before it. */
  lemma LastMember(service: Service, s: Cache, victims: set<Key>, packet: seq<RR>, link: int, now: int, l: Key) returns (front: seq<RR>, last: RR, mid: Cache)
    requires WithinBudgets(service, s) && ServiceOk(service) && packet != []
    ensures packet == front + [last] && mid == InsertAll(service, s, victims, front, link, now)
    ensures OneMember(service, mid, InsertAll(service, s, victims, packet, link, now), victims, last, link, now, l)
    ensures l in Incoming(service, packet, link) <==> l in Incoming(service, front, link) || (Announces(service, last) && KeyOf(link, last) == l)
    ensures l == KeyOf(link, last) && Admissible(service, last) ==> Mentions(service, last, link, l)
    ensures last in packet && forall rr :: rr in front ==> rr in packet
  {
    front, last := packet[..|packet| - 1], packet[|packet| - 1];
    LastInsert(service, s, victims, packet, link, now, l);
    mid := InsertAll(service, s, victims, front, link, now);
    IncomingSplit(service, front, last, link, l);
    assert packet == front + [last];
  }

  lemma {:induction false} UnannouncedInsert(service: Service, s: Cache, victims: set<Key>, packet: seq<RR>, link: int, now: int, l: Key)
    requires WithinBudgets(service, s) && ServiceOk(service) && l !in Incoming(service, packet, link)
    ensures var s' := InsertAll(service, s, victims, packet, link, now);
            && OnlyClipped(s, s', now, l)
            && (l in s'.records && (exists rr :: rr in packet && Says(service, rr, link, l)) ==> s'.records[l].expires <= now + SECOND)
  {
    if packet != [] {
      var front, last, mid := LastMember(service, s, victims, packet, link, now, l);
      UnannouncedInsert(service, s, victims, front, link, now, l);
    }
  }

  lemma {:induction false} LeavingInsert(service: Service, s: Cache, victims: set<Key>, packet: seq<RR>, link: int, now: int, l: Key)
    requires WithinBudgets(service, s) && ServiceOk(service) && l in s.records && l !in victims
    ensures var s' := InsertAll(service, s, victims, packet, link, now);
            && (!l.data.Srv? && !l.data.Txt? ==> l in s'.records && (l in Incoming(service, packet, link) ==> s'.records[l].received == now))
            && ((forall rr :: rr in packet ==> !Mentions(service, rr, link, l)) ==> l in s'.records && s'.records[l] == s.records[l])
  {
    if packet != [] {
      var front, last, mid := LastMember(service, s, victims, packet, link, now, l);
      LeavingInsert(service, s, victims, front, link, now, l);
    }
  }

  /** A goodbye for this very record: time to live zero. */
  ghost predicate Says(service: Service, rr: RR, link: int, l: Key) {
    Admissible(service, rr) && rr.ttl == 0 && KeyOf(link, rr) == l
  }

  /** The records a packet starts from: unexpired, with flush victims clipped. */
  lemma IngestStart(service: Service, s: Cache, packet: seq<RR>, link: int, now: int) returns (start: Cache, victims: set<Key>)
    requires WithinBudgets(service, s)
    ensures WithinBudgets(service, start)
    ensures victims == Victims(service, Prune(s, now), packet, link, now)
    ensures start == Cache(ClipAll(Prune(s, now).records, victims, now), s.serial)
    ensures Ingest(service, s, packet, link, now) == InsertAll(service, start, victims, packet, link, now)
  {
    victims := Victims(service, Prune(s, now), packet, link, now);
    start := Cache(ClipAll(Prune(s, now).records, victims, now), s.serial);
    StartShrinks(s, victims, now);
    StartShrinks(Prune(s, now), victims, now);
    ShrinkKeepsBudgets(service, s, Prune(s, now).records);
    ShrinkKeepsBudgets(service, Prune(s, now), start.records);
  }

  /**
   Cache flush: every other record of the flushed name and type on the link, at least one second old and
   not announced in the packet, is gone or expires within one second.
   */
  lemma FlushedExpireWithinASecond(service: Service, s: Cache, packet: seq<RR>, link: int, now: int, rr: RR, l: Key)
    requires WithinBudgets(service, s) && ServiceOk(service)
    requires rr in packet && FlushedBy(service, rr, link, l) && l !in Incoming(service, packet, link)
    requires l in s.records && now - s.records[l].received >= SECOND
    ensures var s' := Ingest(service, s, packet, link, now);
            l in s'.records ==> s'.records[l].expires <= now + SECOND
  {
    var start, victims := IngestStart(service, s, packet, link, now);
    UnannouncedInsert(service, start, victims, packet, link, now, l);
  }

  /** Members of the packet are never flush victims: a cached record it announces stays, renewed, unless a unique type overflows its quota. */
  lemma AnnouncedSurvive(service: Service, s: Cache, packet: seq<RR>, link: int, now: int, l: Key)
    requires WithinBudgets(service, s) && ServiceOk(service)
    requires l in Incoming(service, packet, link)
    ensures l !in Victims(service, Prune(s, now), packet, link, now)
    ensures var s' := Ingest(service, s, packet, link, now);
            l in Prune(s, now).records && !l.data.Srv? && !l.data.Txt? ==> l in s'.records && s'.records[l].received == now
  {
    var start, victims := IngestStart(service, s, packet, link, now);
    if l in start.records {
      LeavingInsert(service, start, victims, packet, link, now, l);
    }
  }

  /** Link and name isolation: an unexpired record whose link, name and type the packet does not mention is exactly as it was. */
  lemma UnmentionedAreUntouched(service: Service, s: Cache, packet: seq<RR>, link: int, now: int, l: Key)
    requires WithinBudgets(service, s) && ServiceOk(service)
    requires forall rr :: rr in packet ==> !Mentions(service, rr, link, l)
    ensures var s' := Ingest(service, s, packet, link, now);
            && (l in s'.records <==> l in s.records && now < s.records[l].expires)
            && (l in s'.records ==> s'.records[l] == s.records[l])
  {
    var start, victims := IngestStart(service, s, packet, link, now);
    assert forall rr :: rr in packet && FlushedBy(service, rr, link, l) ==> Mentions(service, rr, link, l);
    assert l !in Incoming(service, packet, link) by {
      forall rr | rr in packet && Announces(service, rr) ensures KeyOf(link, rr) != l {
        assert KeyOf(link, rr) == l ==> Mentions(service, rr, link, l);
      }
    }
    if l in start.records {
      LeavingInsert(service, start, victims, packet, link, now, l);
    }
    UnannouncedInsert(service, start, victims, packet, link, now, l);
  }

  /** In particular no packet ever touches another link. */
  lemma OtherLinksAreUntouched(service: Service, s: Cache, packet: seq<RR>, link: int, now: int, l: Key)
    requires WithinBudgets(service, s) && ServiceOk(service) && l.link != link
    ensures var s' := Ingest(service, s, packet, link, now);
            && (l in s'.records <==> l in s.records && now < s.records[l].expires)
            && (l in s'.records ==> s'.records[l] == s.records[l])
  {
    UnmentionedAreUntouched(service, s, packet, link, now, l);
  }

  /** What the packet does not announce is never created and never gains time; a goodbye leaves it at most one second. */
  lemma UnannouncedOnlyLoseTime(service: Service, s: Cache, packet: seq<RR>, link: int, now: int, l: Key)
    requires WithinBudgets(service, s) && ServiceOk(service)
    requires l !in Incoming(service, packet, link)
    ensures var s' := Ingest(service, s, packet, link, now);
            l in s'.records ==>
              && l in s.records && now < s.records[l].expires
              && (s'.records[l] == s.records[l] || s'.records[l] == Clip(s.records[l], now))
              && ((exists rr :: rr in packet && Says(service, rr, link, l)) ==> s'.records[l].expires <= now + SECOND)
  {
    var start, victims := IngestStart(service, s, packet, link, now);
    UnannouncedInsert(service, start, victims, packet, link, now, l);
  }

  /** What is gone was a victim older than every victim kept. */
  ghost predicate OldestFirst(records: Records, out: Records, victims: set<Key>) {
    forall gone, kept :: gone in records && gone !in out && kept in out && kept in records && kept in victims ==>
      gone in victims && records[gone].serial <= records[kept].serial
  }

  lemma OldestFirstStep(records: Records, out: Records, victims: set<Key>, k: Key)
    requires IsOldest(records, Present(records, victims), k) && OldestFirst(records - {k}, out, victims)
    requires forall l :: l in out ==> l in records - {k}
    ensures OldestFirst(records, out, victims)
  {
    forall gone, kept | gone in records && gone !in out && kept in out && kept in records && kept in victims
      ensures gone in victims && records[gone].serial <= records[kept].serial
    {
      assert kept in Present(records, victims);
      if gone != k {
        assert gone in records - {k} && kept in records - {k};
      }
    }
  }

  /** Room is made oldest first, from flush victims only, and only while the new record does not fit. */
  lemma {:induction false} RoomIsMadeOldestFirst(records: Records, victims: set<Key>, size: nat)
    ensures var out := MakeRoom(records, victims, size);
            && OldestFirst(records, out, victims)
            && (!OverBudget(records, Bytes(records), size) ==> out == records)
            && (OverBudget(out, Bytes(out), size) ==> Present(out, victims) == {})
    decreases |Present(records, victims)|
  {
    var present := Present(records, victims);
    if OverBudget(records, Bytes(records), size) && present != {} {
      var k := Oldest(records, present);
      assert Present(records - {k}, victims) == present - {k};
      RoomIsMadeOldestFirst(records - {k}, victims, size);
      MakeRoomShrinks(records - {k}, victims, size);
      OldestFirstStep(records, MakeRoom(records, victims, size), victims, k);
    }
  }

  /**
   A new SRV or TXT record is never blocked by its own quota: when the cache-wide budgets have room it is
   stored, and what it displaces, if anything, is older than everything its name keeps of that type.
   */
  lemma UniqueDataReplacesOldest(service: Service, s: Cache, victims: set<Key>, k: Key, r: Record)
    requires WithinBudgets(service, s) && k !in s.records && (k.data.Srv? || k.data.Txt?)
    requires !OverBudget(s.records, Bytes(s.records), r.size) && InstanceFits(service, s.records, k)
    ensures var s' := Announce(service, s, victims, k, r);
            && k in s'.records && s'.records[k] == r
            && forall gone, kept :: gone in s.records && gone !in s'.records && kept in Group(s.records, k.link, k.name, KindOf(k.data)) && kept in s'.records ==>
                 gone in Group(s.records, k.link, k.name, KindOf(k.data)) && s.records[gone].serial <= s.records[kept].serial
  {
    RoomIsMadeOldestFirst(s.records, victims, r.size);
    SlotReplacesOldest(s.records, victims, k);
  }

  lemma SlotReplacesOldest(records: Records, victims: set<Key>, k: Key)
    requires k.data.Srv? || k.data.Txt?
    ensures var (out, accepted) := TakeSlot(records, victims, k);
      && accepted
      && forall gone, kept :: gone in records && gone !in out && kept in Group(records, k.link, k.name, KindOf(k.data)) && kept in out ==>
           gone in Group(records, k.link, k.name, KindOf(k.data)) && records[gone].serial <= records[kept].serial
  {
  }
}
