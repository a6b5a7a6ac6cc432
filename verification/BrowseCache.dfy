/**
 The mDNS browse cache: one map of resource records with byte, record, per-name and per-instance
 budgets, cache-flush grace and goodbyes (RFC 6762, sections 10.1 and 10.2).
 `Ingest` is the specification of one packet; `Browser` is the imperative cache proved against it.
 */
module BrowseCache {
  import opened MapSums

  const MAX_SERVICES: nat := 256
  const MAX_ADDRESSES: nat := 64
  const RR_LIMIT: nat := MAX_SERVICES * (MAX_ADDRESSES + 4)
  const BYTE_LIMIT: nat := 4 * 1024 * 1024
  const SECOND: int := 1_000_000_000

  datatype Kind = PTR | SRV | TXT | A | AAAA

  /** Record data in presentation form; a PTR and an SRV name another owner. */
  datatype Data = Ptr(target: string) | Srv(fields: string, target: string) | Txt(text: string) | Addr4(text: string) | Addr6(text: string)

  /** `wellFormed` covers the class and the host, text and address syntax checks. */
  datatype RR = RR(name: string, data: Data, ttl: nat, flush: bool, wellFormed: bool)

  datatype Key = Key(link: int, name: string, data: Data)

  datatype Record = Record(rr: RR, expires: int, received: int, size: nat, serial: nat)

  type Records = map<Key, Record>

  /** The browse name asked for, and the service type its instances live under. */
  datatype Service = Service(browse: string, base: string)

  datatype Cache = Cache(records: Records, serial: nat)

  function KindOf(data: Data): Kind {
    match data
    case Ptr(_) => PTR
    case Srv(_, _) => SRV
    case Txt(_) => TXT
    case Addr4(_) => A
    case Addr6(_) => AAAA
  }

  predicate IsAddress(kind: Kind) {
    kind == A || kind == AAAA
  }

  /** Kinds that share a quota: A and AAAA count together. */
  predicate Together(kind: Kind, other: Kind) {
    kind == other || (IsAddress(kind) && IsAddress(other))
  }

  function Lower(s: string): string {
    seq(|s|, i requires 0 <= i < |s| => if 'A' <= s[i] <= 'Z' then (s[i] as int + 32) as char else s[i])
  }

  function BrowseName(s: string): string {
    Lower(if s == "" || s[|s| - 1] != '.' then s + "." else s)
  }

  function FirstDot(s: string): nat {
    if s == "" then 0 else if s[0] == '.' then 0 else 1 + FirstDot(s[1..])
  }

  lemma {:induction false} FirstDotBound(s: string)
    ensures FirstDot(s) <= |s|
  {
    if s != "" && s[0] != '.' { FirstDotBound(s[1..]); }
  }

  /** One label followed by the service type. */
  predicate Instance(service: Service, name: string) {
    var dot := FirstDot(name);
    0 < dot < |name| && name[dot + 1..] == service.base
  }

  /** The browse name is the service type itself or one of its subtypes, so it is never an instance. */
  ghost predicate ServiceOk(service: Service) {
    !Instance(service, service.browse)
  }

  lemma ServiceNames(base: string, subtype: string)
    ensures ServiceOk(Service(base, base))
    ensures ServiceOk(Service(subtype + "._sub." + base, base))
  {
    var full := subtype + "._sub." + base;
    FirstDotBound(base);
    FirstDotBound(full);
    DotByThen(subtype, "._sub." + base);
    assert full == subtype + ("._sub." + base);
  }

  lemma {:induction false} DotByThen(s: string, t: string)
    requires t != "" && t[0] == '.'
    ensures FirstDot(s + t) <= |s|
  {
    if s == "" {
      assert s + t == t;
    } else if s[0] != '.' {
      assert (s + t)[1..] == s[1..] + t;
      DotByThen(s[1..], t);
    }
  }

  predicate Admissible(service: Service, rr: RR) {
    rr.wellFormed && match rr.data
    case Ptr(target) => BrowseName(rr.name) == service.browse && Instance(service, BrowseName(target))
    case Srv(_, _) => Instance(service, BrowseName(rr.name))
    case Txt(_) => Instance(service, BrowseName(rr.name))
    case Addr4(_) => true
    case Addr6(_) => true
  }

  function KeyOf(link: int, rr: RR): Key {
    var data := match rr.data
      case Ptr(target) => Ptr(BrowseName(target))
      case Srv(fields, target) => Srv(fields, BrowseName(target))
      case _ => rr.data;
    Key(link, BrowseName(rr.name), data)
  }

  function Presentation(k: Key): string {
    k.name + "\t0\tIN\t" + match k.data
      case Ptr(target) => "PTR\t" + target
      case Srv(fields, target) => "SRV\t" + fields + " " + target
      case Txt(text) => "TXT\t" + text
      case Addr4(text) => "A\t" + text
      case Addr6(text) => "AAAA\t" + text
  }

  function Size(k: Key): nat {
    |Presentation(k)| + |k.name| + 64
  }

  // ---- Budgets ----

  ghost function Sizes(records: Records): map<Key, nat> {
    map k | k in records :: records[k].size
  }

  ghost function Bytes(records: Records): nat {
    Sum(Sizes(records))
  }

  /** The records that share a quota with kind `kind` under one name on one link. */
  function Group(records: Records, link: int, name: string, kind: Kind): set<Key> {
    set k | k in records && k.link == link && k.name == name && Together(kind, KindOf(k.data))
  }

  function Limit(kind: Kind): nat {
    match kind
    case PTR => MAX_SERVICES
    case SRV => 2
    case TXT => 2
    case _ => MAX_ADDRESSES
  }

  /** The service instances a record speaks about, each tied to its link. */
  function InstancesOf(service: Service, k: Key): set<(int, string)> {
    (if Instance(service, k.name) then {(k.link, k.name)} else {}) + (if k.data.Ptr? then {(k.link, k.data.target)} else {})
  }

  function Instances(service: Service, records: Records): set<(int, string)> {
    set k, i | k in records && i in InstancesOf(service, k) :: i
  }

  /** The record stored under a key describes that key. */
  ghost predicate Describes(service: Service, k: Key, r: Record) {
    r.size == Size(k) && KeyOf(k.link, r.rr) == k && Admissible(service, r.rr)
  }

  ghost predicate RecordsOk(service: Service, s: Cache) {
    forall k :: k in s.records ==> Describes(service, k, s.records[k]) && s.records[k].serial <= s.serial
  }

  ghost predicate SerialsDiffer(records: Records) {
    forall k, l :: k in records && l in records && k != l ==> records[k].serial != records[l].serial
  }

  ghost predicate GroupsWithinLimits(records: Records) {
    forall link, name, kind :: |Group(records, link, name, kind)| <= Limit(kind)
  }

  /** All budgets at once. */
  ghost predicate WithinBudgets(service: Service, s: Cache) {
    && RecordsOk(service, s)
    && SerialsDiffer(s.records)
    && |s.records| <= RR_LIMIT
    && Bytes(s.records) <= BYTE_LIMIT
    && GroupsWithinLimits(s.records)
    && |Instances(service, s.records)| <= MAX_SERVICES
  }

  // ---- One packet ----

  function Prune(s: Cache, now: int): Cache {
    Cache(map k | k in s.records && now < s.records[k].expires :: s.records[k], s.serial)
  }

  predicate Announces(service: Service, rr: RR) {
    Admissible(service, rr) && rr.ttl > 0
  }

  predicate Flushes(service: Service, rr: RR) {
    Announces(service, rr) && rr.flush && !rr.data.Ptr?
  }

  function Incoming(service: Service, packet: seq<RR>, link: int): set<Key> {
    set rr | rr in packet && Announces(service, rr) :: KeyOf(link, rr)
  }

  predicate FlushedBy(service: Service, rr: RR, link: int, k: Key) {
    Flushes(service, rr) && k.link == link && k.name == BrowseName(rr.name) && KindOf(k.data) == KindOf(rr.data)
  }

  /** Records a cache-flush member of the packet marks: old enough, same name and type, and not announced again. */
  function Victims(service: Service, s: Cache, packet: seq<RR>, link: int, now: int): set<Key> {
    set k | k in s.records && k !in Incoming(service, packet, link) && now - s.records[k].received >= SECOND
            && exists rr :: rr in packet && FlushedBy(service, rr, link, k)
  }

  function Clip(r: Record, now: int): Record {
    if r.expires > now + SECOND then r.(expires := now + SECOND) else r
  }

  function ClipAll(records: Records, keys: set<Key>, now: int): Records {
    map k | k in records :: if k in keys then Clip(records[k], now) else records[k]
  }

  /** The record with the smallest serial among `keys`. */
  ghost predicate IsOldest(records: Records, keys: set<Key>, k: Key) {
    k in keys && k in records && forall l :: l in keys && l in records ==> records[k].serial <= records[l].serial
  }

  lemma {:induction false} OldestExists(records: Records, keys: set<Key>)
    requires keys != {} && keys <= records.Keys
    ensures exists k :: IsOldest(records, keys, k)
  {
    var k :| k in keys;
    if keys != {k} {
      OldestExists(records, keys - {k});
      var l :| IsOldest(records, keys - {k}, l);
      assert IsOldest(records, keys, if records[k].serial <= records[l].serial then k else l);
    } else {
      assert IsOldest(records, keys, k);
    }
  }

  ghost function Oldest(records: Records, keys: set<Key>): (k: Key)
    requires keys != {} && keys <= records.Keys
    ensures IsOldest(records, keys, k)
  {
    OldestExists(records, keys);
    var k :| IsOldest(records, keys, k); k
  }

  predicate OverBudget(records: Records, bytes: nat, size: nat) {
    |records| >= RR_LIMIT || bytes + size > BYTE_LIMIT
  }

  /** Flush victims still cached. */
  function Present(records: Records, victims: set<Key>): set<Key> {
    victims * records.Keys
  }

  /** Evicts flush victims, oldest first, until the new record fits or none is left. */
  ghost function MakeRoom(records: Records, victims: set<Key>, size: nat): Records
    decreases |Present(records, victims)|
  {
    var present := Present(records, victims);
    if !OverBudget(records, Bytes(records), size) || present == {} then records
    else
      var k := Oldest(records, present);
      assert Present(records - {k}, victims) == present - {k};
      MakeRoom(records - {k}, victims, size)
  }

  /** Evicts address victims of one name, oldest first, until the name has a free address slot or none is left. */
  ghost function FreeAddress(records: Records, victims: set<Key>, link: int, name: string): Records
    decreases |Present(records, victims)|
  {
    var candidates := victims * Group(records, link, name, A);
    if |Group(records, link, name, A)| < MAX_ADDRESSES || candidates == {} then records
    else
      var k := Oldest(records, candidates);
      assert Present(records - {k}, victims) == Present(records, victims) - {k};
      FreeAddress(records - {k}, victims, link, name)
  }

  /** A new record's instance is known already or there is room for one more. */
  predicate InstanceFits(service: Service, records: Records, k: Key) {
    var unseen := InstancesOf(service, k) - Instances(service, records);
    unseen == {} || |Instances(service, records)| < MAX_SERVICES
  }

  /** The per-name quota: an address may take over a victim's slot, an SRV or TXT replaces the oldest of its name. */
  ghost function TakeSlot(records: Records, victims: set<Key>, k: Key): (Records, bool) {
    var kind := KindOf(k.data);
    var freed := if IsAddress(kind) then FreeAddress(records, victims, k.link, k.name) else records;
    var group := Group(freed, k.link, k.name, kind);
    if |group| < Limit(kind) then (freed, true)
    else if kind == SRV || kind == TXT then (freed - {Oldest(freed, group)}, true)
    else (freed, false)
  }

  /** The cache a new record `k` is added to, or the cache without it when some budget refuses it. */
  ghost function Admit(service: Service, records: Records, victims: set<Key>, k: Key, size: nat): (Records, bool) {
    var room := MakeRoom(records, victims, size);
    if OverBudget(room, Bytes(room), size) || !InstanceFits(service, room, k) then (room, false)
    else TakeSlot(room, victims, k)
  }

  /** The record an announcement stores. */
  function Entry(s: Cache, rr: RR, link: int, now: int): Record {
    Record(rr, now + rr.ttl * SECOND, now, Size(KeyOf(link, rr)), s.serial + 1)
  }

  /** Stores an announced record: a known one is renewed, a new one must be admitted. */
  ghost function Announce(service: Service, s: Cache, victims: set<Key>, k: Key, r: Record): Cache {
    var (records, accepted) := if k in s.records then (s.records, true) else Admit(service, s.records, victims, k, r.size);
    if accepted then Cache(records[k := r], s.serial + 1) else Cache(records, s.serial)
  }

  ghost function Insert(service: Service, s: Cache, victims: set<Key>, rr: RR, link: int, now: int): Cache {
    var k := KeyOf(link, rr);
    if !Admissible(service, rr) then s
    else if rr.ttl == 0 then Cache(ClipAll(s.records, {k}, now), s.serial)
    else Announce(service, s, victims, k, Entry(s, rr, link, now))
  }

  ghost function InsertAll(service: Service, s: Cache, victims: set<Key>, packet: seq<RR>, link: int, now: int): Cache {
    if packet == [] then s
    else Insert(service, InsertAll(service, s, victims, packet[..|packet| - 1], link, now), victims, packet[|packet| - 1], link, now)
  }

  /** A packet from a valid peer, after its header checks; answers and additional records in order. */
  ghost function Ingest(service: Service, s: Cache, packet: seq<RR>, link: int, now: int): Cache {
    var pruned := Prune(s, now);
    var victims := Victims(service, pruned, packet, link, now);
    InsertAll(service, Cache(ClipAll(pruned.records, victims, now), pruned.serial), victims, packet, link, now)
  }
}
