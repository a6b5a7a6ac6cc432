# Verified models of the proxy's stateful core

This project models the parts of the proxy that keep state or count bytes, and proves what they promise
over every input and every run. It needs Dafny 4.11; `dafny verify dfyconfig.toml` checks everything.

| files | component |
|---|---|
| `AntigravityReplay`, `AntigravityHistory` | the process-local Antigravity replay cache: a class, and the history of all requests that hold snapshots of it |
| `AntigravityHome` | the same protocol over a shared key-value store with compare-and-swap, for one client's loop and for many clients |
| `CodexReplay`, `CodexHome` | the Codex replay cache: turn-aligned trimming, idempotent appends, and the 32-attempt shared append |
| `ClaudeReplay`, `ClaudeEviction`, `ClaudeHistory` | the Claude replay cache: exact byte accounting, what limit enforcement leaves, and the history of all requests that hold snapshots |
| `BoundedLru` | the bounded cache as a map into a list |
| `YamlTree`, `KeyGroups`, `ConfigLayout`, `ConfigBlocks`, `ConfigMigration`, `ConfigTheorems`, `ConfigToggle`, `ConfigExample` | the v8 configuration layout: flattening, normalization and migration of a document tree; the tables are parameters, `ConfigToggle` holds the theorems on whole documents |
| `BrowseCache`, `Browser`, `BrowseBudgets`, `BrowseFlush` | the mDNS browse cache: its budgets and its cache-flush behaviour |
| `MuxListener`, `MuxRuns`, `AcceptLoop` | the in-memory listener behind the shared port, as interleaved steps of any number of threads, and the accept loop |
| `CompressionSpec`, `CompressionWriter`, `CompressionProofs` | the response writer that delays its encoding decision |
| `RespSpec`, `RespStream`, `RespProofs` | reader and writer of the Redis serialization protocol |
| `Shared` | options, sums over maps, oldest-first eviction, set sizes |

Code that changes state is a class or a loop whose contract equates the new state with a function of the
old one; the theorems are about those functions. Concurrency is a transition system with explicit steps.
Clocks, UUIDs and nonces are parameters; in runs nonces are fresh. Keys, lines and payloads are arbitrary.

## What the proofs found

- Configuration migration keeps every known field, but not every accepted document stays accepted: a legacy
  key list that the old layout tolerates (a null entry, a provider with null `api-key-entries`) is regrouped
  into groups that the runtime then refuses. `NormalizePreservesMeaning` says exactly when,
  `MigrationCanBeRefused` gives two documents.
- In the Claude cache, eviction goes by batches of 128 sessions, so it can take the turn just published
  while the publication still reports success. It does exactly when the youngest (n - 1) mod 128 + 1 of the
  n sessions, the new one counted in, exceed 256 MiB together (`YoungestSurvivesIff`); `PublicationCanBeLost`
  gives 32 full sessions and a 33rd with one byte.
- Also in the Claude cache, deleting with a loaded snapshot that had found nothing inserts a tombstone without
  enforcing the entry limit. `DeleteKeepsLimitsIff` gives the exact condition; snapshots issued by the cache
  itself always have found an entry, so no run reaches it (`ClaudeHistory.Reachable`).
- In the Codex cache, appending a turn that an oversized list already holds can drop that very turn, since
  the list is still trimmed; the shared append then returns true without it. `AppendIsIdempotentIff` and
  `WinnerIsStoredIff` say exactly when, `AppendCanDropItsTurn` gives the list. The cache's own lists never
  exceed the limits, so it takes a foreign write (`ValueFits`).
- In the compression writer, an empty first write before a content type is set decides against encoding for
  good (`EmptyFirstWriteForgoesEncoding`).

## Model

| member | source | states |
|---|---|---|
| AntigravityHistory.NoResurrection | internal/cache/antigravity_reasoning_replay_cache.go:333-384 | in every run, once an entry is deleted, evicted, purged, cleared or overwritten, no snapshot loaded before that can ever publish to or delete that key again (also lines 256-275, 395-418, 478-483, 623-656) |
| AntigravityHistory.PublishableIffLive | internal/cache/antigravity_reasoning_replay_cache.go:333-355 | a loaded snapshot may publish exactly while the entry it read is still held, or a descendant of it on its branch |
| AntigravityHistory.DeletableIffHeld | internal/cache/antigravity_reasoning_replay_cache.go:357-387 | a loaded snapshot may delete exactly while its key holds the very entry it read |
| AntigravityHistory.LiveUntilFenced | internal/cache/antigravity_reasoning_replay_cache.go:337-384 | a live snapshot stays live over every step that does not fence its key, and a fencing step kills it (also lines 230-275) |
| AntigravityHistory.FenceRenews | internal/cache/antigravity_reasoning_replay_cache.go:337-384 | after a fencing step the key holds nothing or an entry with a revision and branch never used before (also lines 127-141, 256-274, 395-418) |
| AntigravityHistory.BranchesGrow | internal/cache/antigravity_reasoning_replay_cache.go:337-348 | lists stored under one branch at two times of a run extend each other and always sit under one key (also lines 456-466) |
| AntigravityHistory.RevisionsNeverReused | internal/cache/antigravity_reasoning_replay_cache.go:230-251 | one revision seen at two times and under any two keys names one key and identical items, branch and deleted flag, even after eviction or Clear (also lines 127-141, 260-274, 337-348) |
| AntigravityHistory.SnapshotIsExact | internal/cache/antigravity_reasoning_replay_cache.go:230-251 | a revision match means that the entry still holds exactly what the snapshot read (also lines 260-274) |
| AntigravityHistory.PublishThenRead | internal/cache/antigravity_reasoning_replay_cache.go:333-384 | the read after a publication or deletion: a hit returns exactly the published list, on the branch the publication kept or drew and under a new revision; a miss returns nothing and a branch of its own (also lines 230-251) |
| AntigravityHistory.Reachable | internal/cache/antigravity_reasoning_replay_cache.go:100-141 | every reachable state keeps fresh revisions, branches apart, snapshots honest, lists storable and at most 10240 entries (also lines 256-277, 623-656) |
| AntigravityReplay.NormalizeItems | internal/cache/antigravity_reasoning_replay_cache.go:500-517 | the normalizing loop accepts exactly the lists whose normal form meets the per-item and total limits |
| AntigravityReplay.NormalizeYieldsStorable | internal/cache/antigravity_reasoning_replay_cache.go:500-517 | a normalized list is canonical and meets the limits, so normalizing it again changes nothing |
| AntigravityReplay.ItemsPrefix | internal/cache/antigravity_reasoning_replay_cache.go:456-466 | the loop answers exactly whether the first list is a prefix of the second |
| AntigravityReplay.ReplayCache.CacheItems | internal/cache/antigravity_reasoning_replay_cache.go:100-143 | an unconditional write stores the normalized list under a fresh branch and next revision, then evicts one oldest batch on overflow |
| AntigravityReplay.ReplayCache.ReserveAbsent | internal/cache/antigravity_reasoning_replay_cache.go:256-277 | a miss makes room first and leaves a tombstone with a fresh revision and branch |
| AntigravityReplay.ReplayCache.GetWithSnapshot | internal/cache/antigravity_reasoning_replay_cache.go:170-252 | a hit only touches the timestamp; a miss reserves; the snapshot describes the entry held afterwards |
| AntigravityReplay.ReplayCache.ReplaceIfUnchanged | internal/cache/antigravity_reasoning_replay_cache.go:279-355 | publishes over the exact entry read or a same-branch prefix, on the same branch only if it extends it; otherwise changes nothing |
| AntigravityReplay.ReplayCache.DeleteIfUnchanged | internal/cache/antigravity_reasoning_replay_cache.go:357-387 | replaces the exact entry read by a tombstone, or changes nothing |
| AntigravityReplay.ReplayCache.DeleteItem | internal/cache/antigravity_reasoning_replay_cache.go:396-418 | leaves a fresh tombstone |
| AntigravityReplay.ReplayCache.ClearAll | internal/cache/antigravity_reasoning_replay_cache.go:478-483 | empties the map, keeps the revision counter and moves the eviction epoch |
| AntigravityReplay.ReplayCache.PurgeExpired | internal/cache/antigravity_reasoning_replay_cache.go:647-657 | removes exactly the expired entries and counts each in the eviction epoch |
| AntigravityReplay.ReplayCache.EvictOldest | internal/cache/antigravity_reasoning_replay_cache.go:623-645 | removes one batch of keys, none younger than a survivor |
| Eviction.SelectOldest | internal/cache/antigravity_reasoning_replay_cache.go:623-645 | the batch is that many distinct keys, none younger than any key left out |
| AntigravityHome.PublishIfUnchanged | internal/cache/antigravity_reasoning_replay_cache.go:279-331 | the four-attempt loop, with arbitrary interference between its steps, writes at most once, only over the snapshot value or over a live same-branch value whose items are a prefix; true implies it wrote |
| AntigravityHome.StorableFits | internal/cache/antigravity_reasoning_replay_cache.go:20-52 | a storable list always serializes below the stored value limit (also lines 428-440) |
| HomeHistory.SwapRefinesLocalRule | internal/cache/antigravity_reasoning_replay_cache.go:291-331 | in every multi-client run a successful swap overwrote the exact snapshot value or a live descendant on its branch |
| HomeHistory.BranchesGrow | internal/cache/antigravity_reasoning_replay_cache.go:291-331 | shared lists under one branch extend each other over every interleaving of clients, deletions and expiries (also lines 456-466) |
| HomeHistory.NoResurrection | internal/cache/antigravity_reasoning_replay_cache.go:291-331 | once the shared key left the branch a snapshot read, that snapshot never writes again (also lines 357-384) |
| HomeHistory.Reachable | internal/cache/antigravity_reasoning_replay_cache.go:170-228 | the multi-client invariant holds in every reachable state (also lines 279-331, 357-384) |
| CodexReplay.TrimItems | internal/cache/codex_reasoning_replay_cache.go:212-230 | the trimming loop computes the trimmed list and terminates |
| CodexReplay.TrimIsLongest | internal/cache/codex_reasoning_replay_cache.go:212-230 | trimming gives the longest suffix that starts at a turn boundary and meets both limits, or nothing |
| CodexReplay.AppendTurn | internal/cache/codex_reasoning_replay_cache.go:190-210 | the append loop drops unmarked lists, ignores a turn whose id is present, and otherwise appends and trims |
| CodexReplay.AppendIsIdempotentIff | internal/cache/codex_reasoning_replay_cache.go:190-230 | for any list, appending an identified turn twice is the same as once exactly when the list did not hold the turn or its trim keeps it; lists within the limits always meet the condition |
| CodexReplay.AppendedTurnIsHeldIff | internal/cache/codex_reasoning_replay_cache.go:190-230 | the turn is in the list after an append under exactly the same condition |
| CodexReplay.AppendCanDropItsTurn | internal/cache/codex_reasoning_replay_cache.go:190-230 | a concrete oversized list: appending the turn it starts with drops that turn, and a retry stores it again |
| CodexReplay.NewTurnSurvives | internal/cache/codex_reasoning_replay_cache.go:190-230 | a new turn that is within the limits itself is kept whole; only whole older turns are dropped for it |
| CodexReplay.AppendFits | internal/cache/codex_reasoning_replay_cache.go:190-230 | the appended list always meets both limits |
| CodexReplay.StoredListsFit | internal/cache/codex_reasoning_replay_cache.go:190-230 | whatever a replacement or an append stores meets both limits (also lines 347-357) |
| CodexReplay.WritesKeepBounds | internal/cache/codex_reasoning_replay_cache.go:462-483 | every local write keeps at most 10240 entries, all within their limits (also lines 105-116, 173-188) |
| CodexReplay.ReplayCache.AppendItems | internal/cache/codex_reasoning_replay_cache.go:119-188 | a local append builds on the unexpired list, writes the result and evicts one oldest batch on overflow; an empty turn changes nothing |
| CodexReplay.ReplayCache.CacheItems | internal/cache/codex_reasoning_replay_cache.go:77-116 | a replacement stores the trimmed list, or changes nothing |
| CodexReplay.ReplayCache.Get | internal/cache/codex_reasoning_replay_cache.go:279-294 | a hit refreshes the timestamp, an expired entry is removed |
| CodexReplay.ReplayCache.EvictOldest | internal/cache/codex_reasoning_replay_cache.go:462-483 | removes one batch of keys, none younger than a survivor |
| CodexHome.NoUpdateIsLost | internal/cache/codex_reasoning_replay_cache.go:131-171 | at every moment the shared list is the fold of all appends that took effect, in swap order, since the last foreign write; a call that returned true is among them exactly once, no call twice |
| CodexHome.LosersLostToSomebody | internal/cache/codex_reasoning_replay_cache.go:131-171 | an attempt loses its swap only if the value changed after it was read |
| CodexHome.WinnerIsStoredIff | internal/cache/codex_reasoning_replay_cache.go:131-171 | a winning swap leaves the list within its limits, and the identified turn in it exactly when the replaced list would not lose that turn to the trim (also lines 190-230) |
| CodexHome.ValueFits | internal/cache/codex_reasoning_replay_cache.go:131-171 | while other clients write only lists within the limits, so is the shared list, and then every winner is stored (also lines 212-230) |
| CodexHome.StepKeepsInv | internal/cache/codex_reasoning_replay_cache.go:131-171 | every step of every client keeps the value equal to the replay of its history and each call within 32 attempts |
| CodexHome.AppendToShared | internal/cache/codex_reasoning_replay_cache.go:119-171 | the loop returns true only after writing exactly once; false means at most one write, whose answer was lost |
| ClaudeReplay.Append | internal/cache/claude_thinking_replay_cache.go:368-383 | the append loops return the list unchanged when the turn is present and otherwise the trimmed extension |
| ClaudeReplay.TrimIsLongest | internal/cache/claude_thinking_replay_cache.go:377-382 | session trimming keeps the longest suffix within 64 turns and 8 MiB |
| ClaudeReplay.NewTurnSurvives | internal/cache/claude_thinking_replay_cache.go:368-383 | a valid new turn always survives session trimming; a turn already there changes nothing (also lines 414-420) |
| ClaudeReplay.ReplayCache.EnforceLimits | internal/cache/claude_thinking_replay_cache.go:439-447 | terminates, evicts oldest batches exactly while a limit is exceeded, ends within both limits with the total exact, and never reaches the branch that resets the total |
| ClaudeReplay.ReplayCache.EvictOldest | internal/cache/claude_thinking_replay_cache.go:449-472 | removes one oldest batch and takes exactly its bytes from the running total |
| ClaudeReplay.ReplayCache.CacheTurn | internal/cache/claude_thinking_replay_cache.go:72-103 | stores a valid turn alone and enforces the limits; keeps the total equal to the sum of lengths (also lines 355-366) |
| ClaudeReplay.ReplayCache.GetWithSnapshot | internal/cache/claude_thinking_replay_cache.go:145-163 | a hit only touches the timestamp; a miss leaves a tombstone and enforces the limits; the snapshot carries the generation held afterwards (also lines 348-353) |
| ClaudeReplay.ReplayCache.ReplaceIfUnchanged | internal/cache/claude_thinking_replay_cache.go:166-214 | appends to exactly the generation the snapshot read and enforces the limits, or changes nothing |
| ClaudeReplay.ReplayCache.DeleteIfUnchanged | internal/cache/claude_thinking_replay_cache.go:217-250 | replaces exactly the generation read by a tombstone, or changes nothing; keeps the limits when the snapshot had found an entry |
| ClaudeReplay.ReplayCache.Delete | internal/cache/claude_thinking_replay_cache.go:253-277 | removes the entry with its bytes |
| ClaudeHistory.Reachable | internal/cache/claude_thinking_replay_cache.go:72-284 | in every run of requests that hold snapshots both limits hold at all times, so the unenforced deletion never happens with an issued snapshot (also lines 348-366, 439-483) |
| ClaudeHistory.NoStalePublication | internal/cache/claude_thinking_replay_cache.go:166-250 | once a key no longer holds the generation a snapshot read, that snapshot never publishes or deletes again in the run |
| ClaudeHistory.PublishesOnWhatItRead | internal/cache/claude_thinking_replay_cache.go:166-214 | a publication that goes through appends to exactly the contents its request read (also lines 368-383) |
| ClaudeReplay.ReplayCache.PurgeExpired | internal/cache/claude_thinking_replay_cache.go:474-483 | removes exactly the expired entries with their bytes |
| ClaudeReplay.DeleteKeepsLimitsIff | internal/cache/claude_thinking_replay_cache.go:241-249 | deletion with a snapshot keeps the limits exactly when the key is present or a place is free |
| ClaudeEviction.YoungestSurvivesIff | internal/cache/claude_thinking_replay_cache.go:422-472 | a published turn younger than every other session survives enforcement exactly when the youngest (sessions - 1) mod 128 + 1 sessions, counted with it, are together within 256 MiB (also lines 94-101) |
| ClaudeEviction.TailDecides | internal/cache/claude_thinking_replay_cache.go:422-472 | those youngest sessions decide the whole outcome before it happens: within the byte limit all of them are kept, else the cache is emptied |
| ClaudeEviction.TailExists | internal/cache/claude_thinking_replay_cache.go:449-472 | sessions with distinct timestamps always have such a youngest part |
| ClaudeEviction.SmallCacheIsEmptied | internal/cache/claude_thinking_replay_cache.go:439-472 | a cache of at most 128 sessions is emptied completely exactly when it exceeds the byte limit |
| ClaudeEviction.PublicationCanBeLost | internal/cache/claude_thinking_replay_cache.go:166-214 | 32 sessions of 8 MiB are within the limits; publishing one more byte in a 33rd can only leave an empty cache (also lines 439-472) |
| ClaudeReplay.EnforcedShrinks | internal/cache/claude_thinking_replay_cache.go:439-472 | enforcement only removes entries and, if it removes any, a full batch or everything |
| BoundedLru.RunKeepsInv | internal/cache/bounded_lru.go:24-95 | every run keeps the bound, distinct keys, and every created value cached or dropped exactly once |
| BoundedLru.ListIsByRecency | internal/cache/bounded_lru.go:38-77 | the list is ordered by the last call that asked for each key |
| BoundedLru.EvictsLeastRecent | internal/cache/bounded_lru.go:50-58 | an overflow drops exactly the least recently asked-for key |
| BoundedLru.Cache.constructor | internal/cache/bounded_lru.go:24-34 | a capacity below one becomes one |
| BoundedLru.Cache.GetOrAdd | internal/cache/bounded_lru.go:38-66 | map and list refine the recency list; the creator runs only on a miss and the dropped pair goes to the callback |
| BoundedLru.Cache.Get | internal/cache/bounded_lru.go:68-77 | a hit moves the key to the front |
| BoundedLru.Cache.Delete | internal/cache/bounded_lru.go:79-95 | removes the key from map and list and passes its value to the callback |
| BoundedLru.Cache.Len | internal/cache/bounded_lru.go:97-101 | the map counts what the list holds |
| YamlTree.YamlPath | internal/config/config_v8.go:159-168 | the descending loop finds exactly the value at the path |
| YamlTree.SetThenGet | internal/config/config_v8.go:170-193 | a value set at a path is read back there |
| YamlTree.SetElsewhere | internal/config/config_v8.go:170-193 | setting a path leaves what every unrelated path reads as it was |
| YamlTree.DeleteThenGet | internal/config/config_v8.go:222-239 | nothing is left at or below a deleted path |
| YamlTree.DeleteElsewhere | internal/config/config_v8.go:222-239 | deleting a path and its emptied parents leaves other paths alone |
| KeyGroups.ExpandV8Groups | internal/config/config_v8.go:393-467 | the nested loops expand groups to the flat key list or reject the document |
| KeyGroups.RoundTrip | internal/config/config_v8.go:393-467 | expanding the groups built from legacy entries is accepted exactly when every entry is groupable, and gives the same entries in order, cleaned (also lines 485-512) |
| KeyGroups.PoolOverridesByField | internal/config/config_v8.go:440-481 | a per-key connection pool overrides the group field by field and inherits the rest |
| ConfigLayout.FlattenV8 | internal/config/config_v8.go:301-382 | the passes over the working copy, the inverted flag and the shared blocks among them, compute the flattened document or refuse it |
| ConfigLayout.ResolveToggle | internal/config/config_v8.go:775-799 | the flag goes where the v8 field is present, and otherwise a migration writes its opposite unless the field has its legacy spelling |
| ConfigLayout.MoveShared | internal/config/config_v8.go:340-357 | a blank shared block moves, one with fields stays, and anything but a block is refused |
| ConfigLayout.CheckParents | internal/config/config_v8.go:301-330 | a document is refused when a parent of a v8 field is not a mapping, except a null routing block |
| ConfigLayout.NormalizeConfigLayout | internal/config/config_v8.go:516-597 | the passes compute the normalized document, or nothing for a refused one: the flag, blank blocks, the table, the families, unknown fields and the version |
| ConfigLayout.SelectBlocks | internal/config/config_v8.go:537-551 | blank struct blocks are picked for moving, null ones made mappings in place |
| ConfigLayout.CommentUnknown | internal/config/config_v8.go:669-770 | every field the v8 layout does not list below a listed section leaves the tree |
| ConfigToggle.FlattenMeaning | internal/config/config_v8.go:301-382 | a document is accepted exactly when it is a mapping whose parents, shared blocks, version, groups and inverted flag are in order; the runtime then reads the value of every field (v8 spelling, aliases in order, legacy field, opposite flag), every key list, and everything else as it stands (also lines 775-799) |
| ConfigMigration.TablesMeaning | internal/config/config_v8.go:319-382 | the same once the flag is resolved |
| ConfigToggle.ResolvedValue | internal/config/config_v8.go:775-799 | resolving the inverted flag keeps the value of every field |
| ConfigToggle.NormalizePreservesMeaning | internal/config/config_v8.go:301-382 | for an accepted document the normalized one is accepted exactly when every regrouped key list is groupable, and then the runtime reads the same at every table field and outside the tables; a migration keeps of the latter exactly what the v8 layout lists (also lines 516-597) |
| ConfigToggle.NormalizeKeepsFields | internal/config/config_v8.go:669-770 | normalizing keeps the value of every table field, whichever spelling or flag gives it; outside the tables everything is kept without migrating, and with it listed fields are kept and unknown ones dropped (also lines 516-597) |
| ConfigTheorems.RetainedMeans | internal/config/config_v8.go:669-770 | what a migration retains: listed fields whole, unknown ones not at all |
| ConfigToggle.NormalizeKeepsFamily | internal/config/config_v8.go:566-582 | a migrated key list is read back cleaned, an untouched one as it was |
| ConfigToggle.MigrationLeavesNoLegacy | internal/config/config_v8.go:516-597 | after migration no legacy field, alias, block, flag or key list is left and the version is 8 |
| ConfigToggle.MigrationLeavesNoUnknown | internal/config/config_v8.go:669-770 | nor is any field the v8 layout does not know (also lines 583-588) |
| ConfigToggle.MigrationIsFinal | internal/config/config_v8.go:516-597 | normalizing a migrated document again, either way, changes nothing |
| ConfigExample.MigrationCanBeRefused | internal/config/config_v8.go:485-597 | two documents that are accepted and whose migration the runtime refuses: a compatible provider with a null key list, and a null entry in a native list |
| ConfigExample.ExcerptIsSound | internal/config/config_v8.go:24-157 | an excerpt of the real tables, with every kind of entry, meets the side conditions of the theorems |
| BrowseBudgets.ReachableWithinBudgets | internal/discovery/browse_resolver.go:205-336 | every reachable cache meets all budgets at once: exact bytes within the limit, record count, 2 SRV, 2 TXT and the address limit per name, distinct instances, distinct serials (also lines 117-124) |
| BrowseBudgets.IngestKeepsBudgets | internal/discovery/browse_resolver.go:205-336 | one packet keeps every budget |
| BrowseFlush.FlushedExpireWithinASecond | internal/discovery/browse_resolver.go:238-252 | every other record of a flushed name and type, a second old and not in the packet, is gone or expires within one second (section 10.2 of RFC 6762) |
| BrowseFlush.AnnouncedSurvive | internal/discovery/browse_resolver.go:307-335 | members of the packet are never flush victims; a cached record it announces stays, renewed, unless a unique type overflows its quota (also lines 211-216, 238-252) |
| BrowseFlush.UnmentionedAreUntouched | internal/discovery/browse_resolver.go:205-336 | an unexpired record whose link, name and type the packet does not mention is exactly as before |
| BrowseFlush.OtherLinksAreUntouched | internal/discovery/browse_resolver.go:205-336 | no packet touches another link |
| BrowseFlush.UnannouncedOnlyLoseTime | internal/discovery/browse_resolver.go:238-265 | what the packet does not announce is never created and never gains time; a goodbye leaves it at most one second (section 10.1 of RFC 6762) |
| BrowseFlush.RoomIsMadeOldestFirst | internal/discovery/browse_resolver.go:218-234 | room is made from flush victims only, oldest first, and only while the new record does not fit (also lines 268-277) |
| BrowseFlush.UniqueDataReplacesOldest | internal/discovery/browse_resolver.go:312-331 | a new SRV or TXT record is not blocked by its own quota and displaces the oldest of its name and type |
| BrowseCache.ServiceNames | internal/discovery/browse_resolver.go:52-82 | the service names a cache is created with are never instances themselves (also lines 125-129) |
| Browser.Browser.constructor | internal/discovery/browse_resolver.go:52-82 | a new cache is empty and valid |
| Browser.Browser.Prune | internal/discovery/browse_resolver.go:117-124 | removes exactly the expired records and their bytes |
| Browser.Browser.EvictFlushed | internal/discovery/browse_resolver.go:218-234 | removes the matching flush victim with the lowest serial, if any |
| Browser.Browser.MakeRoomFor | internal/discovery/browse_resolver.go:268-277 | evicts flush victims until the record fits or none is left |
| Browser.Browser.MarkFlushed | internal/discovery/browse_resolver.go:238-252 | collects and clips exactly the flush victims of the packet |
| Browser.Browser.AdmitNew | internal/discovery/browse_resolver.go:267-331 | admits a new record exactly when budgets, instance limit and name quota allow, with exactly the evictions of the specification |
| Browser.Browser.Store | internal/discovery/browse_resolver.go:266-335 | renews a known record or stores an admitted one under the next serial |
| Browser.Browser.Ingest | internal/discovery/browse_resolver.go:205-336 | the whole packet loop computes the specified cache and keeps every budget |
| MuxRuns.ExactlyOnePlace | internal/api/mux_listener.go:30-133 | in every interleaving each connection handed out is at exactly one place: a router, the queue, an acceptor, the server, the Redis handler, or closed |
| MuxRuns.FinalPlacesStay | internal/api/mux_listener.go:89-133 | a returned, Redis or closed connection stays so and was handled once |
| MuxRuns.ClosedForGood | internal/api/mux_listener.go:107-133 | once a Close call has returned the queue is empty for good, no send is in flight and Accept returns nothing more |
| MuxRuns.NothingLost | internal/api/protocol_multiplexer.go:125-199 | when all threads have settled after Close, the returned, Redis and closed connections are together exactly those handed out |
| MuxRuns.CloseIsNeverStuck | internal/api/mux_listener.go:107-133 | while Close runs some step that helps it is enabled |
| MuxRuns.CloseEndsInTime | internal/api/mux_listener.go:107-133 | however threads interleave, a bounded number of helpful steps ends Close |
| MuxRuns.StepKeepsInv | internal/api/mux_listener.go:30-133 | every step keeps the in-flight count exact, the queue within capacity and the phases of Close in order |
| MuxListener.StepKeepsOwned | internal/api/mux_listener.go:30-133 | every step moves at most one connection, from its one place to one other |
| AcceptLoop.AcceptConnections | internal/api/protocol_multiplexer.go:77-122 | every accept outcome gets the right action, the n-th transient failure in a row waits 5 ms doubled n-1 times capped at 1 s, and the loop ends exactly at a final outcome |
| CompressionProofs.BytesAreConserved | internal/api/response_compression.go:253-317 | for every sequence of calls and every behaviour of the sinks, delivered bytes plus buffer are the accepted bytes in order; after a fault the delivered bytes are a prefix (also lines 378-414) |
| CompressionProofs.WriteKeepsInv | internal/api/response_compression.go:253-277 | Write reports at most what it was given, and all of it unless it fails |
| CompressionProofs.FaultsAreFinal | internal/api/response_compression.go:253-317 | after the first fault nothing is accepted or delivered and every write and flush returns that fault (also lines 378-414) |
| CompressionProofs.FinishDeliversAll | internal/api/response_compression.go:391-414 | finishing an unfailed run delivers every accepted byte unless the last drain fails |
| CompressionProofs.FlushDeliversAll | internal/api/response_compression.go:300-317 | a successful flush has delivered everything accepted and committed the headers |
| CompressionProofs.DecisionIgnoresChunking | internal/api/response_compression.go:319-357 | with only writes before finish, the encoder is used exactly when the headers allow it and the total reaches the minimum (or the body streams), for every chunking; a missing content type is the one sniffed from the first write (also lines 253-277) |
| CompressionProofs.SameBodySameDecision | internal/api/response_compression.go:319-357 | two chunkings of one body reach the same decision whenever their first writes lead to the same content type (also lines 253-277) |
| CompressionProofs.EmptyFirstWriteForgoesEncoding | internal/api/response_compression.go:319-357 | an empty first write before any content type is set decides against encoding, whatever follows (also lines 253-277) |
| CompressionProofs.DecisionStands | internal/api/response_compression.go:319-357 | a decision once made never changes |
| CompressionProofs.EncodingHeaderIsHonest | internal/api/response_compression.go:319-357 | an encoded body is announced with its encoding, without a length and with no raw bytes beside it; any other carries only an encoding the handler set, in every run (also lines 391-414) |
| CompressionWriter.ResponseWriter.Write | internal/api/response_compression.go:253-277 | the method on the mutable writer computes the specified write |
| CompressionWriter.ResponseWriter.WriteHeaderNow | internal/api/response_compression.go:284-291 | forces the decision, drains and commits the headers |
| CompressionWriter.ResponseWriter.FlushError | internal/api/response_compression.go:300-317 | forces the decision, drains, flushes encoder and transport, and records the first fault |
| CompressionWriter.ResponseWriter.Decide | internal/api/response_compression.go:319-357 | takes exactly the specified decision |
| CompressionWriter.ResponseWriter.Drain | internal/api/response_compression.go:378-389 | sends the held-back bytes once |
| CompressionWriter.ResponseWriter.Finish | internal/api/response_compression.go:391-414 | closes the encoder and makes later writes fail |
| CompressionWriter.ResponseWriter.WriteHeader | internal/api/response_compression.go:245-251 | the status can change only until anything is written |
| RespProofs.ArrayRoundTrip | internal/api/redis_queue_protocol.go:429-519 | reading a written array gives back the items and leaves exactly the following bytes within both limits, and the matching error beyond either (also lines 575-605) |
| RespProofs.FramesAreSelfDelimiting | internal/api/redis_queue_protocol.go:429-519 | two written arrays with the same bytes in front of any rests have the same items and the same rest (also lines 575-605) |
| RespProofs.SubscriptionRoundTrip | internal/api/redis_queue_protocol.go:429-519 | subscribe and unsubscribe answers read back as their three fields within the frame budget; beyond it the text fields and the count are refused with the error of their kind (also lines 623-647) |
| RespProofs.AcceptedArraysAreBounded | internal/api/redis_queue_protocol.go:505-517 | every accepted command has at most 1024 arguments of at most 64 KiB together, whatever bytes arrive (also lines 446-455, 474-481) |
| RespProofs.AcceptedArraysAreLocal | internal/api/redis_queue_protocol.go:429-549 | an accepted command does not depend on later bytes, leaves them unread, and reading it makes progress |
| RespProofs.LineRoundTrip | internal/api/redis_queue_protocol.go:521-559 | a printed line reads back exactly when it holds no line feed and is not too long |
| RespProofs.ItoaParses | internal/api/redis_queue_protocol.go:575-621 | a printed 64-bit number parses back |
| RespProofs.BulkRoundTrip | internal/api/redis_queue_protocol.go:490-519 | a bulk frame reads back as its payload, whatever bytes it holds, within the budget; nil reads as empty (also lines 575-590) |
| RespStream.ReadLine | internal/api/redis_queue_protocol.go:521-549 | the fragment loop gives the same result as reading the whole line, for every buffer size |
| RespStream.ReadBulkString | internal/api/redis_queue_protocol.go:490-519 | consumes exactly the specified bytes and budget |
| RespStream.ReadString | internal/api/redis_queue_protocol.go:461-484 | consumes exactly the specified bytes and budget |
| RespStream.ReadArray | internal/api/redis_queue_protocol.go:429-455 | consumes exactly the specified command |
| RespStream.WriteArrayOfBulkStrings | internal/api/redis_queue_protocol.go:592-605 | writes the array frame up to the byte where the connection fails, stops there for good, and reports success exactly when all of it was taken; no writer is an error |
| RespStream.WriteBulkString | internal/api/redis_queue_protocol.go:575-590 | writes the bulk frame up to the byte where the connection fails, stops there for good, and reports success exactly when all of it was taken; no writer is an error |
| RespStream.WriteSimpleString | internal/api/redis_queue_protocol.go:551-557 | writes the line frame up to the byte where the connection fails, stops there for good, and reports success exactly when all of it was taken; no writer is an error |
| RespStream.WriteSubscription | internal/api/redis_queue_protocol.go:623-647 | writes the three-part frame up to the byte where the connection fails, stops there for good, and reports success exactly when all of it was taken; no writer is an error |
| RespStream.WriteMessage | internal/api/redis_queue_protocol.go:649-660 | writes the array frame of the three fields up to the byte where the connection fails, stops there for good, and reports success exactly when all of it was taken; no writer is an error |
| RespStream.WritePong | internal/api/redis_queue_protocol.go:662-670 | writes the array frame of the two fields up to the byte where the connection fails, stops there for good, and reports success exactly when all of it was taken; no writer is an error |

## Left out

- Integer widths of counters: revisions, epochs, serials and byte totals are unbounded; the originals are 64-bit and do not wrap in any real run.
- JSON normalization, signatures, hashing, UUID generation and key-string building: opaque values, flags or fresh parameters; an empty key stands for a missing model or session.
- The choice between process-local and shared mode: each mode is modelled on its own, a change of mode during a request is not.
- Shared Antigravity values without a generation marker: they can be read and replaced in the model but are outside the branch and freshness theorems.
- AntigravityReplay.NormalizeYieldsStorable: takes the normal form of one item as given; that normalizing one item twice is normalizing it once is part of the Item type, not proved of the JSON code.
- AntigravityHome.StorableFits: bounds the serialized size by a formula for the JSON encoding, not by the encoder itself.
- Locks: every operation of a mutex-protected cache is one step; the LRU eviction callback is a log entry in the order of the operations.
- The process-local Codex cache holds single operations, not histories: its requests hold no snapshots. The shared mode of the Claude cache, one compare-and-swap on the pattern of the other two, is not modelled.
- YAML comments, key order, styles, anchors and merge keys, scalar spelling: a document is a tree of mappings with unique keys. The comments that keep the text of dropped unknown fields are absent with them; expandConfigAliases and restoreV8Layout are not part of this model.
- In-place mutation of YAML nodes: trees are values that the passes replace; aliasing between nodes is not captured.
- Field names that contain a dot. How the path tables are built from the configuration structs: they are parameters whose side conditions are proved of an excerpt.
- ConfigExample.ExcerptIsSound: covers five of about 150 fields, two of eight key families and four blocks, at least one of each kind.
- The changed flag, parse errors and the empty document of NormalizeConfigLayout; the decoding of the flattened document into the configuration structs and its checks, such as setting the private-address flag and its opposite at once.
- A legacy key family whose value is a mapping rather than a list: read as an empty list when it is regrouped.
- mDNS message parsing, source address checks, host and TXT syntax, escaped labels, query scheduling and result assembly: flags of a record or of a packet, or absent.
- TLS handshakes, sniffing deadlines and the panic handler of the router: one step that closes the connection.
- The encoders: ideal sinks of plaintext; their compressed output, the Vary header, encoding negotiation and the panic path of the middleware are absent. White space and case of media types are ASCII.
- Buffering under the Redis writers: a connection takes bytes in order until it fails for good; where the reader stands after a failed read.
- Everything else: HTTP routes, management handlers, the other replay caches, cluster rebalance, validators; they repeat simpler parts of what is here or are glue around libraries.
