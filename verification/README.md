# KVRPC in Dafny

KVRPC is a C++ key-value cache with a write-ahead log, and an RPC transport with multiplexing
clients and a pipelining server. This project models its state machines and proves what they keep.
`dafny verify dfyconfig.toml` checks everything.

**Storage engine.** A batch of requests is parsed; its mutations are appended to a checksummed log
and synced; the batch is applied in order to a sharded, byte-budgeted LRU cache with expiry; only
then are replies returned. The log is compacted by writing a snapshot to a temporary file, syncing
it, renaming it over the log and syncing the directory. Startup replays the log into an empty cache.

- `Crc32`, `KvProtocol`, `CacheValue`, `AofCodec`: the bytes. The table-driven checksum is the
  bit-serial one and detects every change within four consecutive bytes; a log reads back exactly,
  and any byte prefix of it yields exactly its whole records.
- `Formats`: the same formats byte by byte, with the checksum's standard value for one letter.
- `Lru`, `Sharded`: the cache, as classes refined to lists of entries. `Recency`: the list is in order
  of last use after any calls, so what a store evicts is least recently used.
- `Semantics`, `LogOps`: what a list of operations means, and how live cache, log and history relate
  although evictions and reads are not logged.
- `Durability`: every system call is one step and the process may die between any two. Crash
  safety is `CrashSafety`; what a running service shows is `LiveReads`. `Evictions`: what counts as an
  eviction, the only excuse for a missing value.
- `Recovery`: while no TTL lapses, a restart rebuilds the cache exactly, order included, after a first
  start, a rewrite or a restart followed by any quiet run (`RestartInvisible`); records that lapsed
  before do not matter. Exactly which reads end this is `ReadKeepsMirror`, with a run in
  `HitIsNotReplayed`; a rewrite repairs it (`RewriteRestores`).
- `Aof`, `Service`, `CacheService`: the logger and the service as classes, amortised compaction, and
  group commit against one-at-a-time handling (`GroupCommit`).
- `Requests`: what the bytes of each command ask for and what its answer tells the client. `Answers`:
  over the whole life of the service, an answered read carries the value of the key's last operation
  (`AnswersShowHistory`), until its expiry (`ShownUntilExpiry`).
- `Refinement`: what `HandleBatch` ensures is a run of the step system of `Durability`, for every
  outcome (`HandleBatchRefines`), and so crash safety holds of the bytes on the class's disk
  (`CrashDuringBatch`).
- `Batches`, `Lifetime`: group commit of the class (`GroupCommitted`), and its durability over any
  number of batches, crashes and restarts (`NothingAcknowledgedIsLost`).

**Transport.**

- `Buffer`, `RpcProtocol`, `Framing`: cutting a byte stream into frames does not depend on how it
  was cut into pieces.
- `Multiplex`, `MultiplexSteps`, `Streams`, `StreamSteps`, `TransportSteps`, `Responses`,
  `TransportTheorems`, `AsyncTransport`: the client. `Streams.Inv` is the invariant of the whole
  transport; the class keeps it through every callback, and `Run` through every run. The mutually
  recursive `Finish` and `Disconnect` terminate on the number of registered requests. With peers that
  answer only what they received, once, with well-formed frames, no reply reaches the wrong caller.
  The bytes on a connection are the submitted bytes of the requests given to it, one after the other.
  `Attended` says no connection is forgotten by the edge-triggered loop.
- `EventLoop`: timers, posted tasks and callbacks that use the loop while it runs.
- `WorkQueue`, `ServerPeer`: the server's job queue under any interleaving of its threads, and one
  connection with its limits, backpressure and half-close, each job answered once.

**Conventions.** A byte is an integer from 0 to 255; checksums are 32-bit vectors; other sizes and
counters are unbounded integers whose limits and lack of underflow are stated. A locked region or a
loop callback is one step. Clocks, kernel results, worker scheduling and application callbacks are
parameters or arbitrary choices, so every statement holds for all of them. Exceptions become result
values. The hash function is a parameter, and `sizeof(Entry)` is the constant 80.

**Assumptions.** The wall clock does not run backwards, and recovery uses the configuration of the
run that wrote the log. A crash keeps the synced bytes of a file and any prefix of the bytes written
after them; until the directory is synced either file may be found under the log's name. Request
identifiers are not reused, and `Submit` does not race with destruction (docs/OPERATIONS.md:26).
Changing a descriptor's registered events makes the kernel check its readiness again.

**Where a property fails.** Reads are not logged, so a read that moves its entry to the front or
erases an expired one leaves a log that no longer rebuilds the cache; `ReadKeepsMirror` shows that
these are exactly the reads that do. A rewrite brings log and cache together again exactly when no
cached entry has lapsed (`RewriteRestores`), since such entries stay in the cache until they are read.
Compaction can enlarge a log that holds records of the old
format, which are 12 bytes shorter (`LegacyLogGrows`); the bound is in `CompactionBound`. A server
with an output limit of one byte, which the configuration permits for one-byte frames, never reads
from a connection; `FreshIsAwake` shows that this is the only such limit. A server with a frame
limit below the header size, which the configuration also permits, fills its buffer and from then on
reads nothing, whatever happens (`Run`); `HeaderMustFit` shows that these are the only such limits. The RPC
length field keeps 32 bits, so a frame announces its own length exactly for payloads under 4 GiB
(`RpcFrameWellFramed`).

## Model

| member | source | states |
|---|---|---|
| `Crc32.TableEntry` | KVCache/src/aof.cpp:55-59 | the inner loop computes eight polynomial shifts of the index |
| `Crc32.BuildTable` | KVCache/src/aof.cpp:53-61 | every table entry is eight polynomial shifts of its index |
| `Crc32.TableStep` | KVCache/src/aof.cpp:63 | one table lookup equals eight single-bit steps on the register |
| `Crc32.TableCrc` | KVCache/src/aof.cpp:52-65 | the table loop returns the bit-at-a-time CRC-32 of section 8 of RFC 1952 for every input |
| `Crc32.CrcIsReference` | KVCache/src/aof.cpp:52-65 | the byte-wise form equals the bit-serial reference for every input |
| `Crc32.BurstDetected` | KVCache/src/aof.cpp:52-65 | two payloads of equal length that differ only within four consecutive bytes have different checksums |
| `Crc32.BurstChangesCode` | KVCache/src/aof.cpp:205 | the stored 32-bit code differs as well, so the comparison at replay fails |
| `Formats.CheckValue` | KVCache/src/aof.cpp:52-65 | the checksum of the letter a is the published 0xE8B7BE43, that of nothing is 0 |
| `KvProtocol.Encode` | include/kvrpc/kv_protocol.h:35-53 | refused exactly beyond the limits; a reader of the result finds the command and both lengths in the header, then key and value |
| `KvProtocol.EncodeMessage` | include/kvrpc/kv_protocol.h:35-53 | the buffer filled field by field is the specified message, refused exactly beyond the limits |
| `KvProtocol.FrameRoundTrip` | include/kvrpc/kv_protocol.h:35-66 | the header of an encoded frame decodes to its command and lengths, is valid, and delimits key and value whatever follows |
| `KvProtocol.FrameUnique` | include/kvrpc/kv_protocol.h:30-66 | bytes with a valid header whose lengths add up are the encoding of exactly that command, key and value |
| `KvProtocol.DecodeHeaderLocal` | include/kvrpc/kv_protocol.h:55-66 | a decoded header depends on the first twelve bytes only |
| `Formats.FrameLayout` | include/kvrpc/kv_protocol.h:11-53 | a frame is 0xCAFE, version 1, the command number, both lengths in network order, key and value; refused exactly beyond 64 KiB of key or 1 MiB and 64 bytes of value |
| `Formats.HeaderAccepted` | include/kvrpc/kv_protocol.h:55-66 | a reader accepts exactly the headers with these constants, a command from 1 to 6 and lengths within the limits |
| `CacheValueCodec.SerializeRoundTrip` | proto/rpc.proto:22-27 | parsing a serialised value gives the same found flag, value, expiry and lifetime |
| `CacheValueCodec.SerializeMinimal` | proto/rpc.proto:22-27 | the canonical form of any parsable input is no longer than the input |
| `CacheValueCodec.ParseWellFormed` | proto/rpc.proto:22-27 | parsed 64-bit fields are in range |
| `CacheValueCodec.StampedSmallest` | KVCache/include/cache_service.h:136-148 | the form a rewrite stores is no longer than any record that parses to the same value and expiry |
| `CacheValueCodec.StampedFits` | KVCache/include/cache_service.h:63-73 | stamping an expiry adds at most 15 bytes, so it stays within the wire limit |
| `Formats.VarintLayout` | proto/rpc.proto:22-27 | a number is seven bits to a byte, least significant first, the top bit on all bytes but the last |
| `Formats.ValueLayout` | proto/rpc.proto:22-27 | a serialised value is its fields in order with tags 8, 18, 24 and 32, empty ones left out |
| `AofCodec.Encode` | KVCache/src/aof.cpp:66-78 | encoding succeeds exactly for storable mutations, with a 12-byte record header |
| `AofCodec.ReadOwn` | KVCache/src/aof.cpp:189-226 | a record at the front of any bytes is read back as itself, in either format |
| `AofCodec.ReadCut` | KVCache/src/aof.cpp:189-223 | every proper prefix of a record is rejected |
| `AofCodec.ReadOnlyOwn` | KVCache/src/aof.cpp:189-223 | whatever is read successfully is the encoding of the mutation delivered |
| `AofCodec.Replay` | KVCache/src/aof.cpp:184-228 | the loop delivers exactly the records of the recursive reader, and fails exactly when it does |
| `AofCodec.ScanSplit` | KVCache/src/aof.cpp:184-228 | replaying records followed by any bytes delivers the records, then whatever the bytes give |
| `AofCodec.ScanRoundTrip` | KVCache/src/aof.cpp:184-228 | replaying any mix of v2 and legacy records delivers exactly those records in order |
| `AofCodec.ScanOnlyLogs` | KVCache/src/aof.cpp:184-228 | a file that replays without error is the encoding of the records delivered |
| `AofCodec.ScanPrefix` | KVCache/src/aof.cpp:184-228 | a byte prefix delivers exactly its whole records and succeeds exactly when cut on a record boundary |
| `AofCodec.AcceptedPrefix` | KVCache/src/aof.cpp:184-228 | an accepted prefix is the encoding of the records it delivers |
| `AofCodec.CorruptionRejected` | KVCache/src/aof.cpp:195-205 | a v2 record with any change within four consecutive payload bytes stops replay at that record |
| `Formats.RecordLayout` | KVCache/src/aof.cpp:66-78 | a record is AOF2, the length of the payload, its checksum, and the payload, which is a KV frame; refused exactly for other commands, deletions with a value, or beyond the limits |
| `Lru.TrimIsLongestPrefix` | KVCache/include/lru_cache.h:57-60 | eviction keeps the longest prefix that fits both budgets |
| `Lru.StoreKeepsLongestPrefix` | KVCache/include/lru_cache.h:34-61 | a store leaves the longest fitting prefix of the new entry followed by the others; the new key survives |
| `Lru.StoreSound` | KVCache/include/lru_cache.h:34-61 | a store keeps keys distinct, costs exact and both budgets |
| `Lru.TouchSound` | KVCache/include/lru_cache.h:62-76 | a read keeps keys distinct, costs exact and both budgets |
| `Lru.RemoveSound` | KVCache/include/lru_cache.h:87-93 | a removal keeps keys distinct, costs exact and both budgets |
| `Lru.LruCache.constructor` | KVCache/include/lru_cache.h:28-30 | a new cache is empty |
| `Lru.LruCache.Put` | KVCache/include/lru_cache.h:34-61 | list, index and byte counter agree; contents are the specified store; refused exactly when the entry exceeds the budget; evictions counted |
| `Lru.LruCache.Insert` | KVCache/include/lru_cache.h:43-56 | the new entry is in front, an older one of the same key is gone, index and counter follow |
| `Lru.LruCache.EvictLast` | KVCache/include/lru_cache.h:58-59 | exactly the last entry leaves |
| `Lru.LruCache.Evict` | KVCache/include/lru_cache.h:57-60 | the loop ends with the longest fitting prefix and counts what left |
| `Lru.LruCache.Get` | KVCache/include/lru_cache.h:62-76 | an unexpired entry is returned and moved to the front, an expired one is erased; hits and misses counted; EntryLifetime says what is returned and when, ListedByUse what the order means |
| `Lru.LruCache.Splice` | KVCache/include/lru_cache.h:74 | the entry moves to the front, index and counter unchanged |
| `Lru.LruCache.Exists` | KVCache/include/lru_cache.h:77-86 | true exactly for an unexpired entry, which keeps its place; an expired one is erased |
| `Lru.LruCache.Remove` | KVCache/include/lru_cache.h:87-93 | the key is gone and the result says whether it was there |
| `Lru.LruCache.Erase` | KVCache/include/lru_cache.h:122-126 | one entry leaves list, index and byte counter together |
| `Lru.LruCache.TakeSnapshot` | KVCache/include/lru_cache.h:103-109 | the unexpired entries, oldest first |
| `Lru.LruCache.IsSound` | KVCache/include/lru_cache.h:127-131 | a valid cache has distinct keys, exact costs and both budgets kept |
| `Recency.ListedByUse` | KVCache/include/lru_cache.h:34-93 | after any sequence of stores, reads and removals the list is in order of last use, within both budgets |
| `Recency.EvictsLeastRecent` | KVCache/include/lru_cache.h:57-60 | what a store evicts was used before everything that stays, and with the next victim the budgets would not hold |
| `Recency.EntryLifetime` | KVCache/include/lru_cache.h:34-76 | a store at one time is read back at another exactly if it has no expiry or both times are before it |
| `Sharded.SharesSum` | KVCache/include/sharded_cache.h:20-24 | the shares of a budget add up to the budget exactly |
| `Sharded.BudgetsPositive` | KVCache/include/sharded_cache.h:16-25 | every shard gets at least one entry and one byte when the totals allow it |
| `Sharded.AggregateLimits` | KVCache/include/sharded_cache.h:16-25 | shards within their shares keep the aggregate entry and byte limits |
| `Sharded.ShareBalanced` | KVCache/include/sharded_cache.h:20-24 | shares differ by at most one, the larger ones first |
| `Sharded.AcceptedExactly` | KVCache/include/sharded_cache.h:16-25 | there are as many shards as asked for, or one per entry if fewer; a configuration is accepted exactly when there is a shard and each has room for an entry and a byte |
| `Sharded.TotalsPooled` | KVCache/include/sharded_cache.h:46-70 | the totals count every entry of every shard, and its size, once |
| `Sharded.HomeIsResidue` | KVCache/include/sharded_cache.h:81-84 | a key lives in the shard its hash leaves over when the number of shards divides it |
| `Sharded.PutSound` | KVCache/include/sharded_cache.h:30-32 | a store keeps every shard sound and every entry in its home shard |
| `Sharded.GetSound` | KVCache/include/sharded_cache.h:34-36 | a read keeps every shard sound and every entry in its home shard |
| `Sharded.RemoveSoundAll` | KVCache/include/sharded_cache.h:38-40 | a removal keeps every shard sound and every entry in its home shard |
| `Sharded.ShardedCache.constructor` | KVCache/include/sharded_cache.h:16-25 | shards have their shares of both budgets and are empty |
| `Sharded.ShardedCache.Put` | KVCache/include/sharded_cache.h:30-32 | only the home shard changes, by the specified store; refused exactly when the entry does not fit there |
| `Sharded.ShardedCache.Get` | KVCache/include/sharded_cache.h:34-36 | the home shard's answer; the other shards are untouched |
| `Sharded.ShardedCache.Remove` | KVCache/include/sharded_cache.h:38-40 | the key leaves its home shard and the result says whether it was there; the other shards are untouched |
| `Sharded.ShardedCache.Size` | KVCache/include/sharded_cache.h:46-52 | the sum of the shard sizes |
| `Sharded.ShardedCache.GetStats` | KVCache/include/sharded_cache.h:60-70 | hits, misses, bytes and evictions are the sums over the shards; the bytes are the cost of the contents |
| `Sharded.ShardedCache.TallyNext` | KVCache/include/sharded_cache.h:60-70 | hits, misses and evictions add up, each to its own counter |
| `Sharded.ShardedCache.TakeSnapshot` | KVCache/include/sharded_cache.h:72-79 | the shard snapshots, shard by shard |
| `Semantics.FoldIsLast` | KVCache/include/cache_service.h:16-26 | a list of operations gives each key the value and expiry of its last operation |
| `Semantics.ApplyAt` | KVCache/include/cache_service.h:92-95 | what applying one operation does to every key, with eviction and expiry |
| `Semantics.ApplyAllBetween` | KVCache/include/cache_service.h:88-95 | after any operations at any times, unexpired cache contents lie within the fold and cover it except for evicted keys |
| `Semantics.ReadBetween` | KVCache/include/cache_service.h:96-99 | a read keeps both inclusions |
| `LogOps.CanonicalSmallest` | KVCache/include/cache_service.h:136-148 | the record a rewrite stores for an operation is no longer than any record that decodes to it |
| `LogOps.RecordMeaning` | KVCache/include/cache_service.h:16-26 | a SET record stores for good, a DEL record erases, a SET_TTL record stores until the expiry in its value and is refused without one or without a value that parses |
| `LogOps.SnapshotFold` | KVCache/include/cache_service.h:136-148 | the snapshot folds to exactly the unexpired entries |
| `LogOps.SnapshotMirrors` | KVCache/include/cache_service.h:136-148 | the snapshot agrees with the history on every live key except evicted ones |
| `LogOps.EntriesInject` | KVCache/include/cache_service.h:136-148 | entries whose operations are the last of their keys in a log need no more bytes than the log, plus 12 per legacy record |
| `LogOps.CompactionBound` | KVCache/src/aof.cpp:151-155 | a snapshot is no larger than the v2 log it replaces; with legacy records it grows by at most 12 bytes each |
| `LogOps.LegacyLogGrows` | KVCache/src/aof.cpp:206-216 | a log of one legacy record is enlarged by compaction, for every key and value |
| `Durability.RecoverFile` | KVCache/src/aof.cpp:184-228 | what a crash leaves of a file is accepted exactly on a record boundary, and holds at least the durable records |
| `Durability.StepKeeps` | KVCache/include/cache_service.h:85-148 | every step, crash and restart included, keeps the relation of history, log, temporary file and cache |
| `Durability.RunKeeps` | KVCache/include/cache_service.h:85-148 | the relation holds in every state of every run |
| `Durability.CrashSafety` | KVCache/src/aof.cpp:130-183 | at every crash point of every run, bytes are accepted exactly on a record boundary and then stand for a history prefix with every acknowledged operation; each key shows its last operation there, missing only if evicted and not stored since |
| `Durability.LiveReads` | KVCache/include/cache_service.h:88-118 | a read shows the value of the key's last applied operation, exactly until its expiry, and misses a live key only if it was evicted and not stored since |
| `Evictions.EvictedExactly` | KVCache/include/lru_cache.h:57-60 | an operation evicts exactly the other keys that were cached before it and are not after it |
| `Evictions.GoneIsAbsent` | KVCache/include/cache_service.h:85-148 | in every state of every run a key on record as evicted is not in the cache |
| `Durability.RewriteFits` | KVCache/src/aof.cpp:151-155 | in every reachable idle state the snapshot of a v2 log fits the log's size |
| `Durability.BoundStays` | KVCache/src/aof.cpp:124-155 | a v2 log stays v2 and within its limit through appends, rewrites, crashes and restarts |
| `Recovery.SnapshotRebuilds` | KVCache/include/lru_cache.h:102-109 | replaying a snapshot rebuilds every shard with the same entries in the same order |
| `Recovery.ReadDisturbs` | KVCache/include/lru_cache.h:62-76 | a read leaves the cache unchanged if and only if the key is absent or already first and unexpired |
| `Recovery.ReadKeepsMirror` | KVCache/include/lru_cache.h:62-76 | in every reachable state whose log rebuilds the cache, the log still does so after a read if and only if the read left the cache unchanged |
| `Recovery.RewriteRestores` | KVCache/include/cache_service.h:136-148 | from any reachable idle state, whatever was read before, a rewrite with any clock readings and partial writes leaves the cache alone and ends with a log that rebuilds it if and only if nothing cached has lapsed |
| `Recovery.RestartMirrored` | KVCache/include/cache_service.h:13-28 | a restart from any file a crash may leave yields a state whose log rebuilds the cache, while no TTL lapses that had not lapsed before |
| `Recovery.RenewalMirrors` | KVCache/include/cache_service.h:13-28 | a first start, a rewrite and a restart each end in such a state |
| `Recovery.QuietStep` | KVCache/include/cache_service.h:85-148 | every step that does not disturb the order, rewrites included, keeps the log able to rebuild the cache, while no TTL lapses that had not lapsed before |
| `Recovery.RestartInvisible` | KVCache/include/cache_service.h:13-28 | after a first start, rewrite or restart and then any run without failures or disturbing reads in which no TTL lapses, a restart rebuilds the live cache: entries, byte totals and order in each shard |
| `Recovery.HitIsNotReplayed` | KVCache/include/lru_cache.h:73-75 | with two entries of room, a hit followed by a store makes live and replayed cache differ |
| `Aof.AmortisedRewrites` | KVCache/src/aof.cpp:124-129 | growth-triggered rewrites times (max/4 + 1), plus the growth since the last, are paid for by initial size and appended bytes |
| `Aof.AmortisedFromOpen` | KVCache/src/aof.cpp:124-129 | from opening on, rewrites times (max/4 + 1) are at most initial size plus appended bytes; bytes rewritten at most four times that |
| `Aof.SmallLogsStay` | KVCache/src/aof.cpp:124-129 | a log that never held more than half of the limit is never rewritten for its growth |
| `Aof.AofLogger.Amortised` | KVCache/src/aof.cpp:124-129 | for the logger's own appends and rewrites since opening: growth rewrites times (max/4 + 1) are at most initial size plus appended bytes, and the bytes they wrote at most four times that |
| `Aof.AofLogger.constructor` | KVCache/src/aof.cpp:85-104 | the counters start at the file size, not started, not failed |
| `Aof.AofLogger.Size` | KVCache/src/aof.cpp:79-83 | the loop sums the encoded sizes |
| `Aof.AofLogger.NeedsRewrite` | KVCache/src/aof.cpp:124-129 | due exactly for a nonempty batch that does not fit, or when the log is over half the limit and has grown by more than a quarter of it since the last rewrite |
| `Aof.AofLogger.WriteExact` | KVCache/src/aof.cpp:24-32 | the file grows by a prefix of the data, all of it on success, in any number of writes |
| `Aof.AofLogger.WriteAll` | KVCache/src/aof.cpp:137 | the records are appended in order; every intermediate file is the old one plus a prefix |
| `Aof.AofLogger.LogBatch` | KVCache/src/aof.cpp:130-150 | all or nothing: on success the batch is appended and synced; refused for size exactly when it does not fit; refusals write nothing; other failures stop the logger |
| `Aof.AofLogger.TemporaryFile` | KVCache/src/aof.cpp:163 | the temporary file holds the encoded snapshot |
| `Aof.AofLogger.Replace` | KVCache/src/aof.cpp:151-183 | on success the log is the synced snapshot and the counters restart; refusals and failures before the rename change nothing; after it failures stop the logger |
| `Service.LoggedIsApplied` | KVCache/include/cache_service.h:47-84 | a parsed request's logged mutation can be encoded, decodes to the operation applied, and cannot exceed its shard; what the request is, is stated by CommandMeaning and TtlMeaning |
| `Service.BatchLogged` | KVCache/include/cache_service.h:47-84 | the mutations logged for a batch are exactly the operations applied, in order |
| `Service.ExecuteAppend` | KVCache/include/cache_service.h:88-118 | executing two lists in turn is executing their concatenation |
| `Service.ExecutionIsSteps` | KVCache/include/cache_service.h:85-126 | the apply loop, run to its end or to the first reply that cannot be built, is a run of the step system and ends in the same cache |
| `Requests.CommandMeaning` | KVCache/include/cache_service.h:47-84 | a SET, DEL, GET, LOOKUP or STATS frame is read as its command, key and value whatever follows, with what is logged; refused exactly when a store is too large, another command carries a value, or STATS anything |
| `Requests.TtlMeaning` | KVCache/include/cache_service.h:63-73 | a SET_TTL frame expires its lifetime after it was parsed; the log gets the expiry in place of the lifetime; refused exactly for a lifetime of zero or over ten years or an entry that is too large |
| `Requests.PartOfFrame` | KVCache/include/cache_service.h:50-58 | an incomplete frame is waited for, unless its header already shows a forbidden body |
| `Requests.OnlyFrames` | KVCache/include/cache_service.h:50-63 | whatever is accepted starts with the encoding of that command, key and an admissible value; an invalid header is refused |
| `Requests.AnswerMeaning` | KVCache/include/cache_service.h:88-118 | incomplete input consumes nothing and keeps the connection, a refused request closes it; any other consumes its own frame and the answer has its command and key and the value the key has: GET plain, LOOKUP with a found flag, STATS the text, stores and DEL nothing |
| `Requests.AlwaysAnswered` | KVCache/include/cache_service.h:88-118 | an accepted request gets an answer whenever the value it asks for is no larger than a client may store |
| `Requests.EffectMeaning` | KVCache/include/cache_service.h:92-99 | stores and DEL apply their operation, GET and LOOKUP read their key, STATS changes nothing |
| `Answers.ReplyAt` | KVCache/include/cache_service.h:88-118 | reply i of a batch is what request i gets in the cache the requests before it leave |
| `Answers.ReadAnswered` | KVCache/include/cache_service.h:36-118 | what HandleBatch answers to a read is the value of the last operation on its key before it, those earlier in the batch included; a miss means there is none, it has expired, or it was evicted |
| `Answers.TtlStores` | KVCache/include/cache_service.h:63-73 | a SET_TTL frame parsed at a time stores its value until that time plus its lifetime |
| `Answers.SetStores` | KVCache/include/cache_service.h:75-79 | a SET frame stores its value for good and a DEL frame erases its key |
| `Answers.ShownUntilExpiry` | KVCache/include/lru_cache.h:62-76 | a value stored with a lifetime is shown exactly until it ends, one stored without always, unless overwritten or evicted |
| `CacheServices.GroupCommit` | KVCache/include/cache_service.h:36-126 | unless rejected for capacity, a batch stops exactly when one-at-a-time handling does, with the same cache, or gives the same replies and cache, and the same log when neither compacts |
| `CacheServices.CacheService.Perform` | KVCache/include/cache_service.h:90-115 | one request changes the cache as specified and returns its response, whose meaning is AnswerMeaning and EffectMeaning |
| `CacheServices.CacheService.Answer` | KVCache/include/cache_service.h:88-118 | one request is skipped, answered or fails as specified |
| `CacheServices.CacheService.AnswerAll` | KVCache/include/cache_service.h:88-118 | the loop answers all requests in order, or stops at the first failure |
| `CacheServices.CacheService.AnswerStored` | KVCache/include/cache_service.h:88-126 | a stored batch is applied and answered, or the service stops where a reply cannot be built |
| `CacheServices.CacheService.ParseInputs` | KVCache/include/cache_service.h:47-84 | the loop parses every input and collects the mutations in order; what each input means is CommandMeaning, TtlMeaning, PartOfFrame and OnlyFrames |
| `CacheServices.CacheService.Persist` | KVCache/include/cache_service.h:86-87 | on success the batch is synced behind the log, or behind the snapshot exactly if a rewrite was due; it is refused only if a rewrite was due and snapshot and batch exceed the limit, which leaves the log or the synced snapshot; every file on the way is one a crash may find; the cache is untouched |
| `CacheServices.CacheService.Prepare` | KVCache/include/cache_service.h:86 | the log is compacted exactly if due; refused only if the snapshot alone exceeds the limit, which changes nothing |
| `CacheServices.CacheService.CompactLocked` | KVCache/include/cache_service.h:136-148 | on success the log is the synced snapshot; refused exactly if the snapshot exceeds the limit; refusals and failures before publication change nothing |
| `CacheServices.CacheService.HandleBatch` | KVCache/include/cache_service.h:36-126 | the cache changes and replies are given only after the batch is in the log and synced, and a reply carries what ReadAnswered says; it is rejected only if a rewrite was due and snapshot and batch do not fit, which leaves the cache, and the log or its synced snapshot; other failures stop the service with a log that is the old one, the snapshot, or either with part of the batch |
| `CacheServices.LoadOne` | KVCache/include/cache_service.h:16-26 | one record is applied, or refused exactly when it does not decode or fit |
| `CacheServices.Load` | KVCache/include/cache_service.h:16-26 | all records are applied in order, or startup fails |
| `CacheServices.Open` | KVCache/include/cache_service.h:13-28 | the service starts exactly when the file fits and every record is good, with the cache replay gives |
| `Refinement.RewriteAccepted` | KVCache/src/aof.cpp:151-155 | compacting a log without legacy records is never refused: the snapshot can be encoded and is no longer than the log |
| `Refinement.StoringSteps` | KVCache/src/aof.cpp:130-183 | every file on disk while a batch is stored, partial writes and compaction included, is reached by a run of the step system |
| `Refinement.HandleBatchRefines` | KVCache/include/cache_service.h:36-126 | whatever outcome HandleBatch has, its disk and cache are those after a run of the step system: all operations in the history and acknowledged, none after a rejection, a prefix after a failure; after a failed directory sync the old log may still be found |
| `Refinement.OpenStarts` | KVCache/include/cache_service.h:13-28 | what Open builds from any file it accepts, however much of it is synced, is an initial state of the step system |
| `Refinement.OpenRestarts` | KVCache/include/cache_service.h:13-28 | what Open builds from the bytes a crash leaves is the state after a restart, with every acknowledged operation in its history |
| `Refinement.CrashDuringBatch` | KVCache/src/aof.cpp:130-183 | whatever bytes a crash leaves while a batch is stored, startup accepts them exactly on a record boundary, and then they hold every acknowledged operation and agree key by key with a prefix of the history |
| `Batches.HandledIsBatch` | KVCache/include/cache_service.h:36-126 | what HandleBatch answers or rejects is what the batch function answers or rejects, with the same log, counters and cache |
| `Batches.GroupCommitted` | KVCache/include/cache_service.h:36-126 | a service that answers a batch and one that answers its requests one at a time give the same replies and cache, and the same log when neither compacts |
| `Lifetime.MomentSteps` | KVCache/include/cache_service.h:13-126 | a batch, or a crash in it with a restart from the bytes left, keeps every acknowledged operation in the history and ends in a state of the step system |
| `Lifetime.NothingAcknowledgedIsLost` | KVCache/include/cache_service.h:13-126 | through any batches, crashes and restarts the operations of an answered batch stay in the history; reads show the last operation of their key and miss a live key only if it was evicted |
| `Answers.AnswersShowHistory` | KVCache/include/cache_service.h:13-126 | through any batches, crashes and restarts an answered read carries the value of the last operation on its key in the history and the part of its batch before it |
| `Buffers.Buffer.Size` | include/kvrpc/buffer.h:8 | the number of unread bytes |
| `Buffers.Buffer.Append` | include/kvrpc/buffer.h:10-16 | the queue grows at its end; at most half of the storage is dead |
| `Buffers.Buffer.Consume` | include/kvrpc/buffer.h:17-23 | the queue loses its first bytes; an empty queue keeps no storage |
| `Buffers.Buffer.Copy` | include/kvrpc/buffer.h:24 | the first bytes of the queue |
| `RpcProtocol.WriteId` | include/kvrpc/rpc_protocol.h:33-36 | the backward loop writes the identifier most significant byte first |
| `RpcProtocol.RpcEncode` | include/kvrpc/rpc_protocol.h:26-39 | refused exactly beyond the limit, otherwise the frame of that identifier and payload, for any limit |
| `RpcProtocol.RpcId` | include/kvrpc/rpc_protocol.h:20-25 | the loop reads the identifier; zero is an error |
| `RpcProtocol.IdRoundTrip` | include/kvrpc/rpc_protocol.h:20-39 | every 64-bit identifier survives encoding, whatever the payload |
| `Formats.RpcLayout` | include/kvrpc/rpc_protocol.h:26-39 | a frame is KVR2, the payload length, the identifier in eight bytes in network order, and the payload |
| `Framing.SizeOf` | include/kvrpc/rpc_protocol.h:13-19 | zero exactly while the header is incomplete, an error only for complete headers |
| `Formats.SizeLayout` | include/kvrpc/rpc_protocol.h:13-19 | the size is the header and what its length fields announce, for both protocols; malformed exactly for a wrong tag or an invalid KV header |
| `Framing.KvFrameWellFramed` | include/kvrpc/kvcache_client.h:16-21 | an encoded KV frame announces its own length |
| `Framing.RpcFrameWellFramed` | include/kvrpc/rpc_protocol.h:13-39 | an encoded RPC frame announces its own length if and only if the payload is under 4 GiB |
| `Framing.ExtractSplit` | src/async_transport.cpp:199-221 | bytes that arrive later never change what was extracted before, for any input |
| `Framing.FragmentationIndependence` | src/async_transport.cpp:199-221 | for any bytes and any way to cut them, frames, leftover and error are those of one piece |
| `Framing.ExtractFrames` | src/async_transport.cpp:206-221 | a concatenation of frames is read back as exactly those frames |
| `Framing.HeadFrame` | src/async_transport.cpp:206-211 | a prefix of a frame stream is never in error, and the frame taken is the first one, exactly when complete |
| `Framing.TakeOne` | src/tcp_server.cpp:203-217 | taking a complete frame now or later makes no difference to the frames of the stream |
| `Multiplex.UnregisterKeeps` | src/async_transport.cpp:80-96 | removing a request keeps slots, waiting list and its order, deadlines, counters and ledger in agreement, without underflow |
| `Multiplex.CloseSocketKeeps` | src/async_transport.cpp:102-115 | resetting a socket keeps the same books |
| `Streams.DisconnectSettles` | src/async_transport.cpp:102-120 | after a disconnect the slot is empty and all other connections are as they were |
| `StreamSteps.PoppedOk` | src/async_transport.cpp:183-187 | a fully sent request is marked and leaves the output queue |
| `StreamSteps.NextAnswer` | src/async_transport.cpp:206-211 | with a conforming peer the buffer is never malformed and its first frame is the next answer |
| `StreamSteps.AnswerIsOurs` | src/async_transport.cpp:213-217 | the next answer belongs to a request sent on this socket or retired from it |
| `StreamSteps.AnswerInOrder` | src/async_transport.cpp:213 | without identifiers the only outstanding request is the one answered |
| `StreamSteps.RetiredOk` | src/async_transport.cpp:284-286 | a timed-out request on the wire keeps its place within the in-flight limit |
| `StreamSteps.LoadedOk` | src/async_transport.cpp:244-251 | a request given to a socket with room keeps the socket within its limit |
| `TransportSteps.FlushStep` | src/async_transport.cpp:180-187 | completing a send keeps the transport invariant |
| `TransportSteps.LeaveStep` | src/async_transport.cpp:80-101 | finishing a request of a socket keeps the transport invariant |
| `TransportSteps.ExpireStep` | src/async_transport.cpp:289-291 | finishing a waiting request keeps the transport invariant |
| `TransportSteps.EnrollStep` | src/async_transport.cpp:279-295 | registering a posted request, with its deadline, at the end of the waiting list and with the bytes submitted under its identifier, keeps the transport invariant |
| `TransportSteps.AssignStep` | src/async_transport.cpp:244-251 | giving the oldest waiting request to an open socket, behind those given before, keeps the transport invariant |
| `TransportSteps.AssignOpenStep` | src/async_transport.cpp:252 | a request that brings a connection up keeps the transport invariant |
| `TransportSteps.SubmitStep` | src/async_transport.cpp:262-279 | admission and refusal keep the transport invariant |
| `TransportSteps.DrainStep` | src/async_transport.cpp:67-76 | closing and the drain task keep the transport invariant |
| `Responses.Matched` | src/async_transport.cpp:211-219 | with a conforming peer every complete frame is a late answer or the answer to a registered request of this socket |
| `Responses.NeverBroken` | src/async_transport.cpp:207-209 | with a conforming peer the framing error never fires |
| `TransportTheorems.InitialOk` | src/async_transport.cpp:52-66 | a new transport satisfies the invariant |
| `TransportTheorems.Conservation` | src/async_transport.cpp:262-297 | every submitted request is exactly one of posted, registered, completed; the admission counters are their number and size and within limits |
| `TransportTheorems.DrainedMeansCompleted` | src/async_transport.cpp:67-101 | while draining, the loop is stopped exactly when no request is registered, and exactly when all are completed |
| `TransportTheorems.InflightBound` | src/async_transport.cpp:241-256 | a socket counts its registered requests; with the retired identifiers, which are disjoint, it stays within its limit; a closed one is empty |
| `TransportTheorems.OneDeadline` | src/async_transport.cpp:279-293 | every registered request has exactly one armed deadline |
| `TransportTheorems.SentAsSubmitted` | src/async_transport.cpp:176-256 | the bytes handed to the kernel on a connection are the submitted bytes of the requests given to it, one after the other in the order given, up to a point inside the next |
| `TransportTheorems.OldestFirst` | src/async_transport.cpp:241-296 | waiting requests are in the order of registration |
| `TransportTheorems.ResponsesAreFrames` | src/async_transport.cpp:206-221 | whatever the peers send, a delivered response is one complete frame within the limit with the identifier of its request |
| `TransportTheorems.NoCrossTalk` | src/async_transport.cpp:206-221 | with conforming peers every success is the reply to its own request and no response is ever faulted |
| `AsyncTransports.AsyncTransport.constructor` | src/async_transport.cpp:52-66 | no connection, no request, invariant established |
| `AsyncTransports.AsyncTransport.Complete` | src/async_transport.cpp:97 | a completion is called for a request not completed before |
| `AsyncTransports.AsyncTransport.Detach` | src/async_transport.cpp:80-97 | the request leaves the registry, its socket or the waiting list, its deadline and the counters, and is completed with this outcome |
| `AsyncTransports.AsyncTransport.Finish` | src/async_transport.cpp:80-101 | an unknown request changes nothing; a known one leaves all books; a rejected response also empties its socket; the drain rule holds |
| `AsyncTransports.AsyncTransport.Disconnect` | src/async_transport.cpp:102-120 | every request of the socket fails, once, and nothing else does |
| `AsyncTransports.AsyncTransport.Teardown` | src/async_transport.cpp:102-120 | the socket is reset and empty, its requests failed, the invariant kept, other sockets untouched |
| `AsyncTransports.AsyncTransport.Fault` | src/async_transport.cpp:222-225 | reached only with a peer that does not conform |
| `AsyncTransports.AsyncTransport.Schedule` | src/async_transport.cpp:150-159 | one wake-up is posted per socket at a time |
| `AsyncTransports.AsyncTransport.FinishOn` | src/async_transport.cpp:211-220 | the request is completed with this outcome and leaves its socket; a rejected response closes the socket |
| `AsyncTransports.AsyncTransport.Advance` | src/async_transport.cpp:180-187 | the send cursor moves by what the kernel took; a complete request is marked and popped |
| `AsyncTransports.AsyncTransport.SendQueued` | src/async_transport.cpp:176-197 | partial sends neither repeat nor skip bytes; an open socket has sent all, is refused by the kernel, or has a wake-up posted |
| `AsyncTransports.AsyncTransport.ReceiveQueued` | src/async_transport.cpp:198-238 | a socket left open has read until the kernel had no more or has a wake-up posted; otherwise it is closed |
| `AsyncTransports.AsyncTransport.Watch` | src/async_transport.cpp:239 | write readiness is asked for exactly while output is left |
| `AsyncTransports.AsyncTransport.TakeFrames` | src/async_transport.cpp:206-221 | the loop ends with no complete frame in the buffer, or the connection closed |
| `AsyncTransports.AsyncTransport.Match` | src/async_transport.cpp:211-221 | a late answer only frees its place, a known one is delivered, any other costs the connection |
| `AsyncTransports.AsyncTransport.DropLate` | src/async_transport.cpp:214 | exactly the identifier's place and the frame's bytes are given up |
| `AsyncTransports.AsyncTransport.Deliver` | src/async_transport.cpp:218-220 | the request is completed with exactly the frame at the head of the buffer |
| `AsyncTransports.AsyncTransport.Pump` | src/async_transport.cpp:160-240 | one socket moves, the others do not; nothing is left unattended; an open connected socket asks for write readiness exactly while output is left |
| `AsyncTransports.AsyncTransport.Assign` | src/async_transport.cpp:245-252 | the oldest waiting request is given to the socket, which is connected if need be |
| `AsyncTransports.AsyncTransport.Connect` | src/async_transport.cpp:121-149 | the attempt fails and empties the slot, is under way with its own deadline, or is up |
| `AsyncTransports.AsyncTransport.Fill` | src/async_transport.cpp:244-254 | ends with no request waiting or the socket at its limit |
| `AsyncTransports.AsyncTransport.Dispatch` | src/async_transport.cpp:241-256 | afterwards a request waits only while every socket is at its limit |
| `AsyncTransports.AsyncTransport.Expire` | src/async_transport.cpp:282-291 | all three branches complete the request with an error: retired on the wire, connection closed, or taken from the queue |
| `AsyncTransports.AsyncTransport.OnDeadline` | src/async_transport.cpp:281-293 | after its deadline fired the request is no longer registered |
| `AsyncTransports.AsyncTransport.OnConnectDeadline` | src/async_transport.cpp:145-148 | the connection attempt is given up and the invariant kept |
| `AsyncTransports.AsyncTransport.OnReady` | src/async_transport.cpp:140-143 | the socket is pumped and waiting requests are dispatched |
| `AsyncTransports.AsyncTransport.Submit` | src/async_transport.cpp:262-297 | accepted exactly before closing, within the request limit and within the byte limit; otherwise completed at once |
| `AsyncTransports.AsyncTransport.RunTask` | src/async_transport.cpp:279-296 | a registration, wake-up or drain request runs and keeps the invariant, in which every request carries the bytes submitted for it |
| `AsyncTransports.AsyncTransport.Fire` | src/async_transport.cpp:281-293 | an armed deadline always finds its request and removes it |
| `AsyncTransports.AsyncTransport.CloseDown` | src/async_transport.cpp:67-76 | no further request is accepted and one drain request is posted |
| `AsyncTransports.AsyncTransport.Step` | src/event_loop.cpp:86-127 | any event keeps the invariant, attention to every socket, and past completions |
| `AsyncTransports.AsyncTransport.Run` | src/event_loop.cpp:86-127 | so does any run; every connection carries the submitted bytes of its requests in order; with conforming peers every success is the reply to its own request; a draining loop is stopped exactly when all requests are completed |
| `EventLoops.InsertIs` | src/event_loop.cpp:62-66 | insertion keeps the order by deadline, then by arming |
| `EventLoops.RemoveIs` | src/event_loop.cpp:67-72 | cancelling removes that timer only and keeps the order |
| `EventLoops.HeadIsLeast` | src/event_loop.cpp:119-123 | the first timer is the least of all armed ones |
| `EventLoops.TimeoutTight` | src/event_loop.cpp:89-94 | the loop does not wake before the first deadline, oversleeps by at most a millisecond, and polls exactly when a whole millisecond late |
| `EventLoops.EventLoop.Add` | src/event_loop.cpp:40-47 | a fresh token from the shared counter |
| `EventLoops.EventLoop.Unwatch` | src/event_loop.cpp:56-61 | exactly that registration is gone |
| `EventLoops.EventLoop.At` | src/event_loop.cpp:62-66 | a number never used before; list and index agree |
| `EventLoops.EventLoop.Cancel` | src/event_loop.cpp:67-72 | an armed timer leaves list and index and is on record as cancelled; any other number changes nothing |
| `EventLoops.EventLoop.Post` | src/event_loop.cpp:73-81 | a posted callback goes to the end of the queue |
| `EventLoops.EventLoop.Stop` | src/event_loop.cpp:82-85 | the loop is told to end and woken |
| `EventLoops.EventLoop.RunTasks` | src/event_loop.cpp:105-110 | exactly what was posted before runs, in order; later ones wait |
| `EventLoops.EventLoop.RunTask` | src/event_loop.cpp:110 | a task runs once and whatever it posts goes to the end |
| `EventLoops.EventLoop.Notify` | src/event_loop.cpp:112-116 | a callback runs exactly if its registration still stands |
| `EventLoops.EventLoop.TakeFirst` | src/event_loop.cpp:120-123 | list and index lose the first timer together |
| `EventLoops.EventLoop.FireFirst` | src/event_loop.cpp:119-125 | the timer fired is due, the minimum of all armed ones, and was never cancelled; timers fire at most once |
| `EventLoops.EventLoop.FireDue` | src/event_loop.cpp:119-125 | one timer per due reading fires, and the loop ends only when none is due at the last reading, whatever callbacks do |
| `EventLoops.EventLoop.Turn` | src/event_loop.cpp:100-125 | a turn runs everything posted before its wake-up, in order; no timer is due at its last clock reading unless the readings ran out |
| `WorkQueues.WorkQueue.constructor` | src/tcp_server.cpp:276-277 | one worker in batch mode, the configured number otherwise |
| `WorkQueues.WorkQueue.Submit` | src/tcp_server.cpp:52-63 | accepted exactly while open and within count and byte limits |
| `WorkQueues.WorkQueue.Take` | src/tcp_server.cpp:66-79 | the oldest jobs, one or up to 64, or the worker leaves a closed empty queue |
| `WorkQueues.WorkQueue.PopFront` | src/tcp_server.cpp:72-78 | the byte counter follows the jobs taken and does not underflow |
| `WorkQueues.WorkQueue.Handle` | src/tcp_server.cpp:80-96 | replies are the handler's; a throw or a wrong number gives every job a reply that closes, consumes nothing and is empty |
| `WorkQueues.WorkQueue.CompleteNext` | src/tcp_server.cpp:99 | each job of the batch is completed with the reply at its own position |
| `WorkQueues.WorkQueue.Close` | src/tcp_server.cpp:259-264 | no job is accepted afterwards |
| `WorkQueues.WorkQueue.Step` | src/tcp_server.cpp:52-101 | any step of any thread keeps the accounting |
| `WorkQueues.WorkQueue.Run` | src/tcp_server.cpp:52-101 | so does any interleaving |
| `WorkQueues.WorkQueue.AtMostOnce` | src/tcp_server.cpp:99 | no job is completed twice or without having been accepted |
| `WorkQueues.WorkQueue.Drained` | src/tcp_server.cpp:259-266 | when all workers have left, every accepted job was completed exactly once and the queue is empty |
| `ServerPeers.SendsOk` | src/tcp_server.cpp:157-168 | sending keeps the output counter equal to the unsent bytes and the wire equal to the replies in order |
| `ServerPeers.QueuesOk` | src/tcp_server.cpp:236-239 | queueing a reply within the limit keeps the same |
| `ServerPeers.FollowsMore` | src/tcp_server.cpp:181-188 | reading keeps the frames taken and to come those of the whole stream |
| `ServerPeers.FollowsTake` | src/tcp_server.cpp:203-217 | cutting a frame keeps the frames taken and to come those of the whole stream |
| `ServerPeers.JobsLess` | src/tcp_server.cpp:223 | exactly the job answered leaves; the others keep number and size; without framing the job was the buffer as it stands |
| `ServerPeers.AnswerBooked` | src/tcp_server.cpp:219-223 | every job is outstanding or answered, once; the outstanding ones keep their order, each with the size of its own input |
| `ServerPeers.OwnFrame` | src/tcp_server.cpp:224-231 | with framing a reply is accepted exactly if it does not close, consumes the frame of its own job and fits a frame and the room in the output queue |
| `ServerPeers.OwnBuffer` | src/tcp_server.cpp:224-234 | without framing the job is the whole buffer and a reply may consume any part of it; none only silently and with room to read more; what is consumed leaves the buffer |
| `ServerPeers.SettledOk` | src/tcp_server.cpp:219-239 | an accepted reply keeps the invariant: the books, the counters and the replies in order of completion |
| `ServerPeers.LimitsHold` | src/tcp_server.cpp:151-206 | at most one job, or as many as the pipeline allows; a buffer of one frame; a bounded output queue; at rest read exactly while there is room for a job and less than half the output limit is unsent, and written exactly while output is left |
| `ServerPeers.NoneLeft` | src/tcp_server.cpp:203-213 | without a complete frame in the buffer, the frames taken are all frames of the stream |
| `ServerPeers.AllServed` | src/tcp_server.cpp:249-252 | when the end-of-input rule closes, every job was answered once, the wire carries all replies in the order of completion, and with framing the jobs were all frames of the stream; without, the buffer is empty or the handler wants more |
| `ServerPeers.PausedIsAwake` | src/tcp_server.cpp:253-254 | a paused connection has a job, output or a wake-up to move it, for every output limit of at least two |
| `ServerPeers.FreshIsAwake` | src/tcp_server.cpp:348-353 | for a fresh connection this holds if and only if the output limit is at least two |
| `ServerPeers.HeaderMustFit` | src/tcp_server.cpp:339-353 | every open connection at rest with its reading on has something to read it again, if and only if a header fits the frame limit; otherwise no full buffer has |
| `ServerPeers.ServerPeer.constructor` | src/tcp_server.cpp:137-150 | a fresh connection satisfies the invariant and is at rest for every output limit of at least two |
| `ServerPeers.ServerPeer.Close` | src/tcp_server.cpp:109-116 | the connection is closed and otherwise unchanged |
| `ServerPeers.ServerPeer.Schedule` | src/tcp_server.cpp:127-136 | at most one wake-up is posted, none for a closed connection |
| `ServerPeers.ServerPeer.Flush` | src/tcp_server.cpp:156-178 | only the output changes; unsent output waits for the kernel or a wake-up |
| `ServerPeers.ServerPeer.Fill` | src/tcp_server.cpp:179-201 | nothing is read without room; reading stops at end of input, on the kernel's word, with a wake-up, or with a full buffer |
| `ServerPeers.ServerPeer.Cut` | src/tcp_server.cpp:202-247 | jobs are cut while there is room; the connection closes only for a refusal or an invalid frame; a full buffer yields a job unless no header fits it; what is left is incomplete, held by a limit, or past the turn's 32 frames |
| `ServerPeers.ServerPeer.CutNext` | src/tcp_server.cpp:204-217 | one job is cut, or nothing changes because none is complete, or the work queue refuses it and the connection closes; it closes otherwise exactly for an invalid or oversized frame |
| `ServerPeers.ServerPeer.Pump` | src/tcp_server.cpp:151-255 | afterwards the connection is closed or at rest, which leaves unread only what HeaderMustFit describes, and then nothing is read or cut; closed by the end-of-input rule only when fully served |
| `ServerPeers.ServerPeer.Conclude` | src/tcp_server.cpp:248-254 | another turn, the end, or the interest that matches the limits |
| `ServerPeers.ServerPeer.Settle` | src/tcp_server.cpp:222-239 | the connection closes exactly for an unacceptable reply; the job answered leaves the books in either case; otherwise exactly what the reply consumed leaves the input and the reply is queued |
| `ServerPeers.ServerPeer.Answer` | src/tcp_server.cpp:219-241 | a reply is queued and the connection pumped; a closed connection ignores it |
| `ServerPeers.ServerPeer.WakeUp` | src/tcp_server.cpp:130-135 | the wake-up pumps an open connection |
| `ServerPeers.ServerPeer.Step` | src/tcp_server.cpp:137-150 | any event keeps the invariant and leaves a connection at rest or closed; one stuck behind a header that does not fit reads nothing |
| `ServerPeers.ServerPeer.Run` | src/tcp_server.cpp:151-255 | so does any run |

## Left out

- Sockets, epoll, eventfd, file descriptors, locks on files: present only as the choices the kernel may make.
- Interrupted system calls (EINTR): repeated by the program, so they change nothing the model can see.
- Mutex-level races and the memory model: a locked region or a loop callback is one step.
- Reentrant and concurrent `Submit` calls during a client callback: they take effect between callbacks.
- AsyncTransports.AsyncTransport.Fire: the loop takes a fired timer off its list before the callback; here the finishing that follows does it.
- EventLoops.EventLoop.FireDue: takes a finite list of clock readings, since a callback may rearm itself in the past forever.
- EventLoops.EventLoop.Turn: no timer is due afterwards only if the clock readings suffice, for the same reason.
- AsyncTransports.AsyncTransport.Pump: progress is stated as what is left unattended, since the kernel may refuse every byte.
- Aof.AofLogger.Replace: the ways the temporary file can fail before the rename are one choice.
- ServerPeers.ServerPeer.Cut: the work queue's answer is a choice here; when it refuses is stated by WorkQueues.WorkQueue.Submit.
- ServerPeers.ServerPeer.CutNext: the same holds here.
- Idle deadlines of server connections: an idle timeout is one of the events that close a connection.
- Accepting connections and the connection limit: easier than the connection itself.
- Protobuf beyond the known fields of `CacheValue`, and the RPC envelope: library code.
- The text of STATS and all metrics: an arbitrary byte string in the reply.
- The blocking connection, the connection pool, the executor and the old serialiser: easier than the asynchronous transport, the work queue and the log codec.
- The RPC server's dispatch and the client's futures: thin layers over the parts modelled.
- `CacheService::Handle`: a batch of one.
- Command-line parsing, benchmarks, examples and build files.
