/** Group commit and the service object. */
module CacheServices {
  import opened Common
  import opened KvProtocol
  import opened AofCodec
  import opened Lru
  import opened Sharded
  import opened Semantics
  import opened LogOps
  import opened Durability
  import opened Aof
  import opened Service

  // ----- A batch as one function -----

  datatype Svc = Svc(cache: Cache, log: seq<Record>, counters: Counters)

  datatype BatchResult =
    | Answered(svc: Svc, replies: seq<Reply>, rewrote: bool)
    | Rejected(svc: Svc)     // over capacity even after compaction
    | Stopped(cache: Cache)  // a reply could not be built; the service refuses further work

  function Compacted(s: Svc, now: nat): Svc
  {
    var rs := EntryRecords(SnapshotAll(s.cache, now));
    s.(log := rs, counters := Counters(LogSize(rs), LogSize(rs)))
  }

  predicate Due(max: nat, counters: Counters, ms: seq<Mutation>)
    requires CountersOk(max, counters)
  {
    ms != [] && (LogSize(V2All(ms)) > max - counters.bytes || Grown(max, counters))
  }

  predicate SvcOk(c: Config, max: nat, s: Svc)
  {
    Accepted(c) && |s.cache| == Count(c) && CountersOk(max, s.counters)
  }

  /** `HandleBatch` with a clock that stands still. */
  function Batch(c: Config, max: nat, s: Svc, inputs: seq<Bytes>, now: nat, stats: Bytes): (r: BatchResult)
    requires SvcOk(c, max, s)
    ensures r.Answered? ==> SvcOk(c, max, r.svc)
  {
    var ps := ParseAll(c, inputs, Constant(|inputs|, now));
    var ms := LogOf(ps);
    var due := Due(max, s.counters, ms);
    var mid := if due then Compacted(s, now) else s;
    var size := LogSize(V2All(ms));
    if mid.counters.bytes > max then Rejected(s)
    else if size > max - mid.counters.bytes then Rejected(mid)
    else
      var run := ExecuteAll(c, s.cache, ps, Constant(|inputs|, now), stats);
      if !run.ok then Stopped(run.cache)
      else Answered(Svc(run.cache, mid.log + V2All(ms), mid.counters.(bytes := mid.counters.bytes + size)),
                    run.replies, due)
  }

  /** The same requests, one batch each. */
  function OneByOne(c: Config, max: nat, s: Svc, inputs: seq<Bytes>, now: nat, stats: Bytes): (r: BatchResult)
    requires SvcOk(c, max, s)
    decreases |inputs|
  {
    if inputs == [] then Answered(s, [], false)
    else
      match Batch(c, max, s, [inputs[0]], now, stats)
      case Rejected(t) => Rejected(t)
      case Stopped(cache) => Stopped(cache)
      case Answered(t, first, rewrote) =>
        match OneByOne(c, max, t, inputs[1..], now, stats)
        case Answered(u, rest, again) => Answered(u, first + rest, rewrote || again)
        case other => other
  }

  /** What a batch that is not rejected does is executing its requests; it stops where execution does. */
  ghost predicate Carries(c: Config, s: Svc, inputs: seq<Bytes>, now: nat, stats: Bytes, r: BatchResult)
    requires Accepted(c) && |s.cache| == Count(c)
  {
    var ps := ParseAll(c, inputs, Constant(|inputs|, now));
    var run := ExecuteAll(c, s.cache, ps, Constant(|inputs|, now), stats);
    match r
    case Rejected(_) => true
    case Stopped(cache) => !run.ok && cache == run.cache
    case Answered(svc, replies, rewrote) =>
      && run.ok && svc.cache == run.cache && replies == run.replies
      && (!rewrote ==> svc.log == s.log + V2All(LogOf(ps)))
  }

  lemma BatchExecutes(c: Config, max: nat, s: Svc, inputs: seq<Bytes>, now: nat, stats: Bytes)
    requires SvcOk(c, max, s)
    ensures Carries(c, s, inputs, now, stats, Batch(c, max, s, inputs, now, stats))
  {
    hide ExecuteAll, LogOf, ParseRequest, Compacted, Due, LogSize;
  }

  lemma {:induction false} OneByOneExecutes(c: Config, max: nat, s: Svc, inputs: seq<Bytes>, now: nat, stats: Bytes)
    requires SvcOk(c, max, s)
    ensures Carries(c, s, inputs, now, stats, OneByOne(c, max, s, inputs, now, stats))
    decreases |inputs|
  {
    hide Batch, ParseRequest;
    if inputs == [] {
      assert ParseAll(c, inputs, Constant(0, now)) == [] && s.log + V2All([]) == s.log;
    } else {
      hide ExecuteAll, LogOf;
      var one := Batch(c, max, s, [inputs[0]], now, stats);
      BatchExecutes(c, max, s, [inputs[0]], now, stats);
      if one.Answered? { OneByOneExecutes(c, max, one.svc, inputs[1..], now, stats); }
      hide SvcOk;
      SplitBatch(c, s.cache, inputs, now, stats, s.log);
    }
  }

  /** Executing and logging a batch is executing and logging its head, then its tail. */
  lemma SplitBatch(c: Config, s: Cache, inputs: seq<Bytes>, now: nat, stats: Bytes, log: seq<Record>)
    requires Accepted(c) && |s| == Count(c) && inputs != []
    ensures var ps := ParseAll(c, inputs, Constant(|inputs|, now));
            var a, b := ParseAll(c, [inputs[0]], Constant(1, now)),
                        ParseAll(c, inputs[1..], Constant(|inputs| - 1, now));
            var x := ExecuteAll(c, s, a, Constant(1, now), stats);
            var y := ExecuteAll(c, x.cache, b, Constant(|inputs| - 1, now), stats);
            var whole := ExecuteAll(c, s, ps, Constant(|inputs|, now), stats);
            && whole == (if x.ok then Execution(y.cache, x.replies + y.replies, y.ok) else x)
            && (log + V2All(LogOf(a))) + V2All(LogOf(b)) == log + V2All(LogOf(ps))
  {
    hide ParseRequest, ExecuteAll, LogOf;
    var ps := ParseAll(c, inputs, Constant(|inputs|, now));
    var a, b := ParseAll(c, [inputs[0]], Constant(1, now)),
                ParseAll(c, inputs[1..], Constant(|inputs| - 1, now));
    assert ps == a + b;
    assert Constant(|inputs|, now) == Constant(1, now) + Constant(|inputs| - 1, now);
    ExecuteAppend(c, s, a, Constant(1, now), b, Constant(|inputs| - 1, now), stats);
    LogOfAppend(a, b);
    assert V2All(LogOf(a) + LogOf(b)) == V2All(LogOf(a)) + V2All(LogOf(b));
  }

  /**
   Group commit preserves meaning. Unless one side is rejected for capacity, a batch and its requests
   handled one at a time both stop or both answer; they leave the same cache and give the same
   replies, and the same log when both answer and neither compacts.
   */
  lemma GroupCommit(c: Config, max: nat, s: Svc, inputs: seq<Bytes>, now: nat, stats: Bytes)
    requires SvcOk(c, max, s)
    requires !Batch(c, max, s, inputs, now, stats).Rejected? && !OneByOne(c, max, s, inputs, now, stats).Rejected?
    ensures var batch, single := Batch(c, max, s, inputs, now, stats), OneByOne(c, max, s, inputs, now, stats);
            && (batch.Stopped? <==> single.Stopped?) && (batch.Stopped? ==> batch.cache == single.cache)
            && (batch.Answered? ==>
                  && batch.replies == single.replies && batch.svc.cache == single.svc.cache
                  && (!batch.rewrote && !single.rewrote ==> batch.svc.log == single.svc.log))
  {
    hide Batch, OneByOne, ExecuteAll, LogOf, ParseAll;
    BatchExecutes(c, max, s, inputs, now, stats);
    OneByOneExecutes(c, max, s, inputs, now, stats);
  }

  // ----- The service object -----

  datatype Outcome = Replies(replies: seq<Reply>) | OverLimit | Failure

  /** The mutations of a list of entries, as a rewrite stores them. */
  function SnapshotMutations(es: seq<Entry>): (ms: seq<Mutation>)
    ensures |ms| == |es| && forall i :: 0 <= i < |es| ==> ms[i] == Canonical(EntryOp(es[i]))
  {
    seq(|es|, i requires 0 <= i < |es| => Canonical(EntryOp(es[i])))
  }

  /** The mutations a rewrite of this cache stores. */
  function SnapshotOf(cache: Cache, at: nat): seq<Mutation> { SnapshotMutations(SnapshotAll(cache, at)) }

  /** What one batch sees and changes: the file, the logger's counters and the cache. */
  datatype Image = Image(disk: Disk, counters: Counters, cache: Cache)

  /** What a rewrite of this cache publishes. */
  ghost predicate Snapshotted(cache: Cache, at: nat, d: Disk)
  {
    var snapshot := SnapshotOf(cache, at);
    Writable(snapshot) && d == Disk(Encoded(snapshot), |Encoded(snapshot)|)
  }

  /**
   What may be found under the log's name while a batch is stored: the old log or a synced snapshot
   of the cache, followed by part of the batch, or by all of it and synced.
   */
  ghost predicate Storing(d: Disk, before: Disk, cache: Cache, at: nat, ms: seq<Mutation>)
  {
    && Writable(ms)
    && (|| ExtendsSynced(d, before, Encoded(ms))
        || exists base :: Snapshotted(cache, at, base) && ExtendsSynced(d, base, Encoded(ms)))
  }

  /** What the batch is appended to: the log as it is, or a snapshot of the cache if a rewrite is due. */
  ghost predicate Prepared(max: nat, before: Image, at: nat, ms: seq<Mutation>, base: Image)
    requires CountersOk(max, before.counters)
  {
    && base.cache == before.cache
    && if Due(max, before.counters, ms) then
         Snapshotted(before.cache, at, base.disk) && base.counters == Counters(|base.disk.log|, |base.disk.log|)
       else base == before
  }

  /** The mutations are appended to `base` and synced, and there is room for them. */
  ghost predicate Appends(max: nat, base: Image, ms: seq<Mutation>, after: Image)
  {
    && Writable(ms) && |base.disk.log| + |Encoded(ms)| <= max
    && after.disk == Disk(base.disk.log + Encoded(ms), |base.disk.log| + |Encoded(ms)|)
    && after.counters == Counters(|after.disk.log|, base.counters.rewrittenAt)
  }

  /** The mutations of the batch are in the log and synced, if there are any. */
  ghost predicate Stored(max: nat, before: Image, at: nat, ms: seq<Mutation>, after: Image)
    requires CountersOk(max, before.counters)
  {
    if ms == [] then after.disk == before.disk && after.counters == before.counters
    else exists base :: Prepared(max, before, at, ms, base) && Appends(max, base, ms, after)
  }

  /**
   Why a batch is refused and what is left: a rewrite was due, and the snapshot alone exceeds the limit,
   so nothing has changed, or it has replaced the log and leaves no room for the batch.
   */
  ghost predicate NoRoom(max: nat, before: Image, at: nat, ms: seq<Mutation>, after: Image)
    requires CountersOk(max, before.counters)
  {
    var snapshot := SnapshotOf(before.cache, at);
    && Due(max, before.counters, ms) && Writable(ms) && Writable(snapshot)
    && if |Encoded(snapshot)| > max then after == before
       else |Encoded(snapshot)| + |Encoded(ms)| > max && Prepared(max, before, at, ms, after)
  }

  /**
   What one batch may do to log and cache. The cache changes and replies are given only when the batch
   is in the log and synced. A capacity rejection leaves the cache as it was, and the log too unless it
   was compacted first. Any other failure leaves the log somewhere in between.
   */
  ghost predicate Handled(c: Config, max: nat, ps: seq<Parsed>, compactAt: nat, times: seq<nat>, stats: Bytes,
                          before: Image, r: Outcome, after: Image)
    requires Accepted(c) && |before.cache| == Count(c) && |times| == |ps| && CountersOk(max, before.counters)
  {
    var run, ms := ExecuteAll(c, before.cache, ps, times, stats), LogOf(ps);
    match r
    case Replies(replies) =>
      run.ok && replies == run.replies && after.cache == run.cache && Stored(max, before, compactAt, ms, after)
    case OverLimit =>
      after.cache == before.cache && NoRoom(max, before, compactAt, ms, after)
    case Failure =>
      || (after.cache == before.cache
          && (|| after.disk == before.disk
              || (ms != [] && Storing(after.disk, before.disk, before.cache, compactAt, ms))))
      || (!run.ok && after.cache == run.cache && Stored(max, before, compactAt, ms, after))
  }

  lemma EncodedSize(ms: seq<Mutation>)
    requires Writable(ms)
    ensures |Encoded(ms)| == LogSize(V2All(ms))
  {
    hide Loggable, LogBytes, LogSize;
    assert AllLoggable(V2All(ms));
    LogBytesSize(V2All(ms));
  }

  lemma NotApplied(c: Config, max: nat, ps: seq<Parsed>, compactAt: nat, times: seq<nat>, stats: Bytes,
                   before: Image, r: Outcome, after: Image)
    requires Accepted(c) && |before.cache| == Count(c) && |times| == |ps| && CountersOk(max, before.counters)
    requires after.cache == before.cache && !r.Replies?
    requires r.OverLimit? ==> NoRoom(max, before, compactAt, LogOf(ps), after)
    requires r.Failure? && after.disk != before.disk ==>
               LogOf(ps) != [] && Storing(after.disk, before.disk, before.cache, compactAt, LogOf(ps))
    ensures Handled(c, max, ps, compactAt, times, stats, before, r, after)
  {
    hide NoRoom, Storing, Stored, ExecuteAll, LogOf;
  }

  lemma Applied(c: Config, max: nat, ps: seq<Parsed>, compactAt: nat, times: seq<nat>, stats: Bytes,
                before: Image, stored: Image, replies: Option<seq<Reply>>, after: Image)
    requires Accepted(c) && |before.cache| == Count(c) && |times| == |ps| && CountersOk(max, before.counters)
    requires Stored(max, before, compactAt, LogOf(ps), stored) && after == stored.(cache := after.cache)
    requires var run := ExecuteAll(c, before.cache, ps, times, stats);
             && after.cache == run.cache && replies.Some? == run.ok && (replies.Some? ==> replies.value == run.replies)
    ensures var r := if replies.Some? then Replies(replies.value) else Failure;
            Handled(c, max, ps, compactAt, times, stats, before, r, after)
  {
    hide NoRoom, Storing, Stored, ExecuteAll, LogOf;
    StoredOnly(max, before, compactAt, LogOf(ps), stored, after.cache);
  }

  lemma ExtendsNothing(d: Disk, data: Bytes)
    ensures ExtendsSynced(d, d, data)
  {
    assert d.log[|d.log|..] == [];
  }

  lemma LoggerFacts(aof: AofLogger)
    requires aof.Valid()
    ensures aof.trace != [] && aof.trace[|aof.trace| - 1] == aof.disk
    ensures aof.rewrittenAt <= aof.bytes <= aof.maxBytes && (!aof.failed ==> aof.bytes == |aof.disk.log|)
  {}

  lemma BaseIs(max: nat, before: Image, at: nat, ms: seq<Mutation>, base: Image)
    requires CountersOk(max, before.counters) && Prepared(max, before, at, ms, base)
    ensures base.disk == before.disk || Snapshotted(before.cache, at, base.disk)
  {
    hide Snapshotted, Due;
  }

  lemma AppendsIs(max: nat, base: Image, ms: seq<Mutation>, after: Image)
    requires Writable(ms) && after.disk.log == base.disk.log + Encoded(ms) && after.disk.synced == |after.disk.log|
    requires after.counters == Counters(|after.disk.log|, base.counters.rewrittenAt) && after.counters.bytes <= max
    ensures Appends(max, base, ms, after)
  {
    hide Writable, Encoded;
  }

  /** A batch that does not fit after all preparations is refused for good reason. */
  lemma NoRoomLeft(max: nat, before: Image, at: nat, ms: seq<Mutation>, base: Image)
    requires CountersOk(max, before.counters) && Prepared(max, before, at, ms, base) && Writable(ms) && ms != []
    requires base.counters.bytes <= max && |Encoded(ms)| > max - base.counters.bytes
    ensures NoRoom(max, before, at, ms, base)
  {
    hide Writable, Encoded, SnapshotOf, Grown;
    EncodedSize(ms);
  }

  lemma StoredOnly(max: nat, before: Image, at: nat, ms: seq<Mutation>, after: Image, cache: Cache)
    requires CountersOk(max, before.counters) && Stored(max, before, at, ms, after)
    ensures Stored(max, before, at, ms, after.(cache := cache))
  {
    hide Prepared, Writable, Encoded;
    if ms != [] {
      var base :| Prepared(max, before, at, ms, base) && Appends(max, base, ms, after);
      assert Appends(max, base, ms, after.(cache := cache));
    }
  }

  class CacheService {
    const config: Config
    const cache: ShardedCache
    const aof: AofLogger
    var failed: bool

    ghost predicate Valid()
      reads cache, cache.shards, aof
      ensures Valid() ==> Accepted(config)
    {
      cache.Valid() && aof.Valid() && cache.config == config && Accepted(config)
    }

    ghost function Contents(): (s: Cache)
      requires Valid()
      reads cache, cache.shards, aof
      ensures |s| == Count(config)
    {
      cache.Contents()
    }

    ghost function Shown(): Image
      requires Valid()
      reads cache, cache.shards, aof
      ensures CountersOk(aof.maxBytes, Shown().counters) && |Shown().cache| == Count(config)
    {
      Image(aof.disk, Counters(aof.bytes, aof.rewrittenAt), Contents())
    }

    constructor (cache: ShardedCache, aof: AofLogger)
      requires cache.Valid() && aof.Valid()
      ensures Valid() && !failed && this.cache == cache && this.aof == aof && config == cache.config
    {
      config, this.cache, this.aof, failed := cache.config, cache, aof, false;
    }

    /** Carries out one request on the cache and computes the value of its reply. */
    method Perform(q: Request, now: nat, stats: Bytes) returns (response: Bytes)
      requires Valid() && forall op :: op in RequestOps(q) ==> Storable(config, op)
      modifies cache.shards
      ensures Valid()
      ensures Contents() == Touched(config, old(Contents()), q, now)
      ensures response == Response(config, old(Contents()), q, now, stats)
    {
      hide AfterPut, AfterRemove, AfterGet, Peek, LookupReply, CanStore, ShardedCache.Valid, AofLogger.Valid;
      response := [];
      match q.command {
        case Set =>
          assert RequestOps(q)[0] in RequestOps(q);
          var _ := cache.Put(q.key, q.value, q.expires, now);
        case SetTtl =>
          assert RequestOps(q)[0] in RequestOps(q);
          var _ := cache.Put(q.key, q.value, q.expires, now);
        case Del =>
          var _ := cache.Remove(q.key);
        case Get =>
          var value := cache.Get(q.key, now);
          response := if value.Some? then value.value else [];
        case Lookup =>
          var value := cache.Get(q.key, now);
          response := LookupReply(value);
        case Stats =>
          response := stats;
        case Unknown =>
          var _ := cache.Get(q.key, now);
      }
    }

    /** Answers one parsed request; `None` where building the reply raises. */
    method Answer(p: Parsed, now: nat, stats: Bytes) returns (reply: Option<Reply>)
      requires Valid()
      requires p.Good? ==> forall op :: op in RequestOps(p.request) ==> Storable(config, op)
      modifies cache.shards
      ensures Valid()
      ensures var run := Execute(config, old(Contents()), p, now, stats);
              && Contents() == run.cache && reply.Some? == run.ok
              && (reply.Some? ==> run.replies == [reply.value])
    {
      hide Touched, Response, RequestOps, KvProtocol.Encode, CacheService.Valid;
      match p
      case Partial => reply := Some(Reply(0, [], false));
      case Refused => reply := Some(Reply(0, [], true));
      case Good(q, _, total) =>
        var response := Perform(q, now, stats);
        var frame := KvProtocol.Encode(q.command, q.key, response);
        reply := if frame.Some? then Some(Reply(total, frame.value, false)) else None;
    }

    /** Rewrites the log from a snapshot of the cache. */
    method CompactLocked(now: nat) returns (o: Aof.Outcome)
      requires Valid()
      modifies aof
      ensures Valid() && Contents() == old(Contents()) && aof.started == old(aof.started)
      ensures var snapshot := SnapshotOf(Contents(), now);
              && (o.Invalid? <==> !old(aof.failed) && !Writable(snapshot))
              && (o.OverCapacity? <==>
                    !old(aof.failed) && Writable(snapshot) && |Encoded(snapshot)| > aof.maxBytes)
      ensures o.Done? ==>
                && Snapshotted(Contents(), now, aof.disk) && !aof.failed
                && aof.bytes == aof.rewrittenAt == |aof.disk.log|
      ensures o.OverCapacity? || o.Invalid? || (!o.Done? && !aof.failed) ==> aof.disk == old(aof.disk)
      ensures o.OverCapacity? ==> Shown() == old(Shown()) && aof.failed == old(aof.failed)
      ensures |old(aof.trace)| <= |aof.trace| && aof.trace[..|old(aof.trace)|] == old(aof.trace)
      ensures forall i :: |old(aof.trace)| <= i < |aof.trace| ==> Snapshotted(Contents(), now, aof.trace[i])
    {
      hide AofLogger.Valid, SnapshotAll, Canonical, Encoded, Writable, Loggable;
      var entries := cache.TakeSnapshot(now);
      var snapshot := [];
      for i := 0 to |entries|
        invariant snapshot == SnapshotMutations(entries[..i])
      {
        assert entries[..i + 1] == entries[..i] + [entries[i]];
        snapshot := snapshot + [Canonical(EntryOp(entries[i]))];
      }
      assert entries[..|entries|] == entries;
      o := aof.Replace(snapshot);
    }

    /** The first loop: parse every request and collect the mutations. */
    method ParseInputs(inputs: seq<Bytes>, times: seq<nat>) returns (ps: seq<Parsed>, ms: seq<Mutation>)
      requires Valid() && |times| == |inputs|
      ensures ps == ParseAll(config, inputs, times) && ms == LogOf(ps)
    {
      hide ParseRequest, ShardedCache.Valid, AofLogger.Valid;
      ps, ms := [], [];
      for i := 0 to |inputs|
        invariant |ps| == i && forall j :: 0 <= j < i ==> ps[j] == ParseRequest(config, inputs[j], times[j])
        invariant ms == LogOf(ps)
      {
        var p := ParseRequest(config, inputs[i], times[i]);
        LogOfAppend(ps, [p]);
        assert [p][1..] == [];
        if p.Good? {
          ms := ms + p.log;
        }
        ps := ps + [p];
      }
    }

    /** The second loop: apply and answer in batch order. */
    method AnswerAll(ps: seq<Parsed>, times: seq<nat>, stats: Bytes) returns (r: Option<seq<Reply>>)
      requires Valid() && |times| == |ps| && AllStorable(config, OpsOf(ps))
      modifies cache.shards
      ensures Valid()
      ensures var run := ExecuteAll(config, old(Contents()), ps, times, stats);
              && Contents() == run.cache && r.Some? == run.ok && (r.Some? ==> r.value == run.replies)
    {
      hide Execute, RequestOps, CacheService.Valid, Storable;
      var replies := [];
      assert ps[0..] == ps && times[0..] == times;
      for i := 0 to |ps|
        invariant Valid() && AllStorable(config, OpsOf(ps[i..]))
        invariant var rest := ExecuteAll(config, Contents(), ps[i..], times[i..], stats);
                  ExecuteAll(config, old(Contents()), ps, times, stats)
                  == Execution(rest.cache, replies + rest.replies, rest.ok)
      {
        assert ps[i..][1..] == ps[i + 1..] && times[i..][1..] == times[i + 1..];
        ghost var next := Execute(config, Contents(), ps[i], times[i], stats).cache;
        ghost var rest := ExecuteAll(config, next, ps[i + 1..], times[i + 1..], stats);
        var reply := Answer(ps[i], times[i], stats);
        if reply.None? {
          return None;
        }
        assert replies + ([reply.value] + rest.replies) == (replies + [reply.value]) + rest.replies;
        replies := replies + [reply.value];
      }
      r := Some(replies);
    }

    /**
     One batch: log first, then cache and replies. The cache changes only when the batch's mutations
     are in the log and synced; a failure other than a capacity rejection stops the service. Whatever
     happens, all that was ever under the log's name is the old log or a snapshot of the cache,
     followed by part of the batch.
     */
    method HandleBatch(inputs: seq<Bytes>, parsedAt: seq<nat>, compactAt: nat, appliedAt: seq<nat>, stats: Bytes)
        returns (r: Outcome)
      requires Valid() && |parsedAt| == |appliedAt| == |inputs| && AllBelow(parsedAt, CLOCK_LIMIT)
      modifies `failed, cache.shards, aof
      ensures Valid()
      ensures old(failed) ==> r.Failure? && Contents() == old(Contents()) && aof.disk == old(aof.disk)
      ensures failed <==> r.Failure?
      ensures Handled(config, aof.maxBytes, ParseAll(config, inputs, parsedAt), compactAt, appliedAt, stats,
                      old(Shown()), r, Shown())
      ensures |old(aof.trace)| <= |aof.trace| && aof.trace[..|old(aof.trace)|] == old(aof.trace)
      ensures var ms := LogOf(ParseAll(config, inputs, parsedAt));
              forall i :: |old(aof.trace)| <= i < |aof.trace| ==>
                ms != [] && Storing(aof.trace[i], old(aof.disk), old(Contents()), compactAt, ms)
    {
      hide CacheService.Valid, Snapshotted, Storing, Stored, NoRoom, ParseAll, ExecuteAll, LogOf, OpsOf;
      hide Writable, Meaningful, AllStorable, Handled;
      ghost var max, before := aof.maxBytes, Shown();
      BatchLogged(config, inputs, parsedAt);
      if failed {
        NotApplied(config, max, ParseAll(config, inputs, parsedAt), compactAt, appliedAt, stats,
                   before, Failure, before);
        return Failure;
      }
      var ps, ms := ParseInputs(inputs, parsedAt);
      var ready := Persist(ms, compactAt);
      ghost var stored := Shown();
      if ready.OverCapacity? {
        NotApplied(config, max, ps, compactAt, appliedAt, stats, before, OverLimit, stored);
        return OverLimit;
      }
      if !ready.Done? {
        NotApplied(config, max, ps, compactAt, appliedAt, stats, before, Failure, stored);
        failed := true;
        return Failure;
      }
      r := AnswerStored(ps, compactAt, appliedAt, stats, before);
    }

    /** The rest of a batch that has been stored: apply it and reply. */
    method AnswerStored(ps: seq<Parsed>, ghost compactAt: nat, appliedAt: seq<nat>, stats: Bytes, ghost before: Image)
        returns (r: Outcome)
      requires Valid() && !failed && |appliedAt| == |ps| && AllStorable(config, OpsOf(ps))
      requires Contents() == before.cache && CountersOk(aof.maxBytes, before.counters)
      requires Stored(aof.maxBytes, before, compactAt, LogOf(ps), Shown())
      modifies `failed, cache.shards
      ensures Valid() && (failed <==> r.Failure?)
      ensures Handled(config, aof.maxBytes, ps, compactAt, appliedAt, stats, before, r, Shown())
    {
      hide CacheService.Valid, Stored, ExecuteAll, LogOf, OpsOf, AllStorable, Handled;
      ghost var stored := Shown();
      var replies := AnswerAll(ps, appliedAt, stats);
      Applied(config, aof.maxBytes, ps, compactAt, appliedAt, stats, before, stored, replies, Shown());
      if replies.None? {
        failed := true;
        return Failure;
      }
      r := Replies(replies.value);
    }

    /** Compacts if due. */
    method Prepare(ms: seq<Mutation>, compactAt: nat) returns (o: Aof.Outcome)
      requires Valid() && Writable(ms)
      modifies aof
      ensures Valid() && Contents() == old(Contents())
      ensures o.Done? ==> Prepared(aof.maxBytes, old(Shown()), compactAt, ms, Shown())
      ensures o.OverCapacity? ==> NoRoom(aof.maxBytes, old(Shown()), compactAt, ms, Shown())
      ensures ms == [] ==> o.Done? && Shown() == old(Shown()) && aof.trace == old(aof.trace)
      ensures |old(aof.trace)| <= |aof.trace| && aof.trace[..|old(aof.trace)|] == old(aof.trace)
      ensures forall i :: |old(aof.trace)| <= i < |aof.trace| ==> Snapshotted(Contents(), compactAt, aof.trace[i])
      ensures o.OverCapacity? ==> aof.disk == old(aof.disk)
    {
      hide ShardedCache.Valid, AofLogger.Valid, Writable, Encoded, SnapshotAll, SnapshotOf, Snapshotted;
      EncodedSize(ms);
      var due := aof.NeedsRewrite(ms);
      if !due {
        return Done;
      }
      o := CompactLocked(compactAt);
    }

    /** Compacts if due, then appends and syncs the batch. */
    method Persist(ms: seq<Mutation>, compactAt: nat) returns (o: Aof.Outcome)
      requires Valid() && Writable(ms)
      modifies aof
      ensures Valid() && Contents() == old(Contents())
      ensures o.Done? ==> Stored(aof.maxBytes, old(Shown()), compactAt, ms, Shown())
      ensures o.OverCapacity? ==> NoRoom(aof.maxBytes, old(Shown()), compactAt, ms, Shown())
      ensures ms == [] ==> o.Done? && aof.disk == old(aof.disk) && aof.trace == old(aof.trace)
      ensures |old(aof.trace)| <= |aof.trace| && aof.trace[..|old(aof.trace)|] == old(aof.trace)
      ensures forall i :: |old(aof.trace)| <= i < |aof.trace| ==>
                Storing(aof.trace[i], old(aof.disk), Contents(), compactAt, ms)
      ensures aof.disk == old(aof.disk) || Storing(aof.disk, old(aof.disk), Contents(), compactAt, ms)
    {
      hide ShardedCache.Valid, AofLogger.Valid, Writable, Encoded, ExtendsSynced, Snapshotted, NoRoom, Prepared;
      hide Appends;
      LoggerFacts(aof);
      ghost var start, was, image := aof.disk, aof.trace, Shown();
      o := Prepare(ms, compactAt);
      LoggerFacts(aof);
      forall i | |was| <= i < |aof.trace| ensures Storing(aof.trace[i], start, Contents(), compactAt, ms) {
        ExtendsNothing(aof.trace[i], Encoded(ms));
      }
      if !o.Done? {
        return;
      }
      ghost var base, mid := Shown(), aof.trace;
      BaseIs(aof.maxBytes, image, compactAt, ms, base);
      o := aof.LogBatch(ms);
      LoggerFacts(aof);
      forall i | |was| <= i < |aof.trace| ensures Storing(aof.trace[i], start, Contents(), compactAt, ms) {
        if i < |mid| { assert aof.trace[i] == aof.trace[..|mid|][i]; }
      }
      if o.Done? && ms != [] { AppendsIs(aof.maxBytes, base, ms, Shown()); }
      if o.OverCapacity? { NoRoomLeft(aof.maxBytes, image, compactAt, ms, base); }
    }
  }

  /**
   Startup: opens the log if it fits, replays it into an empty cache, and serves only if every
   record was well formed and storable.
   */
  method Open(c: Config, file: Bytes, synced: nat, max: nat, times: seq<nat>) returns (r: Option<CacheService>)
    requires Accepted(c) && synced <= |file| && |times| == |Scan(file).records|
    ensures r.Some? <==> |file| <= max && StartupAccepts(c, file)
    ensures r.Some? ==>
              && fresh(r.value) && r.value.Valid() && !r.value.failed && r.value.config == c
              && r.value.aof.disk == Disk(file, synced) && r.value.aof.started
              && r.value.Contents() == ApplyAll(c, Empty(c), Ops(Scan(file).records), times)
  {
    hide Scan, Meaningful, ApplyAll, AofLogger.Valid, ShardedCache.Valid;
    if |file| > max {
      return None;
    }
    var cache := new ShardedCache(c);
    var aof := new AofLogger(file, synced, max);
    var records, ok := AofCodec.Replay(file);
    ScanLoggable(file);
    hide AllLoggable;
    var loaded := Load(cache, records, times);
    if !loaded || !ok {
      return None;
    }
    aof.Start();
    var service := new CacheService(cache, aof);
    r := Some(service);
  }

  /** The replay callback on one record; false where it raises. */
  method LoadOne(cache: ShardedCache, m: Mutation, now: nat) returns (ok: bool)
    requires cache.Valid()
    modifies cache.shards
    ensures cache.Valid()
    ensures ok <==> Decode(m).Some? && Storable(cache.config, Decode(m).value)
    ensures ok ==> cache.Contents() == Apply(cache.config, old(cache.Contents()), Decode(m).value, now)
  {
    hide ShardedCache.Valid, AfterPut, AfterRemove;
    assert Accepted(cache.config) by { AcceptedConfig(cache); }
    hide CanStore;
    match Decode(m)
    case None => ok := false;
    case Some(Write(k, v, expires)) => ok := cache.Put(k, v, expires, now);
    case Some(Erase(k)) =>
      var _ := cache.Remove(k);
      ok := true;
  }

  lemma AcceptedConfig(cache: ShardedCache)
    requires cache.Valid()
    ensures Accepted(cache.config) && |cache.shards| == Count(cache.config)
  {}

  /** The replay callback over all delivered records; false where it raises. */
  method Load(cache: ShardedCache, records: seq<Record>, times: seq<nat>) returns (ok: bool)
    requires cache.Valid() && |times| == |records| && AllLoggable(records)
    modifies cache.shards
    ensures cache.Valid() && Accepted(cache.config) && |old(cache.Contents())| == Count(cache.config)
    ensures ok <==> Meaningful(records) && AllStorable(cache.config, Ops(records))
    ensures ok ==> cache.Contents() == ApplyAll(cache.config, old(cache.Contents()), Ops(records), times)
  {
    AcceptedConfig(cache);
    var c := cache.config;
    hide ShardedCache.Valid, Decode, Apply, Storable, Loggable;
    assert records[..0] == [] && times[..0] == [];
    for i := 0 to |records|
      invariant cache.Valid() && |cache.Contents()| == Count(c)
      invariant Meaningful(records[..i]) && AllStorable(c, Ops(records[..i]))
      invariant cache.Contents() == ApplyAll(c, old(cache.Contents()), Ops(records[..i]), times[..i])
    {
      assert records[i] in records;
      ghost var before := cache.Contents();
      ok := LoadOne(cache, records[i].m, times[i]);
      if !ok {
        ghost var bad := records[i];
        assert Meaningful(records) ==> Ops(records)[i] in Ops(records);
        return false;
      }
      LoadNext(c, old(cache.Contents()), records, times, i);
    }
    assert records[..|records|] == records && times[..|times|] == times;
    ok := true;
  }

  lemma LoadNext(c: Config, s: Cache, records: seq<Record>, times: seq<nat>, i: nat)
    requires Accepted(c) && |s| == Count(c) && |times| == |records| && i < |records|
    requires Meaningful(records[..i]) && AllStorable(c, Ops(records[..i]))
    requires Loggable(records[i].m) && Decode(records[i].m).Some? && Storable(c, Decode(records[i].m).value)
    ensures Meaningful(records[..i + 1]) && AllStorable(c, Ops(records[..i + 1]))
    ensures ApplyAll(c, s, Ops(records[..i + 1]), times[..i + 1])
         == Apply(c, ApplyAll(c, s, Ops(records[..i]), times[..i]), Decode(records[i].m).value, times[i])
  {
    hide Decode, Apply, Storable, Loggable;
    var op := Decode(records[i].m).value;
    assert records[..i + 1] == records[..i] + [records[i]];
    assert Meaningful([records[i]]) && Ops([records[i]]) == [op];
    OpsAppend(records[..i], [records[i]]);
    assert times[..i + 1] == times[..i] + [times[i]];
    ApplyAllAppend(c, s, Ops(records[..i]), times[..i], [op], [times[i]]);
    assert [op][1..] == [] && [times[i]][1..] == [];
    var mid := ApplyAll(c, s, Ops(records[..i]), times[..i]);
    assert ApplyAll(c, mid, [op], [times[i]]) == ApplyAll(c, Apply(c, mid, op, times[i]), [], []);
  }
}
