/**
 The service object refines the step system: whatever one batch does to the file and the cache is a
 run of its steps, and so is every file seen in between. Crash safety therefore holds of the object.
 */
module Refinement {
  import opened Common
  import opened AofCodec
  import opened Lru
  import opened Sharded
  import opened Semantics
  import opened LogOps
  import opened Durability
  import opened Aof
  import opened Service
  import opened CacheServices

  /** The file under the log's name is the one of the state. */
  ghost predicate Holds(s: State, d: Disk)
  {
    Readable(s.file) && d == Disk(LogBytes(s.file.records)[..s.file.written], s.file.synced)
  }

  /** A state of the step system stands for the disk and the cache of the service. */
  ghost predicate Represents(c: Config, s: State, d: Disk, cache: Cache)
  {
    Inv(c, s) && Holds(s, d) && s.cache == cache
  }

  lemma {:induction false} LeadsKeeps(c: Config, s: State, es: seq<Event>, t: State)
    requires Accepted(c) && Inv(c, s) && Leads(c, s, es, t)
    ensures Inv(c, t)
    decreases |es|
  {
    hide Inv, Enabled, After;
    if es != [] {
      StepKeeps(c, s, es[0]);
      LeadsKeeps(c, After(c, s, es[0]), es[1..], t);
    }
  }

  lemma LeadsThen(c: Config, s: State, es: seq<Event>, m: State, e: Event)
    requires Accepted(c) && Leads(c, s, es, m) && Enabled(c, m, e)
    ensures Leads(c, s, es + [e], After(c, m, e))
  {
    hide Leads, Enabled, After;
    LeadsOne(c, m, e);
    LeadsAppend(c, s, es, m, [e], After(c, m, e));
  }

  /** An idle log is completely written, and its bytes are those of its records. */
  lemma IdleDisk(c: Config, s: State, d: Disk, cache: Cache)
    requires Represents(c, s, d, cache) && s.phase.Idle?
    ensures Accepted(c) && |s.cache| == Count(c) && Meaningful(s.file.records) && AllLoggable(s.file.records)
    ensures s.file.written == LogSize(s.file.records) == |d.log| && d.log == LogBytes(s.file.records)
    ensures d.synced == s.file.synced
  {
    hide Within, Covers, CacheSound, Fold, FileShape, LogSize, LogBytes, Meaningful, AllLoggable;
    SoundSize(c, s.cache);
    ShapeFacts(c, s.file, s.history, s.now);
    MeaningfulLoggable(s.file.records);
  }

  // ----- Appending -----

  /** Part of a batch has been written. */
  function AppendState(s: State, ms: seq<Mutation>, ops: seq<Op>, k: nat): State
  {
    s.(file := s.file.(records := s.file.records + V2All(ms), written := s.file.written + k),
       phase := Appending(|ms|), history := s.history + ops)
  }

  /** The whole batch has been written and synced. */
  function SyncState(s: State, ms: seq<Mutation>, ops: seq<Op>): State
  {
    var size := s.file.written + LogSize(V2All(ms));
    s.(file := s.file.(records := s.file.records + V2All(ms), written := size, synced := size,
                       durable := |s.history + ops|),
       phase := Applying(|ms|), history := s.history + ops)
  }

  lemma AppendedBytes(rs: seq<Record>, ms: seq<Mutation>, k: nat)
    requires AllLoggable(rs) && Writable(ms) && k <= |Encoded(ms)|
    ensures AllLoggable(rs + V2All(ms)) && |Encoded(ms)| == LogSize(V2All(ms))
    ensures |LogBytes(rs + V2All(ms))| == LogSize(rs + V2All(ms)) == LogSize(rs) + |Encoded(ms)|
    ensures LogBytes(rs + V2All(ms))[..LogSize(rs) + k] == LogBytes(rs) + Encoded(ms)[..k]
  {
    hide LogBytes, LogSize, Loggable;
    assert AllLoggable(V2All(ms));
    LogBytesAppend(rs, V2All(ms));
    LogBytesSize(rs);
    LogBytesSize(V2All(ms));
    LogBytesSize(rs + V2All(ms));
    var a, b := LogBytes(rs), Encoded(ms);
    assert (a + b)[..|a| + k] == a + b[..k];
  }

  lemma BeginStep(c: Config, s: State, ms: seq<Mutation>, ops: seq<Op>)
    requires Accepted(c) && s.phase.Idle? && ms != [] && Logs(c, ms, ops)
    ensures Enabled(c, s, Begin(V2All(ms)))
    ensures After(c, s, Begin(V2All(ms))) == AppendState(s, ms, ops, 0)
  {
    hide Meaningful, AllStorable, Writable;
  }

  lemma WriteStep(c: Config, s: State, ms: seq<Mutation>, ops: seq<Op>, k: nat)
    requires Accepted(c) && s.file.written + k <= LogSize(s.file.records + V2All(ms))
    ensures var m := AppendState(s, ms, ops, 0);
            Enabled(c, m, WriteLog(k)) && After(c, m, WriteLog(k)) == AppendState(s, ms, ops, k)
  {
    hide LogSize;
  }

  lemma SyncStep(c: Config, s: State, ms: seq<Mutation>, ops: seq<Op>)
    requires Accepted(c) && s.file.written + LogSize(V2All(ms)) == LogSize(s.file.records + V2All(ms))
    ensures var m := AppendState(s, ms, ops, LogSize(V2All(ms)));
            Enabled(c, m, SyncLog) && After(c, m, SyncLog) == SyncState(s, ms, ops)
  {
    hide LogSize;
  }

  lemma AppendHolds(s: State, d: Disk, ms: seq<Mutation>, ops: seq<Op>, k: nat)
    requires AllLoggable(s.file.records) && Writable(ms) && k <= |Encoded(ms)|
    requires s.file.written == LogSize(s.file.records) == |d.log| && d.log == LogBytes(s.file.records)
    requires d.synced == s.file.synced
    ensures Holds(AppendState(s, ms, ops, k), Disk(d.log + Encoded(ms)[..k], d.synced))
    ensures k == |Encoded(ms)| ==> Holds(SyncState(s, ms, ops), Disk(d.log + Encoded(ms), |d.log| + |Encoded(ms)|))
    ensures |Encoded(ms)| == LogSize(V2All(ms))
    ensures LogSize(s.file.records + V2All(ms)) == s.file.written + |Encoded(ms)|
  {
    hide LogBytes, LogSize, AllLoggable, Writable, Encoded;
    AppendedBytes(s.file.records, ms, k);
    if k == |Encoded(ms)| { assert Encoded(ms)[..k] == Encoded(ms); }
  }

  lemma AppendLeads(c: Config, s: State, ms: seq<Mutation>, ops: seq<Op>, k: nat)
    requires Accepted(c) && s.phase.Idle? && ms != [] && Logs(c, ms, ops)
    requires s.file.written + k <= LogSize(s.file.records + V2All(ms))
    ensures Leads(c, s, [Begin(V2All(ms)), WriteLog(k)], AppendState(s, ms, ops, k))
  {
    hide Logs, LogSize, Leads, Enabled, After, AppendState;
    BeginStep(c, s, ms, ops);
    WriteStep(c, s, ms, ops, k);
    LeadsOne(c, s, Begin(V2All(ms)));
    LeadsThen(c, s, [Begin(V2All(ms))], AppendState(s, ms, ops, 0), WriteLog(k));
    assert [Begin(V2All(ms))] + [WriteLog(k)] == [Begin(V2All(ms)), WriteLog(k)];
  }

  lemma AppendSteps(c: Config, s: State, d: Disk, cache: Cache, ms: seq<Mutation>, ops: seq<Op>, k: nat)
    requires Represents(c, s, d, cache) && s.phase.Idle? && Accepted(c) && ms != [] && Logs(c, ms, ops)
    requires k <= |Encoded(ms)|
    ensures var t := AppendState(s, ms, ops, k);
            && Leads(c, s, [Begin(V2All(ms)), WriteLog(k)], t)
            && Represents(c, t, Disk(d.log + Encoded(ms)[..k], d.synced), cache)
  {
    IdleDisk(c, s, d, cache);
    hide Inv, Holds, Meaningful, AllLoggable, AllStorable, Writable, Encoded, LogBytes, LogSize, Leads;
    AppendHolds(s, d, ms, ops, k);
    AppendLeads(c, s, ms, ops, k);
    LeadsKeeps(c, s, [Begin(V2All(ms)), WriteLog(k)], AppendState(s, ms, ops, k));
  }

  lemma SyncSteps(c: Config, s: State, d: Disk, cache: Cache, ms: seq<Mutation>, ops: seq<Op>) returns (es: seq<Event>)
    requires Represents(c, s, d, cache) && s.phase.Idle? && Accepted(c) && ms != [] && Logs(c, ms, ops)
    ensures var t := SyncState(s, ms, ops);
            && Leads(c, s, es, t) && Awaits(t, ops)
            && Represents(c, t, Disk(d.log + Encoded(ms), |d.log| + |Encoded(ms)|), cache)
  {
    IdleDisk(c, s, d, cache);
    hide Inv, Holds, Meaningful, AllLoggable, AllStorable, Writable, Encoded, LogBytes, LogSize, Leads, Enabled, After;
    var size := |Encoded(ms)|;
    AppendHolds(s, d, ms, ops, size);
    AppendLeads(c, s, ms, ops, size);
    es := [Begin(V2All(ms)), WriteLog(size)];
    SyncStep(c, s, ms, ops);
    LeadsThen(c, s, es, AppendState(s, ms, ops, size), SyncLog);
    es := es + [SyncLog];
    LeadsKeeps(c, s, es, SyncState(s, ms, ops));
    assert (s.history + ops)[|s.history + ops| - |ops|..] == ops;
  }

  // ----- Rewriting -----

  /** The snapshot has been renamed over the log. */
  function RewriteState(s: State, at: nat): State
  {
    var f := SnapshotFile(s.(now := at));
    var size := LogSize(f.records);
    s.(now := at, file := f.(written := size, synced := size), phase := Published(s.file), gone := {})
  }

  /** The records a rewrite stores are the encoded snapshot of the cache. */
  lemma SnapshotBytes(cache: Cache, at: nat)
    requires Writable(SnapshotOf(cache, at))
    ensures var rs, ms := EntryRecords(SnapshotAll(cache, at)), SnapshotOf(cache, at);
            rs == V2All(ms) && AllLoggable(rs) && LogBytes(rs) == Encoded(ms) && |Encoded(ms)| == LogSize(rs)
  {
    hide SnapshotAll, Canonical, Loggable, LogBytes, LogSize;
    var rs, ms := EntryRecords(SnapshotAll(cache, at)), SnapshotOf(cache, at);
    assert rs == V2All(ms);
    LogBytesSize(rs);
  }

  function RewriteEvents(s: State, at: nat): seq<Event>
  {
    [Tick(at), StartRewrite, WriteTmp(LogSize(SnapshotFile(s.(now := at)).records)), SyncTmp, Rename]
  }

  lemma RewriteSteps(c: Config, s: State, d: Disk, cache: Cache, at: nat, after: Disk)
    requires Represents(c, s, d, cache) && s.phase.Idle? && Accepted(c) && s.now <= at && Snapshotted(cache, at, after)
    ensures Leads(c, s, RewriteEvents(s, at), RewriteState(s, at))
    ensures Represents(c, RewriteState(s, at), after, cache)
  {
    hide Inv, LogBytes, LogSize, SnapshotAll, AllLoggable, Writable, Encoded, Leads;
    SnapshotBytes(cache, at);
    RewriteLeads(c, s, at);
    LeadsKeeps(c, s, RewriteEvents(s, at), RewriteState(s, at));
    var b := LogBytes(EntryRecords(SnapshotAll(cache, at)));
    assert b[..|b|] == b;
  }

  lemma RewriteLeads(c: Config, s: State, at: nat)
    requires Accepted(c) && s.phase.Idle? && s.now <= at
    ensures Leads(c, s, RewriteEvents(s, at), RewriteState(s, at))
  {
    hide LogSize, SnapshotFile, Leads;
    var f, es := SnapshotFile(s.(now := at)), RewriteEvents(s, at);
    var size := LogSize(f.records);
    var s1 := s.(now := at);
    var s2 := s1.(phase := Rewriting(f));
    var s3 := s1.(phase := Rewriting(f.(written := size)));
    var s4 := s1.(phase := Rewriting(f.(written := size, synced := size)));
    assert SnapshotStart(f) by { SnapshotUnwritten(s1); }
    assert Enabled(c, s, Tick(at)) && After(c, s, Tick(at)) == s1;
    LeadsOne(c, s, Tick(at));
    LeadsThen(c, s, [Tick(at)], s1, StartRewrite);
    LeadsThen(c, s, [Tick(at)] + [StartRewrite], s2, WriteTmp(size));
    LeadsThen(c, s, [Tick(at)] + [StartRewrite] + [WriteTmp(size)], s3, SyncTmp);
    LeadsThen(c, s, [Tick(at)] + [StartRewrite] + [WriteTmp(size)] + [SyncTmp], s4, Rename);
    assert es == [Tick(at)] + [StartRewrite] + [WriteTmp(size)] + [SyncTmp] + [Rename];
    assert After(c, s4, Rename) == RewriteState(s, at);
  }

  predicate SnapshotStart(f: LogFile) { f.written == 0 && f.synced == 0 }

  lemma SnapshotUnwritten(s: State)
    ensures SnapshotStart(SnapshotFile(s))
  {}

  /** The directory is synced and the log is idle again. */
  lemma PublishStep(c: Config, s: State, es: seq<Event>, t: State, d: Disk, cache: Cache)
    requires Accepted(c) && Inv(c, s) && Leads(c, s, es, t) && Represents(c, t, d, cache) && t.phase.Published?
    ensures Leads(c, s, es + [SyncDirectory], t.(phase := Idle)) && Represents(c, t.(phase := Idle), d, cache)
  {
    hide Inv, Leads, Readable, LogBytes;
    LeadsThen(c, s, es, t, SyncDirectory);
    LeadsKeeps(c, s, es + [SyncDirectory], t.(phase := Idle));
  }

  /** Any state may fail; the file and the cache stay. */
  lemma FailStep(c: Config, s: State, es: seq<Event>, t: State, d: Disk, cache: Cache) returns (u: State)
    requires Accepted(c) && Inv(c, s) && Leads(c, s, es, t) && Represents(c, t, d, cache)
    ensures Leads(c, s, es + [Fail], u) && Represents(c, u, d, cache) && u.phase.Halted? && u.history == t.history
    ensures u.file == t.file && u.acked == t.acked && u.now == t.now
    ensures t.phase.Published? ==> u.phase == Halted(Some(t.phase.prior))
  {
    hide Inv, Leads, Readable, LogBytes;
    u := After(c, t, Fail);
    LeadsThen(c, s, es, t, Fail);
    LeadsKeeps(c, s, es + [Fail], u);
  }

  /**
   A rewrite of a log without legacy records is never refused: its snapshot can be encoded and is no
   longer than the log it replaces, which is within the limit.
   */
  lemma RewriteAccepted(c: Config, s: State, d: Disk, cache: Cache, at: nat)
    requires Represents(c, s, d, cache) && s.phase.Idle? && OnlyV2(s.file.records) && s.now <= at
    ensures Writable(SnapshotOf(cache, at)) && |Encoded(SnapshotOf(cache, at))| <= |d.log|
  {
    IdleDisk(c, s, d, cache);
    hide Inv, LogBytes, LogSize, SnapshotAll, AllLoggable, Encoded, Meaningful, Enabled, After, Loggable, OnlyV2;
    TickStep(c, s, at);
    StepKeeps(c, s, Tick(at));
    SnapshotWritable(c, s.(now := at));
    RewriteFits(c, s.(now := at));
    SnapshotBytes(cache, at);
  }

  lemma SnapshotWritable(c: Config, s: State)
    requires Inv(c, s) && s.phase.Idle?
    ensures Writable(SnapshotOf(s.cache, s.now))
  {
    assert Ops(s.file.records)[..|s.file.records|] == Ops(s.file.records);
    hide Within, Covers, CacheSound, Fold, FileShape, Meaningful, LogSize, AllStorable, SnapshotAll, Canonical;
    ShapeFacts(c, s.file, s.history, s.now);
    SnapshotRecordable(c, s.cache, s.file.records, s.now);
    var es := SnapshotAll(s.cache, s.now);
    forall m | m in SnapshotOf(s.cache, s.now) ensures Loggable(m) {
      var i :| 0 <= i < |es| && m == Canonical(EntryOp(es[i]));
      assert es[i] in es;
    }
  }

  // ----- One batch -----

  /** The base a batch is appended to: the log as it is, or the snapshot that has just replaced it. */
  lemma BaseSteps(c: Config, s: State, d: Disk, cache: Cache, at: nat, base: Disk) returns (es: seq<Event>, t: State)
    requires Represents(c, s, d, cache) && s.phase.Idle? && Accepted(c) && s.now <= at
    requires base == d || Snapshotted(cache, at, base)
    ensures Leads(c, s, es, t) && Represents(c, t, base, cache) && t.phase.Idle?
    ensures t.history == s.history && t.acked == s.acked && t.now == at && (base == d ==> t.file == s.file)
  {
    hide Inv, Leads, Snapshotted, LogBytes, Readable, SnapshotFile;
    if base == d {
      TickStep(c, s, at);
      LeadsOne(c, s, Tick(at));
      es, t := [Tick(at)], s.(now := at);
      LeadsKeeps(c, s, es, t);
    } else {
      RewriteSteps(c, s, d, cache, at, base);
      es, t := RewriteEvents(s, at), RewriteState(s, at);
      PublishStep(c, s, es, t, base, cache);
      es, t := es + [SyncDirectory], t.(phase := Idle);
    }
  }

  /** Every file seen while a batch is stored belongs to a state the step system reaches. */
  lemma StoringSteps(c: Config, s: State, before: Disk, cache: Cache, at: nat, ms: seq<Mutation>, ops: seq<Op>, d: Disk)
      returns (es: seq<Event>, t: State)
    requires Represents(c, s, before, cache) && s.phase.Idle? && Accepted(c) && s.now <= at && Logs(c, ms, ops)
    requires Storing(d, before, cache, at, ms) && ms != []
    ensures Leads(c, s, es, t) && Represents(c, t, d, cache)
    ensures t.history == s.history + ops && t.acked == s.acked && t.now == at
  {
    hide Inv, Leads, Snapshotted, LogBytes, Readable, Logs, Encoded;
    var base := before;
    if !ExtendsSynced(d, before, Encoded(ms)) {
      base :| Snapshotted(cache, at, base) && ExtendsSynced(d, base, Encoded(ms));
    }
    var first, m := BaseSteps(c, s, before, cache, at, base);
    var second, u := ExtendSteps(c, m, base, cache, ms, ops, d);
    es, t := first + second, u;
    LeadsAppend(c, s, first, m, second, t);
  }

  lemma ExtendSteps(c: Config, s: State, base: Disk, cache: Cache, ms: seq<Mutation>, ops: seq<Op>, d: Disk)
      returns (es: seq<Event>, t: State)
    requires Represents(c, s, base, cache) && s.phase.Idle? && Accepted(c) && Logs(c, ms, ops) && Writable(ms)
    requires ExtendsSynced(d, base, Encoded(ms)) && ms != []
    ensures Leads(c, s, es, t) && Represents(c, t, d, cache)
    ensures t.history == s.history + ops && t.acked == s.acked && t.now == s.now
  {
    hide Inv, Leads, LogBytes, Readable, Meaningful, AllStorable, Loggable;
    if Extends(d, base, Encoded(ms)) {
      var k := |d.log| - |base.log|;
      assert d.log == base.log + d.log[|base.log|..] && d.log[|base.log|..] == Encoded(ms)[..k];
      AppendSteps(c, s, base, cache, ms, ops, k);
      es, t := [Begin(V2All(ms)), WriteLog(k)], AppendState(s, ms, ops, k);
    } else {
      es := SyncSteps(c, s, base, cache, ms, ops);
      t := SyncState(s, ms, ops);
    }
  }

  /** The log part of a batch that goes through, if it has one. */
  lemma StoredSteps(c: Config, max: nat, s: State, before: Image, at: nat, ms: seq<Mutation>, ops: seq<Op>,
                    after: Image)
      returns (es: seq<Event>, t: State)
    requires Represents(c, s, before.disk, before.cache) && s.phase.Idle? && Accepted(c) && s.now <= at
    requires CountersOk(max, before.counters) && Logs(c, ms, ops) && Stored(max, before, at, ms, after)
    ensures Leads(c, s, es, t) && Represents(c, t, after.disk, before.cache) && Awaits(t, ops)
    ensures t.history == s.history + ops && t.acked == s.acked && t.now == at && (t.phase.Idle? <==> ms == [])
  {
    hide Inv, Leads, Snapshotted, Prepared, LogBytes, Readable, Meaningful, AllStorable, Encoded;
    if ms == [] {
      assert V2All(ms) == [] && ops == [] && s.history + [] == s.history;
      es, t := BaseSteps(c, s, before.disk, before.cache, at, before.disk);
    } else {
      var base :| Prepared(max, before, at, ms, base) && Appends(max, base, ms, after);
      BaseIs(max, before, at, ms, base);
      var first, m := BaseSteps(c, s, before.disk, before.cache, at, base.disk);
      var second := SyncSteps(c, m, base.disk, before.cache, ms, ops);
      es, t := first + second, SyncState(m, ms, ops);
      LeadsAppend(c, s, first, m, second, t);
    }
  }

  /** Storing a batch, then applying it until it is through or a reply cannot be built. */
  lemma ApplySteps(c: Config, max: nat, s: State, before: Image, at: nat, ps: seq<Parsed>, times: seq<nat>,
                   until: nat, stats: Bytes, after: Image) returns (es: seq<Event>, t: State)
    requires Represents(c, s, before.disk, before.cache) && s.phase.Idle? && Accepted(c) && s.now <= at
    requires |before.cache| == Count(c) && CountersOk(max, before.counters)
    requires |times| == |ps| && Ticking(times, at, until) && (forall p :: p in ps ==> Known(p))
    requires Logs(c, LogOf(ps), OpsOf(ps)) && Stored(max, before, at, LogOf(ps), after)
    ensures Leads(c, s, es, t) && t.history == s.history + OpsOf(ps) && t.acked == s.acked && t.now <= until
    ensures var run := ExecuteAll(c, before.cache, ps, times, stats);
            && Represents(c, t, after.disk, run.cache)
            && (run.ok ==> if LogOf(ps) == [] then t.phase.Idle? else t.phase == Applying(0))
  {
    hide Inv, Leads, LogBytes, Readable, Logs, Stored, ExecuteAll, Ticking, Known, LogOf;
    var first, m := StoredSteps(c, max, s, before, at, LogOf(ps), OpsOf(ps), after);
    var u, n := ExecutionIsSteps(c, m, ps, times, until, stats);
    var second := BatchEvents(ps[..n], times[..n]);
    es, t := first + second, u;
    LeadsAppend(c, s, first, m, second, t);
    LeadsKeeps(c, m, second, t);
    if n == |ps| { assert ps[n..] == [] && OpsOf(ps[n..]) == []; }
  }

  /** A rewrite that stops short of syncing the directory: either file may be found from now on. */
  lemma UnsyncedSteps(c: Config, s: State, before: Disk, cache: Cache, at: nat, after: Disk)
      returns (es: seq<Event>, t: State)
    requires Represents(c, s, before, cache) && s.phase.Idle? && Accepted(c) && s.now <= at
    requires Snapshotted(cache, at, after)
    ensures Leads(c, s, es, t) && Represents(c, t, after, cache) && t.phase == Halted(Some(s.file))
    ensures t.history == s.history && t.acked == s.acked && t.now == at
  {
    hide Inv, Leads, Snapshotted, Holds, Enabled, SnapshotFile;
    RewriteSteps(c, s, before, cache, at, after);
    var u := FailStep(c, s, RewriteEvents(s, at), RewriteState(s, at), after, cache);
    es, t := RewriteEvents(s, at) + [Fail], u;
  }

  /**
   One batch of the service is a run of the step system, whatever its outcome: answered, it ends idle
   with the batch acknowledged; rejected, it ends idle with the history as it was; failed, it ends
   halted. The run ends in a state that stands for the disk and the cache the service is left with.
   A failure that leaves the bare snapshot may be a failed directory sync, so the old log may still be
   found in its place.
   */
  lemma HandleBatchRefines(c: Config, max: nat, s: State, inputs: seq<Bytes>, parsedAt: seq<nat>, compactAt: nat,
                           appliedAt: seq<nat>, until: nat, stats: Bytes, before: Image, r: CacheServices.Outcome,
                           after: Image) returns (es: seq<Event>, t: State)
    requires Represents(c, s, before.disk, before.cache) && s.phase.Idle? && Accepted(c)
    requires |before.cache| == Count(c) && CountersOk(max, before.counters)
    requires |parsedAt| == |appliedAt| == |inputs| && AllBelow(parsedAt, CLOCK_LIMIT)
    requires s.now <= compactAt && Ticking(appliedAt, compactAt, until)
    requires Handled(c, max, ParseAll(c, inputs, parsedAt), compactAt, appliedAt, stats, before, r, after)
    ensures Leads(c, s, es, t) && Represents(c, t, after.disk, after.cache) && t.now <= until
    ensures var ps := ParseAll(c, inputs, parsedAt);
            var ops := OpsOf(ps);
            match r
            case Replies(_) =>
              && t.phase.Idle? && t.history == s.history + ops
              && t.acked == if ops == [] then s.acked else |t.history|
            case OverLimit => t.phase.Idle? && t.history == s.history && t.acked == s.acked
            case Failure =>
              && t.phase.Halted? && s.history <= t.history <= s.history + ops && t.acked == s.acked
              && (LogOf(ps) != [] && after.cache == before.cache && Snapshotted(before.cache, compactAt, after.disk)
                  ==> MayFind(t, s.file))
  {
    hide Inv, Leads, LogBytes, Readable, Logs, Stored, Storing, NoRoom, Snapshotted, ExecuteAll, Ticking, Known;
    hide LogOf, OpsOf, ParseAll;
    var ps := ParseAll(c, inputs, parsedAt);
    BatchLogged(c, inputs, parsedAt);
    ParsedKnown(c, inputs, parsedAt);
    TickingOrder(appliedAt, compactAt, until);
    var ms := LogOf(ps);
    match r
    case OverLimit =>
      NoRoomBase(max, before, compactAt, ms, after);
      es, t := BaseSteps(c, s, before.disk, before.cache, compactAt, after.disk);
    case Replies(_) =>
      es, t := ApplySteps(c, max, s, before, compactAt, ps, appliedAt, until, stats, after);
      LogsBoth(c, ms, OpsOf(ps));
      if ms != [] {
        AcknowledgeStep(c, s, es, t, after.disk, after.cache);
        es, t := es + [Acknowledge], t.(phase := Idle, acked := |t.history|);
      }
    case Failure =>
      es, t := FailureSteps(c, max, s, ps, compactAt, appliedAt, until, stats, before, after);
  }

  lemma NoRoomBase(max: nat, before: Image, at: nat, ms: seq<Mutation>, after: Image)
    requires CountersOk(max, before.counters) && NoRoom(max, before, at, ms, after)
    ensures after.disk == before.disk || Snapshotted(before.cache, at, after.disk)
  {
    hide Writable, Encoded, SnapshotOf, Due, Snapshotted;
  }

  /** The failed batches: nothing stored, part of the batch stored, or a reply that cannot be built. */
  lemma FailureSteps(c: Config, max: nat, s: State, ps: seq<Parsed>, at: nat, times: seq<nat>, until: nat,
                     stats: Bytes, before: Image, after: Image) returns (es: seq<Event>, t: State)
    requires Represents(c, s, before.disk, before.cache) && s.phase.Idle? && Accepted(c) && s.now <= at <= until
    requires |before.cache| == Count(c) && CountersOk(max, before.counters)
    requires |times| == |ps| && Ticking(times, at, until) && (forall p :: p in ps ==> Known(p))
    requires Logs(c, LogOf(ps), OpsOf(ps)) && Handled(c, max, ps, at, times, stats, before, Failure, after)
    ensures Leads(c, s, es, t) && Represents(c, t, after.disk, after.cache) && t.now <= until
    ensures t.phase.Halted? && s.history <= t.history <= s.history + OpsOf(ps) && t.acked == s.acked
    ensures LogOf(ps) != [] && after.cache == before.cache && Snapshotted(before.cache, at, after.disk)
            ==> MayFind(t, s.file)
  {
    hide Inv, Leads, LogBytes, Readable, Logs, Stored, Storing, Snapshotted, ExecuteAll, Ticking, Known;
    hide LogOf, OpsOf;
    var run, ms := ExecuteAll(c, before.cache, ps, times, stats), LogOf(ps);
    if ms != [] && after.cache == before.cache && Snapshotted(before.cache, at, after.disk) {
      es, t := UnsyncedSteps(c, s, before.disk, before.cache, at, after.disk);
    } else {
      if !run.ok && after.cache == run.cache && Stored(max, before, at, ms, after) {
        es, t := ApplySteps(c, max, s, before, at, ps, times, until, stats, after);
      } else if after.disk == before.disk {
        es, t := BaseSteps(c, s, before.disk, before.cache, at, before.disk);
      } else {
        es, t := StoringSteps(c, s, before.disk, before.cache, at, ms, OpsOf(ps), after.disk);
      }
      var u := FailStep(c, s, es, t, after.disk, after.cache);
      es, t := es + [Fail], u;
    }
  }

  lemma LogsBoth(c: Config, ms: seq<Mutation>, ops: seq<Op>)
    requires Accepted(c) && Logs(c, ms, ops)
    ensures ms == [] <==> ops == []
  {
    hide Meaningful, AllStorable;
  }

  lemma AcknowledgeStep(c: Config, s: State, es: seq<Event>, t: State, d: Disk, cache: Cache)
    requires Accepted(c) && Inv(c, s) && Leads(c, s, es, t) && Represents(c, t, d, cache) && t.phase == Applying(0)
    ensures var u := t.(phase := Idle, acked := |t.history|);
            Leads(c, s, es + [Acknowledge], u) && Represents(c, u, d, cache)
  {
    hide Inv, Leads, Readable, LogBytes;
    LeadsThen(c, s, es, t, Acknowledge);
    LeadsKeeps(c, s, es + [Acknowledge], t.(phase := Idle, acked := |t.history|));
  }

  // ----- Startup -----

  /** The state a service starts in when it opens a file of which the first `synced` bytes are synced. */
  ghost function Started(c: Config, file: Bytes, synced: nat, times: seq<nat>, now: nat): State
    requires Accepted(c) && StartupAccepts(c, file) && |times| == |Scan(file).records|
  {
    hide Scan;
    var rs := Scan(file).records;
    State(LogFile(rs, |file|, synced, 0, 0, Complete(rs, synced), {}), Idle, Ops(rs), 0,
          ApplyAll(c, Empty(c), Ops(rs), times), Gone(c, Empty(c), {}, Ops(rs), times), now)
  }

  /** What `Open` builds from an accepted file is an initial state of the step system. */
  lemma OpenStarts(c: Config, file: Bytes, synced: nat, times: seq<nat>, from: nat, now: nat)
    requires Accepted(c) && StartupAccepts(c, file) && synced <= |file|
    requires |times| == |Scan(file).records| && Ticking(times, from, now)
    ensures var s := Started(c, file, synced, times, now);
            Initial(c, s, times, from) && Represents(c, s, Disk(file, synced), s.cache)
  {
    hide Scan, LogBytes, LogSize, ApplyAll, Gone, Ticking, Meaningful, AllStorable, Inv, AllLoggable, Complete;
    ScanOnlyLogs(file);
    var s := Started(c, file, synced, times, now);
    MeaningfulLoggable(s.file.records);
    CompleteIsGreatest(s.file.records, synced);
    InitialOk(c, s, times, from);
    assert file[..|file|] == file;
  }

  /**
   What `Open` builds from the bytes a crash leaves is the state after a restart. Every acknowledged
   operation is still in its history.
   */
  lemma OpenRestarts(c: Config, s: State, f: LogFile, n: nat, times: seq<nat>, until: nat)
    requires Inv(c, s) && Accepted(c) && MayFind(s, f) && Survives(f, n) && StartupAccepts(c, Leftover(f, n))
    requires |times| == |Scan(Leftover(f, n)).records| && Ticking(times, s.now, until)
    ensures var e, file := Restart(f, n, times, until), Leftover(f, n);
            && Enabled(c, s, e)
            && var t := After(c, s, e);
               && Represents(c, t, Disk(file, f.synced), ApplyAll(c, Empty(c), Ops(Scan(file).records), times))
               && t.phase.Idle? && t.now == until && t.acked == s.acked <= |t.history| && t.history <= s.history
  {
    RestartEnabled(c, s, f, n, times, until);
    AfterRestart(c, s, f, n, times, until);
    RestartIs(c, s, f, n, times, until);
    var e := Restart(f, n, times, until);
    hide Inv, Scan, Holds, Enabled, After, Leftover, ApplyAll, Ticking, Meaningful, Survives, StartupAccepts;
    hide Restarted;
    StepKeeps(c, s, e);
    AckedKept(c, After(c, s, e));
  }

  lemma RestartEnabled(c: Config, s: State, f: LogFile, n: nat, times: seq<nat>, until: nat)
    requires Accepted(c) && MayFind(s, f) && Survives(f, n) && StartupAccepts(c, Leftover(f, n))
    requires |times| == |Scan(Leftover(f, n)).records| && Ticking(times, s.now, until)
    ensures Enabled(c, s, Restart(f, n, times, until)) && Meaningful(Scan(Leftover(f, n)).records)
  {
    hide Scan, Leftover, Ticking, Meaningful, Survives;
  }

  lemma AfterRestart(c: Config, s: State, f: LogFile, n: nat, times: seq<nat>, until: nat)
    requires Accepted(c) && Enabled(c, s, Restart(f, n, times, until))
    ensures Accepts(c, f, n) && |times| == |LeftRecords(f, n)|
    ensures After(c, s, Restart(f, n, times, until)) == Restarted(c, s, f, n, times, until)
  {
    hide Accepts, LeftRecords, Ticking, Survives, Restarted;
  }

  lemma RestartIs(c: Config, s: State, f: LogFile, n: nat, times: seq<nat>, until: nat)
    requires Accepted(c) && Survives(f, n) && Accepts(c, f, n) && |times| == |LeftRecords(f, n)|
    ensures var t, file := Restarted(c, s, f, n, times, until), Leftover(f, n);
            && LeftRecords(f, n) == Scan(file).records
            && Holds(t, Disk(file, f.synced)) && t.phase.Idle? && t.now == until
            && t.acked == s.acked && t.history <= s.history
            && t.cache == ApplyAll(c, Empty(c), Ops(Scan(file).records), times)
  {
    assert Scan(Leftover(f, n)).ok by { hide Scan, Leftover; }
    RestartedHolds(f, n);
    hide Scan, Leftover, Meaningful, Survives, LogBytes, AllLoggable, ApplyAll, Gone, AllStorable, Accepts;
  }

  lemma AckedKept(c: Config, s: State)
    requires Inv(c, s)
    ensures s.acked <= |s.history|
  {
    hide FileShape, PhaseOk, LogSize;
    ShapeFacts(c, s.file, s.history, s.now);
  }

  lemma RestartedHolds(f: LogFile, n: nat)
    requires Survives(f, n) && Scan(Leftover(f, n)).ok
    ensures var rs := LeftRecords(f, n);
            && AllLoggable(rs) && LogBytes(rs) == Leftover(f, n) && |Leftover(f, n)| == n
            && LogBytes(rs)[..n] == LogBytes(rs)
  {
    hide Scan, LogBytes, AllLoggable;
    ScanOnlyLogs(Leftover(f, n));
  }

  // ----- Crash safety of the service -----

  /**
   Crash safety of the service object. Let `d` be anything that was under the log's name while a batch
   was handled, and let a crash keep its first `n` bytes. Startup accepts them if and only if they end on
   a record boundary; they then stand for a prefix of the history that contains every acknowledged
   operation, and agree with it on every key.
   */
  lemma CrashDuringBatch(c: Config, s: State, inputs: seq<Bytes>, parsedAt: seq<nat>, at: nat, before: Disk,
                         cache: Cache, d: Disk, n: nat, k: Key) returns (t: State)
    requires Represents(c, s, before, cache) && s.phase.Idle? && Accepted(c) && s.now <= at
    requires |parsedAt| == |inputs| && AllBelow(parsedAt, CLOCK_LIMIT) && LogOf(ParseAll(c, inputs, parsedAt)) != []
    requires Storing(d, before, cache, at, LogOf(ParseAll(c, inputs, parsedAt))) && d.synced <= n <= |d.log|
    ensures t.history == s.history + OpsOf(ParseAll(c, inputs, parsedAt)) && t.acked == s.acked && t.now == at
    ensures Represents(c, t, d, cache) && Leftover(t.file, n) == d.log[..n] && Survives(t.file, n)
    ensures StartupAccepts(c, d.log[..n]) <==> OnBoundary(t.file, n)
    ensures var j := Reached(t, t.file, n);
            StartupAccepts(c, d.log[..n]) ==>
              s.acked <= j && KeyAgrees(RecoveredView(t.file, n), t.history[..j], Missing(t, t.file, j), at, k)
  {
    hide Inv, Leads, LogBytes, Readable, Logs, Storing, LogOf, OpsOf, ParseAll, Scan, StartupAccepts;
    hide OnBoundary, KeyAgrees;
    var ps := ParseAll(c, inputs, parsedAt);
    BatchLogged(c, inputs, parsedAt);
    var es, u := StoringSteps(c, s, before, cache, at, LogOf(ps), OpsOf(ps), d);
    t := u;
    HeldBytes(t, d, n);
    hide Leftover, Holds, Survives, Reached, RecoveredView, LeftRecords, Missing;
    CrashFromState(c, t, t.file, n);
    var j := Reached(t, t.file, n);
    if StartupAccepts(c, d.log[..n]) {
      MirrorKey(RecoveredView(t.file, n), t.history[..j], Missing(t, t.file, j), at, k);
    }
  }

  lemma HeldBytes(s: State, d: Disk, n: nat)
    requires Holds(s, d) && d.synced <= n <= |d.log|
    ensures s.file.synced <= n <= s.file.written && Leftover(s.file, n) == d.log[..n] && Survives(s.file, n)
  {
    hide LogBytes;
    assert LogBytes(s.file.records)[..s.file.written][..n] == LogBytes(s.file.records)[..n];
  }
}
