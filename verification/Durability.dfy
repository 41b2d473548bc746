/**
 The write-ahead log, the rewrite and the cache as one step system. A step is one system call or
 one callback; between any two of them the process may die. A crash keeps the synced bytes of a
 file and any prefix of the bytes written after them, and until the directory is synced either the
 old or the new file may be found under the log's name.
 */
module Durability {
  import opened Common
  import opened AofCodec
  import opened Lru
  import opened Sharded
  import opened Semantics
  import opened LogOps

  datatype LogFile = LogFile(
    records: seq<Record>,  // all the process has set out to store in the file
    written: nat,          // bytes of it handed to the kernel
    synced: nat,           // bytes that survive a crash
    base: nat,             // leading records that came from a snapshot
    at: nat,               // history position the snapshot stands for
    durable: nat,          // history position the synced bytes guarantee
    lost: set<Key>)        // keys evicted before the snapshot, hence not in it

  datatype Phase =
    | Idle
    | Appending(count: nat)       // the last `count` records are a batch being written
    | Applying(count: nat)        // the batch is synced; its last `count` operations are not yet applied
    | Rewriting(tmp: LogFile)     // a snapshot is being written to a temporary file
    | Published(prior: LogFile)     // renamed over the log, directory not yet synced
    | Halted(other: Option<LogFile>)  // storage failed; only a restart helps

  datatype State = State(
    file: LogFile,
    phase: Phase,
    history: seq<Op>,  // every operation appended and not lost, in order
    acked: nat,        // every acknowledged operation lies below this position
    cache: Cache,
    gone: set<Key>,    // keys evicted from the cache since the file was opened or rewritten
    now: nat)

  datatype Event =
    | Tick(now: nat)
    | Read(key: Key)
    | Begin(batch: seq<Record>)
    | WriteLog(n: nat)
    | SyncLog
    | ApplyNext
    | Acknowledge
    | StartRewrite
    | WriteTmp(n: nat)
    | SyncTmp
    | Rename
    | SyncDirectory
    | AbandonRewrite
    | Fail
    | Restart(file: LogFile, n: nat, times: seq<nat>, until: nat)

  // ----- What startup does with the bytes it finds -----

  predicate AllStorable(c: Config, ops: seq<Op>)
    requires Accepted(c)
  {
    forall op :: op in ops ==> Storable(c, op)
  }

  /** Startup succeeds: every record is well formed and every store fits its shard. */
  predicate StartupAccepts(c: Config, b: Bytes)
    requires Accepted(c)
  {
    var r := Scan(b);
    r.ok && Meaningful(r.records) && AllStorable(c, Ops(r.records))
  }

  // ----- What a crash leaves -----

  ghost predicate Readable(f: LogFile)
  {
    AllLoggable(f.records) && f.written <= |LogBytes(f.records)|
  }

  /** The first `n` bytes of what was written. */
  ghost function Leftover(f: LogFile, n: nat): Bytes
  {
    if Readable(f) && n <= f.written then LogBytes(f.records)[..n] else []
  }

  ghost predicate Survives(f: LogFile, n: nat)
  {
    Readable(f) && f.synced <= n <= f.written
  }

  ghost function LeftRecords(f: LogFile, n: nat): seq<Record> { Scan(Leftover(f, n)).records }

  ghost predicate Accepts(c: Config, f: LogFile, n: nat)
    requires Accepted(c)
    ensures Accepts(c, f, n) ==> Meaningful(LeftRecords(f, n)) && AllStorable(c, Ops(LeftRecords(f, n)))
  {
    StartupAccepts(c, Leftover(f, n))
  }

  /** What the leftover bytes fold to, before budgets and the clock. */
  ghost function RecoveredView(f: LogFile, n: nat): View
  {
    if Meaningful(LeftRecords(f, n)) then Fold(Ops(LeftRecords(f, n))) else map[]
  }

  /** The cut falls between two records. */
  ghost predicate OnBoundary(f: LogFile, n: nat)
  {
    LogSize(f.records[..Complete(f.records, n)]) == n
  }

  // ----- Steps -----

  /** The files a restart may find under the log's name. */
  predicate MayFind(s: State, f: LogFile)
  {
    || f == s.file
    || (s.phase.Published? && f == s.phase.prior)
    || (s.phase.Halted? && s.phase.other == Some(f))
  }

  /** Keys that file `f` lacks because they were evicted before it was written and not stored since. */
  function Missing(s: State, f: LogFile, j: nat): set<Key>
  {
    if f.at <= j <= |s.history| then f.lost - Written(s.history[f.at..j]) else f.lost
  }

  /** A snapshot of the cache lacks what the current file lacks and what the cache has evicted since. */
  function SnapshotFile(s: State): LogFile
  {
    var records := EntryRecords(SnapshotAll(s.cache, s.now));
    LogFile(records, 0, 0, |records|, |s.history|, |s.history|, Missing(s, s.file, |s.history|) + s.gone)
  }

  ghost predicate Enabled(c: Config, s: State, e: Event)
    requires Accepted(c)
  {
    match e
    case Tick(now) => s.now <= now
    case Read(_) => (s.phase.Idle? || s.phase.Published? || s.phase.Applying?) && |s.cache| == Count(c)
    case Begin(batch) =>
      s.phase.Idle? && batch != [] && Meaningful(batch)
      && (forall r :: r in batch ==> r.V2?) && AllStorable(c, Ops(batch))
    case WriteLog(n) => s.phase.Appending? && s.file.written + n <= LogSize(s.file.records)
    case SyncLog => s.phase.Appending? && s.file.written == LogSize(s.file.records)
    case ApplyNext => s.phase.Applying? && 0 < s.phase.count <= |s.history| && |s.cache| == Count(c)
    case Acknowledge => s.phase == Applying(0)
    case StartRewrite => s.phase.Idle?
    case WriteTmp(n) => s.phase.Rewriting? && s.phase.tmp.written + n <= LogSize(s.phase.tmp.records)
    case SyncTmp => s.phase.Rewriting? && s.phase.tmp.written == LogSize(s.phase.tmp.records)
    case Rename => s.phase.Rewriting? && s.phase.tmp.synced == LogSize(s.phase.tmp.records)
    case SyncDirectory => s.phase.Published?
    case AbandonRewrite => s.phase.Rewriting?
    case Fail => true
    case Restart(f, n, times, until) =>
      && MayFind(s, f) && Survives(f, n) && Accepts(c, f, n)
      && |times| == |LeftRecords(f, n)| && Ticking(times, s.now, until)
  }

  ghost function After(c: Config, s: State, e: Event): State
    requires Accepted(c) && Enabled(c, s, e)
  {
    match e
    case Tick(now) => s.(now := now)
    case Read(k) => s.(cache := AfterGet(c, s.cache, k, s.now))
    case Begin(batch) =>
      s.(file := s.file.(records := s.file.records + batch),
         phase := Appending(|batch|), history := s.history + Ops(batch))
    case WriteLog(n) => s.(file := s.file.(written := s.file.written + n))
    case SyncLog =>
      s.(file := s.file.(synced := s.file.written, durable := |s.history|), phase := Applying(s.phase.count))
    case ApplyNext =>
      var op := s.history[|s.history| - s.phase.count];
      s.(phase := Applying(s.phase.count - 1), cache := Apply(c, s.cache, op, s.now),
         gone := (s.gone - {op.key}) + Evicted(c, s.cache, op, s.now))
    case Acknowledge => s.(phase := Idle, acked := |s.history|)
    case StartRewrite => s.(phase := Rewriting(SnapshotFile(s)))
    case WriteTmp(n) => s.(phase := Rewriting(s.phase.tmp.(written := s.phase.tmp.written + n)))
    case SyncTmp => s.(phase := Rewriting(s.phase.tmp.(synced := s.phase.tmp.written)))
    case Rename => s.(file := s.phase.tmp, phase := Published(s.file), gone := {})
    case SyncDirectory => s.(phase := Idle)
    case AbandonRewrite => s.(phase := Idle)
    case Fail =>
      s.(phase := Halted(if s.phase.Published? then Some(s.phase.prior)
                         else if s.phase.Halted? then s.phase.other else None))
    case Restart(f, n, times, until) =>
      hide Accepts, LeftRecords;
      Restarted(c, s, f, n, times, until)
  }

  /** The state after startup has replayed the first `n` bytes of `f`. */
  ghost function Restarted(c: Config, s: State, f: LogFile, n: nat, times: seq<nat>, until: nat): State
    requires Accepted(c) && Accepts(c, f, n) && |times| == |LeftRecords(f, n)|
  {
    hide Accepts, LeftRecords;
    var records := LeftRecords(f, n);
    State(f.(records := records, written := n), Idle, s.history[..Recovered(s, f, |records|)], s.acked,
          ApplyAll(c, Empty(c), Ops(records), times), Gone(c, Empty(c), {}, Ops(records), times), until)
  }

  /** History position that `k` records of file `f` stand for. */
  function Recovered(s: State, f: LogFile, k: nat): (j: nat)
    ensures j <= |s.history|
  {
    if f.base <= k && f.at + k - f.base <= |s.history| then f.at + k - f.base else |s.history|
  }

  // ----- Invariant -----

  /** The records of a file are its snapshot followed by the history since. */
  ghost predicate FileShape(c: Config, f: LogFile, history: seq<Op>, now: nat)
    requires Accepted(c)
  {
    && Meaningful(f.records) && AllStorable(c, Ops(f.records))
    && f.synced <= f.written <= LogSize(f.records)
    && f.base <= |f.records| && f.at <= f.durable <= |history|
    && Ops(f.records)[f.base..] == history[f.at..]
    && Mirrors(Fold(Ops(f.records)[..f.base]), Fold(history[..f.at]), f.lost, now)
  }

  /** The synced bytes cover the snapshot and the history up to `durable`. */
  ghost predicate Anchored(f: LogFile)
  {
    && f.at <= f.durable && f.base + f.durable - f.at <= |f.records|
    && LogSize(f.records[..f.base + f.durable - f.at]) <= f.synced
  }

  ghost predicate FileOk(c: Config, f: LogFile, history: seq<Op>, acked: nat, now: nat)
    requires Accepted(c)
  {
    FileShape(c, f, history, now) && Anchored(f) && acked <= f.durable
  }

  /** The cache lies between nothing and the fold of the first `n` log records. */
  ghost predicate CacheOk(c: Config, s: State, n: nat)
    requires Accepted(c)
  {
    && CacheSound(c, s.cache) && Meaningful(s.file.records) && n <= |s.file.records|
    && Within(c, s.cache, Fold(Ops(s.file.records)[..n]), s.now)
    && Covers(c, s.cache, Fold(Ops(s.file.records)[..n]), s.gone, s.now)
  }

  /** Logged operations not yet applied to the cache. */
  function Pending(s: State): nat { if s.phase.Appending? || s.phase.Applying? then s.phase.count else 0 }

  ghost predicate PhaseOk(c: Config, s: State)
    requires Accepted(c)
  {
    match s.phase
    case Idle => s.file.written == LogSize(s.file.records) && CacheOk(c, s, |s.file.records|)
    case Appending(count) =>
      && s.file.base + count <= |s.file.records| && count <= |s.history|
      && CacheOk(c, s, |s.file.records| - count)
    case Applying(count) =>
      && s.file.base + count <= |s.file.records| && count <= |s.history|
      && s.file.written == LogSize(s.file.records) && s.file.durable == |s.history|
      && CacheOk(c, s, |s.file.records| - count)
    case Rewriting(tmp) =>
      && s.file.written == LogSize(s.file.records) && CacheOk(c, s, |s.file.records|)
      && FileShape(c, tmp, s.history, s.now) && tmp.base == |tmp.records| && tmp.durable == tmp.at == |s.history|
      && Within(c, s.cache, Fold(Ops(tmp.records)), s.now)
      && Covers(c, s.cache, Fold(Ops(tmp.records)), {}, s.now)
    case Published(prior) =>
      && s.file.written == LogSize(s.file.records) && CacheOk(c, s, |s.file.records|)
      && FileOk(c, prior, s.history, s.acked, s.now)
    case Halted(other) => other.Some? ==> FileOk(c, other.value, s.history, s.acked, s.now)
  }

  ghost predicate Inv(c: Config, s: State)
  {
    Accepted(c) && FileOk(c, s.file, s.history, s.acked, s.now) && PhaseOk(c, s)
  }

  // ----- Recovery from one file -----

  lemma {:induction false} LogSizeMonotone(rs: seq<Record>, m: nat, n: nat)
    requires m <= n <= |rs|
    ensures LogSize(rs[..m]) <= LogSize(rs[..n])
    ensures m < n ==> LogSize(rs[..m]) < LogSize(rs[..n])
    decreases m
  {
    if m == 0 {
      if n > 0 { assert rs[..n][1..] == rs[1..n]; }
    } else {
      assert rs[..m][1..] == rs[1..][..m - 1] && rs[..n][1..] == rs[1..][..n - 1];
      LogSizeMonotone(rs[1..], m - 1, n - 1);
    }
  }

  lemma MeaningfulLoggable(rs: seq<Record>)
    requires Meaningful(rs)
    ensures AllLoggable(rs) && |LogBytes(rs)| == LogSize(rs)
  {
    assert AllLoggable(rs);
    LogBytesSize(rs);
  }

  lemma FoldSplit(ops: seq<Op>, i: nat, j: nat)
    requires i <= j <= |ops|
    ensures Fold(ops[..j]) == FoldFrom(Fold(ops[..i]), ops[i..j])
  {
    assert ops[..j] == ops[..i] + ops[i..j];
    FoldAppend(map[], ops[..i], ops[i..j]);
  }

  /** Cutting a file at a record boundary past the synced bytes loses nothing durable. */
  lemma CutMirrors(c: Config, f: LogFile, history: seq<Op>, now: nat, k: nat)
    requires Accepted(c) && FileShape(c, f, history, now) && f.base <= k <= |f.records|
    ensures f.at + k - f.base <= |history|
    ensures var j := f.at + k - f.base;
            && Ops(f.records)[f.base..k] == history[f.at..j]
            && Mirrors(Fold(Ops(f.records)[..k]), Fold(history[..j]), f.lost - Written(history[f.at..j]), now)
  {
    hide Fold, Mirrors, AllStorable, Meaningful, Written;
    var ops, j := Ops(f.records), f.at + k - f.base;
    assert |ops[f.base..]| == |history[f.at..]|;
    assert ops[f.base..k] == ops[f.base..][..k - f.base];
    assert history[f.at..j] == history[f.at..][..k - f.base];
    FoldSplit(ops, f.base, k);
    FoldSplit(history, f.at, j);
    MirrorRun(Fold(ops[..f.base]), Fold(history[..f.at]), f.lost, now, history[f.at..j]);
  }

  /** Whole records in a prefix that reaches past the first `d` records number at least `d`. */
  lemma CompleteAtLeast(rs: seq<Record>, n: nat, d: nat)
    requires d <= |rs| && LogSize(rs[..d]) <= n
    ensures d <= Complete(rs, n)
  {
    hide LogSize, Complete;
    CompleteIsGreatest(rs, n);
    var k := Complete(rs, n);
    if k < d { LogSizeMonotone(rs, k + 1, d); }
  }

  lemma PrefixStorable(c: Config, rs: seq<Record>, k: nat)
    requires Accepted(c) && Meaningful(rs) && AllStorable(c, Ops(rs)) && k <= |rs|
    ensures Meaningful(rs[..k]) && Ops(rs[..k]) == Ops(rs)[..k] && AllStorable(c, Ops(rs[..k]))
  {
    hide Decode, Loggable, Storable;
    OpsSlice(rs, 0, k);
    assert rs[0..k] == rs[..k] && Ops(rs)[0..k] == Ops(rs)[..k];
  }

  lemma ScanLeftover(f: LogFile, n: nat)
    requires AllLoggable(f.records) && f.written <= LogSize(f.records) && n <= f.written
    ensures Readable(f) && Complete(f.records, n) <= |f.records|
    ensures Scan(Leftover(f, n)) == ScanResult(f.records[..Complete(f.records, n)], OnBoundary(f, n))
  {
    hide LogBytes, Scan, LogSize, Complete, AllLoggable;
    ScanPrefix(f.records, n);
  }

  /**
   Recovery from one file: what a crash leaves is accepted exactly when it ends on a record
   boundary, and then it holds no fewer records than the durable ones.
   */
  lemma RecoverFile(c: Config, f: LogFile, history: seq<Op>, acked: nat, now: nat, n: nat)
    requires Accepted(c) && FileOk(c, f, history, acked, now) && f.synced <= n <= f.written
    ensures Readable(f)
    ensures Accepts(c, f, n) <==> OnBoundary(f, n)
    ensures Accepts(c, f, n) ==>
              var k := Complete(f.records, n);
              && LeftRecords(f, n) == f.records[..k] && f.base + f.durable - f.at <= k <= |f.records|
              && Meaningful(f.records[..k]) && Ops(f.records[..k]) == Ops(f.records)[..k]
  {
    hide Leftover, Scan, Mirrors, Fold, Complete, LogSize, Meaningful, AllStorable, AllLoggable, OnBoundary, Readable;
    hide FileShape, Ops, Accepted;
    ShapeFacts(c, f, history, now);
    MeaningfulLoggable(f.records);
    ScanLeftover(f, n);
    PrefixStorable(c, f.records, Complete(f.records, n));
    CompleteAtLeast(f.records, n, f.base + f.durable - f.at);
  }

  // ----- Every step keeps the invariant -----

  lemma MirrorsLater(m: View, v: View, gone: set<Key>, now: nat, later: nat)
    requires Mirrors(m, v, gone, now) && now <= later
    ensures Mirrors(m, v, gone, later)
  {}

  lemma MirrorsTrans(a: View, b: View, v: View, g: set<Key>, h: set<Key>, now: nat)
    requires Mirrors(a, b, g, now) && Mirrors(b, v, h, now)
    ensures Mirrors(a, v, g + h, now)
  {}

  lemma MirrorsMore(a: View, v: View, g: set<Key>, h: set<Key>, now: nat)
    requires Mirrors(a, v, g, now) && g <= h
    ensures Mirrors(a, v, h, now)
  {}

  lemma ShapeLater(c: Config, f: LogFile, history: seq<Op>, now: nat, later: nat)
    requires Accepted(c) && FileShape(c, f, history, now) && now <= later
    ensures FileShape(c, f, history, later)
  {
    hide Mirrors, Fold, Meaningful, AllStorable, LogSize;
    MirrorsLater(Fold(Ops(f.records)[..f.base]), Fold(history[..f.at]), f.lost, now, later);
  }

  lemma CacheLater(c: Config, s: State, n: nat, later: nat)
    requires Accepted(c) && CacheOk(c, s, n) && s.now <= later
    ensures CacheOk(c, s.(now := later), n)
  {
    hide Within, Covers, CacheSound, Fold, Meaningful;
    assert |s.cache| == Count(c) by { SoundSize(c, s.cache); }
    WithinLater(c, s.cache, Fold(Ops(s.file.records)[..n]), s.now, later);
    CoversLater(c, s.cache, Fold(Ops(s.file.records)[..n]), s.gone, s.now, later);
  }

  lemma SoundSize(c: Config, s: Cache)
    requires CacheSound(c, s)
    ensures Accepted(c) && |s| == Count(c)
  {}

  lemma TickKeeps(c: Config, s: State, now: nat)
    requires Inv(c, s) && Enabled(c, s, Tick(now))
    ensures Inv(c, After(c, s, Tick(now)))
  {
    hide FileShape, CacheOk, Anchored, Within, Covers, Fold, Meaningful, LogSize;
    ShapeLater(c, s.file, s.history, s.now, now);
    match s.phase
    case Idle => CacheLater(c, s, |s.file.records|, now);
    case Appending(count) => CacheLater(c, s, |s.file.records| - count, now);
    case Applying(count) => CacheLater(c, s, |s.file.records| - count, now);
    case Rewriting(tmp) =>
      CacheLater(c, s, |s.file.records|, now);
      ShapeLater(c, tmp, s.history, s.now, now);
      ShapeFacts(c, tmp, s.history, s.now);
      assert |s.cache| == Count(c) by { CacheOkSize(c, s, |s.file.records|); }
      WithinLater(c, s.cache, Fold(Ops(tmp.records)), s.now, now);
      CoversLater(c, s.cache, Fold(Ops(tmp.records)), {}, s.now, now);
    case Published(prior) =>
      CacheLater(c, s, |s.file.records|, now);
      ShapeLater(c, prior, s.history, s.now, now);
    case Halted(other) =>
      if other.Some? { ShapeLater(c, other.value, s.history, s.now, now); }
  }

  lemma CacheOkSize(c: Config, s: State, n: nat)
    requires Accepted(c) && CacheOk(c, s, n)
    ensures |s.cache| == Count(c)
  {}

  lemma ReadKeeps(c: Config, s: State, k: Key)
    requires Inv(c, s) && Enabled(c, s, Read(k))
    ensures Inv(c, After(c, s, Read(k)))
  {
    hide FileOk, Within, Covers, CacheSound, AfterGet, Fold, Meaningful;
    var n := |s.file.records| - Pending(s);
    ReadBetween(c, s.cache, Fold(Ops(s.file.records)[..n]), s.gone, k, s.now);
  }

  lemma ShapeGrows(c: Config, f: LogFile, history: seq<Op>, now: nat, batch: seq<Record>)
    requires Accepted(c) && FileShape(c, f, history, now) && Meaningful(batch) && AllStorable(c, Ops(batch))
    ensures FileShape(c, f.(records := f.records + batch), history + Ops(batch), now)
    ensures Ops(f.records + batch)[..|f.records|] == Ops(f.records)
  {
    hide Mirrors, Fold, Meaningful, AllStorable, LogSize;
    GrowFacts(c, f.records, batch);
    SliceGrows(Ops(f.records), Ops(batch), f.base);
    SliceGrows(history, Ops(batch), f.at);
  }

  lemma SliceGrows(ops: seq<Op>, more: seq<Op>, i: nat)
    requires i <= |ops|
    ensures (ops + more)[i..] == ops[i..] + more
    ensures (ops + more)[..i] == ops[..i]
  {}

  lemma GrowFacts(c: Config, rs: seq<Record>, batch: seq<Record>)
    requires Accepted(c) && Meaningful(rs) && Meaningful(batch)
    requires AllStorable(c, Ops(rs)) && AllStorable(c, Ops(batch))
    ensures Meaningful(rs + batch) && Ops(rs + batch) == Ops(rs) + Ops(batch)
    ensures AllStorable(c, Ops(rs + batch)) && LogSize(rs + batch) == LogSize(rs) + LogSize(batch)
    ensures Ops(rs + batch)[..|rs|] == Ops(rs)
  {
    OpsAppend(rs, batch);
    MeaningfulLoggableBoth(rs, batch);
    hide Decode, Loggable, Storable, Meaningful, AllLoggable, LogBytes, LogSize;
    LogBytesAppend(rs, batch);
  }

  lemma MeaningfulLoggableBoth(a: seq<Record>, b: seq<Record>)
    requires Meaningful(a) && Meaningful(b)
    ensures AllLoggable(a) && AllLoggable(b)
  {}

  lemma PrefixGrows(rs: seq<Record>, batch: seq<Record>, d: nat)
    requires d <= |rs| && batch != []
    ensures (rs + batch)[..d] == rs[..d] && LogSize(rs) < LogSize(rs + batch)
  {
    var all := rs + batch;
    assert all[..|rs|] == rs && all[..|all|] == all;
    LogSizeMonotone(all, |rs|, |all|);
  }

  lemma BeginKeeps(c: Config, s: State, batch: seq<Record>)
    requires Inv(c, s) && Enabled(c, s, Begin(batch))
    ensures Inv(c, After(c, s, Begin(batch)))
  {
    hide Within, Covers, CacheSound, Fold, Meaningful, AllStorable, FileShape, LogSize;
    var f := s.file;
    ShapeGrows(c, f, s.history, s.now, batch);
    ShapeFacts(c, f, s.history, s.now);
    ShapeFacts(c, f.(records := f.records + batch), s.history + Ops(batch), s.now);
    assert Ops(f.records)[..|f.records|] == Ops(f.records);
    PrefixGrows(f.records, batch, f.base + f.durable - f.at);
  }

  lemma ShapeFacts(c: Config, f: LogFile, history: seq<Op>, now: nat)
    requires Accepted(c) && FileShape(c, f, history, now)
    ensures Meaningful(f.records) && AllStorable(c, Ops(f.records))
    ensures f.synced <= f.written <= LogSize(f.records)
    ensures f.base <= |f.records| && f.at <= f.durable <= |history|
    ensures |f.records| - f.base == |history| - f.at
    ensures Ops(f.records)[f.base..] == history[f.at..]
  {
    hide Mirrors, Fold, Meaningful, AllStorable, LogSize;
    assert |Ops(f.records)[f.base..]| == |history[f.at..]|;
  }

  lemma ShapeWritten(c: Config, f: LogFile, history: seq<Op>, now: nat, written: nat, synced: nat, durable: nat)
    requires Accepted(c) && FileShape(c, f, history, now)
    requires synced <= written <= LogSize(f.records) && f.at <= durable <= |history|
    ensures FileShape(c, f.(written := written, synced := synced, durable := durable), history, now)
  {
    hide Mirrors, Fold, Meaningful, AllStorable, LogSize;
  }

  lemma CacheFrame(c: Config, s: State, t: State, n: nat)
    requires Accepted(c) && CacheOk(c, s, n)
    requires t.cache == s.cache && t.gone == s.gone && t.now == s.now && t.file.records == s.file.records
    ensures CacheOk(c, t, n)
  {
    hide Within, Covers, CacheSound, Fold, Meaningful;
  }

  lemma WriteLogKeeps(c: Config, s: State, n: nat)
    requires Inv(c, s) && Enabled(c, s, WriteLog(n))
    ensures Inv(c, After(c, s, WriteLog(n)))
  {
    hide FileShape, CacheOk, LogSize;
    ShapeFacts(c, s.file, s.history, s.now);
    ShapeWritten(c, s.file, s.history, s.now, s.file.written + n, s.file.synced, s.file.durable);
    CacheFrame(c, s, After(c, s, WriteLog(n)), |s.file.records| - s.phase.count);
  }

  lemma SyncLogKeeps(c: Config, s: State)
    requires Inv(c, s) && Enabled(c, s, SyncLog)
    ensures Inv(c, After(c, s, SyncLog))
  {
    hide FileShape, CacheOk, LogSize, Meaningful, AllStorable;
    ShapeFacts(c, s.file, s.history, s.now);
    ShapeWritten(c, s.file, s.history, s.now, s.file.written, s.file.written, |s.history|);
    assert s.file.records[..|s.file.records|] == s.file.records;
    CacheFrame(c, s, After(c, s, SyncLog), |s.file.records| - s.phase.count);
  }

  /** Applying the log's remaining operations brings the cache up to the whole log. */
  lemma CacheAdvances(c: Config, cache: Cache, ops: seq<Op>, n: nat, gone: set<Key>, times: seq<nat>, now: nat,
                      until: nat)
    requires CacheSound(c, cache) && n <= |ops| && AllStorable(c, ops)
    requires |times| == |ops| - n && Ticking(times, now, until)
    requires Within(c, cache, Fold(ops[..n]), now) && Covers(c, cache, Fold(ops[..n]), gone, now)
    ensures var r := ApplyAll(c, cache, ops[n..], times);
            && CacheSound(c, r) && Within(c, r, Fold(ops), until)
            && Covers(c, r, Fold(ops), Gone(c, cache, gone, ops[n..], times), until)
  {
    SoundSize(c, cache);
    assert forall op :: op in ops[n..] ==> Storable(c, op);
    hide CacheSound, Within, Covers, Storable, AllStorable, Fold, FoldFrom, Ticking, ApplyAll, Gone;
    FoldSplit(ops, n, |ops|);
    assert ops[..|ops|] == ops && ops[n..|ops|] == ops[n..];
    ApplyAllBetween(c, cache, Fold(ops[..n]), gone, ops[n..], times, now, until);
    ApplyAllSound(c, cache, ops[n..], times);
  }

  /** One operation takes the cache from the first `n` log records to the first `n + 1`. */
  lemma CacheStep(c: Config, cache: Cache, ops: seq<Op>, n: nat, gone: set<Key>, now: nat)
    requires CacheSound(c, cache) && n < |ops| && AllStorable(c, ops)
    requires Within(c, cache, Fold(ops[..n]), now) && Covers(c, cache, Fold(ops[..n]), gone, now)
    ensures var r := Apply(c, cache, ops[n], now);
            && CacheSound(c, r) && Within(c, r, Fold(ops[..n + 1]), now)
            && Covers(c, r, Fold(ops[..n + 1]), (gone - {ops[n].key}) + Evicted(c, cache, ops[n], now), now)
  {
    SoundSize(c, cache);
    assert ops[n] in ops;
    FoldOne(ops, n);
    hide CacheSound, Within, Covers, Storable, Fold, Apply, Evicted, Step;
    WithinStep(c, cache, Fold(ops[..n]), ops[n], now);
    CoversStep(c, cache, Fold(ops[..n]), gone, ops[n], now);
    ApplyAt(c, cache, ops[n], now, ops[n].key);
  }

  lemma FoldOne(ops: seq<Op>, n: nat)
    requires n < |ops|
    ensures Fold(ops[..n + 1]) == Step(Fold(ops[..n]), ops[n])
  {
    assert ops[..n + 1] == ops[..n] + [ops[n]];
    FoldAppend(map[], ops[..n], [ops[n]]);
    assert [ops[n]][1..] == [];
  }

  lemma ApplyNextKeeps(c: Config, s: State)
    requires Inv(c, s) && Enabled(c, s, ApplyNext)
    ensures Inv(c, After(c, s, ApplyNext))
  {
    hide Within, Covers, CacheSound, Fold, FileShape, Meaningful, LogSize, AllStorable, Apply, Evicted;
    var f := s.file;
    ShapeFacts(c, f, s.history, s.now);
    var n, ops := |f.records| - s.phase.count, Ops(f.records);
    TailsAgree(ops, f.base, s.history, f.at, n);
    assert ops[n..][0] == ops[n];
    CacheStep(c, s.cache, ops, n, s.gone, s.now);
  }

  lemma AcknowledgeKeeps(c: Config, s: State)
    requires Inv(c, s) && Enabled(c, s, Acknowledge)
    ensures Inv(c, After(c, s, Acknowledge))
  {
    hide FileShape, CacheOk, LogSize, Meaningful;
    CacheFrame(c, s, After(c, s, Acknowledge), |s.file.records|);
  }

  lemma TailsAgree(ops: seq<Op>, i: nat, history: seq<Op>, j: nat, n: nat)
    requires i <= n <= |ops| && j <= |history| && ops[i..] == history[j..]
    ensures |ops| - n <= |history| && ops[n..] == history[|history| - (|ops| - n)..]
  {
    assert |ops[i..]| == |history[j..]|;
    assert ops[i..][n - i..] == ops[n..];
    assert history[j..][n - i..] == history[j + n - i..];
  }

  // ----- Rewrites -----

  lemma EntryIsLogged(c: Config, cache: Cache, ops: seq<Op>, now: nat, e: Entry)
    requires CacheSound(c, cache) && Within(c, cache, Fold(ops), now)
    requires e in SnapshotAll(cache, now)
    ensures EntryOp(e) in ops
  {
    SoundSize(c, cache);
    assert cache[0..] == cache;
    SnapshotFrom(c, cache, 0, now, e.key);
    var i := Home(c, e.key);
    assert ShardSound(c, cache[i], i);
    var p :| 0 <= p < |cache[i]| && cache[i][p] == e;
    FindAt(cache[i], p);
    assert At(c, cache, e.key) == Some(Held(e.value, e.expires));
    FoldIsLast(ops, e.key);
    var last := LastOn(ops, e.key);
    assert ops[last.value] == EntryOp(e);
  }

  /** Everything the cache holds came from some record, so its snapshot can be recorded. */
  lemma SnapshotRecordable(c: Config, cache: Cache, rs: seq<Record>, now: nat)
    requires CacheSound(c, cache) && Meaningful(rs) && AllStorable(c, Ops(rs)) && Within(c, cache, Fold(Ops(rs)), now)
    ensures var es := SnapshotAll(cache, now);
            && EntriesRecordable(es) && Meaningful(EntryRecords(es))
            && Ops(EntryRecords(es)) == EntryOps(es) && AllStorable(c, EntryOps(es))
  {
    var es := SnapshotAll(cache, now);
    forall e | e in es ensures EntryOp(e) in Ops(rs) && Recordable(EntryOp(e)) && Storable(c, EntryOp(e)) {
      EntryIsLogged(c, cache, Ops(rs), now, e);
      var i :| 0 <= i < |rs| && Ops(rs)[i] == EntryOp(e);
      assert rs[i] in rs;
      CanonicalSmallest(rs[i].m);
    }
    hide Fold, Within, CacheSound, Recordable, Storable, Decode, Loggable, SnapshotAll;
    EntryRecordsDecode(es);
    assert forall i :: 0 <= i < |es| ==> es[i] in es;
  }

  lemma SnapshotFileShape(c: Config, s: State)
    requires Inv(c, s) && s.phase.Idle?
    ensures var tmp := SnapshotFile(s);
            && FileShape(c, tmp, s.history, s.now) && tmp.base == |tmp.records|
            && Within(c, s.cache, Fold(Ops(tmp.records)), s.now)
            && Covers(c, s.cache, Fold(Ops(tmp.records)), {}, s.now)
  {
    hide Within, Covers, CacheSound, Meaningful, AllStorable, Fold, Mirrors, SnapshotAll, Written, EntriesRecordable;
    var rs, es := s.file.records, SnapshotAll(s.cache, s.now);
    var ops := Ops(rs);
    assert ops[..|rs|] == ops;
    SnapshotRecordable(c, s.cache, rs, s.now);
    SnapshotMirrors(c, s.cache, Fold(ops), s.gone, s.now);
    SnapshotBetween(c, s.cache, s.now);
    ShapeFacts(c, s.file, s.history, s.now);
    CutMirrors(c, s.file, s.history, s.now, |rs|);
    assert s.history[..|s.history|] == s.history;
    var lost := s.file.lost - Written(s.history[s.file.at..|s.history|]);
    var snap := Fold(EntryOps(es));
    MirrorsTrans(snap, Fold(ops), Fold(s.history), s.gone, lost, s.now);
    MirrorsMore(snap, Fold(s.history), s.gone + lost, lost + s.gone, s.now);
    assert EntryOps(es)[..|es|] == EntryOps(es);
    assert EntryOps(es)[|es|..] == [] && s.history[|s.history|..] == [];
  }

  lemma StartRewriteKeeps(c: Config, s: State)
    requires Inv(c, s) && Enabled(c, s, StartRewrite)
    ensures Inv(c, After(c, s, StartRewrite))
  {
    hide Within, Covers, CacheSound, Meaningful, AllStorable, Fold, FileShape, SnapshotAll, LogSize, Anchored;
    SnapshotFileShape(c, s);
    CacheFrame(c, s, After(c, s, StartRewrite), |s.file.records|);
  }

  lemma WriteTmpKeeps(c: Config, s: State, n: nat)
    requires Inv(c, s) && Enabled(c, s, WriteTmp(n))
    ensures Inv(c, After(c, s, WriteTmp(n)))
  {
    hide Within, Covers, CacheOk, Fold, FileShape, LogSize, Anchored, Meaningful;
    var tmp := s.phase.tmp;
    ShapeFacts(c, tmp, s.history, s.now);
    ShapeWritten(c, tmp, s.history, s.now, tmp.written + n, tmp.synced, tmp.durable);
    CacheFrame(c, s, After(c, s, WriteTmp(n)), |s.file.records|);
  }

  lemma SyncTmpKeeps(c: Config, s: State)
    requires Inv(c, s) && Enabled(c, s, SyncTmp)
    ensures Inv(c, After(c, s, SyncTmp))
  {
    hide Within, Covers, CacheOk, Fold, FileShape, LogSize, Anchored, Meaningful;
    var tmp := s.phase.tmp;
    ShapeFacts(c, tmp, s.history, s.now);
    ShapeWritten(c, tmp, s.history, s.now, tmp.written, tmp.written, tmp.durable);
    CacheFrame(c, s, After(c, s, SyncTmp), |s.file.records|);
  }

  lemma RenameKeeps(c: Config, s: State)
    requires Inv(c, s) && Enabled(c, s, Rename)
    ensures Inv(c, After(c, s, Rename))
  {
    hide Within, Covers, CacheSound, Fold, FileShape, LogSize, Meaningful, AllStorable;
    var tmp := s.phase.tmp;
    ShapeFacts(c, tmp, s.history, s.now);
    ShapeFacts(c, s.file, s.history, s.now);
    assert tmp.records[..|tmp.records|] == tmp.records;
    assert Ops(tmp.records)[..|tmp.records|] == Ops(tmp.records);
  }

  lemma SettleKeeps(c: Config, s: State, e: Event)
    requires Inv(c, s) && Enabled(c, s, e) && (e.SyncDirectory? || e.AbandonRewrite? || e.Fail?)
    ensures Inv(c, After(c, s, e))
  {
    hide FileOk, CacheOk, LogSize, FileShape, Within, Covers, Fold, Meaningful;
    if !e.Fail? { CacheFrame(c, s, After(c, s, e), |s.file.records|); }
  }

  // ----- Restart -----

  lemma RestartShape(c: Config, f: LogFile, history: seq<Op>, acked: nat, now: nat, until: nat, n: nat)
    requires Accepted(c) && FileOk(c, f, history, acked, now) && f.synced <= n <= f.written && now <= until
    requires Accepts(c, f, n)
    ensures var k := Complete(f.records, n);
            && f.base <= k <= |f.records| && f.at + k - f.base <= |history|
            && FileOk(c, f.(records := f.records[..k], written := n), history[..f.at + k - f.base], acked, until)
            && LogSize(f.records[..k]) == n && LeftRecords(f, n) == f.records[..k]
  {
    hide Mirrors, Fold, Complete, LogSize, Meaningful, AllStorable, Written, Accepts, LeftRecords, FileShape, Readable;
    var k := Complete(f.records, n);
    RecoverFile(c, f, history, acked, now, n);
    ShapeFacts(c, f, history, now);
    CutMirrors(c, f, history, now, k);
    CutShape(c, f, history, now, k, n);
    ShapeLater(c, f.(records := f.records[..k], written := n), history[..f.at + k - f.base], now, until);
    var d := f.base + f.durable - f.at;
    assert f.records[..k][..d] == f.records[..d];
  }

  lemma CutShape(c: Config, f: LogFile, history: seq<Op>, now: nat, k: nat, n: nat)
    requires Accepted(c) && FileShape(c, f, history, now)
    requires f.base <= k <= |f.records| && f.at + k - f.base <= |history| && f.durable <= f.at + k - f.base
    requires Ops(f.records)[f.base..k] == history[f.at..f.at + k - f.base]
    requires f.synced <= n == LogSize(f.records[..k])
    ensures FileShape(c, f.(records := f.records[..k], written := n), history[..f.at + k - f.base], now)
  {
    hide Mirrors, Fold, LogSize, Meaningful, AllStorable;
    PrefixStorable(c, f.records, k);
    var j, ops := f.at + k - f.base, Ops(f.records);
    assert ops[..k][f.base..] == ops[f.base..k];
    assert history[..j][f.at..] == history[f.at..j];
    assert ops[..k][..f.base] == ops[..f.base] && history[..j][..f.at] == history[..f.at];
  }

  lemma FoundFileOk(c: Config, s: State, f: LogFile)
    requires Inv(c, s) && MayFind(s, f)
    ensures FileOk(c, f, s.history, s.acked, s.now)
  {
    hide FileOk, CacheOk, LogSize;
  }

  lemma EnabledRestart(c: Config, s: State, e: Event)
    requires Accepted(c) && e.Restart? && Enabled(c, s, e)
    ensures MayFind(s, e.file) && e.file.synced <= e.n <= e.file.written
    ensures Accepts(c, e.file, e.n) && Ticking(e.times, s.now, e.until)
  {
    hide Readable, MayFind, Accepts, LeftRecords, Ticking;
  }

  lemma RestartKeeps(c: Config, s: State, e: Event)
    requires Inv(c, s) && Accepted(c) && e.Restart? && Enabled(c, s, e)
    ensures Inv(c, After(c, s, e))
  {
    hide *;
    EnabledRestart(c, s, e);
    FoundFileOk(c, s, e.file);
    TickingOrder(e.times, s.now, e.until);
    RestartShape(c, e.file, s.history, s.acked, s.now, e.until, e.n);
    RestartInv(c, s, e);
  }

  lemma RestartInv(c: Config, s: State, e: Event)
    requires Accepted(c) && e.Restart? && Enabled(c, s, e)
    requires var f, k := e.file, Complete(e.file.records, e.n);
             && f.base <= k <= |f.records| && f.at + k - f.base <= |s.history|
             && LeftRecords(f, e.n) == f.records[..k]
             && FileOk(c, f.(records := f.records[..k], written := e.n), s.history[..f.at + k - f.base],
                       s.acked, e.until)
             && LogSize(f.records[..k]) == e.n
    ensures Inv(c, After(c, s, e))
  {
    hide FileOk, Fold, Complete, LogSize, Meaningful, AllStorable, Within, Covers, CacheSound, Ticking, Gone, ApplyAll;
    hide LeftRecords, Accepts, Readable;
    var ops := Ops(LeftRecords(e.file, e.n));
    EmptyBetween(c, s.now);
    assert ops[0..] == ops && ops[..|ops|] == ops && ops[..0] == [];
    FoldNothing();
    CacheAdvances(c, Empty(c), ops, 0, {}, e.times, s.now, e.until);
  }

  lemma FoldNothing()
    ensures Fold([]) == map[]
  {}

  /** Every step of every kind keeps the invariant. */
  lemma StepKeeps(c: Config, s: State, e: Event)
    requires Inv(c, s) && Accepted(c) && Enabled(c, s, e)
    ensures Inv(c, After(c, s, e))
  {
    hide *;
    match e
    case Tick(now) => TickKeeps(c, s, now);
    case Read(k) => ReadKeeps(c, s, k);
    case Begin(batch) => BeginKeeps(c, s, batch);
    case WriteLog(n) => WriteLogKeeps(c, s, n);
    case SyncLog => SyncLogKeeps(c, s);
    case ApplyNext => ApplyNextKeeps(c, s);
    case Acknowledge => AcknowledgeKeeps(c, s);
    case StartRewrite => StartRewriteKeeps(c, s);
    case WriteTmp(n) => WriteTmpKeeps(c, s, n);
    case SyncTmp => SyncTmpKeeps(c, s);
    case Rename => RenameKeeps(c, s);
    case Restart(_, _, _, _) => RestartKeeps(c, s, e);
    case _ => SettleKeeps(c, s, e);
  }

  // ----- Runs -----

  /**
   A service that has just started on a log which startup accepted. Any part of the file may be synced;
   `durable` counts records that are.
   */
  ghost predicate Initial(c: Config, s: State, times: seq<nat>, from: nat)
  {
    var rs := s.file.records;
    && Accepted(c) && Meaningful(rs) && AllStorable(c, Ops(rs))
    && s.file == LogFile(rs, LogSize(rs), s.file.synced, 0, 0, s.file.durable, {}) && s.file.synced <= LogSize(rs)
    && s.file.durable <= |rs| && LogSize(rs[..s.file.durable]) <= s.file.synced
    && s.phase == Idle && s.history == Ops(rs) && s.acked <= s.file.durable
    && |times| == |rs| && Ticking(times, from, s.now)
    && s.cache == ApplyAll(c, Empty(c), Ops(rs), times)
    && s.gone == Gone(c, Empty(c), {}, Ops(rs), times)
  }

  lemma InitialOk(c: Config, s: State, times: seq<nat>, from: nat)
    requires Initial(c, s, times, from)
    ensures Inv(c, s)
  {
    hide Within, Covers, CacheSound, Fold, Meaningful, AllStorable, Ticking, Gone, ApplyAll, LogSize;
    var rs, ops := s.file.records, s.history;
    assert ops[0..] == ops && ops[..|ops|] == ops && ops[..0] == [] && rs[..|rs|] == rs;
    EmptyBetween(c, from);
    FoldNothing();
    CacheAdvances(c, Empty(c), ops, 0, {}, times, from, s.now);
  }

  ghost predicate Run(c: Config, states: seq<State>, events: seq<Event>, times: seq<nat>, from: nat)
  {
    && |states| == |events| + 1 && Initial(c, states[0], times, from)
    && forall i :: 0 <= i < |events| ==>
         Enabled(c, states[i], events[i]) && states[i + 1] == After(c, states[i], events[i])
  }

  lemma {:induction false} RunKeeps(c: Config, states: seq<State>, events: seq<Event>, times: seq<nat>, from: nat,
                                    i: nat)
    requires Run(c, states, events, times, from) && i <= |events|
    ensures Inv(c, states[i])
  {
    hide Inv, Enabled, After;
    if i == 0 {
      InitialOk(c, states[0], times, from);
    } else {
      hide Initial;
      RunKeeps(c, states, events, times, from, i - 1);
      assert Accepted(c) by { InvAccepted(c, states[i - 1]); }
      StepKeeps(c, states[i - 1], events[i - 1]);
    }
  }

  lemma InvAccepted(c: Config, s: State)
    requires Inv(c, s)
    ensures Accepted(c)
  {}

  // ----- Crash safety -----

  /** History position that the leftover bytes stand for. */
  ghost function Reached(s: State, f: LogFile, n: nat): (j: nat)
    ensures j <= |s.history|
  {
    Recovered(s, f, |LeftRecords(f, n)|)
  }

  /** The operation gives its key a value now: a store without expiry, or one whose expiry is yet to come. */
  predicate InForce(op: Op, now: nat) { op.Write? && (op.expires == 0 || now < op.expires) }

  /** What it means for one key that a view mirrors a list of operations. */
  ghost predicate KeyAgrees(view: View, ops: seq<Op>, missing: set<Key>, now: nat, k: Key)
  {
    var last := LastOn(ops, k);
    && (k in view && (view[k].expires == 0 || now < view[k].expires) ==>
          last.Some? && ops[last.value] == Write(k, view[k].value, view[k].expires))
    && (last.Some? && InForce(ops[last.value], now) && k !in missing ==>
          k in view && view[k] == Held(ops[last.value].value, ops[last.value].expires))
  }

  lemma MirrorKey(view: View, ops: seq<Op>, missing: set<Key>, now: nat, k: Key)
    requires Mirrors(view, Fold(ops), missing, now)
    ensures KeyAgrees(view, ops, missing, now, k)
  {
    hide Fold;
    FoldIsLast(ops, k);
  }

  lemma CrashFromState(c: Config, s: State, f: LogFile, n: nat)
    requires Inv(c, s) && MayFind(s, f) && f.synced <= n <= f.written
    ensures Accepted(c) && (Accepts(c, f, n) <==> OnBoundary(f, n))
    ensures Accepts(c, f, n) ==>
              && s.acked <= Reached(s, f, n)
              && Mirrors(RecoveredView(f, n), Fold(s.history[..Reached(s, f, n)]),
                         Missing(s, f, Reached(s, f, n)), s.now)
  {
    hide Inv, Mirrors, Fold, Complete, LogSize, Meaningful, AllStorable, Written, Readable, FileShape, MayFind;
    hide Accepts, OnBoundary, LeftRecords;
    InvAccepted(c, s);
    FoundFileOk(c, s, f);
    RecoverFile(c, f, s.history, s.acked, s.now, n);
    ShapeFacts(c, f, s.history, s.now);
    if Accepts(c, f, n) {
      CutMirrors(c, f, s.history, s.now, Complete(f.records, n));
    }
  }

  /**
   Crash safety. At any point of any run, what a crash leaves under the log's name is accepted by
   startup if and only if it ends on a record boundary. It then stands for a prefix of the history
   that contains every acknowledged operation, and for every key it agrees with that prefix: an
   unexpired recovered value is the one the key's last operation wrote, no acknowledged operation on
   the key is later than that one, and a live value is missing only if its key was evicted before the
   rewrite that created the file and not stored again.
   */
  lemma CrashSafety(c: Config, states: seq<State>, events: seq<Event>, times: seq<nat>, from: nat,
                    i: nat, f: LogFile, n: nat, k: Key)
    requires Run(c, states, events, times, from) && i <= |events|
    requires MayFind(states[i], f) && f.synced <= n <= f.written
    ensures Accepted(c) && (Accepts(c, f, n) <==> OnBoundary(f, n))
    ensures var s := states[i];
            var j := Reached(s, f, n);
            Accepts(c, f, n) ==>
              && s.acked <= j && KeyAgrees(RecoveredView(f, n), s.history[..j], Missing(s, f, j), s.now, k)
              && forall m :: 0 <= m < s.acked <= |s.history| && s.history[m].key == k ==>
                   LastOn(s.history[..j], k).Some? && m <= LastOn(s.history[..j], k).value
  {
    assert |states| == |events| + 1;
    hide *;
    RunKeeps(c, states, events, times, from, i);
    var s := states[i];
    CrashFromState(c, s, f, n);
    if Accepts(c, f, n) {
      var j := Reached(s, f, n);
      MirrorKey(RecoveredView(f, n), s.history[..j], Missing(s, f, j), s.now, k);
      forall m | 0 <= m < s.acked <= |s.history| && s.history[m].key == k
        ensures LastOn(s.history[..j], k).Some? && m <= LastOn(s.history[..j], k).value
      {
        AckedNotLost(s, j, k, m);
      }
    }
  }

  /** An operation inside a prefix is not later than the last one of its key there. */
  lemma AckedNotLost(s: State, j: nat, k: Key, m: nat)
    requires s.acked <= j <= |s.history| && m < s.acked && s.history[m].key == k
    ensures LastOn(s.history[..j], k).Some? && m <= LastOn(s.history[..j], k).value
  {
    assert s.history[..j][m].key == k;
  }

  // ----- The live cache -----

  /**
   A read of `k` shows the value of its last operation among those seen, and misses a live key only
   if it was evicted and not stored since.
   */
  ghost predicate ShowsLast(c: Config, s: State, seen: seq<Op>, k: Key)
    requires Accepted(c) && |s.cache| == Count(c)
  {
    var r, last := Peek(c, s.cache, k, s.now), LastOn(seen, k);
    && (r.Some? ==> last.Some? && InForce(seen[last.value], s.now) && seen[last.value].value == r.value)
    && (r.None? && last.Some? && InForce(seen[last.value], s.now) ==> k in s.gone + Missing(s, s.file, |seen|))
  }

  /**
   A read never shows a stale or deleted value, and misses a live key only if it was evicted. Inside
   a batch it sees exactly the operations applied before it.
   */
  lemma LiveReads(c: Config, s: State, k: Key)
    requires Inv(c, s) && Enabled(c, s, Read(k))
    ensures Accepted(c) && |s.cache| == Count(c) && Pending(s) <= |s.history|
    ensures ShowsLast(c, s, s.history[..|s.history| - Pending(s)], k)
  {
    hide At, Peek, CacheSound, Meaningful, Fold, LogSize, Written, Mirrors, FileShape, Within, Covers, Anchored;
    SoundSize(c, s.cache);
    var rs, n := s.file.records, |s.file.records| - Pending(s);
    PeekIsAt(c, s.cache, k, s.now);
    ShapeFacts(c, s.file, s.history, s.now);
    CutMirrors(c, s.file, s.history, s.now, n);
    var seen := s.history[..|s.history| - Pending(s)];
    assert s.file.at + n - s.file.base == |seen|;
    var lost := s.file.lost - Written(s.history[s.file.at..|seen|]);
    MirrorKey(Fold(Ops(rs)[..n]), seen, lost, s.now, k);
    CacheKey(c, s.cache, Fold(Ops(rs)[..n]), s.gone, s.now, k);
  }

  lemma CacheKey(c: Config, s: Cache, v: View, gone: set<Key>, now: nat, k: Key)
    requires Accepted(c) && |s| == Count(c) && Within(c, s, v, now) && Covers(c, s, v, gone, now)
    ensures At(c, s, k).Some? && Live(At(c, s, k).value, now) ==> k in v && v[k] == At(c, s, k).value
    ensures k in v && Live(v[k], now) && k !in gone ==> At(c, s, k) == Some(v[k])
  {}

  lemma PeekIsAt(c: Config, s: Cache, k: Key, now: nat)
    requires Accepted(c) && |s| == Count(c)
    ensures Peek(c, s, k, now).Some? <==> At(c, s, k).Some? && Live(At(c, s, k).value, now)
    ensures Peek(c, s, k, now).Some? ==> Peek(c, s, k, now).value == At(c, s, k).value.value
  {}

  // ----- Rewrites fit -----

  /** In any reachable idle state a rewrite of a version-2 log needs no more room than the log. */
  lemma RewriteFits(c: Config, s: State)
    requires Inv(c, s) && s.phase.Idle?
    ensures LogSize(SnapshotFile(s).records) <= LogSize(s.file.records) + RECORD_HEADER * Legacies(s.file.records)
    ensures OnlyV2(s.file.records) ==> LogSize(SnapshotFile(s).records) <= LogSize(s.file.records)
  {
    var rs := s.file.records;
    assert Ops(rs)[..|rs|] == Ops(rs);
    CompactionBound(c, s.cache, rs, s.now);
  }

  /** Every file the process holds. */
  function Files(s: State): set<LogFile>
  {
    {s.file}
    + (if s.phase.Rewriting? then {s.phase.tmp} else {})
    + (if s.phase.Published? then {s.phase.prior} else {})
    + (if s.phase.Halted? && s.phase.other.Some? then {s.phase.other.value} else {})
  }

  predicate OnlyV2(rs: seq<Record>) { forall r :: r in rs ==> r.V2? }

  /** No file holds a legacy record or exceeds the configured size. */
  predicate Bounded(s: State, limit: nat)
  {
    forall f :: f in Files(s) ==> OnlyV2(f.records) && LogSize(f.records) <= limit
  }

  lemma RestartRecords(c: Config, s: State, e: Event, limit: nat)
    requires Inv(c, s) && Accepted(c) && e.Restart? && Enabled(c, s, e) && Bounded(s, limit)
    ensures OnlyV2(LeftRecords(e.file, e.n)) && LogSize(LeftRecords(e.file, e.n)) <= limit
  {
    hide Inv, Enabled, LogSize, Complete, FileOk, LeftRecords, Accepts, Readable, Meaningful;
    EnabledRestart(c, s, e);
    FoundFileOk(c, s, e.file);
    RecoverFile(c, e.file, s.history, s.acked, s.now, e.n);
    var rs, k := e.file.records, Complete(e.file.records, e.n);
    assert rs[..|rs|] == rs;
    LogSizeMonotone(rs, k, |rs|);
    assert forall r :: r in rs[..k] ==> r in rs;
  }

  lemma BoundBegin(c: Config, s: State, e: Event, limit: nat)
    requires Accepted(c) && e.Begin? && Enabled(c, s, e) && Bounded(s, limit)
    requires LogSize(s.file.records + e.batch) <= limit
    ensures Bounded(After(c, s, e), limit)
  {
    hide LogSize, Meaningful, AllStorable;
    assert s.file in Files(s);
  }

  lemma BoundRewrite(c: Config, s: State, e: Event, limit: nat)
    requires Inv(c, s) && Accepted(c) && e.StartRewrite? && Enabled(c, s, e) && Bounded(s, limit)
    ensures Bounded(After(c, s, e), limit)
  {
    hide Inv, LogSize, SnapshotAll;
    assert s.file in Files(s);
    RewriteFits(c, s);
    var t := After(c, s, e);
    assert Files(t) == {s.file, SnapshotFile(s)};
    assert forall r :: r in SnapshotFile(s).records ==> r.V2?;
  }

  lemma BoundRestart(c: Config, s: State, e: Event, limit: nat)
    requires Inv(c, s) && Accepted(c) && e.Restart? && Enabled(c, s, e) && Bounded(s, limit)
    ensures Bounded(After(c, s, e), limit)
  {
    hide Inv, LogSize, LeftRecords, Accepts, Ticking, Readable, Gone, ApplyAll, OnlyV2;
    RestartRecords(c, s, e, limit);
    assert Files(After(c, s, e)) == {After(c, s, e).file};
  }

  /** Every other step only moves files around or changes how much of them is written. */
  lemma BoundOther(c: Config, s: State, e: Event, f: LogFile)
    requires Accepted(c) && Enabled(c, s, e) && !e.Begin? && !e.StartRewrite? && !e.Restart?
    requires f in Files(After(c, s, e))
    ensures exists g :: g in Files(s) && g.records == f.records
  {
    hide LogSize, Ticking, Gone, ApplyAll, AfterGet;
    var g := if e.Rename? && f == s.phase.tmp then s.phase.tmp
             else if f == After(c, s, e).file && !e.Rename? then s.file
             else if e.WriteTmp? || e.SyncTmp? then s.phase.tmp
             else if e.Rename? then s.file else f;
    assert g in Files(s) && g.records == f.records;
  }

  /**
   A version-2 log stays one, and stays within its limit, in every run whose batches pass the
   capacity check; rewrites need no check of their own.
   */
  lemma BoundStays(c: Config, s: State, e: Event, limit: nat)
    requires Inv(c, s) && Accepted(c) && Enabled(c, s, e) && Bounded(s, limit)
    requires e.Begin? ==> LogSize(s.file.records + e.batch) <= limit
    ensures Bounded(After(c, s, e), limit)
  {
    hide Inv, Enabled, After, LogSize, OnlyV2, Files;
    if e.Begin? {
      BoundBegin(c, s, e, limit);
    } else if e.StartRewrite? {
      BoundRewrite(c, s, e, limit);
    } else if e.Restart? {
      BoundRestart(c, s, e, limit);
    } else {
      forall f | f in Files(After(c, s, e)) ensures OnlyV2(f.records) && LogSize(f.records) <= limit {
        BoundOther(c, s, e, f);
      }
    }
  }
}
