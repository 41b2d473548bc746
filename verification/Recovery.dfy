/**
 When a restart is invisible: if no TTL lapses meanwhile and no read reorders the cache, replaying
 the log rebuilds the live cache exactly, list order and byte totals included. A rewrite
 re-establishes this after any reads, because a snapshot lists each shard oldest first.
 */
module Recovery {
  import opened Common
  import opened AofCodec
  import opened Lru
  import opened Sharded
  import opened Semantics
  import opened LogOps
  import opened Durability

  /** No operation of the list lapses after `since` and by `t`; it may have lapsed before. */
  predicate Steady(ops: seq<Op>, since: nat, t: nat)
  {
    forall op :: op in ops ==> op.Write? ==> Lapsed(op.expires, since) || !Lapsed(op.expires, t)
  }

  /** No cached entry has lapsed at `now`. */
  predicate Fresh(s: Cache, now: nat)
  {
    forall i, e :: 0 <= i < |s| && e in s[i] ==> !Expired(e, now)
  }

  /** The cache that replaying `ops` at time `t` builds. */
  function Rebuild(c: Config, ops: seq<Op>, t: nat): (r: Cache)
    requires Accepted(c)
    ensures |r| == Count(c)
  {
    ApplyAll(c, Empty(c), ops, Constant(|ops|, t))
  }

  // ----- The clock does not matter while nothing lapses -----

  lemma SteadyApply(c: Config, s: Cache, op: Op, t: nat, u: nat)
    requires Accepted(c) && |s| == Count(c)
    requires op.Write? ==> Lapsed(op.expires, t) == Lapsed(op.expires, u)
    ensures Apply(c, s, op, t) == Apply(c, s, op, u)
  {}

  lemma {:induction false} SteadyApplyAll(c: Config, s: Cache, ops: seq<Op>, a: seq<nat>, b: seq<nat>)
    requires Accepted(c) && |s| == Count(c) && |a| == |b| == |ops|
    requires forall i :: 0 <= i < |ops| ==> ops[i].Write? ==>
               Lapsed(ops[i].expires, a[i]) == Lapsed(ops[i].expires, b[i])
    ensures ApplyAll(c, s, ops, a) == ApplyAll(c, s, ops, b)
    decreases |ops|
  {
    hide Apply, Lapsed;
    if ops != [] {
      SteadyApply(c, s, ops[0], a[0], b[0]);
      SteadyApplyAll(c, Apply(c, s, ops[0], a[0]), ops[1..], a[1..], b[1..]);
    }
  }

  lemma {:induction false} TickingBounds(times: seq<nat>, from: nat, until: nat)
    requires Ticking(times, from, until)
    ensures forall i :: 0 <= i < |times| ==> from <= times[i] <= until
    decreases |times|
  {
    if times != [] {
      TickingOrder(times[1..], times[0], until);
      TickingBounds(times[1..], times[0], until);
      assert forall i :: 1 <= i < |times| ==> times[i] == times[1..][i - 1];
    }
  }

  /** Replaying at any non-decreasing clock readings from `since` to `t` gives what replaying at `t` gives. */
  lemma ReplayAnyTime(c: Config, s: Cache, ops: seq<Op>, times: seq<nat>, from: nat, since: nat, t: nat)
    requires Accepted(c) && |s| == Count(c) && |times| == |ops| && Ticking(times, from, t)
    requires since <= from && Steady(ops, since, t)
    ensures ApplyAll(c, s, ops, times) == ApplyAll(c, s, ops, Constant(|ops|, t))
  {
    TickingBounds(times, from, t);
    assert forall i :: 0 <= i < |ops| ==> ops[i] in ops;
    hide Ticking, ApplyAll;
    SteadyApplyAll(c, s, ops, times, Constant(|ops|, t));
  }

  lemma RebuildAppend(c: Config, a: seq<Op>, b: seq<Op>, t: nat)
    requires Accepted(c)
    ensures Rebuild(c, a + b, t) == ApplyAll(c, Rebuild(c, a, t), b, Constant(|b|, t))
  {
    hide ApplyAll;
    assert Constant(|a + b|, t) == Constant(|a|, t) + Constant(|b|, t);
    ApplyAllAppend(c, Empty(c), a, Constant(|a|, t), b, Constant(|b|, t));
  }

  lemma FreshApply(c: Config, s: Cache, op: Op, t: nat)
    requires Accepted(c) && |s| == Count(c) && Fresh(s, t)
    ensures Fresh(Apply(c, s, op, t), t)
  {}

  /** What a replay at `t` builds holds nothing lapsed at `t`. */
  lemma {:induction false} FreshApplyAll(c: Config, s: Cache, ops: seq<Op>, t: nat)
    requires Accepted(c) && |s| == Count(c) && Fresh(s, t)
    ensures Fresh(ApplyAll(c, s, ops, Constant(|ops|, t)), t)
    decreases |ops|
  {
    hide Apply, Fresh;
    if ops != [] {
      FreshApply(c, s, ops[0], t);
      assert Constant(|ops|, t)[1..] == Constant(|ops| - 1, t);
      FreshApplyAll(c, Apply(c, s, ops[0], t), ops[1..], t);
    }
  }

  // ----- Replaying a snapshot -----

  /** Storing an entry in front of newer-than-nothing room evicts nothing. */
  lemma StoreFits(s: Shard, capacity: nat, maxBytes: nat, t: nat)
    requires s != [] && Sound(s, capacity, maxBytes) && !Expired(s[0], t)
    ensures Store(s[1..], capacity, maxBytes, s[0].key, s[0].value, s[0].expires, t) == s
  {
    assert s[0] in s;
    WithoutAbsent(s[1..], s[0].key);
    assert [s[0]] + s[1..] == s;
  }

  /** Entries stored one after the other at time `t`. */
  function Refill(c: Config, base: Cache, es: seq<Entry>, t: nat): (r: Cache)
    requires Accepted(c) && |base| == Count(c)
    ensures |r| == Count(c)
  {
    ApplyAll(c, base, EntryOps(es), Constant(|es|, t))
  }

  lemma RefillAppend(c: Config, base: Cache, a: seq<Entry>, b: seq<Entry>, t: nat)
    requires Accepted(c) && |base| == Count(c)
    ensures Refill(c, base, a + b, t) == Refill(c, Refill(c, base, a, t), b, t)
  {
    hide ApplyAll;
    assert EntryOps(a + b) == EntryOps(a) + EntryOps(b);
    assert Constant(|a + b|, t) == Constant(|a|, t) + Constant(|b|, t);
    ApplyAllAppend(c, base, EntryOps(a), Constant(|a|, t), EntryOps(b), Constant(|b|, t));
  }

  lemma RefillOne(c: Config, base: Cache, e: Entry, t: nat)
    requires Accepted(c) && |base| == Count(c)
    ensures Refill(c, base, [e], t) == Apply(c, base, EntryOp(e), t)
    ensures Refill(c, base, [], t) == base
  {
    hide Apply;
    assert EntryOps([e]) == [EntryOp(e)] && Constant(1, t) == [t];
    ApplyOne(c, base, EntryOp(e), t);
  }

  /** The newest entry of a shard, stored last, completes it. */
  lemma RefillNewest(c: Config, base: Cache, i: nat, s: Shard, t: nat)
    requires Accepted(c) && |base| == Count(c) && i < |base| && s != []
    requires ShardSound(c, s, i) && !Expired(s[0], t)
    ensures Refill(c, base[i := s[1..]], [s[0]], t) == base[i := s]
  {
    assert s[0] in s;
    StoreFits(s, Capacity(c, i), Budget(c, i), t);
    hide Store, Sound, Capacity, Budget, Refill;
    RefillOne(c, base[i := s[1..]], s[0], t);
    assert base[i := s[1..]][i := s] == base[i := s];
  }

  lemma {:induction false} ReplayShard(c: Config, base: Cache, i: nat, s: Shard, now: nat, t: nat)
    requires Accepted(c) && |base| == Count(c) && i < |base| && base[i] == []
    requires ShardSound(c, s, i) && now <= t && forall e :: e in s ==> !Expired(e, t)
    ensures Refill(c, base, Snapshot(s, now), t) == base[i := s]
    decreases |s|
  {
    if s == [] {
      RefillOne(c, base, Entry([], [], 0, 0), t);
      assert base[i := s] == base;
    } else {
      var e, rest := s[0], s[1..];
      assert e in s && !Expired(e, now);
      assert ShardSound(c, rest, i);
      assert Snapshot(s, now) == Snapshot(rest, now) + [e];
      ReplayShard(c, base, i, rest, now, t);
      hide Refill, Snapshot, ShardSound;
      RefillAppend(c, base, Snapshot(rest, now), [e], t);
      RefillNewest(c, base, i, s, t);
    }
  }

  lemma FillNext(s: Cache, empty: Cache, i: nat)
    requires i < |s| == |empty|
    ensures (s[..i] + empty[i..])[i := s[i]] == s[..i + 1] + empty[i + 1..]
  {}

  lemma {:induction false} ReplayShards(c: Config, s: Cache, i: nat, now: nat, t: nat)
    requires CacheSound(c, s) && i <= |s| && now <= t && Fresh(s, t)
    ensures var base := s[..i] + Empty(c)[i..];
            |base| == Count(c) && Refill(c, base, SnapshotAll(s[i..], now), t) == s
    decreases |s| - i
  {
    SoundSize(c, s);
    var base := s[..i] + Empty(c)[i..];
    if i == |s| {
      assert base == s;
      RefillOne(c, base, Entry([], [], 0, 0), t);
    } else {
      assert ShardSound(c, s[i], i);
      hide CacheSound, ShardSound, Snapshot, Refill;
      assert s[i..][1..] == s[i + 1..];
      var first, rest := Snapshot(s[i], now), SnapshotAll(s[i + 1..], now);
      ReplayShard(c, base, i, s[i], now, t);
      ReplayShards(c, s, i + 1, now, t);
      hide Fresh, SnapshotAll;
      FillNext(s, Empty(c), i);
      RefillAppend(c, base, first, rest, t);
    }
  }

  /** Replaying the snapshot of a cache rebuilds the cache, shard by shard, in the same order. */
  lemma SnapshotRebuilds(c: Config, s: Cache, now: nat, t: nat)
    requires CacheSound(c, s) && now <= t && Fresh(s, t)
    ensures Rebuild(c, EntryOps(SnapshotAll(s, now)), t) == s
  {
    SoundSize(c, s);
    hide CacheSound, Fresh, ApplyAll, SnapshotAll;
    assert s[0..] == s && s[..0] + Empty(c)[0..] == Empty(c);
    ReplayShards(c, s, 0, now, t);
  }

  // ----- Quiet runs of the storage engine -----

  /** Log records applied to the cache so far. */
  function AppliedOps(s: State): seq<Op>
    requires Meaningful(s.file.records)
  {
    var ops := Ops(s.file.records);
    if 0 < Pending(s) <= |ops| then ops[..|ops| - Pending(s)] else ops
  }

  /** Replaying the log at `t` would build the live cache, and so would a snapshot being written. */
  ghost predicate Mirrored(c: Config, s: State, t: nat)
  {
    && Accepted(c) && Meaningful(s.file.records) && s.cache == Rebuild(c, AppliedOps(s), t)
    && (s.phase.Rewriting? ==>
          Meaningful(s.phase.tmp.records) && s.cache == Rebuild(c, Ops(s.phase.tmp.records), t))
  }

  /**
   Steps that do not disturb the order of the cache: no read that moves or erases an entry, no
   failure.
   */
  ghost predicate Quiet(c: Config, s: State, e: Event)
    requires Accepted(c)
  {
    match e
    case Read(k) => |s.cache| == Count(c) && Undisturbed(c, s.cache, k, s.now)
    case Fail => false
    case Restart(_, _, _, _) => false
    case _ => true
  }

  /** The read misses, or hits the most recently used entry of its shard. */
  predicate Undisturbed(c: Config, s: Cache, k: Key, now: nat)
    requires Accepted(c) && |s| == Count(c)
  {
    var shard := s[Home(c, k)];
    Find(shard, k).None? || (shard[0].key == k && !Expired(shard[0], now))
  }

  /** Exactly these reads leave the cache as it was. */
  lemma ReadDisturbs(c: Config, s: Cache, k: Key, now: nat)
    requires CacheSound(c, s)
    ensures AfterGet(c, s, k, now) == s <==> Undisturbed(c, s, k, now)
  {
    var i := Home(c, k);
    assert ShardSound(c, s[i], i);
    hide CacheSound, ShardSound, Capacity, Budget;
    TouchDisturbs(s[i], k, now);
    assert AfterGet(c, s, k, now)[i] == Touch(s[i], k, now);
    if Touch(s[i], k, now) == s[i] { assert AfterGet(c, s, k, now) == s; }
  }

  /**
   The exact condition under which a read leaves a log that rebuilds the cache able to do so: any
   other read moves or erases an entry, and the log does not know.
   */
  lemma ReadKeepsMirror(c: Config, s: State, k: Key, t: nat)
    requires Inv(c, s) && Accepted(c) && Mirrored(c, s, t) && Enabled(c, s, Read(k))
    ensures |s.cache| == Count(c)
    ensures Mirrored(c, After(c, s, Read(k)), t) <==> Undisturbed(c, s.cache, k, s.now)
  {
    hide Inv, Meaningful, Rebuild, CacheSound, AfterGet, Undisturbed;
    ReadableCache(c, s, k);
    ReadDisturbs(c, s.cache, k, s.now);
  }

  lemma TouchDisturbs(s: Shard, k: Key, now: nat)
    requires Distinct(s)
    ensures Touch(s, k, now) == s <==> Find(s, k).None? || (s[0].key == k && !Expired(s[0], now))
  {
    var found := Find(s, k);
    if found.Some? {
      var e := found.value;
      assert e !in Without(s, k);
      if s[0].key == k {
        WithoutAbsent(s[1..], k);
        assert [s[0]] + s[1..] == s;
      } else {
        assert Front(s, e)[0] == e;
      }
    }
  }

  /** The facts about a step that the argument needs. */
  lemma InvFacts(c: Config, s: State)
    requires Inv(c, s)
    ensures Accepted(c) && Meaningful(s.file.records)
    ensures s.phase.Idle? ==> CacheSound(c, s.cache) && Within(c, s.cache, Fold(Ops(s.file.records)), s.now)
                              && AllStorable(c, Ops(s.file.records))
    ensures Pending(s) <= |s.history| && Pending(s) <= |s.file.records|
    ensures Pending(s) > 0 ==>
              Ops(s.file.records)[|s.file.records| - Pending(s)] == s.history[|s.history| - Pending(s)]
  {
    hide Within, Covers, CacheSound, Fold, FileShape, Meaningful, LogSize, AllStorable;
    ShapeFacts(c, s.file, s.history, s.now);
    var rs := s.file.records;
    assert Ops(rs)[..|rs|] == Ops(rs);
    if Pending(s) > 0 {
      var n := |rs| - Pending(s);
      TailsAgree(Ops(rs), s.file.base, s.history, s.file.at, n);
      assert Ops(rs)[n..][0] == Ops(rs)[n];
    }
  }

  lemma ApplyNextIs(c: Config, s: State)
    requires Accepted(c) && Enabled(c, s, ApplyNext)
    ensures var next := After(c, s, ApplyNext);
            && 0 < Pending(s) <= |s.history| && |s.cache| == Count(c)
            && next.file == s.file && next.phase == Applying(Pending(s) - 1)
            && next.cache == Apply(c, s.cache, s.history[|s.history| - Pending(s)], s.now)
  {
    hide Apply, Evicted;
  }

  lemma ApplyMirrors(c: Config, s: State, e: Event, since: nat, t: nat)
    requires Inv(c, s) && Accepted(c) && Mirrored(c, s, t) && e.ApplyNext? && Enabled(c, s, e)
    requires Meaningful(s.file.records) && since <= s.now <= t && Steady(Ops(s.file.records), since, t)
    ensures Mirrored(c, After(c, s, e), t)
  {
    hide Inv, Meaningful, Rebuild, Apply, Steady, Enabled, After;
    InvFacts(c, s);
    ApplyNextIs(c, s);
    var ops := Ops(s.file.records);
    assert ops[..|ops|] == ops;
    RebuildNext(c, ops, |ops| - Pending(s), since, s.now, t);
  }

  lemma RebuildNext(c: Config, ops: seq<Op>, n: nat, since: nat, now: nat, t: nat)
    requires Accepted(c) && n < |ops| && since <= now <= t && Steady(ops, since, t)
    ensures Apply(c, Rebuild(c, ops[..n], t), ops[n], now) == Rebuild(c, ops[..n + 1], t)
  {
    assert ops[n] in ops;
    SteadyApply(c, Rebuild(c, ops[..n], t), ops[n], now, t);
    hide Apply, ApplyAll, Steady;
    assert ops[..n + 1] == ops[..n] + [ops[n]];
    RebuildAppend(c, ops[..n], [ops[n]], t);
    assert Constant(1, t) == [t];
    ApplyOne(c, Rebuild(c, ops[..n], t), ops[n], t);
  }

  lemma ApplyOne(c: Config, s: Cache, op: Op, t: nat)
    requires Accepted(c) && |s| == Count(c)
    ensures ApplyAll(c, s, [op], [t]) == Apply(c, s, op, t)
  {
    hide Apply;
    assert [op][1..] == [] && [t][1..] == [];
    assert ApplyAll(c, s, [op], [t]) == ApplyAll(c, Apply(c, s, op, t), [], []);
  }

  lemma {:induction false} TickingLater(times: seq<nat>, from: nat, until: nat, later: nat)
    requires Ticking(times, from, until) && until <= later
    ensures Ticking(times, from, later)
    decreases |times|
  {
    if times != [] { TickingLater(times[1..], times[0], until, later); }
  }

  lemma BeginMirrors(c: Config, s: State, e: Event, t: nat)
    requires Inv(c, s) && Mirrored(c, s, t) && e.Begin? && Enabled(c, s, e)
    ensures Mirrored(c, After(c, s, e), t)
  {
    hide Inv, Meaningful, Rebuild, AllStorable, LogSize;
    OpsAppend(s.file.records, e.batch);
  }

  /** A log that rebuilds the cache at `t` shows that nothing cached has lapsed at `t`. */
  lemma MirroredFresh(c: Config, s: State, t: nat)
    requires Mirrored(c, s, t)
    ensures Fresh(s.cache, t)
  {
    hide Meaningful, ApplyAll;
    FreshApplyAll(c, Empty(c), AppliedOps(s), t);
  }

  /** The snapshot taken when a rewrite starts rebuilds the cache, whatever reads came before it. */
  lemma SnapshotMirrored(c: Config, s: State, t: nat)
    requires Inv(c, s) && s.phase.Idle? && s.now <= t && Fresh(s.cache, t)
    ensures Accepted(c) && Meaningful(SnapshotFile(s).records)
    ensures Rebuild(c, Ops(SnapshotFile(s).records), t) == s.cache
  {
    hide Inv, Meaningful, Rebuild, Fresh, SnapshotAll, CacheSound, Within, Fold, AllStorable, EntriesRecordable;
    InvFacts(c, s);
    SnapshotRecordable(c, s.cache, s.file.records, s.now);
    SnapshotRebuilds(c, s.cache, s.now, t);
  }

  lemma RewriteMirrors(c: Config, s: State, e: Event, t: nat)
    requires Inv(c, s) && Mirrored(c, s, t) && e.StartRewrite? && Enabled(c, s, e) && s.now <= t
    ensures Mirrored(c, After(c, s, e), t)
  {
    hide Inv, Meaningful, Rebuild, Fresh, SnapshotFile;
    MirroredFresh(c, s, t);
    SnapshotMirrored(c, s, t);
  }

  lemma OtherMirrors(c: Config, s: State, e: Event, t: nat)
    requires Accepted(c) && Mirrored(c, s, t) && Enabled(c, s, e) && Quiet(c, s, e)
    requires e.Read? ==> CacheSound(c, s.cache)
    requires !e.ApplyNext? && !e.Begin? && !e.StartRewrite?
    ensures Mirrored(c, After(c, s, e), t)
  {
    hide Meaningful, Rebuild, LogSize, AfterGet, CacheSound, Undisturbed;
    if e.Read? { ReadDisturbs(c, s.cache, e.key, s.now); }
  }

  lemma ReadableCache(c: Config, s: State, k: Key)
    requires Inv(c, s) && Accepted(c) && Enabled(c, s, Read(k))
    ensures CacheSound(c, s.cache)
  {
    hide FileOk, Within, Covers, CacheSound, Fold, Meaningful, LogSize;
  }

  /** Nothing logged lapses after `since` and by `t`. */
  predicate Calm(s: State, since: nat, t: nat)
  {
    since <= s.now <= t && Meaningful(s.file.records) && Steady(Ops(s.file.records), since, t)
  }

  /** Every quiet step keeps log and cache in step, as long as no logged TTL lapses between `since` and `t`. */
  lemma QuietStep(c: Config, s: State, e: Event, since: nat, t: nat)
    requires Inv(c, s) && Accepted(c) && Mirrored(c, s, t) && Enabled(c, s, e) && Quiet(c, s, e)
    requires Calm(s, since, t)
    ensures Mirrored(c, After(c, s, e), t)
  {
    hide Inv, Mirrored, Enabled, After, Meaningful, Steady;
    if e.ApplyNext? { ApplyMirrors(c, s, e, since, t); }
    else if e.Begin? { BeginMirrors(c, s, e, t); }
    else if e.StartRewrite? { RewriteMirrors(c, s, e, t); }
    else {
      hide Quiet, CacheSound;
      if e.Read? { ReadableCache(c, s, e.key); }
      OtherMirrors(c, s, e, t);
    }
  }

  ghost predicate QuietLink(c: Config, s: State, e: Event, next: State)
    requires Accepted(c)
  {
    Enabled(c, s, e) && Quiet(c, s, e) && next == After(c, s, e)
  }

  /** A stretch of a run in which every step is quiet and nothing logged lapses between `since` and `t`. */
  ghost predicate QuietRun(c: Config, states: seq<State>, events: seq<Event>, since: nat, t: nat)
    requires Accepted(c)
  {
    && |states| == |events| + 1
    && (forall i :: 0 <= i < |states| ==> Calm(states[i], since, t))
    && (forall i :: 0 <= i < |events| ==> QuietLink(c, states[i], events[i], states[i + 1]))
  }

  lemma LinkKeeps(c: Config, s: State, e: Event, next: State, since: nat, t: nat)
    requires Accepted(c) && Inv(c, s) && Mirrored(c, s, t) && Calm(s, since, t) && QuietLink(c, s, e, next)
    ensures Inv(c, next) && Mirrored(c, next, t)
  {
    hide Inv, Mirrored, Enabled, After, Meaningful, Steady, Quiet;
    StepKeeps(c, s, e);
    QuietStep(c, s, e, since, t);
  }

  lemma {:induction false} QuietRunMirrors(c: Config, states: seq<State>, events: seq<Event>, since: nat, t: nat,
                                           i: nat)
    requires Accepted(c) && QuietRun(c, states, events, since, t) && i <= |events|
    requires Inv(c, states[0]) && Mirrored(c, states[0], t)
    ensures Inv(c, states[i]) && Mirrored(c, states[i], t)
  {
    hide Inv, Mirrored, Calm, QuietLink;
    if i > 0 {
      QuietRunMirrors(c, states, events, since, t, i - 1);
      assert QuietLink(c, states[i - 1], events[i - 1], states[i - 1 + 1]);
      LinkKeeps(c, states[i - 1], events[i - 1], states[i], since, t);
    }
  }

  // ----- Where log and cache come together -----

  /** The temporary file holds records that rebuild the cache. */
  ghost predicate Renewing(c: Config, s: State, t: nat)
  {
    && Accepted(c) && s.phase.Rewriting? && Meaningful(s.phase.tmp.records)
    && s.cache == Rebuild(c, Ops(s.phase.tmp.records), t)
  }

  /** Steps between the start of a rewrite and the rename that publishes it. */
  predicate WritesSnapshot(e: Event) { e.Tick? || e.WriteTmp? || e.SyncTmp? }

  /** A rewrite from its start to its rename: any clock readings and partial writes in between. */
  ghost predicate RewriteSpan(c: Config, states: seq<State>, events: seq<Event>)
    requires Accepted(c)
  {
    && |states| == |events| + 1 && |events| >= 2 && events[0] == StartRewrite && events[|events| - 1] == Rename
    && (forall i :: 0 < i < |events| - 1 ==> WritesSnapshot(events[i]))
    && (forall i :: 0 <= i < |events| ==> Link(c, states[i], events[i], states[i + 1]))
  }

  ghost predicate Link(c: Config, s: State, e: Event, next: State)
    requires Accepted(c)
  {
    Enabled(c, s, e) && next == After(c, s, e)
  }

  lemma RenewStarts(c: Config, s: State, next: State, t: nat)
    requires Inv(c, s) && Accepted(c) && Link(c, s, StartRewrite, next) && s.now <= t && Fresh(s.cache, t)
    ensures Renewing(c, next, t)
  {
    hide Inv, Meaningful, Rebuild, Fresh, SnapshotFile;
    SnapshotMirrored(c, s, t);
  }

  lemma RenewContinues(c: Config, s: State, e: Event, next: State, t: nat)
    requires Accepted(c) && Renewing(c, s, t) && WritesSnapshot(e) && Link(c, s, e, next)
    ensures Renewing(c, next, t)
  {
    hide Meaningful, Rebuild, LogSize;
  }

  lemma RenewPublishes(c: Config, s: State, next: State, t: nat)
    requires Accepted(c) && Renewing(c, s, t) && Link(c, s, Rename, next)
    ensures Mirrored(c, next, t)
  {
    hide Meaningful, Rebuild, LogSize;
  }

  lemma {:induction false} RenewUpTo(c: Config, states: seq<State>, events: seq<Event>, t: nat, i: nat)
    requires Accepted(c) && RewriteSpan(c, states, events) && 0 < i < |events|
    requires Inv(c, states[0]) && states[0].now <= t && Fresh(states[0].cache, t)
    ensures Renewing(c, states[i], t)
    decreases i
  {
    hide Inv, Fresh, Renewing, Enabled, After, WritesSnapshot;
    assert Link(c, states[i - 1], events[i - 1], states[i - 1 + 1]);
    if i == 1 {
      RenewStarts(c, states[0], states[1], t);
    } else {
      RenewUpTo(c, states, events, t, i - 1);
      RenewContinues(c, states[i - 1], events[i - 1], states[i], t);
    }
  }

  /**
   A rewrite brings log and cache back together: from any idle state, whatever reads came before,
   the published log rebuilds the cache once the rewrite is through if and only if nothing cached has
   lapsed by then. A lapsed entry stays in the live cache until it is read, and no replay stores it.
   */
  lemma RewriteRestores(c: Config, states: seq<State>, events: seq<Event>, t: nat)
    requires Accepted(c) && RewriteSpan(c, states, events) && Inv(c, states[0]) && states[0].now <= t
    ensures Inv(c, states[|events|]) && states[|events|].cache == states[0].cache
    ensures Mirrored(c, states[|events|], t) <==> Fresh(states[0].cache, t)
  {
    hide Inv, Fresh, Renewing, Mirrored, Enabled, After, WritesSnapshot;
    var n := |events| - 1;
    SpanKeeps(c, states, events, n + 1);
    if Fresh(states[0].cache, t) {
      RenewUpTo(c, states, events, t, n);
      assert Link(c, states[n], events[n], states[n + 1]);
      RenewPublishes(c, states[n], states[n + 1], t);
    } else if Mirrored(c, states[n + 1], t) {
      MirroredFresh(c, states[n + 1], t);
    }
  }

  /** Nothing reads or changes the cache during a rewrite. */
  lemma {:induction false} SpanKeeps(c: Config, states: seq<State>, events: seq<Event>, i: nat)
    requires Accepted(c) && RewriteSpan(c, states, events) && i <= |events| && Inv(c, states[0])
    ensures Inv(c, states[i]) && states[i].cache == states[0].cache
  {
    hide Inv, Enabled, After;
    if i > 0 {
      SpanKeeps(c, states, events, i - 1);
      assert Link(c, states[i - 1], events[i - 1], states[i - 1 + 1]);
      StepKeeps(c, states[i - 1], events[i - 1]);
      SameCache(c, states[i - 1], events[i - 1]);
    }
  }

  lemma SameCache(c: Config, s: State, e: Event)
    requires Accepted(c) && Enabled(c, s, e) && (WritesSnapshot(e) || e.StartRewrite? || e.Rename?)
    ensures After(c, s, e).cache == s.cache
  {
    hide LogSize, SnapshotFile;
  }

  /** A restart from any file a crash may leave puts log and cache in step. */
  lemma RestartMirrored(c: Config, s: State, e: Event, since: nat, t: nat)
    requires Inv(c, s) && Accepted(c) && e.Restart? && Enabled(c, s, e)
    requires since <= s.now && Calm(After(c, s, e), since, t)
    ensures Inv(c, After(c, s, e)) && Mirrored(c, After(c, s, e), t)
  {
    RestartFacts(c, s, e);
    hide Inv, Meaningful, Steady, Rebuild, Enabled, After, ApplyAll;
    StepKeeps(c, s, e);
    var next := After(c, s, e);
    TickingLater(e.times, s.now, e.until, t);
    hide Ticking;
    ReplayFromEmpty(c, Ops(next.file.records), e.times, s.now, since, t);
  }

  lemma RestartFacts(c: Config, s: State, e: Event)
    requires Accepted(c) && e.Restart? && Enabled(c, s, e)
    ensures var next := After(c, s, e);
            && next.phase.Idle? && Meaningful(next.file.records) && next.now == e.until
            && |e.times| == |next.file.records| && Ticking(e.times, s.now, e.until)
            && next.cache == ApplyAll(c, Empty(c), Ops(next.file.records), e.times)
  {
    hide Ticking, ApplyAll, Gone, Meaningful, Survives, Scan;
  }

  /** How log and cache come together, no earlier than `since`: a fresh start, a restart or a rewrite. */
  ghost predicate Renewal(c: Config, states: seq<State>, events: seq<Event>, since: nat, t: nat)
    requires Accepted(c)
  {
    && |states| == |events| + 1
    && (|| (events == [] && exists times, from :: Initial(c, states[0], times, from) && since <= from)
        || (|events| == 1 && events[0].Restart? && Link(c, states[0], events[0], states[1]) && Inv(c, states[0])
            && since <= states[0].now)
        || (RewriteSpan(c, states, events) && Inv(c, states[0]) && states[0].now <= t && Fresh(states[0].cache, t)))
  }

  lemma RenewalMirrors(c: Config, states: seq<State>, events: seq<Event>, since: nat, t: nat)
    requires Accepted(c) && Renewal(c, states, events, since, t) && Calm(states[|events|], since, t)
    ensures Inv(c, states[|events|]) && Mirrored(c, states[|events|], t)
  {
    hide Inv, Fresh, Mirrored, Initial, Enabled, After;
    if events == [] {
      var times, from :| Initial(c, states[0], times, from) && since <= from;
      InitialOk(c, states[0], times, from);
      InitialMirrored(c, states[0], times, from, since, t);
    } else if RewriteSpan(c, states, events) {
      RewriteRestores(c, states, events, t);
    } else {
      RestartMirrored(c, states[0], events[0], since, t);
    }
  }

  /** Restarting from the whole log of an idle state whose log rebuilds its cache gives that cache. */
  lemma MirroredRestart(c: Config, s: State, e: Event, since: nat, t: nat)
    requires Inv(c, s) && Accepted(c) && Mirrored(c, s, t) && Calm(s, since, t) && s.phase.Idle?
    requires e.Restart? && Enabled(c, s, e) && e.file == s.file && e.n == s.file.written && e.until <= t
    ensures After(c, s, e).cache == s.cache
  {
    RestartFacts(c, s, e);
    RestartRecordsAre(c, s, e);
    hide Inv, Meaningful, Steady, Rebuild, Enabled, After, ApplyAll;
    TickingLater(e.times, s.now, e.until, t);
    hide Ticking;
    ReplayFromEmpty(c, Ops(s.file.records), e.times, s.now, since, t);
  }

  lemma RestartRecordsAre(c: Config, s: State, e: Event)
    requires Inv(c, s) && Accepted(c) && s.phase.Idle?
    requires e.Restart? && Enabled(c, s, e) && e.file == s.file && e.n == s.file.written
    ensures After(c, s, e).file.records == s.file.records
  {
    hide Inv, Ticking, ApplyAll, Gone, Meaningful, Survives, LeftRecords, Accepts;
    WholeLog(c, s);
  }

  /**
   Restart is invisible. After a fresh start, a restart or a rewrite, take any quiet steps while no
   logged TTL lapses, and restart from the whole log: the rebuilt cache is the live one, shard by
   shard, with the same entries, the same order and the same byte totals. Records that lapsed before
   the start do not matter.
   */
  lemma RestartInvisible(c: Config, before: seq<State>, first: seq<Event>, states: seq<State>, events: seq<Event>,
                         e: Event, since: nat, t: nat)
    requires Accepted(c) && Renewal(c, before, first, since, t)
    requires QuietRun(c, states, events, since, t) && states[0] == before[|first|]
    requires var s := states[|events|];
             && s.phase.Idle? && e.Restart? && Enabled(c, s, e)
             && e.file == s.file && e.n == s.file.written && e.until <= t
    ensures After(c, states[|events|], e).cache == states[|events|].cache
    ensures TotalBytes(After(c, states[|events|], e).cache) == TotalBytes(states[|events|].cache)
  {
    assert Calm(states[0], since, t) && Calm(states[|events|], since, t);
    hide Inv, Mirrored, Renewal, QuietRun, Enabled, After, Calm;
    RenewalMirrors(c, before, first, since, t);
    QuietRunMirrors(c, states, events, since, t, |events|);
    MirroredRestart(c, states[|events|], e, since, t);
  }

  lemma ReplayFromEmpty(c: Config, ops: seq<Op>, times: seq<nat>, from: nat, since: nat, t: nat)
    requires Accepted(c) && |times| == |ops| && Ticking(times, from, t) && since <= from && Steady(ops, since, t)
    ensures ApplyAll(c, Empty(c), ops, times) == Rebuild(c, ops, t)
  {
    hide ApplyAll, Ticking, Steady;
    ReplayAnyTime(c, Empty(c), ops, times, from, since, t);
  }

  /** A log read back in full yields all its records. */
  lemma WholeLog(c: Config, s: State)
    requires Inv(c, s) && s.phase.Idle?
    ensures LeftRecords(s.file, s.file.written) == s.file.records
  {
    hide CacheOk, LogSize, FileShape, Scan, LogBytes, Meaningful;
    ShapeFacts(c, s.file, s.history, s.now);
    MeaningfulLoggable(s.file.records);
    ScanRoundTrip(s.file.records);
    assert LogBytes(s.file.records)[..s.file.written] == LogBytes(s.file.records);
  }

  /** A fresh start puts log and cache in step. */
  lemma InitialMirrored(c: Config, s: State, times: seq<nat>, from: nat, since: nat, t: nat)
    requires Initial(c, s, times, from) && since <= from && s.now <= t && Steady(Ops(s.file.records), since, t)
    ensures Mirrored(c, s, t)
  {
    hide ApplyAll, Gone, Meaningful, Steady, LogSize, Rebuild;
    TickingLater(times, from, s.now, t);
    hide Ticking;
    ReplayFromEmpty(c, Ops(s.file.records), times, from, since, t);
  }

  /**
   A read hit in between makes the restart visible: with room for two entries, storing `a` and `b`,
   reading `a` and storing `c` keeps `a`, while the replayed log keeps `b`.
   */
  lemma HitIsNotReplayed(c: Config, a: Key, b: Key, k: Key)
    requires c.capacity == 2 && c.shards == 1 && c.maxBytes >= 4 * (|a| + |b| + |k| + ENTRY_SIZE)
    requires a != b && a != k && b != k
    ensures Accepted(c)
    ensures var written := ApplyAll(c, Empty(c), [Write(a, [], 0), Write(b, [], 0)], [0, 0]);
            var live := Apply(c, AfterGet(c, written, a, 0), Write(k, [], 0), 0);
            var replayed := ApplyAll(c, Empty(c), [Write(a, [], 0), Write(b, [], 0), Write(k, [], 0)], [0, 0, 0]);
            && Peek(c, live, a, 0) == Some([]) && Peek(c, live, b, 0) == None
            && Peek(c, replayed, a, 0) == None && Peek(c, replayed, b, 0) == Some([])
  {
    var ea, eb, ek := Entry(a, [], 0, Cost(a, [])), Entry(b, [], 0, Cost(b, [])), Entry(k, [], 0, Cost(k, []));
    var wa, wb, wk := Write(a, [], 0), Write(b, [], 0), Write(k, [], 0);
    OneShard(c, a);
    OneShard(c, b);
    OneShard(c, k);
    StoreTwo(c, a, b);
    StoreThird(c, ea, eb, ek);
    StoreThird(c, eb, ea, ek);
    TouchSecond(eb, ea);
    hide Store, Capacity, Budget, Touch, Home;
    assert Apply(c, [[]], wa, 0) == [[ea]];
    assert Apply(c, [[ea]], wb, 0) == [[eb, ea]];
    assert Apply(c, [[eb, ea]], wk, 0) == [[ek, eb]];
    assert Apply(c, [[ea, eb]], wk, 0) == [[ek, ea]];
    assert AfterGet(c, [[eb, ea]], a, 0) == [[ea, eb]];
    FindInPair(ek, ea);
    FindInPair(ek, eb);
    hide Apply, AfterGet, Find;
    assert [wa, wb][1..] == [wb] && [wb][1..] == [] && [0, 0][1..] == [0] && [0][1..] == [];
    assert ApplyAll(c, [[]], [wa, wb], [0, 0]) == ApplyAll(c, [[ea]], [wb], [0]) == [[eb, ea]];
    assert [wa, wb, wk][1..] == [wb, wk] && [wb, wk][1..] == [wk] && [wk][1..] == [] && [0, 0, 0][1..] == [0, 0];
    assert ApplyAll(c, [[]], [wa, wb, wk], [0, 0, 0]) == ApplyAll(c, [[ea]], [wb, wk], [0, 0])
        == ApplyAll(c, [[eb, ea]], [wk], [0]) == [[ek, eb]];
  }

  lemma OneShard(c: Config, k: Key)
    requires c.capacity == 2 && c.shards == 1 && c.maxBytes >= 1
    ensures Accepted(c) && Count(c) == 1 && Empty(c) == [[]] && Home(c, k) == 0
    ensures Capacity(c, 0) == 2 && Budget(c, 0) == c.maxBytes
  {}

  lemma FindInPair(x: Entry, y: Entry)
    requires x.key != y.key
    ensures Find([x, y], y.key) == Some(y)
    ensures forall q :: q != x.key && q != y.key ==> Find([x, y], q) == None
  {
    assert [x, y][1..] == [y] && [y][1..] == [];
  }

  lemma TouchSecond(x: Entry, y: Entry)
    requires x.key != y.key && y.expires == 0
    ensures Touch([x, y], y.key, 0) == [y, x]
  {
    FindInPair(x, y);
    assert [x, y][1..] == [y] && [y][1..] == [];
    assert Without([y], y.key) == [] && Without([x, y], y.key) == [x];
  }

  lemma StoreTwo(c: Config, a: Key, b: Key)
    requires a != b && c.maxBytes >= 2 * (|a| + |b| + ENTRY_SIZE)
    ensures Store([], 2, c.maxBytes, a, [], 0, 0) == [Entry(a, [], 0, Cost(a, []))]
    ensures Store([Entry(a, [], 0, Cost(a, []))], 2, c.maxBytes, b, [], 0, 0)
         == [Entry(b, [], 0, Cost(b, [])), Entry(a, [], 0, Cost(a, []))]
  {
    var ea, eb := Entry(a, [], 0, Cost(a, [])), Entry(b, [], 0, Cost(b, []));
    assert Front([], ea) == [ea] && Front([ea], eb) == [eb, ea];
    assert Total([ea]) == ea.bytes && [eb, ea][1..] == [ea];
  }

  lemma StoreThird(c: Config, x: Entry, y: Entry, z: Entry)
    requires x.key != z.key && y.key != z.key && z.value == [] && z.expires == 0 && z.bytes == Cost(z.key, [])
    requires c.maxBytes >= x.bytes + z.bytes
    ensures Store([x, y], 2, c.maxBytes, z.key, [], 0, 0) == [z, x]
  {
    assert [x, y][1..] == [y];
    assert Without([y], z.key) == [y] && Without([x, y], z.key) == [x, y];
    assert Front([x, y], z) == [z, x, y];
    assert [z, x, y][..2] == [z, x] && [z, x][1..] == [x] && [x][1..] == [];
    assert Total([x]) == x.bytes && Total([z, x]) == z.bytes + x.bytes;
    assert Fits([z, x], 2, c.maxBytes) && !Fits([z, x, y], 2, c.maxBytes);
    assert Trim([z, x, y], 2, c.maxBytes) == Trim([z, x], 2, c.maxBytes);
  }
}
