/** What it means that a key was evicted: the only excuse the durability results allow for a missing value. */
module Evictions {
  import opened Common
  import opened Lru
  import opened Sharded
  import opened Semantics
  import opened AofCodec
  import opened LogOps
  import opened Durability

  /** A key is evicted by an operation exactly if it was cached, is not the operation's own, and is gone. */
  lemma EvictedExactly(c: Config, s: Cache, op: Op, now: nat, k: Key)
    requires CacheSound(c, s) && Storable(c, op)
    ensures k in Evicted(c, s, op, now) <==>
              k != op.key && At(c, s, k).Some? && At(c, Apply(c, s, op, now), k).None?
  {
    ApplyAt(c, s, op, now, k);
    if k in Evicted(c, s, op, now) {
      var i := Home(c, op.key);
      assert ShardSound(c, s[i], i);
      hide Apply;
      var e :| e in s[i] && e.key == k;
    }
  }

  ghost predicate AllAbsent(c: Config, s: Cache, gone: set<Key>)
    requires Accepted(c) && |s| == Count(c)
  {
    forall k :: k in gone ==> At(c, s, k).None?
  }

  lemma ApplyAbsent(c: Config, s: Cache, op: Op, now: nat, gone: set<Key>)
    requires CacheSound(c, s) && Storable(c, op) && AllAbsent(c, s, gone)
    ensures CacheSound(c, Apply(c, s, op, now))
    ensures AllAbsent(c, Apply(c, s, op, now), (gone - {op.key}) + Evicted(c, s, op, now))
  {
    ApplyAt(c, s, op, now, op.key);
    hide CacheSound, Storable, Apply, At, Evicted;
    forall k | k in (gone - {op.key}) + Evicted(c, s, op, now)
      ensures At(c, Apply(c, s, op, now), k).None?
    {
      EvictedExactly(c, s, op, now, k);
      ApplyAt(c, s, op, now, k);
    }
  }

  lemma {:induction false} ReplayAbsent(c: Config, s: Cache, gone: set<Key>, ops: seq<Op>, times: seq<nat>)
    requires CacheSound(c, s) && AllStorable(c, ops) && |times| == |ops| && AllAbsent(c, s, gone)
    ensures AllAbsent(c, ApplyAll(c, s, ops, times), Gone(c, s, gone, ops, times))
    decreases |ops|
  {
    assert Accepted(c) && |s| == Count(c);
    hide CacheSound, Storable, Apply, At, Evicted, AllAbsent;
    if ops != [] {
      assert Storable(c, ops[0]);
      ApplyAbsent(c, s, ops[0], times[0], gone);
      ReplayAbsent(c, Apply(c, s, ops[0], times[0]), (gone - {ops[0].key}) + Evicted(c, s, ops[0], times[0]),
                   ops[1..], times[1..]);
    }
  }

  lemma ReadAbsent(c: Config, s: Cache, k: Key, now: nat, gone: set<Key>)
    requires Accepted(c) && |s| == Count(c) && AllAbsent(c, s, gone)
    ensures AllAbsent(c, AfterGet(c, s, k, now), gone)
  {
    hide At, AfterGet;
    forall q | q in gone ensures At(c, AfterGet(c, s, k, now), q).None? {
      ReadAt(c, s, k, now, q);
    }
  }

  /** The operation applied next comes from the log and fits its shard. */
  lemma NextStorable(c: Config, s: State)
    requires Inv(c, s) && Enabled(c, s, ApplyNext)
    ensures CacheSound(c, s.cache) && Storable(c, s.history[|s.history| - s.phase.count])
  {
    hide Within, Covers, CacheSound, Fold, Meaningful, LogSize, Apply, Evicted, Mirrors, Storable;
    var f := s.file;
    var n, ops := |f.records| - s.phase.count, Ops(f.records);
    TailsAgree(ops, f.base, s.history, f.at, n);
    assert ops[n..][0] == ops[n] && ops[n] in ops;
  }

  lemma RestartTimes(c: Config, s: State, e: Event)
    requires Accepted(c) && e.Restart? && Enabled(c, s, e)
    ensures Accepts(c, e.file, e.n) && |e.times| == |LeftRecords(e.file, e.n)|
  {
    hide Accepts, LeftRecords, MayFind, Readable, Ticking;
  }

  lemma RestartIs(c: Config, s: State, e: Event)
    requires Accepted(c) && e.Restart? && Enabled(c, s, e)
    ensures Accepts(c, e.file, e.n) && |e.times| == |LeftRecords(e.file, e.n)|
    ensures var t, ops := After(c, s, e), Ops(LeftRecords(e.file, e.n));
            && AllStorable(c, ops)
            && t.cache == ApplyAll(c, Empty(c), ops, e.times) && t.gone == Gone(c, Empty(c), {}, ops, e.times)
  {
    hide Enabled, Accepts, LeftRecords, Gone, ApplyAll, AllStorable, Meaningful;
    RestartTimes(c, s, e);
  }

  lemma RestartAbsent(c: Config, s: State, e: Event)
    requires Accepted(c) && e.Restart? && Enabled(c, s, e)
    ensures var t := After(c, s, e);
            |t.cache| == Count(c) && AllAbsent(c, t.cache, t.gone)
  {
    RestartIs(c, s, e);
    hide Enabled, After, Accepts, LeftRecords, CacheSound, AllAbsent, Gone, ApplyAll, AllStorable, Meaningful;
    var ops := Ops(LeftRecords(e.file, e.n));
    EmptyBetween(c, 0);
    NoneGone(c, Empty(c));
    ReplayAbsent(c, Empty(c), {}, ops, e.times);
  }

  lemma StepAbsent(c: Config, s: State, e: Event)
    requires Inv(c, s) && Accepted(c) && Enabled(c, s, e) && |s.cache| == Count(c) && AllAbsent(c, s.cache, s.gone)
    ensures var t := After(c, s, e);
            |t.cache| == Count(c) && AllAbsent(c, t.cache, t.gone)
  {
    hide Inv, AllAbsent;
    match e
    case Restart(_, _, _, _) => RestartAbsent(c, s, e);
    case ApplyNext =>
      NextStorable(c, s);
      ApplyAbsent(c, s.cache, s.history[|s.history| - s.phase.count], s.now, s.gone);
    case Read(k) => ReadAbsent(c, s.cache, k, s.now, s.gone);
    case Rename => assert AllAbsent(c, s.cache, {}) by { NoneGone(c, s.cache); }
    case _ =>
  }

  lemma NoneGone(c: Config, s: Cache)
    requires Accepted(c) && |s| == Count(c)
    ensures AllAbsent(c, s, {})
  {}

  /** In every state of every run, a key on record as evicted is not in the cache. */
  lemma {:induction false} GoneIsAbsent(c: Config, states: seq<State>, events: seq<Event>, times: seq<nat>,
                                        from: nat, i: nat)
    requires Run(c, states, events, times, from) && i <= |events|
    ensures Accepted(c) && |states[i].cache| == Count(c) && AllAbsent(c, states[i].cache, states[i].gone)
  {
    hide Inv, Enabled, After, AllAbsent, Gone, ApplyAll;
    if i == 0 {
      NoneGone(c, Empty(c));
      EmptyBetween(c, 0);
      ReplayAbsent(c, Empty(c), {}, Ops(states[0].file.records), times);
    } else {
      GoneIsAbsent(c, states, events, times, from, i - 1);
      RunKeeps(c, states, events, times, from, i - 1);
      StepAbsent(c, states[i - 1], events[i - 1]);
    }
  }
}
