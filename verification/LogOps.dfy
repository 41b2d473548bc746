/** Log records as operations, snapshots as records, and what a snapshot costs. */
module LogOps {
  import opened Common
  import opened KvProtocol
  import opened AofCodec
  import opened CacheValueCodec
  import opened Lru
  import opened Sharded
  import opened Semantics

  // ----- One record -----

  /** The replay callback's reading of a mutation; `None` where it raises. */
  function Decode(m: Mutation): Option<Op>
  {
    match m.command
    case Set => Some(Write(m.key, m.value, 0))
    case SetTtl =>
      (match Parse(m.value)
       case None => None
       case Some(item) => if item.expires == 0 then None else Some(Write(m.key, item.value, item.expires)))
    case _ => Some(Erase(m.key))
  }

  /** The mutation a snapshot writes for an operation. */
  function Canonical(op: Op): Mutation
  {
    match op
    case Erase(k) => Mutation(Del, k, [])
    case Write(k, v, expires) =>
      if expires == 0 then Mutation(Set, k, v) else Mutation(SetTtl, k, Stamped(v, expires))
  }

  predicate Recordable(op: Op)
  {
    Loggable(Canonical(op)) && (op.Write? ==> op.expires < U64_LIMIT && |op.value| < U64_LIMIT)
  }

  lemma DecodeCanonical(op: Op)
    requires Recordable(op)
    ensures Decode(Canonical(op)) == Some(op)
  {
    if op.Write? && op.expires != 0 {
      SerializeRoundTrip(CacheValue(false, op.value, op.expires, 0));
    }
    hide Serialize, ParseInto, Loggable;
  }

  /**
   What every record of a log means. A lifetime record that does not hold a cache value, or holds one
   without an expiry time, stops the replay.
   */
  lemma RecordMeaning(m: Mutation, item: CacheValue)
    requires WellFormed(item)
    ensures m.command == Set ==> Decode(m) == Some(Write(m.key, m.value, 0))
    ensures m.command == Del ==> Decode(m) == Some(Erase(m.key))
    ensures m.command == SetTtl && m.value == Serialize(item) ==>
              Decode(m) == if item.expires == 0 then None else Some(Write(m.key, item.value, item.expires))
    ensures m.command == SetTtl && Parse(m.value).None? ==> Decode(m).None?
  {
    SerializeRoundTrip(item);
    hide Serialize, Parse;
  }

  /** No mutation with the same meaning is smaller than the canonical one. */
  lemma CanonicalSmallest(m: Mutation)
    requires Loggable(m) && Decode(m).Some?
    ensures var op := Decode(m).value;
            && Recordable(op) && op.key == m.key == Canonical(op).key
            && |Canonical(op).value| <= |m.value|
  {
    if m.command == SetTtl {
      StampedSmallest(m.value);
      ParseWellFormed(m.value, EMPTY);
      ValueWithin(m.value, EMPTY);
    }
    hide Serialize, ParseInto;
  }

  lemma {:induction false} ValueWithin(b: Bytes, acc: CacheValue)
    requires ParseInto(b, acc).Some?
    ensures |ParseInto(b, acc).value.value| <= |acc.value| + |b|
    decreases |b|
  {
    hide ReadVarint;
    if b != [] {
      var s := ReadField(b, acc).value;
      ValueWithin(s.rest, s.next);
    }
  }

  // ----- Whole logs -----

  predicate Meaningful(rs: seq<Record>)
  {
    forall r :: r in rs ==> Loggable(r.m) && Decode(r.m).Some?
  }

  function Ops(rs: seq<Record>): (ops: seq<Op>)
    requires Meaningful(rs)
    ensures |ops| == |rs| && forall i :: 0 <= i < |rs| ==> ops[i] == Decode(rs[i].m).value
  {
    seq(|rs|, i requires 0 <= i < |rs| => Decode(rs[i].m).value)
  }

  lemma OpsAppend(a: seq<Record>, b: seq<Record>)
    requires Meaningful(a) && Meaningful(b)
    ensures Meaningful(a + b) && Ops(a + b) == Ops(a) + Ops(b)
  {
    hide Decode, Loggable;
  }

  lemma OpsSlice(rs: seq<Record>, i: nat, j: nat)
    requires Meaningful(rs) && i <= j <= |rs|
    ensures Meaningful(rs[i..j]) && Ops(rs[i..j]) == Ops(rs)[i..j]
  {
    hide Decode, Loggable;
  }

  function Legacies(rs: seq<Record>): nat
  {
    if rs == [] then 0 else Legacies(rs[1..]) + (if rs[0].Legacy? then 1 else 0)
  }

  // ----- Snapshots -----

  function EntryOp(e: Entry): Op { Write(e.key, e.value, e.expires) }

  function EntryOps(es: seq<Entry>): (ops: seq<Op>)
    ensures |ops| == |es| && forall i :: 0 <= i < |es| ==> ops[i] == EntryOp(es[i])
  {
    seq(|es|, i requires 0 <= i < |es| => EntryOp(es[i]))
  }

  /** The records a rewrite stores for the entries of a snapshot. */
  function EntryRecords(es: seq<Entry>): (rs: seq<Record>)
    ensures |rs| == |es| && forall i :: 0 <= i < |es| ==> rs[i] == V2(Canonical(EntryOp(es[i])))
  {
    seq(|es|, i requires 0 <= i < |es| => V2(Canonical(EntryOp(es[i]))))
  }

  predicate EntriesRecordable(es: seq<Entry>) { forall e :: e in es ==> Recordable(EntryOp(e)) }

  lemma EntryRecordsDecode(es: seq<Entry>)
    requires EntriesRecordable(es)
    ensures Meaningful(EntryRecords(es)) && Ops(EntryRecords(es)) == EntryOps(es)
  {
    forall i | 0 <= i < |es|
      ensures Loggable(EntryRecords(es)[i].m) && Decode(EntryRecords(es)[i].m) == Some(EntryOp(es[i]))
    {
      assert es[i] in es;
      DecodeCanonical(EntryOp(es[i]));
    }
    hide Decode, Loggable, Canonical, Recordable;
  }

  lemma {:induction false} FoldEntries(v: View, es: seq<Entry>, k: Key)
    requires Distinct(es)
    ensures var f := FoldFrom(v, EntryOps(es));
            match Find(es, k)
            case Some(e) => k in f && f[k] == Held(e.value, e.expires)
            case None => (k in f <==> k in v) && (k in f ==> f[k] == v[k])
    decreases |es|
  {
    if es != [] {
      assert EntryOps(es)[1..] == EntryOps(es[1..]);
      FoldEntries(Step(v, EntryOp(es[0])), es[1..], k);
    }
  }

  function LiveFind(s: Shard, k: Key, now: nat): Option<Entry>
  {
    match Find(s, k)
    case None => None
    case Some(e) => if Expired(e, now) then None else Some(e)
  }

  lemma {:induction false} FindAppend(a: Shard, b: Shard, k: Key)
    ensures Find(a + b, k) == if Find(a, k).Some? then Find(a, k) else Find(b, k)
  {
    if a == [] {
      assert a + b == b;
    } else {
      assert (a + b)[1..] == a[1..] + b;
      FindAppend(a[1..], b, k);
    }
  }

  lemma {:induction false} DistinctAppend(a: Shard, b: Shard)
    requires Distinct(a) && Distinct(b) && forall e :: e in a ==> Absent(b, e.key)
    ensures Distinct(a + b)
  {
    if a == [] {
      assert a + b == b;
    } else {
      assert (a + b)[1..] == a[1..] + b;
      assert Absent(b, a[0].key);
      DistinctAppend(a[1..], b);
    }
  }

  lemma {:induction false} SnapshotDistinct(s: Shard, now: nat)
    requires Distinct(s)
    ensures Distinct(Snapshot(s, now))
  {
    if s != [] {
      SnapshotDistinct(s[1..], now);
      var older, newest := Snapshot(s[1..], now), if Expired(s[0], now) then [] else [s[0]];
      assert forall e :: e in older ==> e in s[1..];
      assert Distinct(newest);
      hide Distinct, Snapshot;
      DistinctAppend(older, newest);
    }
  }

  lemma {:induction false} SnapshotFind(s: Shard, now: nat, k: Key)
    requires Distinct(s)
    ensures Find(Snapshot(s, now), k) == LiveFind(s, k, now)
  {
    if s != [] {
      SnapshotFind(s[1..], now, k);
      var older, newest := Snapshot(s[1..], now), if Expired(s[0], now) then [] else [s[0]];
      assert Snapshot(s, now) == older + newest;
      assert Find(newest, k) == if s[0].key == k && !Expired(s[0], now) then Some(s[0]) else None;
      assert s[0].key == k ==> Find(s[1..], k).None?;
      hide Distinct, Snapshot, Absent;
      FindAppend(older, newest, k);
    }
  }

  lemma {:induction false} SnapshotFrom(c: Config, s: Cache, i: nat, now: nat, k: Key)
    requires CacheSound(c, s) && i <= |s|
    ensures var r := SnapshotAll(s[i..], now);
            && Distinct(r)
            && (forall e :: e in r ==> Home(c, e.key) >= i && e in s[Home(c, e.key)] && !Expired(e, now))
            && Find(r, k) == if Home(c, k) >= i then LiveFind(s[Home(c, k)], k, now) else None
    decreases |s| - i
  {
    if i < |s| {
      assert ShardSound(c, s[i], i);
      assert s[i..][1..] == s[i + 1..];
      var first, rest := Snapshot(s[i], now), SnapshotAll(s[i + 1..], now);
      SnapshotDistinct(s[i], now);
      SnapshotFind(s[i], now, k);
      SnapshotFrom(c, s, i + 1, now, k);
      hide CacheSound, ShardSound, Capacity, Budget, Distinct;
      DistinctAppend(first, rest);
      FindAppend(first, rest, k);
      assert Find(first, k).Some? ==> Find(first, k).value in s[i];
    }
  }

  /** A snapshot folds to exactly the unexpired contents of the cache. */
  lemma SnapshotFold(c: Config, s: Cache, now: nat, k: Key)
    requires CacheSound(c, s)
    ensures var v := Fold(EntryOps(SnapshotAll(s, now)));
            && (k in v <==> At(c, s, k).Some? && Live(At(c, s, k).value, now))
            && (k in v ==> v[k] == At(c, s, k).value)
  {
    assert s[0..] == s;
    SnapshotFrom(c, s, 0, now, k);
    FoldEntries(map[], SnapshotAll(s, now), k);
  }

  /** The snapshot stands for the log it replaces, up to evicted keys. */
  lemma SnapshotMirrors(c: Config, s: Cache, v: View, gone: set<Key>, now: nat)
    requires CacheSound(c, s) && Within(c, s, v, now) && Covers(c, s, v, gone, now)
    ensures Mirrors(Fold(EntryOps(SnapshotAll(s, now))), v, gone, now)
  {
    var m := Fold(EntryOps(SnapshotAll(s, now)));
    forall k ensures && (k in m <==> At(c, s, k).Some? && Live(At(c, s, k).value, now))
                     && (k in m ==> m[k] == At(c, s, k).value)
    {
      SnapshotFold(c, s, now, k);
    }
    hide At, Fold, CacheSound;
  }

  /** The cache is between nothing and its own snapshot. */
  lemma SnapshotBetween(c: Config, s: Cache, now: nat)
    requires CacheSound(c, s)
    ensures var v := Fold(EntryOps(SnapshotAll(s, now)));
            Within(c, s, v, now) && Covers(c, s, v, {}, now)
  {
    var m := Fold(EntryOps(SnapshotAll(s, now)));
    forall k ensures && (k in m <==> At(c, s, k).Some? && Live(At(c, s, k).value, now))
                     && (k in m ==> m[k] == At(c, s, k).value)
    {
      SnapshotFold(c, s, now, k);
    }
    hide At, Fold, CacheSound;
  }

  // ----- Compaction does not grow a version-2 log -----

  function EntrySize(e: Entry): nat { RecordSize(V2(Canonical(EntryOp(e)))) }

  function EntriesSize(es: seq<Entry>): nat
  {
    if es == [] then 0 else EntrySize(es[0]) + EntriesSize(es[1..])
  }

  lemma {:induction false} EntriesSizeIsLogSize(es: seq<Entry>)
    ensures EntriesSize(es) == LogSize(EntryRecords(es))
  {
    hide EntrySize, RecordSize;
    if es != [] {
      EntriesSizeIsLogSize(es[1..]);
      assert EntryRecords(es)[1..] == EntryRecords(es[1..]);
      assert EntrySize(es[0]) == RecordSize(EntryRecords(es)[0]) by { EntrySizeIs(es[0]); }
    }
  }

  lemma EntrySizeIs(e: Entry)
    ensures EntrySize(e) == RecordSize(V2(Canonical(EntryOp(e))))
  {}

  lemma {:induction false} EntriesSizeWithout(es: seq<Entry>, k: Key)
    requires Distinct(es) && Find(es, k).Some?
    ensures EntriesSize(es) == EntriesSize(Without(es, k)) + EntrySize(Find(es, k).value)
  {
    hide EntrySize;
    if es[0].key == k {
      WithoutAbsent(es[1..], k);
    } else {
      EntriesSizeWithout(es[1..], k);
      assert Without(es, k)[1..] == Without(es[1..], k);
    }
  }

  predicate Reflected(es: seq<Entry>, v: View)
  {
    forall e :: e in es ==> e.key in v && v[e.key] == Held(e.value, e.expires)
  }

  lemma FirstMember(es: seq<Entry>)
    ensures es != [] ==> es[0] in es
  {}

  lemma RecordCovers(r: Record, e: Entry)
    requires Loggable(r.m) && Decode(r.m) == Some(EntryOp(e))
    ensures EntrySize(e) <= RecordSize(r) + (if r.Legacy? then RECORD_HEADER else 0)
  {
    CanonicalSmallest(r.m);
    hide Decode, Canonical, Loggable, Recordable;
  }

  lemma LogSizeSnoc(rs: seq<Record>)
    requires AllLoggable(rs) && rs != []
    ensures var n := |rs| - 1;
            && LogSize(rs) == LogSize(rs[..n]) + RecordSize(rs[n])
            && Legacies(rs) == Legacies(rs[..n]) + (if rs[n].Legacy? then 1 else 0)
  {
    var n := |rs| - 1;
    assert rs == rs[..n] + [rs[n]];
    LogBytesAppend(rs[..n], [rs[n]]);
    assert LogSize([rs[n]]) == RecordSize(rs[n]);
    LegaciesSnoc(rs);
  }

  lemma {:induction false} LegaciesSnoc(rs: seq<Record>)
    requires rs != []
    ensures Legacies(rs) == Legacies(rs[..|rs| - 1]) + (if rs[|rs| - 1].Legacy? then 1 else 0)
  {
    if |rs| > 1 {
      LegaciesSnoc(rs[1..]);
      assert rs[..|rs| - 1][1..] == rs[1..][..|rs| - 2];
    }
  }

  /** Entries with distinct keys inject into the latest records of those keys. */
  lemma {:induction false} EntriesInject(es: seq<Entry>, rs: seq<Record>)
    requires Distinct(es) && Meaningful(rs) && Reflected(es, Fold(Ops(rs)))
    ensures EntriesSize(es) <= LogSize(rs) + RECORD_HEADER * Legacies(rs)
    decreases |rs|
  {
    hide EntrySize, RecordSize, Decode, Loggable, Distinct;
    if rs == [] {
      FirstMember(es);
    } else {
      var n := |rs| - 1;
      var init, last := rs[..n], rs[n];
      OpsSlice(rs, 0, n);
      var op := Ops(rs)[n];
      assert Ops(rs) == Ops(init) + [op];
      FoldAppend(map[], Ops(init), [op]);
      assert Fold(Ops(rs)) == Step(Fold(Ops(init)), op);
      LogSizeSnoc(rs);
      var found := Find(es, op.key);
      if found.Some? {
        var e := found.value;
        assert op == EntryOp(e);
        RecordCovers(last, e);
        EntriesSizeWithout(es, op.key);
        WithoutDistinct(es, op.key);
        EntriesInject(Without(es, op.key), init);
      } else {
        EntriesInject(es, init);
      }
    }
  }

  /**
   The encoded snapshot is no larger than the log whose fold contains it, plus the header each
   legacy record lacks; for a version-2 log it is no larger than the log.
   */
  lemma CompactionBound(c: Config, s: Cache, rs: seq<Record>, now: nat)
    requires CacheSound(c, s) && Meaningful(rs) && Within(c, s, Fold(Ops(rs)), now)
    ensures LogSize(EntryRecords(SnapshotAll(s, now))) <= LogSize(rs) + RECORD_HEADER * Legacies(rs)
    ensures (forall r :: r in rs ==> r.V2?) ==> LogSize(EntryRecords(SnapshotAll(s, now))) <= LogSize(rs)
  {
    var es := SnapshotAll(s, now);
    assert s[0..] == s;
    SnapshotFrom(c, s, 0, now, []);
    forall e | e in es ensures e.key in Fold(Ops(rs)) && Fold(Ops(rs))[e.key] == Held(e.value, e.expires) {
      assert ShardSound(c, s[Home(c, e.key)], Home(c, e.key));
      var shard := s[Home(c, e.key)];
      var p :| 0 <= p < |shard| && shard[p] == e;
      FindAt(shard, p);
      assert At(c, s, e.key) == Some(Held(e.value, e.expires));
    }
    hide Fold, CacheSound, Within;
    EntriesInject(es, rs);
    EntriesSizeIsLogSize(es);
    if forall r :: r in rs ==> r.V2? { NoLegacies(rs); }
  }

  lemma {:induction false} NoLegacies(rs: seq<Record>)
    requires forall r :: r in rs ==> r.V2?
    ensures Legacies(rs) == 0
  {
    if rs != [] {
      assert rs[0] in rs;
      NoLegacies(rs[1..]);
    }
  }

  /** A legacy log can grow: the snapshot of its one live entry adds the version-2 header. */
  lemma LegacyLogGrows(c: Config, k: Key, v: Bytes)
    requires Accepted(c) && CanStore(c, k, v) && |k| <= MAX_KEY_SIZE && |v| <= MAX_VALUE_SIZE
    ensures var rs := [Legacy(Mutation(Set, k, v))];
            var s := Apply(c, Empty(c), Write(k, v, 0), 0);
            && Meaningful(rs) && Ops(rs) == [Write(k, v, 0)]
            && LogSize(EntryRecords(SnapshotAll(s, 0))) == LogSize(rs) + RECORD_HEADER
  {
    var rs := [Legacy(Mutation(Set, k, v))];
    assert Ops(rs) == [Write(k, v, 0)];
    var e := Entry(k, v, 0, Cost(k, v));
    BudgetsPositive(c, Home(c, k));
    StoreFirst(e, Capacity(c, Home(c, k)), Budget(c, Home(c, k)));
    hide Capacity, Budget, Store;
    SingleSnapshot(Apply(c, Empty(c), Write(k, v, 0), 0), Home(c, k), e);
    EntriesSizeIsLogSize([e]);
    hide Apply, SnapshotAll;
    assert EntriesSize([e]) == EntrySize(e);
    assert LogSize(rs) == RecordSize(rs[0]);
  }

  lemma StoreFirst(e: Entry, capacity: nat, maxBytes: nat)
    requires capacity >= 1 && e.bytes == Cost(e.key, e.value) <= maxBytes
    ensures e.expires == 0 ==> Store([], capacity, maxBytes, e.key, e.value, 0, 0) == [e]
  {
    assert Front([], e) == [e] && Total([e]) == e.bytes;
  }

  lemma {:induction false} SingleSnapshot(s: Cache, i: nat, e: Entry)
    requires i < |s| && s[i] == [e] && e.expires == 0
    requires forall j :: 0 <= j < |s| && j != i ==> s[j] == []
    ensures SnapshotAll(s, 0) == [e]
    decreases |s|
  {
    if i == 0 {
      NothingSnapshot(s[1..]);
      assert Snapshot([e], 0) == [e];
    } else {
      SingleSnapshot(s[1..], i - 1, e);
    }
  }

  lemma {:induction false} NothingSnapshot(s: Cache)
    requires forall j :: 0 <= j < |s| ==> s[j] == []
    ensures SnapshotAll(s, 0) == []
  {
    if s != [] { NothingSnapshot(s[1..]); }
  }
}
