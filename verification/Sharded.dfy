/** The sharded cache: entry and byte budgets split over shards chosen by key hash. */
module Sharded {
  import opened Common
  import opened Lru

  /** `hash` stands for the platform's string hash. */
  datatype Config = Config(capacity: nat, shards: nat, maxBytes: nat, hash: Key -> nat)

  type Cache = seq<Shard>

  function Count(c: Config): nat { Min(c.capacity, c.shards) }

  /** Configurations the constructors accept: positive counts and a byte for every shard. */
  predicate Accepted(c: Config) { c.capacity > 0 && c.shards > 0 && c.maxBytes >= Count(c) }

  /** Share `i` of `total` split into `n` parts, the remainder going to the first ones. */
  function Share(total: nat, n: nat, i: nat): (s: nat)
    requires n > 0
  {
    total / n + (if i < total % n then 1 else 0)
  }

  function Shares(total: nat, n: nat, m: nat): nat
    requires n > 0
  {
    if m == 0 then 0 else Shares(total, n, m - 1) + Share(total, n, m - 1)
  }

  lemma {:induction false} SharesUpTo(total: nat, n: nat, m: nat)
    requires n > 0
    ensures Shares(total, n, m) == m * (total / n) + Min(m, total % n)
  {
    if m > 0 {
      SharesUpTo(total, n, m - 1);
      assert m * (total / n) == (m - 1) * (total / n) + total / n;
    }
  }

  /** The shares add up exactly to the total. */
  lemma SharesSum(total: nat, n: nat)
    requires n > 0
    ensures Shares(total, n, n) == total
  {
    SharesUpTo(total, n, n);
    assert total == n * (total / n) + total % n;
  }

  /** No share exceeds another by more than one, and the larger ones come first. */
  lemma ShareBalanced(total: nat, n: nat, i: nat, j: nat)
    requires n > 0 && i <= j < n
    ensures Share(total, n, j) <= Share(total, n, i) <= Share(total, n, j) + 1
  {}

  lemma SharePositive(total: nat, n: nat, i: nat)
    requires 0 < n <= total
    ensures Share(total, n, i) >= 1
  {
    assert total == n * (total / n) + total % n;
  }

  function Capacity(c: Config, i: nat): nat
    requires Accepted(c)
  {
    Share(c.capacity, Count(c), i)
  }

  function Budget(c: Config, i: nat): nat
    requires Accepted(c)
  {
    Share(c.maxBytes, Count(c), i)
  }

  lemma BudgetsPositive(c: Config, i: nat)
    requires Accepted(c)
    ensures Capacity(c, i) >= 1 && Budget(c, i) >= 1
  {
    SharePositive(c.capacity, Count(c), i);
    SharePositive(c.maxBytes, Count(c), i);
  }

  function Home(c: Config, k: Key): (i: nat)
    requires Accepted(c)
    ensures i < Count(c)
  {
    c.hash(k) % Count(c)
  }

  /** A key lives in the shard its hash leaves over when the shards divide it. */
  lemma HomeIsResidue(c: Config, k: Key)
    requires Accepted(c)
    ensures c.hash(k) == Count(c) * (c.hash(k) / Count(c)) + Home(c, k)
    ensures c.hash(k) < Count(c) ==> Home(c, k) == c.hash(k)
  {}

  predicate CanStore(c: Config, k: Key, v: Bytes)
    requires Accepted(c)
  {
    Cost(k, v) <= Budget(c, Home(c, k))
  }

  // ----- Specification -----

  function Empty(c: Config): (s: Cache)
    ensures |s| == Count(c)
  {
    seq(Count(c), i => [])
  }

  function AfterPut(c: Config, s: Cache, k: Key, v: Bytes, expires: nat, now: nat): (r: Cache)
    requires Accepted(c) && |s| == Count(c)
    ensures |r| == |s|
  {
    var i := Home(c, k);
    s[i := Store(s[i], Capacity(c, i), Budget(c, i), k, v, expires, now)]
  }

  function AfterRemove(c: Config, s: Cache, k: Key): (r: Cache)
    requires Accepted(c) && |s| == Count(c)
    ensures |r| == |s|
  {
    s[Home(c, k) := Without(s[Home(c, k)], k)]
  }

  function AfterGet(c: Config, s: Cache, k: Key, now: nat): (r: Cache)
    requires Accepted(c) && |s| == Count(c)
    ensures |r| == |s|
  {
    s[Home(c, k) := Touch(s[Home(c, k)], k, now)]
  }

  function Peek(c: Config, s: Cache, k: Key, now: nat): Option<Bytes>
    requires Accepted(c) && |s| == Count(c)
  {
    Read(s[Home(c, k)], k, now)
  }

  /** Shard after shard, each oldest first, expired entries left out. */
  function SnapshotAll(s: Cache, now: nat): (r: seq<Entry>)
  {
    if s == [] then [] else Snapshot(s[0], now) + SnapshotAll(s[1..], now)
  }

  function TotalEntries(s: Cache): nat
  {
    if s == [] then 0 else TotalEntries(s[..|s| - 1]) + |s[|s| - 1]|
  }

  function TotalBytes(s: Cache): nat
  {
    if s == [] then 0 else TotalBytes(s[..|s| - 1]) + Total(s[|s| - 1])
  }

  /** Shard `i` of a sound cache: within its budgets and holding only keys that hash there. */
  ghost predicate ShardSound(c: Config, s: Shard, i: nat)
    requires Accepted(c)
  {
    Sound(s, Capacity(c, i), Budget(c, i)) && forall e :: e in s ==> Home(c, e.key) == i
  }

  ghost predicate CacheSound(c: Config, s: Cache)
  {
    && Accepted(c) && |s| == Count(c)
    && forall i :: 0 <= i < |s| ==> ShardSound(c, s[i], i)
  }

  lemma EmptySound(c: Config)
    requires Accepted(c)
    ensures CacheSound(c, Empty(c))
  {}

  lemma PutSound(c: Config, s: Cache, k: Key, v: Bytes, expires: nat, now: nat)
    requires CacheSound(c, s)
    ensures CacheSound(c, AfterPut(c, s, k, v, expires, now))
  {
    var i := Home(c, k);
    StoreSound(s[i], Capacity(c, i), Budget(c, i), k, v, expires, now);
    StoreMembers(s[i], Capacity(c, i), Budget(c, i), k, v, expires, now);
    hide Store, Sound, Capacity, Budget;
    assert ShardSound(c, s[i], i);
  }

  lemma RemoveSoundAll(c: Config, s: Cache, k: Key)
    requires CacheSound(c, s)
    ensures CacheSound(c, AfterRemove(c, s, k))
  {
    var i := Home(c, k);
    assert ShardSound(c, s[i], i);
    RemoveSound(s[i], Capacity(c, i), Budget(c, i), k);
    hide Sound, Capacity, Budget;
  }

  lemma GetSound(c: Config, s: Cache, k: Key, now: nat)
    requires CacheSound(c, s)
    ensures CacheSound(c, AfterGet(c, s, k, now))
  {
    var i := Home(c, k);
    assert ShardSound(c, s[i], i);
    TouchSound(s[i], Capacity(c, i), Budget(c, i), k, now);
    TouchMembers(s[i], k, now);
    hide Sound, Capacity, Budget, Touch;
  }

  /** The entries of a shard after a store: the new one and old ones under other keys. */
  lemma StoreMembers(s: Shard, capacity: nat, maxBytes: nat, k: Key, v: Bytes, expires: nat, now: nat)
    ensures forall e :: e in Store(s, capacity, maxBytes, k, v, expires, now) ==>
              || (e.key != k && e in s)
              || (!Lapsed(expires, now) && e == Entry(k, v, expires, Cost(k, v)))
  {
    var n := Entry(k, v, expires, Cost(k, v));
    var full := Front(s, n);
    assert forall e :: e in full ==> e == n || (e in s && e.key != k);
    var r := Trim(full, capacity, maxBytes);
    assert forall e :: e in r ==> e in full;
  }

  lemma TouchMembers(s: Shard, k: Key, now: nat)
    ensures forall e :: e in Touch(s, k, now) ==> e in s
    ensures forall e :: e in s && !Expired(e, now) && Distinct(s) ==> e in Touch(s, k, now)
  {
    var found := Find(s, k);
    if found.Some? {
      forall e | e in s && Distinct(s) && e.key == k ensures e == found.value {
        var p :| 0 <= p < |s| && s[p] == e;
        FindAt(s, p);
      }
    }
  }

  /** The aggregate limits hold because each shard keeps its share. */
  lemma {:induction false} AggregateUpTo(c: Config, s: Cache, m: nat)
    requires CacheSound(c, s) && m <= |s|
    ensures TotalEntries(s[..m]) <= Shares(c.capacity, Count(c), m)
    ensures TotalBytes(s[..m]) <= Shares(c.maxBytes, Count(c), m)
  {
    if m > 0 {
      AggregateUpTo(c, s, m - 1);
      assert s[..m][..m - 1] == s[..m - 1];
      assert ShardSound(c, s[m - 1], m - 1);
    }
  }

  lemma AggregateLimits(c: Config, s: Cache)
    requires CacheSound(c, s)
    ensures TotalEntries(s) <= c.capacity && TotalBytes(s) <= c.maxBytes
  {
    AggregateUpTo(c, s, |s|);
    assert s[..|s|] == s;
    SharesSum(c.capacity, Count(c));
    SharesSum(c.maxBytes, Count(c));
  }

  /**
   A configuration is accepted exactly when there is at least one shard and every shard gets room for an
   entry and a byte. There are as many shards as asked for, or one for each entry if that is fewer.
   */
  lemma AcceptedExactly(c: Config)
    ensures Count(c) == if c.shards < c.capacity then c.shards else c.capacity
    ensures Accepted(c) <==>
              && Count(c) > 0
              && forall i :: 0 <= i < Count(c) ==>
                   Share(c.capacity, Count(c), i) > 0 && Share(c.maxBytes, Count(c), i) > 0
  {
    var n := Count(c);
    if n > 0 {
      forall i | 0 <= i < n
        ensures Share(c.capacity, n, i) > 0 && (Accepted(c) ==> Share(c.maxBytes, n, i) > 0)
      {
        SharePositive(c.capacity, n, i);
        if Accepted(c) { SharePositive(c.maxBytes, n, i); }
      }
      if c.maxBytes < n {
        assert c.maxBytes / n == 0 && c.maxBytes % n == c.maxBytes;
        assert Share(c.maxBytes, n, n - 1) == 0;
      }
    }
  }

  /** All entries, shard by shard. */
  function Pooled(s: Cache): seq<Entry>
  {
    if s == [] then [] else Pooled(s[..|s| - 1]) + s[|s| - 1]
  }

  /** The totals count every entry of every shard, and its size, once. */
  lemma {:induction false} TotalsPooled(s: Cache)
    ensures TotalEntries(s) == |Pooled(s)| && TotalBytes(s) == Total(Pooled(s))
  {
    if s != [] {
      TotalsPooled(s[..|s| - 1]);
      TotalAppend(Pooled(s[..|s| - 1]), s[|s| - 1]);
    }
  }

  // ----- The program's cache -----

  datatype Counts = Counts(hits: nat, misses: nat, bytes: nat, evictions: nat)

  class ShardedCache {
    const config: Config
    var shards: seq<LruCache>

    ghost predicate Valid()
      reads this, shards
    {
      && Accepted(config) && |shards| == Count(config)
      && (forall i, j :: 0 <= i < j < |shards| ==> shards[i] != shards[j])
      && (forall i :: 0 <= i < |shards| ==>
            && shards[i].Valid()
            && shards[i].capacity == Capacity(config, i) && shards[i].maxBytes == Budget(config, i))
    }

    ghost function Contents(): (s: Cache)
      reads this, shards
      ensures |s| == |shards| && forall i :: 0 <= i < |s| ==> s[i] == shards[i].Contents()
    {
      seq(|shards|, i requires 0 <= i < |shards| reads this, shards => shards[i].Contents())
    }

    /** Builds the shards; the caller has checked what the constructors reject. */
    constructor (c: Config)
      requires Accepted(c)
      ensures Valid() && config == c && fresh(shards) && Contents() == Empty(c)
    {
      config := c;
      shards := [];
      new;
      var i := 0;
      while i < Count(c)
        invariant 0 <= i <= Count(c) && |shards| == i && fresh(shards)
        invariant forall a, b :: 0 <= a < b < i ==> shards[a] != shards[b]
        invariant forall a :: 0 <= a < i ==>
                    && shards[a].Valid() && shards[a].Contents() == []
                    && shards[a].capacity == Capacity(c, a) && shards[a].maxBytes == Budget(c, a)
      {
        BudgetsPositive(c, i);
        var shard := new LruCache(
          c.capacity / Count(c) + (if i < c.capacity % Count(c) then 1 else 0),
          c.maxBytes / Count(c) + (if i < c.maxBytes % Count(c) then 1 else 0));
        shards := shards + [shard];
        i := i + 1;
      }
    }

    method Put(k: Key, v: Bytes, expires: nat, now: nat) returns (stored: bool)
      requires Valid()
      modifies shards
      ensures Valid()
      ensures stored == CanStore(config, k, v)
      ensures Contents() == if stored then AfterPut(config, old(Contents()), k, v, expires, now) else old(Contents())
    {
      var i := Home(config, k);
      stored := shards[i].Put(k, v, expires, now);
    }

    method Get(k: Key, now: nat) returns (r: Option<Bytes>)
      requires Valid()
      modifies shards
      ensures Valid()
      ensures r == Peek(config, old(Contents()), k, now)
      ensures Contents() == AfterGet(config, old(Contents()), k, now)
    {
      var i := Home(config, k);
      r := shards[i].Get(k, now);
    }

    method Remove(k: Key) returns (r: bool)
      requires Valid()
      modifies shards
      ensures Valid()
      ensures r == Find(old(Contents())[Home(config, k)], k).Some?
      ensures Contents() == AfterRemove(config, old(Contents()), k)
    {
      var i := Home(config, k);
      r := shards[i].Remove(k);
    }

    method Size() returns (total: nat)
      requires Valid()
      ensures total == TotalEntries(Contents())
    {
      total := 0;
      for i := 0 to |shards|
        invariant total == TotalEntries(Contents()[..i])
      {
        assert Contents()[..i + 1][..i] == Contents()[..i];
        total := total + |shards[i].items|;
      }
      assert Contents()[..|shards|] == Contents();
    }

    /** The counters of the first `n` shards, added up. */
    ghost function Tally(n: nat): Counts
      requires n <= |shards|
      reads this, shards
    {
      if n == 0 then Counts(0, 0, 0, 0)
      else
        var t, s := Tally(n - 1), shards[n - 1];
        Counts(t.hits + s.hits, t.misses + s.misses, t.bytes + s.bytes, t.evictions + s.evictions)
    }

    /** Each counter is the sum of the shards' own. */
    lemma TallyNext(n: nat)
      requires n < |shards|
      ensures Tally(0) == Counts(0, 0, 0, 0)
      ensures Tally(n + 1).hits == Tally(n).hits + shards[n].hits
      ensures Tally(n + 1).misses == Tally(n).misses + shards[n].misses
      ensures Tally(n + 1).evictions == Tally(n).evictions + shards[n].evictions
    {}

    lemma {:induction false} TallyBytes(n: nat)
      requires Valid() && n <= |shards|
      ensures Tally(n).bytes == TotalBytes(Contents()[..n])
    {
      if n > 0 {
        TallyBytes(n - 1);
        assert Contents()[..n][..n - 1] == Contents()[..n - 1];
        assert shards[n - 1].Valid();
      }
    }

    lemma TallyAll()
      requires Valid()
      ensures Tally(|shards|).bytes == TotalBytes(Contents())
    {
      TallyBytes(|shards|);
      assert Contents()[..|shards|] == Contents();
    }

    /** The counters of all shards; the accounted bytes are the sizes of what the cache holds. */
    method GetStats() returns (total: Counts)
      requires Valid()
      ensures total == Tally(|shards|) && total.bytes == TotalBytes(Contents())
    {
      hide ShardedCache.Valid, ShardedCache.Contents, TotalBytes;
      total := Counts(0, 0, 0, 0);
      for i := 0 to |shards|
        invariant total == Tally(i)
      {
        var s := shards[i];
        total := Counts(total.hits + s.hits, total.misses + s.misses,
                        total.bytes + s.bytes, total.evictions + s.evictions);
      }
      TallyAll();
    }

    method TakeSnapshot(now: nat) returns (r: seq<Entry>)
      requires Valid()
      ensures r == SnapshotAll(Contents(), now)
    {
      hide Snapshot, LruCache.Valid, LruCache.Contents;
      ghost var s := Contents();
      r := [];
      assert s[0..] == s;
      for i := 0 to |shards|
        invariant r + SnapshotAll(s[i..], now) == SnapshotAll(s, now)
      {
        assert s[i..][0] == s[i] && s[i..][1..] == s[i + 1..];
        var entries := shards[i].TakeSnapshot(now);
        assert SnapshotAll(s[i..], now) == entries + SnapshotAll(s[i + 1..], now);
        assert r + (entries + SnapshotAll(s[i + 1..], now)) == (r + entries) + SnapshotAll(s[i + 1..], now);
        r := r + entries;
      }
    }
  }
}
