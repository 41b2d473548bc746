/**
 What a list of logged operations means. `Fold` is the plain meaning, a map with no budgets and no
 clock; a cache that applied the operations holds part of it. The relations here say which part.
 */
module Semantics {
  import opened Common
  import opened Lru
  import opened Sharded

  datatype Op = Write(key: Key, value: Bytes, expires: nat) | Erase(key: Key)

  datatype Held = Held(value: Bytes, expires: nat)

  type View = map<Key, Held>

  predicate Live(h: Held, now: nat) { !Lapsed(h.expires, now) }

  function Step(v: View, op: Op): View
  {
    match op
    case Write(k, value, expires) => v[k := Held(value, expires)]
    case Erase(k) => v - {k}
  }

  function FoldFrom(v: View, ops: seq<Op>): View
    decreases |ops|
  {
    if ops == [] then v else FoldFrom(Step(v, ops[0]), ops[1..])
  }

  function Fold(ops: seq<Op>): View { FoldFrom(map[], ops) }

  lemma {:induction false} FoldAppend(v: View, a: seq<Op>, b: seq<Op>)
    ensures FoldFrom(v, a + b) == FoldFrom(FoldFrom(v, a), b)
    decreases |a|
  {
    if a == [] {
      assert a + b == b;
    } else {
      assert (a + b)[1..] == a[1..] + b;
      FoldAppend(Step(v, a[0]), a[1..], b);
    }
  }

  /** Index of the last operation on `k`. */
  function LastOn(ops: seq<Op>, k: Key): (r: Option<nat>)
    ensures r.Some? ==> r.value < |ops| && ops[r.value].key == k
    ensures r.Some? ==> forall i :: r.value < i < |ops| ==> ops[i].key != k
    ensures r.None? ==> forall i :: 0 <= i < |ops| ==> ops[i].key != k
    decreases |ops|
  {
    if ops == [] then None
    else if ops[|ops| - 1].key == k then Some(|ops| - 1)
    else LastOn(ops[..|ops| - 1], k)
  }

  /** The folded map holds, for each key, what its last operation wrote. */
  lemma {:induction false} FoldIsLast(ops: seq<Op>, k: Key)
    ensures var last := LastOn(ops, k);
            k in Fold(ops) <==> last.Some? && ops[last.value].Write?
    ensures var last := LastOn(ops, k);
            k in Fold(ops) ==> Fold(ops)[k] == Held(ops[last.value].value, ops[last.value].expires)
    decreases |ops|
  {
    if ops != [] {
      var n := |ops| - 1;
      assert ops == ops[..n] + [ops[n]];
      FoldAppend(map[], ops[..n], [ops[n]]);
      assert FoldFrom(Fold(ops[..n]), [ops[n]]) == Step(Fold(ops[..n]), ops[n]);
      FoldIsLast(ops[..n], k);
    }
  }

  // ----- What a cache holds under a key -----

  function At(c: Config, s: Cache, k: Key): Option<Held>
    requires Accepted(c) && |s| == Count(c)
  {
    match Find(s[Home(c, k)], k)
    case None => None
    case Some(e) => Some(Held(e.value, e.expires))
  }

  predicate Storable(c: Config, op: Op)
    requires Accepted(c)
  {
    op.Write? ==> CanStore(c, op.key, op.value)
  }

  function Apply(c: Config, s: Cache, op: Op, now: nat): (r: Cache)
    requires Accepted(c) && |s| == Count(c)
    ensures |r| == Count(c)
  {
    match op
    case Write(k, v, expires) => AfterPut(c, s, k, v, expires, now)
    case Erase(k) => AfterRemove(c, s, k)
  }

  /** Operations applied in order, each at its own clock reading. */
  function ApplyAll(c: Config, s: Cache, ops: seq<Op>, times: seq<nat>): (r: Cache)
    requires Accepted(c) && |s| == Count(c) && |times| == |ops|
    ensures |r| == Count(c)
    decreases |ops|
  {
    if ops == [] then s else ApplyAll(c, Apply(c, s, ops[0], times[0]), ops[1..], times[1..])
  }

  /** A clock that stands still. */
  function Constant(n: nat, t: nat): (times: seq<nat>)
    ensures |times| == n && forall i :: 0 <= i < n ==> times[i] == t
  {
    seq(n, _ => t)
  }

  /** Keys other than its own that an operation pushes out. */
  ghost function Evicted(c: Config, s: Cache, op: Op, now: nat): set<Key>
    requires Accepted(c) && |s| == Count(c)
  {
    set e | e in s[Home(c, op.key)] && e.key != op.key && At(c, Apply(c, s, op, now), e.key).None? :: e.key
  }

  /** Keys evicted and not written since, after a run of operations. */
  ghost function Gone(c: Config, s: Cache, gone: set<Key>, ops: seq<Op>, times: seq<nat>): set<Key>
    requires Accepted(c) && |s| == Count(c) && |times| == |ops|
    decreases |ops|
  {
    if ops == [] then gone
    else Gone(c, Apply(c, s, ops[0], times[0]), (gone - {ops[0].key}) + Evicted(c, s, ops[0], times[0]),
              ops[1..], times[1..])
  }

  lemma {:induction false} FindWithout(s: Shard, k: Key, q: Key)
    ensures Find(Without(s, k), q) == if q == k then None else Find(s, q)
  {
    if s != [] {
      FindWithout(s[1..], k, q);
      if s[0].key != k { assert Without(s, k)[1..] == Without(s[1..], k); }
    }
  }

  lemma {:induction false} FindPrefix(s: Shard, n: nat, q: Key)
    requires n <= |s|
    ensures Find(s[..n], q) == Find(s, q) || Find(s[..n], q) == None
  {
    if n > 0 {
      assert s[..n][1..] == s[1..][..n - 1];
      FindPrefix(s[1..], n - 1, q);
    }
  }

  lemma FindStore(s: Shard, capacity: nat, maxBytes: nat, k: Key, v: Bytes, expires: nat, now: nat, q: Key)
    requires capacity >= 1 && Sound(s, capacity, maxBytes) && Cost(k, v) <= maxBytes
    ensures var r := Find(Store(s, capacity, maxBytes, k, v, expires, now), q);
            if q == k then r == if Lapsed(expires, now) then None else Some(Entry(k, v, expires, Cost(k, v)))
            else r == Find(s, q) || r == None
  {
    FindWithout(s, k, q);
    if !Lapsed(expires, now) {
      var e := Entry(k, v, expires, Cost(k, v));
      var full := Front(s, e);
      StoreKeepsLongestPrefix(s, capacity, maxBytes, k, v, expires, now);
      hide Without, Trim, Sound;
      var r := Store(s, capacity, maxBytes, k, v, expires, now);
      assert r == full[..|r|];
      assert full[1..] == Without(s, k);
      FindPrefix(full, |r|, q);
      assert r[0] == e;
    }
  }

  /** Effect of one operation, key by key. */
  lemma ApplyAt(c: Config, s: Cache, op: Op, now: nat, q: Key)
    requires CacheSound(c, s) && Storable(c, op)
    ensures CacheSound(c, Apply(c, s, op, now))
    ensures var r := At(c, Apply(c, s, op, now), q);
            if q == op.key then
              r == (if op.Write? && !Lapsed(op.expires, now) then Some(Held(op.value, op.expires)) else None)
            else r == At(c, s, q) || (r == None && q in Evicted(c, s, op, now))
  {
    var i := Home(c, op.key);
    BudgetsPositive(c, i);
    assert ShardSound(c, s[i], i);
    match op
    case Write(k, v, expires) =>
      PutSound(c, s, k, v, expires, now);
      FindStore(s[i], Capacity(c, i), Budget(c, i), k, v, expires, now, q);
      hide Store, Sound, Capacity, Budget, CacheSound, ShardSound;
      var found := Find(s[Home(c, q)], q);
    case Erase(k) =>
      RemoveSoundAll(c, s, k);
      FindWithout(s[i], k, q);
      hide Sound, Capacity, Budget, CacheSound, ShardSound, Without;
  }

  lemma {:induction false} ApplyAllSound(c: Config, s: Cache, ops: seq<Op>, times: seq<nat>)
    requires CacheSound(c, s) && |times| == |ops| && forall op :: op in ops ==> Storable(c, op)
    ensures CacheSound(c, ApplyAll(c, s, ops, times))
    decreases |ops|
  {
    assert Accepted(c) && |s| == Count(c);
    hide CacheSound, Apply, Storable;
    if ops != [] {
      ApplyAt(c, s, ops[0], times[0], ops[0].key);
      ApplyAllSound(c, Apply(c, s, ops[0], times[0]), ops[1..], times[1..]);
    }
  }

  lemma {:induction false} ApplyAllAppend(c: Config, s: Cache, a: seq<Op>, ta: seq<nat>, b: seq<Op>, tb: seq<nat>)
    requires Accepted(c) && |s| == Count(c) && |ta| == |a| && |tb| == |b|
    ensures ApplyAll(c, s, a + b, ta + tb) == ApplyAll(c, ApplyAll(c, s, a, ta), b, tb)
    decreases |a|
  {
    hide Apply;
    if a == [] {
      assert a + b == b && ta + tb == tb;
    } else {
      assert (a + b)[1..] == a[1..] + b && (ta + tb)[1..] == ta[1..] + tb;
      ApplyAllAppend(c, Apply(c, s, a[0], ta[0]), a[1..], ta[1..], b, tb);
    }
  }

  // ----- The relations -----

  /** Every unexpired entry of the cache is what the view says. */
  ghost predicate Within(c: Config, s: Cache, v: View, now: nat)
    requires Accepted(c) && |s| == Count(c)
  {
    forall k :: At(c, s, k).Some? && Live(At(c, s, k).value, now) ==> k in v && v[k] == At(c, s, k).value
  }

  /** Every unexpired key of the view is in the cache, unless it was evicted. */
  ghost predicate Covers(c: Config, s: Cache, v: View, gone: set<Key>, now: nat)
    requires Accepted(c) && |s| == Count(c)
  {
    forall k :: k in v && Live(v[k], now) && k !in gone ==> At(c, s, k) == Some(v[k])
  }

  /** `m` agrees with `v` on unexpired keys, except that it may lack those in `gone`. */
  ghost predicate Mirrors(m: View, v: View, gone: set<Key>, now: nat)
  {
    && (forall k :: k in m && Live(m[k], now) ==> k in v && v[k] == m[k])
    && (forall k :: k in v && Live(v[k], now) && k !in gone ==> k in m && m[k] == v[k])
  }

  lemma WithinStep(c: Config, s: Cache, v: View, op: Op, now: nat)
    requires CacheSound(c, s) && Storable(c, op) && Within(c, s, v, now)
    ensures Within(c, Apply(c, s, op, now), Step(v, op), now)
  {
    var s2, v2 := Apply(c, s, op, now), Step(v, op);
    forall k | At(c, s2, k).Some? && Live(At(c, s2, k).value, now)
      ensures k in v2 && v2[k] == At(c, s2, k).value
    {
      ApplyAt(c, s, op, now, k);
      hide CacheSound, Apply, At, Evicted;
    }
  }

  lemma CoversStep(c: Config, s: Cache, v: View, gone: set<Key>, op: Op, now: nat)
    requires CacheSound(c, s) && Storable(c, op) && Covers(c, s, v, gone, now)
    ensures Covers(c, Apply(c, s, op, now), Step(v, op), (gone - {op.key}) + Evicted(c, s, op, now), now)
  {
    var s2, v2 := Apply(c, s, op, now), Step(v, op);
    var gone2 := (gone - {op.key}) + Evicted(c, s, op, now);
    forall k | k in v2 && Live(v2[k], now) && k !in gone2
      ensures At(c, s2, k) == Some(v2[k])
    {
      ApplyAt(c, s, op, now, k);
      hide CacheSound, Apply, At, Evicted;
    }
  }

  lemma WithinLater(c: Config, s: Cache, v: View, now: nat, later: nat)
    requires Accepted(c) && |s| == Count(c) && Within(c, s, v, now) && now <= later
    ensures Within(c, s, v, later)
  {
    hide At;
  }

  lemma CoversLater(c: Config, s: Cache, v: View, gone: set<Key>, now: nat, later: nat)
    requires Accepted(c) && |s| == Count(c) && Covers(c, s, v, gone, now) && now <= later
    ensures Covers(c, s, v, gone, later)
  {
    hide At;
  }

  /** Clock readings that never go back, starting at `from` and ending by `until`. */
  predicate Ticking(times: seq<nat>, from: nat, until: nat)
    decreases |times|
  {
    if times == [] then from <= until else from <= times[0] && Ticking(times[1..], times[0], until)
  }

  lemma {:induction false} TickingOrder(times: seq<nat>, from: nat, until: nat)
    requires Ticking(times, from, until)
    ensures from <= until
    decreases |times|
  {
    if times != [] { TickingOrder(times[1..], times[0], until); }
  }

  /** Applying logged operations keeps the cache between nothing and their fold. */
  lemma {:induction false} ApplyAllBetween(c: Config, s: Cache, v: View, gone: set<Key>, ops: seq<Op>, times: seq<nat>,
                                           from: nat, until: nat)
    requires CacheSound(c, s) && |times| == |ops| && forall op :: op in ops ==> Storable(c, op)
    requires Within(c, s, v, from) && Covers(c, s, v, gone, from) && Ticking(times, from, until)
    ensures var r := ApplyAll(c, s, ops, times);
            && Within(c, r, FoldFrom(v, ops), until)
            && Covers(c, r, FoldFrom(v, ops), Gone(c, s, gone, ops, times), until)
    decreases |ops|
  {
    assert Accepted(c) && |s| == Count(c);
    hide CacheSound, Apply, Storable, Within, Covers, At, Evicted, Step;
    if ops == [] {
      TickingOrder(times, from, until);
      WithinLater(c, s, v, from, until);
      CoversLater(c, s, v, gone, from, until);
    } else {
      var t := times[0];
      WithinLater(c, s, v, from, t);
      CoversLater(c, s, v, gone, from, t);
      WithinStep(c, s, v, ops[0], t);
      CoversStep(c, s, v, gone, ops[0], t);
      ApplyAt(c, s, ops[0], t, ops[0].key);
      var gone1 := (gone - {ops[0].key}) + Evicted(c, s, ops[0], t);
      ApplyAllBetween(c, Apply(c, s, ops[0], t), Step(v, ops[0]), gone1, ops[1..], times[1..], t, until);
    }
  }

  lemma EmptyBetween(c: Config, now: nat)
    requires Accepted(c)
    ensures CacheSound(c, Empty(c)) && Within(c, Empty(c), map[], now) && Covers(c, Empty(c), map[], {}, now)
  {
    EmptySound(c);
    assert forall k :: At(c, Empty(c), k) == None;
  }

  /** A read keeps both relations. */
  lemma ReadBetween(c: Config, s: Cache, v: View, gone: set<Key>, k: Key, now: nat)
    requires CacheSound(c, s) && Within(c, s, v, now) && Covers(c, s, v, gone, now)
    ensures CacheSound(c, AfterGet(c, s, k, now))
    ensures Within(c, AfterGet(c, s, k, now), v, now) && Covers(c, AfterGet(c, s, k, now), v, gone, now)
  {
    GetSound(c, s, k, now);
    var r := AfterGet(c, s, k, now);
    forall q ensures At(c, r, q) == At(c, s, q) || (At(c, r, q) == None && !Live(At(c, s, q).value, now)) {
      ReadAt(c, s, k, now, q);
    }
    hide At, AfterGet, CacheSound;
  }

  lemma ReadAt(c: Config, s: Cache, k: Key, now: nat, q: Key)
    requires Accepted(c) && |s| == Count(c)
    ensures var r := At(c, AfterGet(c, s, k, now), q);
            r == At(c, s, q) || (r == None && At(c, s, q).Some? && !Live(At(c, s, q).value, now))
  {
    FindWithout(s[Home(c, k)], k, q);
    var found := Find(s[Home(c, k)], k);
    if found.Some? { assert Front(s[Home(c, k)], found.value)[1..] == Without(s[Home(c, k)], k); }
  }

  lemma MirrorStep(m: View, v: View, gone: set<Key>, now: nat, op: Op)
    requires Mirrors(m, v, gone, now)
    ensures Mirrors(Step(m, op), Step(v, op), gone - {op.key}, now)
  {}

  function Written(ops: seq<Op>): set<Key> { set op | op in ops :: op.key }

  lemma {:induction false} MirrorRun(m: View, v: View, gone: set<Key>, now: nat, ops: seq<Op>)
    requires Mirrors(m, v, gone, now)
    ensures Mirrors(FoldFrom(m, ops), FoldFrom(v, ops), gone - Written(ops), now)
    decreases |ops|
  {
    hide Mirrors;
    if ops == [] {
      assert gone - Written(ops) == gone;
    } else {
      MirrorStep(m, v, gone, now, ops[0]);
      MirrorRun(Step(m, ops[0]), Step(v, ops[0]), gone - {ops[0].key}, now, ops[1..]);
      assert ops == [ops[0]] + ops[1..];
      assert (gone - {ops[0].key}) - Written(ops[1..]) == gone - Written(ops);
    }
  }
}
