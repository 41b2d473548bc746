/**
 What the list order and the expiry of a shard mean, in terms of its past alone: entries are listed by
 last use, eviction takes the one unused for longest, and an entry is readable until its expiry.
 */
module Recency {
  import opened Common
  import opened Lru

  datatype Use = Puts(key: Key, value: Bytes, expires: nat, now: nat) | Gets(key: Key, now: nat) | Deletes(key: Key)

  /** A shard after one call; a store that exceeds the byte budget raises and changes nothing. */
  function Used(s: Shard, capacity: nat, maxBytes: nat, u: Use): Shard
  {
    match u
    case Puts(k, v, expires, now) =>
      if Cost(k, v) > maxBytes then s else Store(s, capacity, maxBytes, k, v, expires, now)
    case Gets(k, now) => Touch(s, k, now)
    case Deletes(k) => Without(s, k)
  }

  /** A shard after a list of calls, starting empty. */
  function After(capacity: nat, maxBytes: nat, us: seq<Use>): Shard
  {
    if us == [] then [] else Used(After(capacity, maxBytes, us[..|us| - 1]), capacity, maxBytes, us[|us| - 1])
  }

  /** The call uses the entry of its key: a read, or a store that is not refused. */
  predicate Uses(u: Use, maxBytes: nat)
  {
    match u
    case Puts(k, v, _, _) => |k| + |v| + 80 <= maxBytes
    case Gets(_, _) => true
    case Deletes(_) => false
  }

  /** Position of the last use of `k`, counting from one; zero if there was none. */
  function LastUse(us: seq<Use>, maxBytes: nat, k: Key): (n: nat)
    ensures n <= |us| && (n > 0 ==> us[n - 1].key == k && Uses(us[n - 1], maxBytes))
    ensures forall i :: n <= i < |us| && us[i].key == k ==> !Uses(us[i], maxBytes)
  {
    if us == [] then 0
    else if us[|us| - 1].key == k && Uses(us[|us| - 1], maxBytes) then |us|
    else LastUse(us[..|us| - 1], maxBytes, k)
  }

  /** Every entry was used, and they are listed by last use, the latest first. */
  ghost predicate Ordered(us: seq<Use>, maxBytes: nat, s: Shard)
  {
    s == []
    || (LastUse(us, maxBytes, s[0].key) > 0 && Ordered(us, maxBytes, s[1..])
        && forall e :: e in s[1..] ==> LastUse(us, maxBytes, e.key) < LastUse(us, maxBytes, s[0].key))
  }

  lemma {:induction false} WithoutOrdered(us: seq<Use>, maxBytes: nat, s: Shard, k: Key)
    requires Ordered(us, maxBytes, s)
    ensures Ordered(us, maxBytes, Without(s, k))
    decreases |s|
  {
    hide LastUse;
    if s != [] {
      WithoutOrdered(us, maxBytes, s[1..], k);
      if s[0].key != k { assert Without(s, k)[1..] == Without(s[1..], k); }
    }
  }

  lemma {:induction false} PrefixOrdered(us: seq<Use>, maxBytes: nat, s: Shard, n: nat)
    requires Ordered(us, maxBytes, s) && n <= |s|
    ensures Ordered(us, maxBytes, s[..n])
    decreases |s|
  {
    hide LastUse;
    if n > 0 {
      PrefixOrdered(us, maxBytes, s[1..], n - 1);
      assert s[..n][1..] == s[1..][..n - 1];
    }
  }

  lemma LastUseSnoc(us: seq<Use>, maxBytes: nat, u: Use, k: Key)
    ensures LastUse(us + [u], maxBytes, k)
         == if u.key == k && Uses(u, maxBytes) then |us| + 1 else LastUse(us, maxBytes, k)
  {
    assert (us + [u])[..|us|] == us;
  }

  /** A call on one key does not concern the last uses of the others. */
  lemma {:induction false} OthersOrdered(us: seq<Use>, maxBytes: nat, u: Use, s: Shard)
    requires Ordered(us, maxBytes, s) && (!Uses(u, maxBytes) || Absent(s, u.key))
    ensures Ordered(us + [u], maxBytes, s)
    decreases |s|
  {
    forall e | e in s ensures LastUse(us + [u], maxBytes, e.key) == LastUse(us, maxBytes, e.key) {
      LastUseSnoc(us, maxBytes, u, e.key);
    }
    hide LastUse;
    if s != [] {
      assert s[0] in s;
      OthersOrdered(us, maxBytes, u, s[1..]);
    }
  }

  lemma FrontOrdered(us: seq<Use>, maxBytes: nat, u: Use, s: Shard, e: Entry)
    requires Ordered(us, maxBytes, s) && e.key == u.key && Uses(u, maxBytes)
    ensures Ordered(us + [u], maxBytes, Front(s, e))
  {
    WithoutOrdered(us, maxBytes, s, e.key);
    OthersOrdered(us, maxBytes, u, Without(s, e.key));
    LastUseSnoc(us, maxBytes, u, e.key);
    forall x | x in Without(s, e.key) ensures LastUse(us + [u], maxBytes, x.key) < |us| + 1 {
      LastUseSnoc(us, maxBytes, u, x.key);
    }
    hide LastUse, Uses;
    assert Front(s, e)[1..] == Without(s, e.key);
  }

  lemma PutOrdered(us: seq<Use>, s: Shard, capacity: nat, maxBytes: nat, u: Use)
    requires Ordered(us, maxBytes, s) && u.Puts? && Uses(u, maxBytes)
    ensures Ordered(us + [u], maxBytes, Store(s, capacity, maxBytes, u.key, u.value, u.expires, u.now))
  {
    hide Ordered, Uses, Without, Trim, Fits;
    var e := Entry(u.key, u.value, u.expires, Cost(u.key, u.value));
    WithoutOrdered(us, maxBytes, s, u.key);
    OthersOrdered(us, maxBytes, u, Without(s, u.key));
    FrontOrdered(us, maxBytes, u, s, e);
    var full := Front(s, e);
    PrefixOrdered(us + [u], maxBytes, full, |Trim(full, capacity, maxBytes)|);
    assert Trim(full, capacity, maxBytes) == full[..|Trim(full, capacity, maxBytes)|];
  }

  lemma UsedOrdered(us: seq<Use>, s: Shard, capacity: nat, maxBytes: nat, u: Use)
    requires Ordered(us, maxBytes, s)
    ensures Ordered(us + [u], maxBytes, Used(s, capacity, maxBytes, u))
  {
    hide Ordered, Without, Store;
    WithoutOrdered(us, maxBytes, s, u.key);
    OthersOrdered(us, maxBytes, u, Without(s, u.key));
    match u
    case Puts(k, v, expires, now) =>
      if Uses(u, maxBytes) { PutOrdered(us, s, capacity, maxBytes, u); } else { OthersOrdered(us, maxBytes, u, s); }
    case Gets(k, now) =>
      var found := Find(s, k);
      if found.Some? {
        FrontOrdered(us, maxBytes, u, s, found.value);
      } else {
        OthersOrdered(us, maxBytes, u, s);
      }
    case Deletes(k) =>
  }

  lemma UsedSound(s: Shard, capacity: nat, maxBytes: nat, u: Use)
    requires Sound(s, capacity, maxBytes)
    ensures Sound(Used(s, capacity, maxBytes, u), capacity, maxBytes)
  {
    hide Sound, Store, Touch, Without;
    match u
    case Puts(k, v, expires, now) => StoreSound(s, capacity, maxBytes, k, v, expires, now);
    case Gets(k, now) => TouchSound(s, capacity, maxBytes, k, now);
    case Deletes(k) => RemoveSound(s, capacity, maxBytes, k);
  }

  /** The list is in order of last use, after any calls. */
  lemma {:induction false} ListedByUse(capacity: nat, maxBytes: nat, us: seq<Use>)
    ensures var s := After(capacity, maxBytes, us);
            Sound(s, capacity, maxBytes) && Ordered(us, maxBytes, s)
    decreases |us|
  {
    if us != [] {
      hide Sound, Ordered, Used;
      var n := |us| - 1;
      var s := After(capacity, maxBytes, us[..n]);
      ListedByUse(capacity, maxBytes, us[..n]);
      assert us == us[..n] + [us[n]];
      UsedOrdered(us[..n], s, capacity, maxBytes, us[n]);
      UsedSound(s, capacity, maxBytes, us[n]);
    }
  }

  lemma {:induction false} OrderedPair(us: seq<Use>, maxBytes: nat, s: Shard, i: nat, j: nat)
    requires Ordered(us, maxBytes, s) && i < j < |s|
    ensures LastUse(us, maxBytes, s[j].key) < LastUse(us, maxBytes, s[i].key)
    decreases i
  {
    hide LastUse;
    assert s[1..][j - 1] == s[j] && s[j] in s[1..];
    if i > 0 { OrderedPair(us, maxBytes, s[1..], i - 1, j - 1); }
  }

  /** What a store keeps is the longest fitting prefix of the list with the new entry in front. */
  lemma PutKeeps(capacity: nat, maxBytes: nat, us: seq<Use>, u: Use)
    requires u.Puts? && Uses(u, maxBytes) && capacity > 0 && (u.expires == 0 || u.now < u.expires)
    ensures var s, t := After(capacity, maxBytes, us), After(capacity, maxBytes, us + [u]);
            var full := Front(s, Entry(u.key, u.value, u.expires, Cost(u.key, u.value)));
            && Sound(s, capacity, maxBytes) && Ordered(us + [u], maxBytes, full)
            && 1 <= |t| <= |full| && t == full[..|t|]
            && (|t| < |full| ==> !Fits(full[..|t| + 1], capacity, maxBytes))
  {
    assert (us + [u])[..|us|] == us;
    hide Sound, Ordered, Fits, Store, Without;
    var s := After(capacity, maxBytes, us);
    ListedByUse(capacity, maxBytes, us);
    FrontOrdered(us, maxBytes, u, s, Entry(u.key, u.value, u.expires, Cost(u.key, u.value)));
    StoreKeepsLongestPrefix(s, capacity, maxBytes, u.key, u.value, u.expires, u.now);
  }

  /**
   Least recently used. After any calls, a store evicts an entry only if everything that stays was used
   more recently, and no more than it must: with the next victim the budgets would not hold.
   */
  lemma EvictsLeastRecent(capacity: nat, maxBytes: nat, us: seq<Use>, u: Use, gone: Entry, kept: Entry)
    requires u.Puts? && Uses(u, maxBytes) && capacity > 0 && (u.expires == 0 || u.now < u.expires)
    requires gone in After(capacity, maxBytes, us) && gone.key != u.key
    requires gone !in After(capacity, maxBytes, us + [u]) && kept in After(capacity, maxBytes, us + [u])
    ensures LastUse(us + [u], maxBytes, gone.key) < LastUse(us + [u], maxBytes, kept.key)
    ensures var s, t := After(capacity, maxBytes, us), After(capacity, maxBytes, us + [u]);
            exists victim :: victim in s && victim !in t && !Fits(t + [victim], capacity, maxBytes)
  {
    hide Ordered, Sound, Fits, After, LastUse, Uses;
    PutKeeps(capacity, maxBytes, us, u);
    var s, t := After(capacity, maxBytes, us), After(capacity, maxBytes, us + [u]);
    var e := Entry(u.key, u.value, u.expires, Cost(u.key, u.value));
    var full := Front(s, e);
    var i :| 0 <= i < |t| && t[i] == kept;
    assert gone in Without(s, u.key) && gone in full;
    hide Front;
    var j := Behind(full, t, gone);
    OrderedPair(us + [u], maxBytes, full, i, j);
    assert full[..|t| + 1] == t + [full[|t|]];
    NotTwice(s, e, |t|, capacity, maxBytes);
  }

  lemma Behind(full: Shard, t: Shard, gone: Entry) returns (j: nat)
    requires |t| <= |full| && t == full[..|t|] && gone in full && gone !in t
    ensures |t| <= j < |full| && full[j] == gone
  {
    j :| 0 <= j < |full| && full[j] == gone;
    assert forall x :: 0 <= x < |t| ==> full[x] in t;
  }

  /** The entry behind a prefix of the list is not in it. */
  lemma NotTwice(s: Shard, e: Entry, n: nat, capacity: nat, maxBytes: nat)
    requires Sound(s, capacity, maxBytes) && 0 < n < |Front(s, e)|
    ensures Front(s, e)[n] in s && Front(s, e)[n] !in Front(s, e)[..n]
  {
    var full := Front(s, e);
    FrontDistinct(s, e);
    assert full[n] == Without(s, e.key)[n - 1];
    DistinctAt(full, n);
  }

  lemma {:induction false} DistinctAt(s: Shard, n: nat)
    requires Distinct(s) && n < |s|
    ensures s[n] !in s[..n]
  {
    if n > 0 {
      DistinctAt(s[1..], n - 1);
      assert s[..n] == [s[0]] + s[1..][..n - 1] && s[n] in s[1..];
    }
  }

  // ----- How long an entry lives -----

  /**
   An entry is readable exactly until its expiry: a store at `now` with an expiry in the future is read
   back at `t` if and only if `t` is before it, and one without expiry is always read back.
   */
  lemma EntryLifetime(s: Shard, capacity: nat, maxBytes: nat, k: Key, v: Bytes, expires: nat, now: nat, t: nat)
    requires Sound(s, capacity, maxBytes) && capacity >= 1 && |k| + |v| + 80 <= maxBytes
    ensures Read(Store(s, capacity, maxBytes, k, v, expires, now), k, t)
         == if expires == 0 || (now < expires && t < expires) then Some(v) else None
  {
    if expires == 0 || now < expires {
      StoreKeepsLongestPrefix(s, capacity, maxBytes, k, v, expires, now);
      hide Sound, Trim, Without;
      var r := Store(s, capacity, maxBytes, k, v, expires, now);
      assert r[0] == Entry(k, v, expires, Cost(k, v));
    } else {
      assert Absent(Without(s, k), k);
    }
  }
}
