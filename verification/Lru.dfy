/**
 One cache shard. The first half specifies it as a list of entries, most recently used first;
 the second half is the program's doubly linked list with a key index and a byte counter.
 */
module Lru {
  import opened Common

  type Key = Bytes

  /** Size of the per-entry record on a 64-bit platform, charged to every entry. */
  const ENTRY_SIZE: nat := 80

  datatype Entry = Entry(key: Key, value: Bytes, expires: nat, bytes: nat)

  type Shard = seq<Entry>

  function Cost(key: Key, value: Bytes): nat { |key| + |value| + ENTRY_SIZE }

  predicate Lapsed(expires: nat, now: nat) { expires != 0 && expires <= now }

  predicate Expired(e: Entry, now: nat) { Lapsed(e.expires, now) }

  function Total(s: Shard): nat
  {
    if s == [] then 0 else s[0].bytes + Total(s[1..])
  }

  function Without(s: Shard, k: Key): (r: Shard)
    ensures |r| <= |s|
    ensures forall e :: e in r <==> e in s && e.key != k
  {
    if s == [] then [] else if s[0].key == k then Without(s[1..], k) else [s[0]] + Without(s[1..], k)
  }

  predicate Absent(s: Shard, k: Key) { forall e :: e in s ==> e.key != k }

  /** No key occurs twice. */
  predicate Distinct(s: Shard)
  {
    s == [] || (Absent(s[1..], s[0].key) && Distinct(s[1..]))
  }

  predicate Fits(s: Shard, capacity: nat, maxBytes: nat)
  {
    |s| <= capacity && Total(s) <= maxBytes
  }

  /** Drops least recently used entries until both budgets hold. */
  function Trim(s: Shard, capacity: nat, maxBytes: nat): (r: Shard)
    ensures Fits(r, capacity, maxBytes) && r <= s
  {
    if Fits(s, capacity, maxBytes) then s else Trim(s[..|s| - 1], capacity, maxBytes)
  }

  function Front(s: Shard, e: Entry): Shard { [e] + Without(s, e.key) }

  function Store(s: Shard, capacity: nat, maxBytes: nat, key: Key, value: Bytes, expires: nat, now: nat): Shard
  {
    if Lapsed(expires, now) then Without(s, key)
    else Trim(Front(s, Entry(key, value, expires, Cost(key, value))), capacity, maxBytes)
  }

  function Find(s: Shard, k: Key): (r: Option<Entry>)
    ensures r.Some? ==> r.value in s && r.value.key == k
    ensures r.None? ==> Absent(s, k)
  {
    if s == [] then None else if s[0].key == k then Some(s[0]) else Find(s[1..], k)
  }

  /** The list after a read of `k`: an expired entry is erased, a live one moves to the front. */
  function Touch(s: Shard, k: Key, now: nat): Shard
  {
    match Find(s, k)
    case None => s
    case Some(e) => if Expired(e, now) then Without(s, k) else Front(s, e)
  }

  function Read(s: Shard, k: Key, now: nat): Option<Bytes>
  {
    match Find(s, k)
    case None => None
    case Some(e) => if Expired(e, now) then None else Some(e.value)
  }

  /** Live entries, oldest first. */
  function Snapshot(s: Shard, now: nat): (r: seq<Entry>)
    ensures forall e :: e in r <==> e in s && !Expired(e, now)
  {
    if s == [] then []
    else Snapshot(s[1..], now) + (if Expired(s[0], now) then [] else [s[0]])
  }

  /** Every entry is charged its own cost. */
  ghost predicate Costed(s: Shard)
  {
    forall e :: e in s ==> e.bytes == Cost(e.key, e.value)
  }

  /** Every shard the program builds satisfies this. */
  ghost predicate Sound(s: Shard, capacity: nat, maxBytes: nat)
  {
    Distinct(s) && Fits(s, capacity, maxBytes) && Costed(s)
  }

  // ----- Properties of the list operations -----

  lemma {:induction false} TotalAppend(a: Shard, b: Shard)
    ensures Total(a + b) == Total(a) + Total(b)
  {
    if a == [] {
      assert a + b == b;
    } else {
      assert (a + b)[1..] == a[1..] + b;
      TotalAppend(a[1..], b);
    }
  }

  lemma TotalPrefix(s: Shard, m: nat, n: nat)
    requires m <= n <= |s|
    ensures Total(s[..m]) <= Total(s[..n])
  {
    assert s[..n] == s[..m] + s[m..n];
    TotalAppend(s[..m], s[m..n]);
  }

  lemma {:induction false} WithoutAt(s: Shard, p: nat)
    requires Distinct(s) && p < |s|
    ensures Without(s, s[p].key) == s[..p] + s[p + 1..]
  {
    var k, t := s[p].key, s[1..];
    if p == 0 {
      WithoutAbsent(t, k);
      assert s[..0] + s[1..] == t;
    } else {
      assert t[p - 1] == s[p] && s[p] in t;
      WithoutAt(t, p - 1);
      hide Distinct;
      assert s[..p] + s[p + 1..] == [s[0]] + (t[..p - 1] + t[p..]);
    }
  }

  lemma TotalSplit(s: Shard, p: nat)
    requires p < |s|
    ensures Total(s[..p] + s[p + 1..]) == Total(s) - s[p].bytes
  {
    assert s == s[..p] + s[p..] && s[p..][1..] == s[p + 1..];
    TotalAppend(s[..p], s[p..]);
    TotalAppend(s[..p], s[p + 1..]);
  }

  lemma {:induction false} WithoutAbsent(s: Shard, k: Key)
    requires Absent(s, k)
    ensures Without(s, k) == s
  {
    if s != [] {
      assert s[0] in s;
      WithoutAbsent(s[1..], k);
    }
  }

  lemma {:induction false} WithoutDistinct(s: Shard, k: Key)
    requires Distinct(s)
    ensures Distinct(Without(s, k)) && Total(Without(s, k)) <= Total(s)
  {
    if s != [] {
      WithoutDistinct(s[1..], k);
      if s[0].key != k {
        assert Without(s, k)[1..] == Without(s[1..], k);
      }
    }
  }

  /** Trimming keeps exactly the longest prefix that meets both budgets. */
  lemma {:induction false} TrimIsLongestPrefix(s: Shard, capacity: nat, maxBytes: nat, n: nat)
    requires n <= |s|
    ensures var r := Trim(s, capacity, maxBytes);
            Fits(s[..n], capacity, maxBytes) <==> n <= |r|
  {
    var r := Trim(s, capacity, maxBytes);
    assert r == s[..|r|];
    if n <= |r| {
      TotalPrefix(s, n, |r|);
    } else if n == |s| {
      assert s[..n] == s;
    } else {
      var t := s[..|s| - 1];
      assert t[..n] == s[..n];
      TrimIsLongestPrefix(t, capacity, maxBytes, n);
    }
  }

  /**
   Storing a live entry leaves exactly the longest prefix of "the entry, then the old list without
   its key" that meets both budgets, and the entry itself always survives.
   */
  lemma StoreKeepsLongestPrefix(s: Shard, capacity: nat, maxBytes: nat, key: Key, value: Bytes, expires: nat, now: nat)
    requires Sound(s, capacity, maxBytes) && capacity >= 1 && Cost(key, value) <= maxBytes
    requires !Lapsed(expires, now)
    ensures var full := [Entry(key, value, expires, Cost(key, value))] + Without(s, key);
            var r := Store(s, capacity, maxBytes, key, value, expires, now);
            && r == full[..|r|] && |r| >= 1
            && forall n :: 0 <= n <= |full| ==> (Fits(full[..n], capacity, maxBytes) <==> n <= |r|)
  {
    var full := [Entry(key, value, expires, Cost(key, value))] + Without(s, key);
    forall n | 0 <= n <= |full|
      ensures Fits(full[..n], capacity, maxBytes) <==> n <= |Trim(full, capacity, maxBytes)|
    {
      TrimIsLongestPrefix(full, capacity, maxBytes, n);
    }
    assert full[..1] == [full[0]];
    assert Total(full[..1]) == full[0].bytes;
    assert Fits(full[..1], capacity, maxBytes);
  }

  lemma FrontDistinct(s: Shard, e: Entry)
    requires Distinct(s)
    ensures Distinct(Front(s, e))
  {
    WithoutDistinct(s, e.key);
    assert Front(s, e)[1..] == Without(s, e.key);
  }

  lemma {:induction false} PrefixDistinct(s: Shard, n: nat)
    requires Distinct(s) && n <= |s|
    ensures Distinct(s[..n])
  {
    if n > 0 {
      PrefixDistinct(s[1..], n - 1);
      assert s[..n][1..] == s[1..][..n - 1];
    }
  }

  lemma PrefixSound(s: Shard, r: Shard, capacity: nat, maxBytes: nat)
    requires r <= s && Distinct(s) && Fits(r, capacity, maxBytes)
    requires Costed(s)
    ensures Sound(r, capacity, maxBytes)
  {
    assert r == s[..|r|];
    PrefixDistinct(s, |r|);
  }

  lemma WithoutCosted(s: Shard, k: Key)
    requires Costed(s)
    ensures Costed(Without(s, k))
  {}

  lemma FrontCosted(s: Shard, e: Entry)
    requires Costed(s) && e.bytes == Cost(e.key, e.value)
    ensures Costed(Front(s, e))
  {
    assert forall x :: x in Front(s, e) ==> x == e || x in s;
  }

  lemma RemoveSound(s: Shard, capacity: nat, maxBytes: nat, k: Key)
    requires Sound(s, capacity, maxBytes)
    ensures Sound(Without(s, k), capacity, maxBytes)
  {
    WithoutDistinct(s, k);
  }

  lemma StoreSound(s: Shard, capacity: nat, maxBytes: nat, key: Key, value: Bytes, expires: nat, now: nat)
    requires Sound(s, capacity, maxBytes)
    ensures Sound(Store(s, capacity, maxBytes, key, value, expires, now), capacity, maxBytes)
  {
    var e := Entry(key, value, expires, Cost(key, value));
    RemoveSound(s, capacity, maxBytes, key);
    FrontDistinct(s, e);
    PrefixSound(Front(s, e), Trim(Front(s, e), capacity, maxBytes), capacity, maxBytes);
  }

  lemma {:induction false} FindAt(s: Shard, p: nat)
    requires Distinct(s) && p < |s|
    ensures Find(s, s[p].key) == Some(s[p])
  {
    if p > 0 {
      assert s[p] in s[1..];
      FindAt(s[1..], p - 1);
    }
  }

  lemma TouchSound(s: Shard, capacity: nat, maxBytes: nat, k: Key, now: nat)
    requires Sound(s, capacity, maxBytes)
    ensures Sound(Touch(s, k, now), capacity, maxBytes)
  {
    RemoveSound(s, capacity, maxBytes, k);
    var found := Find(s, k);
    if found.Some? {
      var p :| 0 <= p < |s| && s[p] == found.value;
      WithoutAt(s, p);
      TotalSplit(s, p);
      FrontDistinct(s, found.value);
      FrontCosted(s, found.value);
      hide Distinct, Costed, Without;
      assert Front(s, found.value)[1..] == Without(s, k);
    }
  }

  // ----- The linked list and its index -----

  /** A list node; `id` stands for the iterator that addresses it. */
  datatype Node = Node(id: nat, entry: Entry)

  function Entries(nodes: seq<Node>): (s: Shard)
    ensures |s| == |nodes| && forall i :: 0 <= i < |s| ==> s[i] == nodes[i].entry
  {
    seq(|nodes|, i requires 0 <= i < |nodes| => nodes[i].entry)
  }

  /** Position of the node an iterator addresses. */
  function Position(nodes: seq<Node>, id: nat): (p: nat)
    ensures p <= |nodes| && (p < |nodes| ==> nodes[p].id == id)
    ensures forall i :: 0 <= i < p ==> nodes[i].id != id
  {
    if nodes == [] || nodes[0].id == id then 0 else 1 + Position(nodes[1..], id)
  }

  /** The index holds exactly one entry per node, addressing that node and no other. */
  ghost predicate Linked(nodes: seq<Node>, index: map<Key, nat>)
  {
    if nodes == [] then index == map[]
    else
      var k, id := nodes[0].entry.key, nodes[0].id;
      && k in index && index[k] == id
      && (forall q :: q in index && q != k ==> index[q] != id)
      && Linked(nodes[1..], index - {k})
  }

  ghost predicate Below(index: map<Key, nat>, next: nat)
  {
    forall k :: k in index ==> index[k] < next
  }

  lemma {:induction false} LinkedKeys(nodes: seq<Node>, index: map<Key, nat>)
    requires Linked(nodes, index)
    ensures forall i :: 0 <= i < |nodes| ==> nodes[i].entry.key in index && index[nodes[i].entry.key] == nodes[i].id
    ensures Distinct(Entries(nodes))
  {
    if nodes != [] {
      var k, rest := nodes[0].entry.key, nodes[1..];
      LinkedKeys(rest, index - {k});
      assert forall i :: 1 <= i < |nodes| ==> nodes[i] == rest[i - 1];
      assert Entries(nodes)[1..] == Entries(rest);
    }
  }

  /** Following the index from a key leads to the node of that key. */
  lemma {:induction false} IndexAddresses(nodes: seq<Node>, index: map<Key, nat>, k: Key)
    requires Linked(nodes, index) && k in index
    ensures var p := Position(nodes, index[k]); p < |nodes| && nodes[p].entry.key == k
  {
    var h := nodes[0].entry.key;
    if k != h {
      assert k in index - {h} && (index - {h})[k] == index[k];
      IndexAddresses(nodes[1..], index - {h}, k);
    }
  }

  lemma {:induction false} UnlinkKeeps(nodes: seq<Node>, index: map<Key, nat>, p: nat)
    requires Linked(nodes, index) && p < |nodes|
    ensures Linked(nodes[..p] + nodes[p + 1..], index - {nodes[p].entry.key})
  {
    var h, k, rest := nodes[0].entry.key, nodes[p].entry.key, nodes[1..];
    if p == 0 {
      assert nodes[..p] + nodes[p + 1..] == rest;
    } else {
      LinkedKeys(rest, index - {h});
      assert rest[p - 1] == nodes[p];
      assert k in index - {h};
      UnlinkKeeps(rest, index - {h}, p - 1);
      var left := nodes[..p] + nodes[p + 1..];
      assert left[1..] == rest[..p - 1] + rest[p..];
      RemoveSwap(index, h, k);
    }
  }

  lemma RemoveSwap(index: map<Key, nat>, h: Key, k: Key)
    ensures (index - {h}) - {k} == (index - {k}) - {h}
  {}

  lemma UnlinkContents(nodes: seq<Node>, index: map<Key, nat>, p: nat)
    requires Linked(nodes, index) && p < |nodes|
    ensures Entries(nodes[..p] + nodes[p + 1..]) == Without(Entries(nodes), nodes[p].entry.key)
    ensures Total(Entries(nodes[..p] + nodes[p + 1..])) == Total(Entries(nodes)) - nodes[p].entry.bytes
  {
    var s := Entries(nodes);
    LinkedKeys(nodes, index);
    hide Linked, Distinct, Total, Without;
    WithoutAt(s, p);
    TotalSplit(s, p);
    EntriesSplit(nodes, p);
  }

  lemma EntriesSplit(nodes: seq<Node>, p: nat)
    requires p < |nodes|
    ensures Entries(nodes[..p] + nodes[p + 1..]) == Entries(nodes)[..p] + Entries(nodes)[p + 1..]
  {}

  lemma EntriesFront(n: Node, nodes: seq<Node>)
    ensures Entries([n] + nodes) == [n.entry] + Entries(nodes)
  {}

  lemma WithoutLast(s: Shard)
    requires Distinct(s) && s != []
    ensures Without(s, s[|s| - 1].key) == s[..|s| - 1]
  {
    hide Distinct, Without;
    WithoutAt(s, |s| - 1);
    assert s[..|s| - 1] + s[|s|..] == s[..|s| - 1];
  }

  lemma LinkFrontKeeps(nodes: seq<Node>, index: map<Key, nat>, next: nat, e: Entry)
    requires Linked(nodes, index) && Below(index, next) && e.key !in index
    ensures Linked([Node(next, e)] + nodes, index[e.key := next])
    ensures Below(index[e.key := next], next + 1)
    ensures Entries([Node(next, e)] + nodes) == [e] + Entries(nodes)
  {
    var all := [Node(next, e)] + nodes;
    assert all[1..] == nodes;
    assert index[e.key := next] - {e.key} == index;
  }

  lemma ReplaceKeeps(nodes: seq<Node>, index: map<Key, nat>, next: nat, e: Entry, p: nat)
    requires Linked(nodes, index) && Below(index, next) && p < |nodes| && nodes[p].entry.key == e.key
    ensures var all := [Node(next, e)] + (nodes[..p] + nodes[p + 1..]);
            && Linked(all, index[e.key := next]) && Below(index[e.key := next], next + 1)
            && Entries(all) == [e] + Without(Entries(nodes), e.key)
  {
    hide Linked, Without;
    UnlinkKeeps(nodes, index, p);
    UnlinkContents(nodes, index, p);
    LinkFrontKeeps(nodes[..p] + nodes[p + 1..], index - {e.key}, next, e);
    assert (index - {e.key})[e.key := next] == index[e.key := next];
  }

  lemma RemoveBehindFront(n: Node, nodes: seq<Node>, p: nat)
    requires p < |nodes|
    ensures ([n] + nodes)[..p + 1] + ([n] + nodes)[p + 2..] == [n] + (nodes[..p] + nodes[p + 1..])
  {}

  lemma FrontTotal(s: Shard, e: Entry)
    ensures Total([e] + s) == e.bytes + Total(s)
  {}

  lemma IndexComplete(nodes: seq<Node>, index: map<Key, nat>, k: Key)
    requires Linked(nodes, index)
    ensures k !in index ==> Find(Entries(nodes), k).None? && Without(Entries(nodes), k) == Entries(nodes)
    ensures k in index ==> var p := Position(nodes, index[k]);
                           p < |nodes| && nodes[p].entry.key == k && Find(Entries(nodes), k) == Some(nodes[p].entry)
  {
    var s := Entries(nodes);
    LinkedKeys(nodes, index);
    if k in index {
      IndexAddresses(nodes, index, k);
      hide Linked;
      FindAt(s, Position(nodes, index[k]));
    } else {
      hide Linked, Distinct;
      forall e | e in s ensures e.key != k {
        var i :| 0 <= i < |s| && s[i] == e;
        assert nodes[i].entry.key in index;
      }
      WithoutAbsent(s, k);
    }
  }

  /** Moving a node to the front keeps every index entry valid. */
  lemma SpliceKeeps(nodes: seq<Node>, index: map<Key, nat>, p: nat)
    requires Linked(nodes, index) && p < |nodes|
    ensures Linked([nodes[p]] + (nodes[..p] + nodes[p + 1..]), index)
  {
    LinkedKeys(nodes, index);
    UnlinkKeeps(nodes, index, p);
    var moved := [nodes[p]] + (nodes[..p] + nodes[p + 1..]);
    assert moved[1..] == nodes[..p] + nodes[p + 1..];
    forall q | q in index && q != nodes[p].entry.key ensures index[q] != nodes[p].id {
      IndexAddresses(nodes, index, q);
      IndexAddresses(nodes, index, nodes[p].entry.key);
    }
  }

  class LruCache {
    const capacity: nat
    const maxBytes: nat
    var items: seq<Node>
    var index: map<Key, nat>
    var next: nat
    var bytes: nat
    var hits: nat
    var misses: nat
    var evictions: nat

    ghost function Contents(): Shard
      reads this
    {
      Entries(items)
    }

    /** List, index and byte counter agree. */
    ghost predicate Agree()
      reads this
    {
      && Linked(items, index) && Below(index, next) && bytes == Total(Contents())
      && Costed(Contents())
    }

    ghost predicate Valid()
      reads this
    {
      Agree() && Fits(Contents(), capacity, maxBytes) && capacity >= 1 && maxBytes >= 1
    }

    constructor (capacity: nat, maxBytes: nat)
      requires capacity >= 1 && maxBytes >= 1
      ensures Valid() && Contents() == [] && this.capacity == capacity && this.maxBytes == maxBytes
    {
      this.capacity, this.maxBytes := capacity, maxBytes;
      items, index, next, bytes, hits, misses, evictions := [], map[], 0, 0, 0, 0, 0;
    }

    predicate CanStore(key: Key, value: Bytes)
    {
      Cost(key, value) <= maxBytes
    }

    lemma IsSound()
      requires Valid()
      ensures Sound(Contents(), capacity, maxBytes)
    {
      LinkedKeys(items, index);
    }

    /** Unlinks the node an iterator addresses. */
    method Erase(id: nat)
      requires Agree() && Position(items, id) < |items|
      modifies `items, `index, `bytes
      ensures Agree() && |items| == old(|items|) - 1
      ensures Contents() == Without(old(Contents()), old(items[Position(items, id)].entry.key))
    {
      hide Linked, Total, Without, Cost;
      var p := Position(items, id);
      var node := items[p];
      UnlinkKeeps(items, index, p);
      UnlinkContents(items, index, p);
      WithoutCosted(Contents(), node.entry.key);
      hide Costed;
      bytes := bytes - node.entry.bytes;
      index := index - {node.entry.key};
      items := items[..p] + items[p + 1..];
    }

    /** Stores an entry; `false` stands for the length error. */
    method Put(key: Key, value: Bytes, expires: nat, now: nat) returns (stored: bool)
      requires Valid()
      modifies `items, `index, `next, `bytes, `evictions
      ensures Valid()
      ensures stored == CanStore(key, value)
      ensures stored ==> Contents() == Store(old(Contents()), capacity, maxBytes, key, value, expires, now)
      ensures stored && !Lapsed(expires, now) ==>
              evictions == old(evictions) + (1 + |Without(old(Contents()), key)| - |Contents()|)
      ensures !stored || Lapsed(expires, now) ==> evictions == old(evictions)
      ensures !stored ==> Contents() == old(Contents())
    {
      hide Linked, Total, Without, Trim, Costed, Below;
      var cost := |key| + |value| + ENTRY_SIZE;
      if cost > maxBytes {
        return false;
      }
      if Lapsed(expires, now) {
        IndexComplete(items, index, key);
        if key in index {
          LinkedKeys(items, index);
          WithoutDistinct(Contents(), key);
          Erase(index[key]);
        }
        return true;
      }
      Insert(Entry(key, value, expires, cost));
      Evict();
      stored := true;
    }

    /** Pushes the new node to the front and drops the old node of the same key. */
    method Insert(e: Entry)
      requires Agree() && e.bytes == Cost(e.key, e.value)
      modifies `items, `index, `next, `bytes
      ensures Agree() && Contents() == Front(old(Contents()), e)
    {
      hide Linked, Without, Below, Cost, Total;
      ghost var nodes, keys := items, index;
      IndexComplete(nodes, keys, e.key);
      FrontCosted(Contents(), e);
      FrontTotal(Without(Contents(), e.key), e);
      hide Costed;
      if e.key in index {
        var p := Position(items, index[e.key]);
        ReplaceKeeps(nodes, keys, next, e, p);
        UnlinkContents(nodes, keys, p);
        items := [Node(next, e)] + items;
        bytes := bytes - items[p + 1].entry.bytes;
        RemoveBehindFront(Node(next, e), nodes, p);
        items := items[..p + 1] + items[p + 2..];
      } else {
        LinkFrontKeeps(nodes, keys, next, e);
        items := [Node(next, e)] + items;
      }
      index := index[e.key := next];
      next := next + 1;
      bytes := bytes + e.bytes;
    }

    /** Drops the least recently used entry. */
    method EvictLast()
      requires Agree() && items != []
      modifies `items, `index, `bytes, `evictions
      ensures Agree() && Contents() == old(Contents())[..|old(items)| - 1]
      ensures evictions == old(evictions) + 1
    {
      hide Linked, Total, Without, Below, Costed, Distinct, Position;
      var last := |items| - 1;
      LinkedKeys(items, index);
      IndexComplete(items, index, items[last].entry.key);
      WithoutLast(Contents());
      Erase(items[last].id);
      evictions := evictions + 1;
    }

    /** The eviction loop. */
    method Evict()
      requires Agree()
      modifies `items, `index, `bytes, `evictions
      ensures Agree() && Contents() == Trim(old(Contents()), capacity, maxBytes)
      ensures evictions == old(evictions) + |old(Contents())| - |Contents()|
    {
      hide Linked, Total, Below, Costed;
      while |items| > capacity || bytes > maxBytes
        invariant Agree()
        invariant Trim(Contents(), capacity, maxBytes) == Trim(old(Contents()), capacity, maxBytes)
        invariant evictions == old(evictions) + |old(Contents())| - |Contents()|
        decreases |items|
      {
        TotalEmpty();
        EvictLast();
      }
    }

    /** A read moves the entry to the front; an expired entry is erased instead. */
    method Get(key: Key, now: nat) returns (r: Option<Bytes>)
      requires Valid()
      modifies `items, `index, `bytes, `hits, `misses
      ensures Valid() && Contents() == Touch(old(Contents()), key, now)
      ensures r == Read(old(Contents()), key, now)
      ensures if r.Some? then hits == old(hits) + 1 && misses == old(misses)
              else misses == old(misses) + 1 && hits == old(hits)
    {
      hide Linked, Total, Without, Below, Costed, Find, Distinct;
      IsSound();
      TouchSound(Contents(), capacity, maxBytes, key, now);
      IndexComplete(items, index, key);
      if key in index {
        var p := Position(items, index[key]);
        if Expired(items[p].entry, now) {
          Erase(index[key]);
        } else {
          hits := hits + 1;
          r := Some(items[p].entry.value);
          Splice(p);
          return;
        }
      }
      misses := misses + 1;
      r := None;
    }

    /** Relinks the node at `p` at the front; its iterator stays valid. */
    method Splice(p: nat)
      requires Agree() && p < |items|
      modifies `items
      ensures Agree() && Contents() == Front(old(Contents()), old(items[p].entry))
    {
      hide Linked, Without, Below, Cost, Total;
      ghost var nodes := items;
      var node := items[p];
      UnlinkContents(nodes, index, p);
      SpliceKeeps(nodes, index, p);
      assert Contents()[p] == node.entry;
      FrontCosted(Contents(), node.entry);
      FrontTotal(Without(Contents(), node.entry.key), node.entry);
      EntriesFront(node, nodes[..p] + nodes[p + 1..]);
      hide Costed, Entries;
      items := [node] + (items[..p] + items[p + 1..]);
    }

    method Exists(key: Key, now: nat) returns (r: bool)
      requires Valid()
      modifies `items, `index, `bytes
      ensures Valid() && r == Read(old(Contents()), key, now).Some?
      ensures Contents() == if r then old(Contents()) else Without(old(Contents()), key)
    {
      hide Linked, Total, Without, Below, Costed, Find;
      IndexComplete(items, index, key);
      if key !in index {
        return false;
      }
      if Expired(items[Position(items, index[key])].entry, now) {
        LinkedKeys(items, index);
        WithoutDistinct(Contents(), key);
        Erase(index[key]);
        return false;
      }
      r := true;
    }

    method Remove(key: Key) returns (r: bool)
      requires Valid()
      modifies `items, `index, `bytes
      ensures Valid() && Contents() == Without(old(Contents()), key)
      ensures r == Find(old(Contents()), key).Some?
    {
      hide Linked, Total, Without, Below, Costed, Find;
      IndexComplete(items, index, key);
      if key !in index {
        return false;
      }
      LinkedKeys(items, index);
      WithoutDistinct(Contents(), key);
      Erase(index[key]);
      r := true;
    }

    method TakeSnapshot(now: nat) returns (r: seq<Entry>)
      requires Valid()
      ensures r == Snapshot(Contents(), now)
    {
      hide Linked, Total, Below, Costed;
      r := [];
      var i := |items|;
      assert Contents()[|items|..] == [];
      while i > 0
        invariant 0 <= i <= |items|
        invariant r == Snapshot(Contents()[i..], now)
      {
        i := i - 1;
        assert Contents()[i..][1..] == Contents()[i + 1..];
        if !Expired(items[i].entry, now) {
          r := r + [items[i].entry];
        }
      }
      assert Contents()[0..] == Contents();
    }
  }

  lemma TotalEmpty()
    ensures Total([]) == 0
  {}
}
