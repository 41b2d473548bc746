/** The logger object: size accounting, the rewrite policy, and the calls it makes on the file. */
module Aof {
  import opened Common
  import opened AofCodec

  // ----- Size accounting -----

  datatype Counters = Counters(bytes: nat, rewrittenAt: nat)

  predicate CountersOk(max: nat, c: Counters) { c.rewrittenAt <= c.bytes <= max }

  /** The log has grown by more than a quarter of the limit since it was last compact. */
  predicate Grown(max: nat, c: Counters)
    requires CountersOk(max, c)
  {
    c.bytes > max / 2 && c.bytes - c.rewrittenAt > max / 4
  }

  datatype Change = Append(size: nat) | Rewrite(size: nat, grown: bool)

  predicate Allowed(max: nat, c: Counters, e: Change)
    requires CountersOk(max, c)
  {
    match e
    case Append(size) => size <= max - c.bytes
    case Rewrite(size, grown) => size <= max && (grown ==> Grown(max, c))
  }

  function Changed(c: Counters, e: Change): Counters
  {
    match e
    case Append(size) => c.(bytes := c.bytes + size)
    case Rewrite(size, _) => Counters(size, size)
  }

  lemma ChangedOk(max: nat, c: Counters, e: Change)
    requires CountersOk(max, c) && Allowed(max, c, e)
    ensures CountersOk(max, Changed(c, e))
  {}

  predicate AllowedRun(max: nat, c: Counters, es: seq<Change>)
    requires CountersOk(max, c)
    decreases |es|
  {
    es == [] || (Allowed(max, c, es[0]) && (ChangedOk(max, c, es[0]); AllowedRun(max, Changed(c, es[0]), es[1..])))
  }

  function Final(c: Counters, es: seq<Change>): Counters
    decreases |es|
  {
    if es == [] then c else Final(Changed(c, es[0]), es[1..])
  }

  function Appended(es: seq<Change>): nat
  {
    if es == [] then 0 else (if es[0].Append? then es[0].size else 0) + Appended(es[1..])
  }

  function GrowthRewrites(es: seq<Change>): nat
  {
    if es == [] then 0 else (if es[0].Rewrite? && es[0].grown then 1 else 0) + GrowthRewrites(es[1..])
  }

  function GrowthBytes(es: seq<Change>): nat
  {
    if es == [] then 0 else (if es[0].Rewrite? && es[0].grown then es[0].size else 0) + GrowthBytes(es[1..])
  }

  /**
   Every growth-triggered rewrite has been paid for by more than a quarter of the limit in
   appended bytes, and the accounting never leaves `rewrittenAt <= bytes <= max`.
   */
  lemma {:induction false} AmortisedRewrites(max: nat, c: Counters, es: seq<Change>)
    requires CountersOk(max, c) && AllowedRun(max, c, es)
    ensures CountersOk(max, Final(c, es))
    ensures GrowthRewrites(es) * (max / 4 + 1) + (Final(c, es).bytes - Final(c, es).rewrittenAt)
         <= (c.bytes - c.rewrittenAt) + Appended(es)
    decreases |es|
  {
    if es != [] {
      var q := max / 4 + 1;
      ChangedOk(max, c, es[0]);
      AmortisedRewrites(max, Changed(c, es[0]), es[1..]);
      assert (1 + GrowthRewrites(es[1..])) * q == q + GrowthRewrites(es[1..]) * q;
    }
  }

  /** Rewrites never enlarge the log, as is the case for a log without legacy records. */
  predicate Shrinking(c: Counters, es: seq<Change>)
    decreases |es|
  {
    es == [] || ((es[0].Rewrite? ==> es[0].size <= c.bytes) && Shrinking(Changed(c, es[0]), es[1..]))
  }

  /** A log that never held more than half of the limit is never rewritten for its growth. */
  lemma {:induction false} SmallLogsStay(max: nat, c: Counters, es: seq<Change>)
    requires CountersOk(max, c) && AllowedRun(max, c, es) && Shrinking(c, es) && 2 * (c.bytes + Appended(es)) <= max
    ensures GrowthRewrites(es) == 0
    decreases |es|
  {
    if es != [] {
      ChangedOk(max, c, es[0]);
      SmallLogsStay(max, Changed(c, es[0]), es[1..]);
    }
  }

  /** The log as opened: nothing rewritten yet. */
  lemma AmortisedFromOpen(max: nat, initial: nat, es: seq<Change>)
    requires initial <= max && AllowedRun(max, Counters(initial, 0), es)
    ensures GrowthRewrites(es) * (max / 4 + 1) <= initial + Appended(es)
    ensures GrowthBytes(es) <= 4 * (initial + Appended(es))
  {
    AmortisedRewrites(max, Counters(initial, 0), es);
    GrowthBytesBound(max, Counters(initial, 0), es);
  }

  /** A run may be extended by any change allowed at its end. */
  lemma {:induction false} AllowedSnoc(max: nat, c: Counters, es: seq<Change>, e: Change)
    requires CountersOk(max, c) && AllowedRun(max, c, es)
    requires CountersOk(max, Final(c, es)) && Allowed(max, Final(c, es), e)
    ensures AllowedRun(max, c, es + [e]) && Final(c, es + [e]) == Changed(Final(c, es), e)
    decreases |es|
  {
    if es == [] {
      assert es + [e] == [e] && [e][1..] == [];
    } else {
      assert (es + [e])[0] == es[0] && (es + [e])[1..] == es[1..] + [e];
      ChangedOk(max, c, es[0]);
      AllowedSnoc(max, Changed(c, es[0]), es[1..], e);
    }
  }

  /** Write amplification: growth-triggered rewrites write at most four bytes per byte appended. */
  lemma {:induction false} GrowthBytesBound(max: nat, c: Counters, es: seq<Change>)
    requires CountersOk(max, c) && AllowedRun(max, c, es)
    ensures GrowthBytes(es) <= 4 * (GrowthRewrites(es) * (max / 4 + 1))
    decreases |es|
  {
    if es != [] {
      var q := max / 4 + 1;
      ChangedOk(max, c, es[0]);
      GrowthBytesBound(max, Changed(c, es[0]), es[1..]);
      assert (1 + GrowthRewrites(es[1..])) * q == q + GrowthRewrites(es[1..]) * q;
    }
  }

  // ----- The logger -----

  datatype Outcome = Done | OverCapacity | Unavailable | Invalid

  /** What is under the log's name: its bytes and how many of them are synced. */
  datatype Disk = Disk(log: Bytes, synced: nat)

  predicate Writable(ms: seq<Mutation>) { forall m :: m in ms ==> Loggable(m) }

  function Encoded(ms: seq<Mutation>): Bytes
    requires Writable(ms)
  {
    assert AllLoggable(V2All(ms));
    LogBytes(V2All(ms))
  }

  lemma EncodedSnoc(ms: seq<Mutation>, k: nat)
    requires Writable(ms) && k < |ms|
    ensures Loggable(ms[k])
    ensures Encoded(ms[..k + 1]) == Encoded(ms[..k]) + Encode(ms[k]).value
  {
    assert ms[k] in ms;
    hide Encode, Loggable, LogBytes;
    assert V2All(ms[..k + 1]) == V2All(ms[..k]) + [V2(ms[k])];
    LogBytesAppend(V2All(ms[..k]), [V2(ms[k])]);
    LogBytesOne(ms[k]);
  }

  lemma LogBytesOne(m: Mutation)
    requires Loggable(m)
    ensures LogBytes([V2(m)]) == Encode(m).value
  {
    hide Encode, Loggable, RecordBytes;
    assert [V2(m)][1..] == [];
    assert LogBytes([V2(m)]) == RecordBytes(V2(m)) + [];
    RecordIsEncode(m);
  }

  lemma RecordIsEncode(m: Mutation)
    requires Loggable(m)
    ensures RecordBytes(V2(m)) == Encode(m).value
  {
    hide Encode, Loggable;
  }

  lemma EncodedPrefix(ms: seq<Mutation>, k: nat)
    requires Writable(ms) && k <= |ms|
    ensures Encoded(ms[..k]) <= Encoded(ms)
    ensures Writable(ms[k..]) && Encoded(ms) == Encoded(ms[..k]) + Encoded(ms[k..])
  {
    hide LogBytes, Loggable;
    assert V2All(ms) == V2All(ms[..k]) + V2All(ms[k..]);
    LogBytesAppend(V2All(ms[..k]), V2All(ms[k..]));
  }

  class AofLogger {
    const maxBytes: nat
    var disk: Disk
    var bytes: nat
    var rewrittenAt: nat
    var failed: bool
    var started: bool
    var records: nat
    var syncs: nat
    var rewrites: nat
    ghost const initial: nat        // the size the log had when it was opened
    ghost var trace: seq<Disk>      // every state of the file under the log's name, in order
    ghost var changes: seq<Change>  // every append and rewrite since then

    /** The counters are what the appends and rewrites so far have made of the file as opened. */
    ghost predicate Accounted()
      reads this
    {
      && initial <= maxBytes && AllowedRun(maxBytes, Counters(initial, 0), changes)
      && Final(Counters(initial, 0), changes) == Counters(bytes, rewrittenAt)
    }

    ghost predicate Valid()
      reads this
    {
      && Accounted() && CountersOk(maxBytes, Counters(bytes, rewrittenAt)) && disk.synced <= |disk.log|
      && (!failed ==> bytes == |disk.log|)
      && trace != [] && trace[|trace| - 1] == disk
    }

    /** Opens an existing file; the caller has checked the size limit. */
    constructor (file: Bytes, synced: nat, max: nat)
      requires |file| <= max && synced <= |file|
      ensures Valid() && !failed && !started && maxBytes == max && disk == Disk(file, synced)
      ensures bytes == |file| && rewrittenAt == 0 && trace == [disk] && initial == |file| && changes == []
    {
      maxBytes, disk, bytes, rewrittenAt := max, Disk(file, synced), |file|, 0;
      failed, started, records, syncs, rewrites := false, false, 0, 0, 0;
      trace, initial, changes := [Disk(file, synced)], |file|, [];
    }

    /** The cost of compaction over the logger's whole life, in rewrites due to growth and in bytes. */
    lemma Amortised()
      requires Valid()
      ensures GrowthRewrites(changes) * (maxBytes / 4 + 1) <= initial + Appended(changes)
      ensures GrowthBytes(changes) <= 4 * (initial + Appended(changes))
    {
      AmortisedFromOpen(maxBytes, initial, changes);
    }

    /** Records a change of the counters. */
    ghost method Account(e: Change)
      requires Accounted() && CountersOk(maxBytes, Counters(bytes, rewrittenAt))
      requires Allowed(maxBytes, Counters(bytes, rewrittenAt), e)
      modifies `changes
      ensures AllowedRun(maxBytes, Counters(initial, 0), changes) && changes == old(changes) + [e]
      ensures Final(Counters(initial, 0), changes) == Changed(Counters(bytes, rewrittenAt), e)
    {
      AllowedSnoc(maxBytes, Counters(initial, 0), changes, e);
      changes := changes + [e];
    }

    method Start()
      requires Valid()
      modifies `started
      ensures Valid() && started
    {
      started := true;
    }

    method Size(ms: seq<Mutation>) returns (size: nat)
      requires Writable(ms)
      ensures size == |Encoded(ms)|
    {
      hide Encode, Loggable;
      size := 0;
      assert ms[..0] == [];
      for i := 0 to |ms|
        invariant size == |Encoded(ms[..i])|
      {
        EncodedSnoc(ms, i);
        size := size + |Encode(ms[i]).value|;
      }
      assert ms[..|ms|] == ms;
    }

    /** Whether to compact before appending this batch. */
    method NeedsRewrite(ms: seq<Mutation>) returns (due: bool)
      requires Valid() && Writable(ms)
      ensures due == (ms != [] && (|Encoded(ms)| > maxBytes - bytes
                               || (bytes > maxBytes / 2 && bytes - rewrittenAt > maxBytes / 4)))
    {
      if ms == [] {
        return false;
      }
      var size := Size(ms);
      due := size > maxBytes - bytes || (bytes > maxBytes / 2 && bytes - rewrittenAt > maxBytes / 4);
    }

    /** write(2) until everything is out; any call may fail after writing part of the data. */
    method WriteExact(data: Bytes) returns (ok: bool)
      requires trace != [] && trace[|trace| - 1] == disk
      modifies `disk, `trace
      ensures disk.synced == old(disk.synced) && trace != [] && trace[|trace| - 1] == disk
      ensures exists n :: 0 <= n <= |data| && (ok ==> n == |data|) && disk.log == old(disk.log) + data[..n]
      ensures |old(trace)| <= |trace| && trace[..|old(trace)|] == old(trace)
      ensures forall i :: |old(trace)| <= i < |trace| ==> Extends(trace[i], old(disk), data)
    {
      var offset := 0;
      assert disk.log == disk.log + data[..0];
      while offset < |data|
        invariant 0 <= offset <= |data|
        invariant disk == Disk(old(disk.log) + data[..offset], old(disk.synced))
        invariant trace != [] && trace[|trace| - 1] == disk
        invariant |old(trace)| <= |trace| && trace[..|old(trace)|] == old(trace)
        invariant forall i :: |old(trace)| <= i < |trace| ==> Extends(trace[i], old(disk), data)
        decreases |data| - offset
      {
        var n: nat :| n <= |data| - offset;  // what the kernel took; zero stands for an error
        if n == 0 {
          return false;
        }
        assert data[..offset + n] == data[..offset] + data[offset..offset + n];
        disk := disk.(log := disk.log + data[offset..offset + n]);
        offset := offset + n;
        assert Extends(disk, old(disk), data);
        trace := trace + [disk];
      }
      assert data[..|data|] == data;
      ok := true;
    }

    /** Appends a batch and syncs it; nothing is written unless the whole batch fits. */
    method LogBatch(ms: seq<Mutation>) returns (r: Outcome)
      requires Valid()
      modifies this
      ensures Valid() && rewrittenAt == old(rewrittenAt) && started == old(started)
      ensures r.Invalid? <==> ms != [] && old(started) && !old(failed) && !Writable(ms)
      ensures r.OverCapacity? <==>
                ms != [] && old(started) && !old(failed) && Writable(ms) && |Encoded(ms)| > maxBytes - old(bytes)
      ensures r.Invalid? || r.OverCapacity? || ms == [] ==>
                disk == old(disk) && bytes == old(bytes) && failed == old(failed)
      ensures ms == [] ==> r.Done? && trace == old(trace)
      ensures r.Done? && ms != [] ==>
                && Writable(ms) && !failed && bytes == old(bytes) + |Encoded(ms)|
                && disk.log == old(disk.log) + Encoded(ms) && disk.synced == |disk.log|
      ensures if r.Done? && ms != [] then changes == old(changes) + [Append(|Encoded(ms)|)] else changes == old(changes)
      ensures r.Unavailable? && old(started) ==> failed
      ensures |old(trace)| <= |trace| && trace[..|old(trace)|] == old(trace)
      ensures forall i :: |old(trace)| <= i < |trace| ==>
                Writable(ms) && ExtendsSynced(trace[i], old(disk), Encoded(ms))
    {
      hide Encode, Loggable, Encoded, Writable, AllowedRun, Final;
      if ms == [] {
        return Done;
      }
      if !started || failed {
        return Unavailable;
      }
      if !Writable(ms) {
        return Invalid;
      }
      var size := Size(ms);
      if size > maxBytes - bytes {
        return OverCapacity;
      }
      var ok := WriteAll(ms);
      if ok {
        ok := *;  // fsync
        if ok {
          disk := disk.(synced := |disk.log|);
          trace := trace + [disk];
        }
      }
      if !ok {
        failed := true;
        return Unavailable;
      }
      Account(Append(size));
      bytes := bytes + size;
      records := records + |ms|;
      syncs := syncs + 1;
      r := Done;
    }

    /** The loop that writes one record after the other. */
    method WriteAll(ms: seq<Mutation>) returns (ok: bool)
      requires trace != [] && trace[|trace| - 1] == disk && Writable(ms)
      modifies `disk, `trace
      ensures disk.synced == old(disk.synced) && trace != [] && trace[|trace| - 1] == disk
      ensures ok ==> disk.log == old(disk.log) + Encoded(ms)
      ensures Extends(disk, old(disk), Encoded(ms))
      ensures |old(trace)| <= |trace| && trace[..|old(trace)|] == old(trace)
      ensures forall i :: |old(trace)| <= i < |trace| ==> Extends(trace[i], old(disk), Encoded(ms))
    {
      hide Encode, Loggable, Encoded;
      assert ms[..0] == [] && Encoded([]) == [] by { EncodedNothing(); }
      ghost var all := Encoded(ms);
      for k := 0 to |ms|
        invariant disk == Disk(old(disk.log) + Encoded(ms[..k]), old(disk.synced))
        invariant trace != [] && trace[|trace| - 1] == disk
        invariant |old(trace)| <= |trace| && trace[..|old(trace)|] == old(trace)
        invariant forall i :: |old(trace)| <= i < |trace| ==> Extends(trace[i], old(disk), all)
      {
        ghost var before, was := disk, trace;
        EncodedSnoc(ms, k);
        EncodedPrefix(ms, k + 1);
        var data := Encode(ms[k]).value;
        ok := WriteExact(data);
        ghost var n :| 0 <= n <= |data| && (ok ==> n == |data|) && disk.log == before.log + data[..n];
        assert Extends(disk, before, data);
        ExtendsTrans(disk, before, old(disk), Encoded(ms[..k]), data, all);
        forall i | |was| <= i < |trace| ensures Extends(trace[i], old(disk), all) {
          ExtendsTrans(trace[i], before, old(disk), Encoded(ms[..k]), data, all);
        }
        if !ok {
          return false;
        }
        assert data[..n] == data;
      }
      assert ms[..|ms|] == ms;
      assert disk.log[|old(disk.log)|..] == all;
      ok := true;
    }

    /** The bytes a completed temporary file holds. */
    method TemporaryFile(snapshot: seq<Mutation>) returns (tmp: Bytes)
      requires Writable(snapshot)
      ensures tmp == Encoded(snapshot)
    {
      hide Encode, Loggable, Encoded;
      tmp := [];
      assert snapshot[..0] == [];
      EncodedNothing();
      for k := 0 to |snapshot|
        invariant tmp == Encoded(snapshot[..k])
      {
        EncodedSnoc(snapshot, k);
        tmp := tmp + Encode(snapshot[k]).value;
      }
      assert snapshot[..|snapshot|] == snapshot;
    }

    /** Replaces the log by a snapshot: temporary file, sync, rename, directory sync. */
    method Replace(snapshot: seq<Mutation>) returns (r: Outcome)
      requires Valid()
      modifies this
      ensures Valid() && started == old(started)
      ensures r.Invalid? <==> !old(failed) && !Writable(snapshot)
      ensures r.OverCapacity? <==> !old(failed) && Writable(snapshot) && |Encoded(snapshot)| > maxBytes
      ensures r.Done? ==>
                && Writable(snapshot) && !failed && disk == Disk(Encoded(snapshot), |Encoded(snapshot)|)
                && bytes == rewrittenAt == |Encoded(snapshot)| && rewrites == old(rewrites) + 1
      ensures !r.Done? && !failed ==> disk == old(disk) && bytes == old(bytes) && rewrittenAt == old(rewrittenAt)
      ensures r.OverCapacity? || r.Invalid? ==> disk == old(disk) && bytes == old(bytes) && failed == old(failed)
      ensures var counters := Counters(old(bytes), old(rewrittenAt));
              changes == old(changes)
              || (Writable(snapshot) && CountersOk(maxBytes, counters)
                  && changes == old(changes) + [Rewrite(|Encoded(snapshot)|, Grown(maxBytes, counters))])
      ensures r.Done? ==> changes != old(changes)
      ensures |old(trace)| <= |trace| && trace[..|old(trace)|] == old(trace)
      ensures forall i :: |old(trace)| <= i < |trace| ==>
                Writable(snapshot) && trace[i] == Disk(Encoded(snapshot), |Encoded(snapshot)|)
    {
      hide Encode, Loggable, Encoded, Writable, AllowedRun, Final;
      if failed {
        return Unavailable;
      }
      if !Writable(snapshot) {
        return Invalid;
      }
      var size := Size(snapshot);
      if size > maxBytes {
        return OverCapacity;
      }
      var ready := *;  // mkstemp, flock, every write and the fsync of the temporary file
      if !ready {
        return Unavailable;
      }
      var tmp := TemporaryFile(snapshot);
      var renamed := *;
      if !renamed {
        return Unavailable;
      }
      Account(Rewrite(size, Grown(maxBytes, Counters(bytes, rewrittenAt))));
      disk := Disk(tmp, |tmp|);
      trace := trace + [disk];
      bytes, rewrittenAt, rewrites := size, size, rewrites + 1;
      var settled := *;  // fsync of the directory
      if !settled {
        failed := true;
        return Unavailable;
      }
      r := Done;
    }
  }

  /** `d` holds the log of `base` followed by some prefix of `data`. */
  ghost predicate Extends(d: Disk, base: Disk, data: Bytes)
  {
    d.synced == base.synced && base.log <= d.log && d.log[|base.log|..] <= data
  }

  /** The same, with the extension possibly synced as a whole. */
  ghost predicate ExtendsSynced(d: Disk, base: Disk, data: Bytes)
  {
    Extends(d, base, data) || d == Disk(base.log + data, |base.log| + |data|)
  }

  lemma ExtendsTrans(d: Disk, mid: Disk, base: Disk, first: Bytes, data: Bytes, all: Bytes)
    requires Extends(d, mid, data) && mid == Disk(base.log + first, base.synced) && first + data <= all
    ensures Extends(d, base, all)
  {
    assert d.log[|base.log|..] == first + d.log[|mid.log|..];
  }

  lemma EncodedNothing()
    ensures Encoded([]) == []
  {}
}
