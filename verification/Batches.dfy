/**
 Group commit of the service object: what `HandleBatch` ensures is the function `Batch`, so a batch and
 its requests handled one at a time by the object give the same replies, cache and log.
 */
module Batches {
  import opened Common
  import opened AofCodec
  import opened Lru
  import opened Sharded
  import opened Semantics
  import opened LogOps
  import opened Durability
  import opened Aof
  import opened Service
  import opened CacheServices
  import Refinement

  /** The records, counters and entries of the function are those of the object. */
  ghost predicate Stands(s: Svc, i: Image)
  {
    && AllLoggable(s.log) && i.disk.log == LogBytes(s.log)
    && i.counters == s.counters && i.counters.bytes == |i.disk.log| && i.cache == s.cache
  }

  /** The log a batch is appended to, compacted first if due. */
  function Middle(max: nat, s: Svc, now: nat, ms: seq<Mutation>): Svc
    requires CountersOk(max, s.counters)
  {
    if Due(max, s.counters, ms) then Compacted(s, now) else s
  }

  lemma CompactedStands(s: Svc, now: nat, base: Image)
    requires Snapshotted(s.cache, now, base.disk) && base.cache == s.cache
    requires base.counters == Counters(|base.disk.log|, |base.disk.log|)
    ensures Stands(Compacted(s, now), base)
  {
    hide SnapshotAll, Encoded, LogBytes, LogSize, AllLoggable, Writable;
    Refinement.SnapshotBytes(s.cache, now);
  }

  lemma PreparedStands(max: nat, s: Svc, before: Image, now: nat, ms: seq<Mutation>, base: Image)
    requires CountersOk(max, s.counters) && Stands(s, before) && Prepared(max, before, now, ms, base)
    ensures Stands(Middle(max, s, now, ms), base)
  {
    hide Snapshotted, Compacted, Due, AllLoggable, LogBytes;
    if Due(max, s.counters, ms) { CompactedStands(s, now, base); }
  }

  lemma AppendsStands(max: nat, mid: Svc, base: Image, ms: seq<Mutation>, after: Image)
    requires Stands(mid, base) && Appends(max, base, ms, after)
    ensures mid.counters.bytes + LogSize(V2All(ms)) <= max
    ensures Stands(Svc(after.cache, mid.log + V2All(ms),
                       mid.counters.(bytes := mid.counters.bytes + LogSize(V2All(ms)))), after)
  {
    hide LogBytes, LogSize, Loggable;
    EncodedSize(ms);
    LogBytesAppend(mid.log, V2All(ms));
  }

  /** `Batch` in terms of the log it appends to. */
  lemma BatchIs(c: Config, max: nat, s: Svc, inputs: seq<Bytes>, now: nat, stats: Bytes)
    requires SvcOk(c, max, s)
    ensures var ps := ParseAll(c, inputs, Constant(|inputs|, now));
            var ms, size := LogOf(ps), LogSize(V2All(LogOf(ps)));
            var mid, run := Middle(max, s, now, ms), ExecuteAll(c, s.cache, ps, Constant(|inputs|, now), stats);
            Batch(c, max, s, inputs, now, stats) ==
            if mid.counters.bytes > max then Rejected(s)
            else if size > max - mid.counters.bytes then Rejected(mid)
            else if !run.ok then Stopped(run.cache)
            else Answered(Svc(run.cache, mid.log + V2All(ms), mid.counters.(bytes := mid.counters.bytes + size)),
                          run.replies, Due(max, s.counters, ms))
  {
    hide ParseAll, LogOf, ExecuteAll, Compacted, LogSize, Due;
  }

  /** Whatever the object answers or refuses, the function answers or refuses, and they stay in step. */
  lemma HandledIsBatch(c: Config, max: nat, s: Svc, inputs: seq<Bytes>, now: nat, stats: Bytes, before: Image,
                       r: CacheServices.Outcome, after: Image)
    requires SvcOk(c, max, s) && Stands(s, before) && now < CLOCK_LIMIT
    requires Handled(c, max, ParseAll(c, inputs, Constant(|inputs|, now)), now, Constant(|inputs|, now), stats,
                     before, r, after)
    ensures var batch := Batch(c, max, s, inputs, now, stats);
            match r
            case Replies(replies) =>
              && batch.Answered? && batch.replies == replies && Stands(batch.svc, after)
              && batch.rewrote == Compacts(c, max, inputs, now, before)
            case OverLimit => batch.Rejected? && Stands(batch.svc, after)
            case Failure => true
  {
    hide ParseAll, LogOf, ExecuteAll, OpsOf, Logs, Stands, Stored, NoRoom, Due, Middle, LogSize, Batch;
    BatchIs(c, max, s, inputs, now, stats);
    StandsFacts(s, before);
    var ps := ParseAll(c, inputs, Constant(|inputs|, now));
    BatchLogged(c, inputs, Constant(|inputs|, now));
    match r
    case Replies(_) => StoredStands(max, s, before, now, LogOf(ps), after);
    case OverLimit => NoRoomStands(max, s, before, now, LogOf(ps), after);
    case Failure =>
  }

  /** The batch rewrites the log first. */
  ghost predicate Compacts(c: Config, max: nat, inputs: seq<Bytes>, now: nat, before: Image)
    requires Accepted(c) && CountersOk(max, before.counters)
  {
    Due(max, before.counters, LogOf(ParseAll(c, inputs, Constant(|inputs|, now))))
  }

  lemma StandsFacts(s: Svc, i: Image)
    requires Stands(s, i)
    ensures i.counters == s.counters && i.cache == s.cache
  {
    hide LogBytes, AllLoggable;
  }

  lemma StoredStands(max: nat, s: Svc, before: Image, now: nat, ms: seq<Mutation>, after: Image)
    requires CountersOk(max, s.counters) && Stands(s, before)
    requires before.counters == s.counters && Stored(max, before, now, ms, after)
    ensures var mid, size := Middle(max, s, now, ms), LogSize(V2All(ms));
            && mid.counters.bytes <= max && size <= max - mid.counters.bytes
            && Stands(Svc(after.cache, mid.log + V2All(ms), mid.counters.(bytes := mid.counters.bytes + size)), after)
  {
    hide Prepared, Appends, LogBytes, AllLoggable, Writable, Encoded, Grown;
    if ms == [] {
      assert V2All(ms) == [] && s.log + [] == s.log;
    } else {
      hide Stands, Due, Middle, LogSize;
      var base :| Prepared(max, before, now, ms, base) && Appends(max, base, ms, after);
      PreparedStands(max, s, before, now, ms, base);
      AppendsStands(max, Middle(max, s, now, ms), base, ms, after);
    }
  }

  lemma NoRoomStands(max: nat, s: Svc, before: Image, now: nat, ms: seq<Mutation>, after: Image)
    requires CountersOk(max, s.counters) && Stands(s, before)
    requires before.counters == s.counters && before.cache == s.cache && NoRoom(max, before, now, ms, after)
    ensures var mid, size := Middle(max, s, now, ms), LogSize(V2All(ms));
            && (mid.counters.bytes > max || size > max - mid.counters.bytes)
            && Stands(if mid.counters.bytes > max then s else mid, after)
  {
    hide Prepared, LogBytes, AllLoggable, Writable, Encoded, Due, LogSize, SnapshotAll, Stands;
    EncodedSize(ms);
    Refinement.SnapshotBytes(s.cache, now);
    if |Encoded(SnapshotOf(s.cache, now))| <= max { PreparedStands(max, s, before, now, ms, after); }
  }

  // ----- One at a time -----

  /** The object answers one request. */
  ghost predicate Single(c: Config, max: nat, input: Bytes, now: nat, stats: Bytes, before: Image,
                         replies: seq<Reply>, after: Image)
  {
    && Accepted(c) && |before.cache| == Count(c) && CountersOk(max, before.counters)
    && Handled(c, max, ParseAll(c, [input], Constant(1, now)), now, Constant(1, now), stats, before,
               Replies(replies), after)
  }

  /** The object answers the requests one after the other. */
  ghost predicate Singles(c: Config, max: nat, inputs: seq<Bytes>, now: nat, stats: Bytes, images: seq<Image>,
                          replies: seq<seq<Reply>>)
    ensures Singles(c, max, inputs, now, stats, images, replies) ==> |images| == |inputs| + 1
  {
    && |images| == |inputs| + 1 && |replies| == |inputs|
    && forall i :: 0 <= i < |inputs| ==> Single(c, max, inputs[i], now, stats, images[i], replies[i], images[i + 1])
  }

  function Joined(replies: seq<seq<Reply>>): seq<Reply>
  {
    if replies == [] then [] else replies[0] + Joined(replies[1..])
  }

  ghost predicate NeverCompacts(c: Config, max: nat, inputs: seq<Bytes>, now: nat, images: seq<Image>)
    requires Accepted(c) && |images| == |inputs| + 1
  {
    forall i :: 0 <= i < |inputs| ==>
      CountersOk(max, images[i].counters) && !Compacts(c, max, [inputs[i]], now, images[i])
  }

  lemma {:induction false} SinglesAreOneByOne(c: Config, max: nat, s: Svc, inputs: seq<Bytes>, now: nat, stats: Bytes,
                                              images: seq<Image>, replies: seq<seq<Reply>>)
    requires SvcOk(c, max, s) && now < CLOCK_LIMIT
    requires Singles(c, max, inputs, now, stats, images, replies) && Stands(s, images[0])
    ensures var r := OneByOne(c, max, s, inputs, now, stats);
            && r.Answered? && r.replies == Joined(replies) && Stands(r.svc, images[|inputs|])
            && (NeverCompacts(c, max, inputs, now, images) ==> !r.rewrote)
    decreases |inputs|
  {
    hide Stands, Batch, Handled, Compacts;
    if inputs != [] {
      assert Single(c, max, inputs[0], now, stats, images[0], replies[0], images[0 + 1]);
      StandsFacts(s, images[0]);
      HandledIsBatch(c, max, s, [inputs[0]], now, stats, images[0], Replies(replies[0]), images[1]);
      forall i | 0 <= i < |inputs[1..]|
        ensures Single(c, max, inputs[1..][i], now, stats, images[1..][i], replies[1..][i], images[1..][i + 1])
      {
        assert Single(c, max, inputs[i + 1], now, stats, images[i + 1], replies[i + 1], images[i + 1 + 1]);
      }
      var one := Batch(c, max, s, [inputs[0]], now, stats);
      SinglesAreOneByOne(c, max, one.svc, inputs[1..], now, stats, images[1..], replies[1..]);
    }
  }

  /**
   Group commit of the object. Two services start from the same log and cache; one answers a batch, the
   other the same requests one at a time. They give the same replies and end with the same cache, and
   with the same log when neither rewrites it.
   */
  lemma GroupCommitted(c: Config, max: nat, s: Svc, inputs: seq<Bytes>, now: nat, stats: Bytes, replies: seq<Reply>,
                       after: Image, images: seq<Image>, singly: seq<seq<Reply>>)
    requires SvcOk(c, max, s) && now < CLOCK_LIMIT
    requires Singles(c, max, inputs, now, stats, images, singly) && Stands(s, images[0])
    requires |images[0].cache| == Count(c) && CountersOk(max, images[0].counters)
    requires Handled(c, max, ParseAll(c, inputs, Constant(|inputs|, now)), now, Constant(|inputs|, now), stats,
                     images[0], Replies(replies), after)
    ensures replies == Joined(singly) && after.cache == images[|inputs|].cache
    ensures !Compacts(c, max, inputs, now, images[0]) && NeverCompacts(c, max, inputs, now, images) ==>
              after.disk.log == images[|inputs|].disk.log
  {
    hide Stands, Batch, OneByOne, Handled, Compacts, NeverCompacts, Singles, Joined;
    HandledIsBatch(c, max, s, inputs, now, stats, images[0], Replies(replies), after);
    SinglesAreOneByOne(c, max, s, inputs, now, stats, images, singly);
    GroupCommit(c, max, s, inputs, now, stats);
    StandsLog(Batch(c, max, s, inputs, now, stats).svc, after);
    StandsLog(OneByOne(c, max, s, inputs, now, stats).svc, images[|inputs|]);
  }

  lemma StandsLog(s: Svc, i: Image)
    requires Stands(s, i)
    ensures AllLoggable(s.log) && i.disk.log == LogBytes(s.log) && i.cache == s.cache
  {}
}
