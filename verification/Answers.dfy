/**
 What clients are answered over the life of a service: a read is answered with the value of its key's
 last operation, be it in the same batch, in an earlier one or before the last crash.
 */
module Answers {
  import opened Common
  import opened KvProtocol
  import opened CacheValueCodec
  import opened AofCodec
  import opened Lru
  import opened Sharded
  import opened Semantics
  import opened LogOps
  import opened Durability
  import opened Aof
  import opened Service
  import opened CacheServices
  import opened Refinement
  import opened Requests
  import opened Lifetime

  // ----- The middle of a batch -----

  /** The reply at position `i` is the one its request gets after those before it. */
  lemma ReplyAt(c: Config, s: Cache, ps: seq<Parsed>, times: seq<nat>, stats: Bytes, i: nat)
    requires Accepted(c) && |s| == Count(c) && |times| == |ps| && i < |ps| && ExecuteAll(c, s, ps, times, stats).ok
    ensures var mid := ExecuteAll(c, s, ps[..i], times[..i], stats);
            var one := Execute(c, mid.cache, ps[i], times[i], stats);
            mid.ok && one.ok && ExecuteAll(c, s, ps, times, stats).replies[i] == one.replies[0]
  {
    hide Execute;
    assert ps[..i] + ps[i..] == ps && times[..i] + times[i..] == times;
    ExecuteAppend(c, s, ps[..i], times[..i], ps[i..], times[i..], stats);
  }

  /** The first `i` requests of a stored batch, as steps. */
  lemma {:induction false} ExecuteUpTo(c: Config, s: State, ps: seq<Parsed>, times: seq<nat>, until: nat, stats: Bytes,
                                       i: nat) returns (t: State)
    requires Accepted(c) && |s.cache| == Count(c) && |times| == |ps| && Ticking(times, s.now, until) && i <= |ps|
    requires (forall p :: p in ps ==> Known(p)) && Awaits(s, OpsOf(ps))
    requires ExecuteAll(c, s.cache, ps[..i], times[..i], stats).ok
    ensures Leads(c, s, BatchEvents(ps[..i], times[..i]), t) && Awaits(t, OpsOf(ps[i..])) && SameLog(s, t)
    ensures t.cache == ExecuteAll(c, s.cache, ps[..i], times[..i], stats).cache
    ensures i < |ps| ==> t.now <= times[i]
    decreases i
  {
    hide ExecuteAll, Execute, Enabled, After, RequestEvents, OpsOf, BatchEvents, Leads, Awaits, Ticking, Known, SameLog;
    if i == 0 {
      t := s;
      assert ps[0..] == ps;
      NothingTicks(s.now);
      assert ps[..0] == [] && times[..0] == [] && ps[..0][..0] == [] && times[..0][..0] == [];
      ExecuteNothing(c, s, ps[..0], times[..0], s.now, stats);
      if ps != [] { FirstTick(times, s.now, until); }
    } else {
      assert ps[0] in ps && forall p :: p in ps[1..] ==> p in ps;
      FirstTick(times, s.now, until);
      assert ps[..i][1..] == ps[1..][..i - 1] && times[..i][1..] == times[1..][..i - 1];
      ExecuteFirst(c, s.cache, ps[..i], times[..i], stats);
      var m := FirstRequest(c, s, ps, times[0], stats);
      t := ExecuteUpTo(c, m, ps[1..], times[1..], until, stats, i - 1);
      FirstThenRest(c, s, ps, times, m, i - 1, t);
    }
  }

  lemma NothingTicks(now: nat)
    ensures Ticking([], now, now)
  {}

  /** The state in which request `i` of a batch is carried out. */
  lemma MidBatch(c: Config, max: nat, s: State, before: Image, at: nat, ps: seq<Parsed>, times: seq<nat>, until: nat,
                 stats: Bytes, after: Image, i: nat) returns (u: State)
    requires Represents(c, s, before.disk, before.cache) && s.phase.Idle? && Accepted(c) && s.now <= at
    requires |before.cache| == Count(c) && CountersOk(max, before.counters)
    requires |times| == |ps| && Ticking(times, at, until) && (forall p :: p in ps ==> Known(p)) && i < |ps|
    requires Logs(c, LogOf(ps), OpsOf(ps)) && Stored(max, before, at, LogOf(ps), after)
    requires ExecuteAll(c, before.cache, ps, times, stats).ok
    ensures Inv(c, u) && (u.phase.Idle? || u.phase.Applying?) && u.now == times[i] && |u.cache| == Count(c)
    ensures u.cache == ExecuteAll(c, before.cache, ps[..i], times[..i], stats).cache
    ensures Pending(u) <= |u.history| && u.history[..|u.history| - Pending(u)] == s.history + OpsOf(ps[..i])
  {
    hide Inv, Leads, LogBytes, Readable, Logs, Stored, ExecuteAll, Execute, Ticking, Known, LogOf, OpsOf, SameLog;
    var first, m := StoredSteps(c, max, s, before, at, LogOf(ps), OpsOf(ps), after);
    ReplyAt(c, before.cache, ps, times, stats, i);
    var t := ExecuteUpTo(c, m, ps, times, until, stats, i);
    LeadsKeeps(c, m, BatchEvents(ps[..i], times[..i]), t);
    TickStep(c, t, times[i]);
    StepKeeps(c, t, Tick(times[i]));
    u := t.(now := times[i]);
    assert ps[..i] + ps[i..] == ps;
    OpsOfAppend(ps[..i], ps[i..]);
    SeenSoFar(s.history, OpsOf(ps[..i]), OpsOf(ps[i..]), m, t, times[i]);
  }

  lemma SeenSoFar(history: seq<Op>, done: seq<Op>, rest: seq<Op>, m: State, t: State, now: nat)
    requires m.history == history + (done + rest) && SameLog(m, t) && Awaits(t, rest)
    ensures var u := t.(now := now);
            && Pending(u) == |rest| <= |u.history| && u.history[..|u.history| - |rest|] == history + done
            && (u.phase.Idle? || u.phase.Applying?)
  {
    assert history + (done + rest) == (history + done) + rest;
  }

  /**
   A read that is answered carries the value of the key's last operation before it, counting those
   earlier in the batch. A miss means that the key has no such value now, or that it was evicted.
   */
  lemma ReadAnswered(c: Config, max: nat, s: State, inputs: seq<Bytes>, parsedAt: seq<nat>, compactAt: nat,
                     appliedAt: seq<nat>, until: nat, stats: Bytes, before: Image, replies: seq<Reply>, after: Image,
                     i: nat) returns (u: State)
    requires Represents(c, s, before.disk, before.cache) && s.phase.Idle? && Accepted(c) && s.now <= compactAt
    requires |before.cache| == Count(c) && CountersOk(max, before.counters)
    requires |parsedAt| == |appliedAt| == |inputs| && AllBelow(parsedAt, CLOCK_LIMIT)
    requires Ticking(appliedAt, compactAt, until) && i < |inputs|
    requires Handled(c, max, ParseAll(c, inputs, parsedAt), compactAt, appliedAt, stats, before, Replies(replies),
                     after)
    requires ParseRequest(c, inputs[i], parsedAt[i]).Good?
    ensures |replies| == |inputs| && |u.cache| == Count(c) && u.now == appliedAt[i]
    ensures var p, ps := ParseRequest(c, inputs[i], parsedAt[i]), ParseAll(c, inputs, parsedAt);
            var seen := s.history + OpsOf(ps[..i]);
            && ShowsLast(c, u, seen, p.request.key)
            && replies[i].consumed == p.total && !replies[i].close
            && Tells(replies[i].bytes, p.request, Peek(c, u.cache, p.request.key, appliedAt[i]), stats)
  {
    hide Inv, Leads, LogBytes, Readable, Logs, Stored, ExecuteAll, Execute, Ticking, Known, LogOf, OpsOf, ParseRequest;
    hide AllBelow, ShowsLast, Tells, NoRoom, Storing;
    var ps := ParseAll(c, inputs, parsedAt);
    BatchLogged(c, inputs, parsedAt);
    ParsedKnown(c, inputs, parsedAt);
    u := MidBatch(c, max, s, before, compactAt, ps, appliedAt, until, stats, after, i);
    ReplyAt(c, before.cache, ps, appliedAt, stats, i);
    AnswerMeaning(c, u.cache, ps[i], appliedAt[i], stats);
    MayRead(c, u, ps[i].request.key);
    LiveReads(c, u, ps[i].request.key);
  }

  lemma MayRead(c: Config, s: State, k: Key)
    requires Accepted(c) && |s.cache| == Count(c) && (s.phase.Idle? || s.phase.Applying?)
    ensures Enabled(c, s, Read(k))
  {}

  // ----- How long a value is shown -----

  /**
   A value stored with a lifetime of `d` milliseconds, parsed at `n`, is shown exactly until `n + d`; one
   stored without is shown for good. Only a later operation on the key or an eviction ends this earlier.
   */
  lemma ShownUntilExpiry(c: Config, u: State, seen: seq<Op>, k: Key, value: Bytes, n: nat, d: nat)
    requires Accepted(c) && |u.cache| == Count(c) && ShowsLast(c, u, seen, k)
    requires k !in u.gone + Missing(u, u.file, |seen|)
    requires LastOn(seen, k).Some? && n + d > 0
    ensures seen[LastOn(seen, k).value] == Write(k, value, n + d) ==>
              Peek(c, u.cache, k, u.now) == if u.now < n + d then Some(value) else None
    ensures seen[LastOn(seen, k).value] == Write(k, value, 0) ==> Peek(c, u.cache, k, u.now) == Some(value)
    ensures seen[LastOn(seen, k).value] == Erase(k) ==> Peek(c, u.cache, k, u.now) == None
  {
    hide Peek, LastOn, Missing;
  }

  /** A SET_TTL frame parsed at `now` stores its value until the end of its lifetime. */
  lemma TtlStores(c: Config, key: Key, item: CacheValue, rest: Bytes, now: nat)
    requires Accepted(c) && WellFormed(item) && Encodable(SetTtl, key, Serialize(item)) && now < CLOCK_LIMIT
    requires Fitting(c, key, item.value) && 0 < item.ttl <= 315360000000
    ensures OpsOf(ParseAll(c, [Frame(SetTtl, key, Serialize(item)) + rest], [now]))
         == [Write(key, item.value, now + item.ttl)]
  {
    hide ParseRequest, Frame, Serialize, Fitting, ParseAll, OpsOf;
    TtlMeaning(c, key, item, rest, now);
    OpsOfOne(c, Frame(SetTtl, key, Serialize(item)) + rest, now);
  }

  /** A SET frame stores its value for good, and a DEL frame erases its key. */
  lemma SetStores(c: Config, key: Key, value: Bytes, rest: Bytes, now: nat)
    requires Accepted(c) && |key| <= MAX_KEY_SIZE && Fitting(c, key, value)
    ensures OpsOf(ParseAll(c, [Frame(Set, key, value) + rest], [now])) == [Write(key, value, 0)]
    ensures OpsOf(ParseAll(c, [Frame(Del, key, []) + rest], [now])) == [Erase(key)]
  {
    CommandMeaning(c, Set, key, value, rest, now);
    CommandMeaning(c, Del, key, [], rest, now);
    hide ParseRequest, Frame, Fitting, ParseAll, OpsOf;
    OpsOfOne(c, Frame(Set, key, value) + rest, now);
    OpsOfOne(c, Frame(Del, key, []) + rest, now);
  }

  lemma OpsOfOne(c: Config, b: Bytes, now: nat)
    requires Accepted(c)
    ensures var p := ParseRequest(c, b, now);
            OpsOf(ParseAll(c, [b], [now])) == if p.Good? then RequestOps(p.request) else []
  {
    hide ParseRequest, RequestOps;
    var ps := ParseAll(c, [b], [now]);
    assert ps[1..] == [] && OpsOf([]) == [];
  }

  // ----- Over a whole life -----

  /**
   Answers over the whole life of a service: whatever batches, crashes and restarts came before, an
   answered read carries the value of the last operation on its key in the history and its own batch.
   */
  lemma AnswersShowHistory(c: Config, max: nat, images: seq<Image>, moments: seq<Moment>, clock: seq<nat>,
                           first: State, j: nat, i: nat)
      returns (states: seq<State>, u: State)
    requires Accepted(c) && Life(c, max, images, moments, clock) && Ready(c, first, images[0], clock[0])
    requires j < |moments| && moments[j].Handles? && moments[j].outcome.Replies? && i < |moments[j].inputs|
    requires |moments[j].parsedAt| == |moments[j].inputs|
    requires ParseRequest(c, moments[j].inputs[i], moments[j].parsedAt[i]).Good?
    ensures Behind(c, images, moments, clock, states) && states[0] == first
    ensures var m := moments[j];
            var p, ps := ParseRequest(c, m.inputs[i], m.parsedAt[i]), ParseAll(c, m.inputs, m.parsedAt);
            && |m.outcome.replies| == |m.inputs| == |m.appliedAt| && |u.cache| == Count(c) && u.now == m.appliedAt[i]
            && ShowsLast(c, u, states[j].history + OpsOf(ps[..i]), p.request.key)
            && Tells(m.outcome.replies[i].bytes, p.request, Peek(c, u.cache, p.request.key, m.appliedAt[i]), m.stats)
  {
    states := LifeIsRun(c, max, images, moments, clock, first);
    assert Passes(c, max, clock[j], images[j], moments[j], clock[j + 1], images[j + 1]);
    assert Ready(c, states[j], images[j], clock[j]);
    hide Life, Behind, Inv, Holds, OpsOf, ParseAll, ParseRequest, ShowsLast, Tells, Handled, Ticking, AllBelow;
    var m := moments[j];
    u := ReadAnswered(c, max, states[j], m.inputs, m.parsedAt, m.compactAt, m.appliedAt, clock[j + 1], m.stats,
                      images[j], m.outcome.replies, images[j + 1], i);
  }
}
