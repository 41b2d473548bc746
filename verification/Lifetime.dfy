/**
 Whole lives of the service object: any number of batches, crashes at any moment and restarts from
 whatever bytes they leave. Nothing that was ever acknowledged is lost.
 */
module Lifetime {
  import opened Common
  import opened AofCodec
  import opened Lru
  import opened Sharded
  import opened Semantics
  import opened LogOps
  import opened Durability
  import opened Aof
  import opened Service
  import opened CacheServices
  import opened Refinement

  /**
   What happens next: a batch is answered or rejected; or the process dies, in the middle of a batch
   or between two, and `Open` accepts the first `n` bytes of the file it finds. A batch that fails in
   any other way stops the service, so the process dies in it.
   */
  datatype Moment =
    | Handles(inputs: seq<Bytes>, parsedAt: seq<nat>, compactAt: nat, appliedAt: seq<nat>, stats: Bytes,
              outcome: CacheServices.Outcome)
    | Dies(inputs: seq<Bytes>, parsedAt: seq<nat>, compactAt: nat, found: Disk, n: nat, times: seq<nat>)

  /** The operations of the batch of a moment. */
  ghost function BatchOps(c: Config, m: Moment): seq<Op>
    requires Accepted(c) && |m.parsedAt| == |m.inputs|
  {
    OpsOf(ParseAll(c, m.inputs, m.parsedAt))
  }

  /** The file a crash may find: the log between two batches, or any file seen while a batch is stored. */
  ghost predicate Found(c: Config, before: Image, m: Moment)
    requires Accepted(c) && m.Dies? && |m.parsedAt| == |m.inputs|
  {
    var ms := LogOf(ParseAll(c, m.inputs, m.parsedAt));
    if ms == [] then m.found == before.disk else Storing(m.found, before.disk, before.cache, m.compactAt, ms)
  }

  /** What `Open` has built from the first `n` bytes of the file found. */
  ghost predicate Reopened(c: Config, m: Moment, after: Image)
    requires Accepted(c) && m.Dies?
  {
    && m.found.synced <= m.n <= |m.found.log|
    && var file := m.found.log[..m.n];
       && StartupAccepts(c, file) && |m.times| == |Scan(file).records|
       && after.disk == Disk(file, m.found.synced)
       && after.cache == ApplyAll(c, Empty(c), Ops(Scan(file).records), m.times)
  }

  /** The moment takes the service from one image to the next, between these two clock readings. */
  ghost predicate Passes(c: Config, max: nat, from: nat, before: Image, m: Moment, until: nat, after: Image)
    requires Accepted(c)
  {
    && |m.parsedAt| == |m.inputs| && AllBelow(m.parsedAt, CLOCK_LIMIT) && from <= m.compactAt
    && |before.cache| == Count(c) && CountersOk(max, before.counters)
    && match m
       case Handles(inputs, parsedAt, compactAt, appliedAt, stats, outcome) =>
         && |appliedAt| == |inputs| && Ticking(appliedAt, compactAt, until) && !outcome.Failure?
         && Handled(c, max, ParseAll(c, inputs, parsedAt), compactAt, appliedAt, stats, before, outcome, after)
       case Dies(_, _, compactAt, _, _, times) =>
         Ticking(times, compactAt, until) && Found(c, before, m) && Reopened(c, m, after)
  }

  /** The state stands for the image, and the service is ready for the next batch. */
  ghost predicate Ready(c: Config, s: State, i: Image, now: nat)
  {
    Represents(c, s, i.disk, i.cache) && s.phase.Idle? && s.now <= now
  }

  /** All that was acknowledged is still in the history, at its place. */
  predicate Keeps(s: State, t: State)
  {
    s.acked <= |s.history| && s.acked <= t.acked && s.history[..s.acked] <= t.history
  }

  /** What a moment does to the history. */
  ghost predicate Recorded(c: Config, m: Moment, s: State, t: State)
    requires Accepted(c) && |m.parsedAt| == |m.inputs|
  {
    && Keeps(s, t) && t.history <= s.history + BatchOps(c, m)
    && (m.Handles? && m.outcome.Replies? && BatchOps(c, m) != [] ==>
          t.history == s.history + BatchOps(c, m) && t.acked == |t.history|)
  }

  lemma HandlesSteps(c: Config, max: nat, s: State, from: nat, before: Image, m: Moment, until: nat, after: Image)
      returns (t: State)
    requires Accepted(c) && m.Handles? && Passes(c, max, from, before, m, until, after) && Ready(c, s, before, from)
    ensures Ready(c, t, after, until) && Recorded(c, m, s, t)
  {
    hide Inv, Holds, Handled, Leads, Ticking, OpsOf, ParseAll, AllBelow, LogOf, Snapshotted;
    AckedKept(c, s);
    var es, u := HandleBatchRefines(c, max, s, m.inputs, m.parsedAt, m.compactAt, m.appliedAt, until, m.stats, before,
                                    m.outcome, after);
    t := u;
    assert s.history <= s.history + BatchOps(c, m);
  }

  /** The state in which the crash happens. */
  lemma FoundState(c: Config, max: nat, s: State, from: nat, before: Image, m: Moment, until: nat, after: Image)
      returns (u: State)
    requires Accepted(c) && m.Dies? && Passes(c, max, from, before, m, until, after) && Ready(c, s, before, from)
    ensures Represents(c, u, m.found, before.cache) && u.now == m.compactAt && u.acked == s.acked
    ensures u.history == s.history + BatchOps(c, m)
  {
    hide Inv, Holds, Leads, Ticking, OpsOf, ParseAll, LogOf, Storing, Reopened, Logs;
    var ps := ParseAll(c, m.inputs, m.parsedAt);
    BatchLogged(c, m.inputs, m.parsedAt);
    LogsBoth(c, LogOf(ps), OpsOf(ps));
    if LogOf(ps) == [] {
      var es, v := BaseSteps(c, s, before.disk, before.cache, m.compactAt, before.disk);
      u := v;
      assert s.history + [] == s.history;
    } else {
      var es, v := StoringSteps(c, s, before.disk, before.cache, m.compactAt, LogOf(ps), OpsOf(ps), m.found);
      u := v;
    }
  }

  /** What `Open` has built from the file found stands for the state after a restart. */
  lemma ReopenedState(c: Config, u: State, cache: Cache, m: Moment, until: nat, after: Image) returns (t: State)
    requires Accepted(c) && m.Dies? && Represents(c, u, m.found, cache) && u.now == m.compactAt
    requires Reopened(c, m, after) && Ticking(m.times, m.compactAt, until)
    ensures Ready(c, t, after, until) && t.acked == u.acked <= |t.history| && t.history <= u.history
  {
    hide Inv, Ticking, StartupAccepts, ApplyAll, Scan, LogBytes, Readable;
    HeldBytes(u, m.found, m.n);
    hide Holds, Leftover, Survives, Enabled, After;
    OpenRestarts(c, u, u.file, m.n, m.times, until);
    t := After(c, u, Restart(u.file, m.n, m.times, until));
    HeldSynced(u, m.found);
  }

  lemma HeldSynced(s: State, d: Disk)
    requires Holds(s, d)
    ensures d.synced == s.file.synced
  {
    hide LogBytes, Readable;
  }

  lemma DiesSteps(c: Config, max: nat, s: State, from: nat, before: Image, m: Moment, until: nat, after: Image)
      returns (t: State)
    requires Accepted(c) && m.Dies? && Passes(c, max, from, before, m, until, after) && Ready(c, s, before, from)
    ensures Ready(c, t, after, until) && Recorded(c, m, s, t)
  {
    hide Inv, Holds, Ticking, Found, Reopened, AllBelow, BatchOps;
    AckedKept(c, s);
    var u := FoundState(c, max, s, from, before, m, until, after);
    t := ReopenedState(c, u, before.cache, m, until, after);
    hide Represents;
    assert s.history[..s.acked] == u.history[..s.acked] == t.history[..s.acked];
  }

  /** One moment is a run of the step system that keeps everything acknowledged. */
  lemma MomentSteps(c: Config, max: nat, s: State, from: nat, before: Image, m: Moment, until: nat, after: Image)
      returns (t: State)
    requires Accepted(c) && Passes(c, max, from, before, m, until, after) && Ready(c, s, before, from)
    ensures Ready(c, t, after, until) && Recorded(c, m, s, t)
  {
    hide Passes, Ready, Recorded;
    if m.Handles? {
      t := HandlesSteps(c, max, s, from, before, m, until, after);
    } else {
      t := DiesSteps(c, max, s, from, before, m, until, after);
    }
  }

  /** A life: images of the service with what happens in between, against a clock. */
  ghost predicate Life(c: Config, max: nat, images: seq<Image>, moments: seq<Moment>, clock: seq<nat>)
    requires Accepted(c)
  {
    && |images| == |clock| == |moments| + 1
    && forall i :: 0 <= i < |moments| ==>
         Passes(c, max, clock[i], images[i], moments[i], clock[i + 1], images[i + 1])
  }

  /** The states of the step system that a life goes through. */
  ghost predicate Behind(c: Config, images: seq<Image>, moments: seq<Moment>, clock: seq<nat>, states: seq<State>)
    requires Accepted(c) && |images| == |clock| == |moments| + 1
  {
    && |states| == |images|
    && (forall i :: 0 <= i < |states| ==> Ready(c, states[i], images[i], clock[i]))
    && (forall i :: 0 <= i < |moments| ==>
          |moments[i].parsedAt| == |moments[i].inputs| && Recorded(c, moments[i], states[i], states[i + 1]))
  }

  lemma {:induction false} LifeIsRun(c: Config, max: nat, images: seq<Image>, moments: seq<Moment>, clock: seq<nat>,
                                     first: State) returns (states: seq<State>)
    requires Accepted(c) && Life(c, max, images, moments, clock) && Ready(c, first, images[0], clock[0])
    ensures Behind(c, images, moments, clock, states) && states[0] == first
    decreases |moments|
  {
    hide Passes, Ready, Recorded;
    if moments == [] {
      states := [first];
    } else {
      var n := |moments| - 1;
      states := LifeIsRun(c, max, images[..n + 1], moments[..n], clock[..n + 1], first);
      assert Passes(c, max, clock[n], images[n], moments[n], clock[n + 1], images[n + 1]);
      assert Ready(c, states[n], images[n], clock[n]);
      var t := MomentSteps(c, max, states[n], clock[n], images[n], moments[n], clock[n + 1], images[n + 1]);
      PassesSizes(c, max, clock[n], images[n], moments[n], clock[n + 1], images[n + 1]);
      states := states + [t];
    }
  }

  lemma PassesSizes(c: Config, max: nat, from: nat, before: Image, m: Moment, until: nat, after: Image)
    requires Accepted(c) && Passes(c, max, from, before, m, until, after)
    ensures |m.parsedAt| == |m.inputs|
  {
    hide Handled, Found, Reopened;
  }

  lemma {:induction false} KeptThroughout(c: Config, images: seq<Image>, moments: seq<Moment>, clock: seq<nat>,
                                          states: seq<State>, i: nat, j: nat)
    requires Accepted(c) && |images| == |clock| == |moments| + 1 && Behind(c, images, moments, clock, states)
    requires i <= j < |states|
    ensures Keeps(states[i], states[j])
    decreases j - i
  {
    hide Inv, Holds, OpsOf, ParseAll;
    if i == j {
      assert Ready(c, states[i], images[i], clock[i]);
      AckedKept(c, states[i]);
    } else {
      KeptThroughout(c, images, moments, clock, states, i, j - 1);
      assert Recorded(c, moments[j - 1], states[j - 1], states[j - 1 + 1]);
      var a, b, t := states[i], states[j - 1], states[j];
      assert a.history[..a.acked] == b.history[..a.acked] == t.history[..a.acked];
    }
  }

  /**
   Durability of the service over its whole life. Whatever batches, crashes and restarts follow, the
   operations of an answered batch stay in the history, in place and after everything that came before;
   and what a read shows at any later time is the value of the key's last operation in that history.
   */
  lemma NothingAcknowledgedIsLost(c: Config, max: nat, images: seq<Image>, moments: seq<Moment>, clock: seq<nat>,
                                  first: State, i: nat, j: nat, k: Key)
      returns (states: seq<State>)
    requires Accepted(c) && Life(c, max, images, moments, clock) && Ready(c, first, images[0], clock[0])
    requires i < j < |images|
    ensures Behind(c, images, moments, clock, states) && states[0] == first
    ensures moments[i].Handles? && moments[i].outcome.Replies? && BatchOps(c, moments[i]) != [] ==>
              states[i].history + BatchOps(c, moments[i]) <= states[j].history
    ensures images[j].cache == states[j].cache && |states[j].cache| == Count(c)
    ensures ShowsLast(c, states[j], states[j].history, k)
  {
    states := LifeIsRun(c, max, images, moments, clock, first);
    assert Recorded(c, moments[i], states[i], states[i + 1]) && Ready(c, states[j], images[j], clock[j]);
    hide Life, Inv, Holds, OpsOf, ParseAll, ShowsLast;
    KeptThroughout(c, images, moments, clock, states, i + 1, j);
    ReadsLast(c, states[j], k);
    hide Behind;
    var a := states[i + 1];
    if a.acked == |a.history| { assert a.history[..a.acked] == a.history; }
  }

  lemma ReadsLast(c: Config, s: State, k: Key)
    requires Inv(c, s) && s.phase.Idle?
    ensures Accepted(c) && |s.cache| == Count(c) && ShowsLast(c, s, s.history, k)
  {
    hide Inv, Enabled, ShowsLast;
    IdleReadable(c, s, k);
    LiveReads(c, s, k);
    assert s.history[..|s.history|] == s.history;
  }

  lemma IdleReadable(c: Config, s: State, k: Key)
    requires Inv(c, s) && s.phase.Idle?
    ensures Accepted(c) && Enabled(c, s, Read(k))
  {
    hide Within, Covers, CacheSound, Fold, FileOk, Meaningful, LogSize;
    SoundSize(c, s.cache);
  }
}
