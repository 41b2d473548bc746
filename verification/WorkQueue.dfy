/**
 The server's job queue: I/O threads submit, workers take batches, run the handler without the lock
 and complete every job of the batch. Each locked region and each completion is one step, so a run
 is any interleaving of them.
 */
module WorkQueues {
  import opened Common

  const BATCH_LIMIT: nat := 64

  /** A job; the number identifies its submission. */
  datatype Job = Job(id: nat, input: Bytes)

  const FAILURE := Reply(0, [], true)

  /** A worker waits, runs the handler, answers the jobs of its batch one by one, or has left. */
  datatype Worker = Waiting | Holding(batch: seq<Job>) | Answering(batch: seq<Job>, replies: seq<Reply>) | Gone

  datatype Handled = Returned(replies: seq<Reply>) | Thrown

  datatype Completion = Completion(id: nat, reply: Reply)

  function Ids(jobs: seq<Job>): (ids: seq<nat>)
    ensures |ids| == |jobs| && forall i :: 0 <= i < |jobs| ==> ids[i] == jobs[i].id
  {
    seq(|jobs|, i requires 0 <= i < |jobs| => jobs[i].id)
  }

  function QueuedSize(jobs: seq<Job>): nat
  {
    if jobs == [] then 0 else |jobs[0].input| + QueuedSize(jobs[1..])
  }

  lemma {:induction false} SizeSplit(a: seq<Job>, b: seq<Job>)
    ensures QueuedSize(a + b) == QueuedSize(a) + QueuedSize(b)
  {
    if a == [] {
      assert a + b == b;
    } else {
      assert (a + b)[1..] == a[1..] + b;
      SizeSplit(a[1..], b);
    }
  }

  lemma IdsSplit(a: seq<Job>, b: seq<Job>)
    ensures Ids(a + b) == Ids(a) + Ids(b)
  {}

  function Done(completions: seq<Completion>): (ids: seq<nat>)
    ensures |ids| == |completions| && forall i :: 0 <= i < |completions| ==> ids[i] == completions[i].id
  {
    seq(|completions|, i requires 0 <= i < |completions| => completions[i].id)
  }

  /** The jobs a worker still has to complete. */
  function Holds(w: Worker): seq<Job>
  {
    match w
    case Holding(batch) => batch
    case Answering(batch, _) => batch
    case _ => []
  }

  ghost function Held(workers: seq<Worker>): multiset<nat>
  {
    if workers == [] then multiset{} else Mine(workers[0]) + Held(workers[1..])
  }

  function Mine(w: Worker): multiset<nat> { multiset(Ids(Holds(w))) }

  /** Only what worker `k` holds changes when worker `k` changes. */
  lemma {:induction false} HeldUpdate(workers: seq<Worker>, k: nat, w: Worker, x: nat)
    requires k < |workers|
    ensures Held(workers[k := w])[x] + Mine(workers[k])[x] == Held(workers)[x] + Mine(w)[x]
  {
    hide Mine;
    if k == 0 {
      assert workers[k := w][1..] == workers[1..];
    } else {
      assert workers[k := w][1..] == workers[1..][k - 1 := w];
      HeldUpdate(workers[1..], k - 1, w, x);
    }
  }

  lemma {:induction false} NobodyHolds(workers: seq<Worker>)
    requires forall w :: w in workers ==> w.Gone?
    ensures Held(workers) == multiset{}
  {
    if workers != [] {
      assert workers[0] in workers;
      NobodyHolds(workers[1..]);
      assert Ids([]) == [];
    }
  }

  /** Every accepted job is queued, held by one worker or completed, exactly once in all. */
  ghost predicate Exactly(jobs: seq<Job>, workers: seq<Worker>, completions: seq<Completion>, accepted: seq<nat>)
  {
    forall x :: multiset(Ids(jobs))[x] + Held(workers)[x] + multiset(Done(completions))[x] == multiset(accepted)[x]
  }

  lemma CountSplit(a: seq<nat>, b: seq<nat>, x: nat)
    ensures multiset(a + b)[x] == multiset(a)[x] + multiset(b)[x]
  {}

  lemma Accepts(jobs: seq<Job>, workers: seq<Worker>, completions: seq<Completion>, accepted: seq<nat>, job: Job)
    requires Exactly(jobs, workers, completions, accepted)
    ensures Exactly(jobs + [job], workers, completions, accepted + [job.id])
  {
    hide Ids, Held, Done;
    IdsSplit(jobs, [job]);
    IdsOne(job);
    forall x
      ensures multiset(Ids(jobs + [job]))[x] + Held(workers)[x] + multiset(Done(completions))[x]
              == multiset(accepted + [job.id])[x]
    {
      CountSplit(Ids(jobs), [job.id], x);
      CountSplit(accepted, [job.id], x);
    }
  }

  lemma TakesBatch(jobs: seq<Job>, workers: seq<Worker>, completions: seq<Completion>, accepted: seq<nat>, k: nat,
                   n: nat)
    requires Exactly(jobs, workers, completions, accepted) && k < |workers| && workers[k].Waiting? && n <= |jobs|
    ensures Exactly(jobs[n..], workers[k := Holding(jobs[..n])], completions, accepted)
  {
    assert Mine(workers[k]) == multiset{} by { assert Ids([]) == []; }
    assert Mine(Holding(jobs[..n])) == multiset(Ids(jobs[..n]));
    hide Ids, Held, Done, Mine;
    var w := Holding(jobs[..n]);
    assert jobs == jobs[..n] + jobs[n..];
    IdsSplit(jobs[..n], jobs[n..]);
    forall x
      ensures multiset(Ids(jobs[n..]))[x] + Held(workers[k := w])[x] + multiset(Done(completions))[x]
              == multiset(accepted)[x]
    {
      HeldUpdate(workers, k, w, x);
      CountSplit(Ids(jobs[..n]), Ids(jobs[n..]), x);
    }
  }

  lemma Swaps(jobs: seq<Job>, workers: seq<Worker>, completions: seq<Completion>, accepted: seq<nat>, k: nat, w: Worker)
    requires Exactly(jobs, workers, completions, accepted) && k < |workers| && Holds(w) == Holds(workers[k])
    ensures Exactly(jobs, workers[k := w], completions, accepted)
  {
    hide Ids, Held, Done;
    forall x
      ensures multiset(Ids(jobs))[x] + Held(workers[k := w])[x] + multiset(Done(completions))[x]
              == multiset(accepted)[x]
    {
      HeldUpdate(workers, k, w, x);
    }
  }

  lemma Completes(jobs: seq<Job>, workers: seq<Worker>, completions: seq<Completion>, accepted: seq<nat>, k: nat,
                  w: Worker, r: Reply)
    requires Exactly(jobs, workers, completions, accepted) && k < |workers|
    requires Holds(workers[k]) != [] && Holds(w) == Holds(workers[k])[1..]
    ensures Exactly(jobs, workers[k := w], completions + [Completion(Holds(workers[k])[0].id, r)], accepted)
  {
    var batch := Holds(workers[k]);
    var done := completions + [Completion(batch[0].id, r)];
    assert Done(done) == Done(completions) + [batch[0].id] by { hide Held, Exactly; }
    assert Ids(batch) == [batch[0].id] + Ids(batch[1..]) by { hide Held, Exactly; }
    hide Ids, Held, Done, Holds;
    forall x
      ensures multiset(Ids(jobs))[x] + Held(workers[k := w])[x] + multiset(Done(done))[x] == multiset(accepted)[x]
    {
      HeldUpdate(workers, k, w, x);
      CountSplit([batch[0].id], Ids(batch[1..]), x);
      CountSplit(Done(completions), [batch[0].id], x);
    }
  }

  lemma {:induction false} NobodyBusy(workers: seq<Worker>)
    requires forall w :: w in workers ==> w.Waiting?
    ensures Held(workers) == multiset{}
  {
    if workers != [] {
      assert workers[0] in workers;
      NobodyBusy(workers[1..]);
      assert Ids([]) == [];
    }
  }

  lemma IdsOne(job: Job)
    ensures Ids([job]) == [job.id] && QueuedSize([job]) == |job.input|
  {
    assert [job][1..] == [];
  }

  lemma SizeHead(jobs: seq<Job>)
    requires jobs != []
    ensures QueuedSize(jobs) == |jobs[0].input| + QueuedSize(jobs[1..])
  {}

  lemma {:induction false} Distinct(s: seq<nat>, x: nat)
    requires forall i, j :: 0 <= i < j < |s| ==> s[i] != s[j]
    ensures multiset(s)[x] <= 1 && (x in multiset(s) <==> x in s)
  {
    if s != [] {
      var rest := s[1..];
      assert s == [s[0]] + rest;
      assert forall k :: 0 <= k < |rest| ==> rest[k] == s[k + 1];
      Distinct(rest, x);
      assert multiset(s) == multiset{s[0]} + multiset(rest);
      assert s[0] !in rest;
    }
  }

  /** Submissions are numbered in order. */
  ghost predicate Numbered(accepted: seq<nat>, next: nat)
  {
    && (forall i, j :: 0 <= i < j < |accepted| ==> accepted[i] < accepted[j])
    && (forall i :: 0 <= i < |accepted| ==> accepted[i] < next)
  }

  /** What the threads may do. */
  datatype Event = Submits(input: Bytes) | Takes(worker: nat) | Handles(worker: nat, result: Handled)
                 | CompletesNext(worker: nat) | Closes

  // ----- The queue -----

  class WorkQueue {
    const capacity: nat
    const byteLimit: nat
    const batched: bool
    var jobs: seq<Job>
    var queuedBytes: nat
    var closing: bool
    var workers: seq<Worker>
    var completions: seq<Completion>
    var next: nat                 // names the next submission
    ghost var accepted: seq<nat>  // in the order of submission
    ghost var taken: seq<nat>     // in the order workers took them

    ghost predicate Valid()
      reads this
    {
      && queuedBytes == QueuedSize(jobs) <= byteLimit && |jobs| <= capacity
      && taken + Ids(jobs) == accepted
      && Exactly(jobs, workers, completions, accepted)
      && (forall w :: w in workers && w.Answering? ==> |w.replies| == |w.batch|)
      && (forall w :: w in workers && w.Gone? ==> closing && jobs == [])
      && Numbered(accepted, next)
    }

    /** Jobs are only ever added to the books, and completions are final. */
    twostate predicate Continues()
      reads this
    {
      old(accepted) <= accepted && old(completions) <= completions
      && (old(closing) ==> closing) && |workers| == |old(workers)|
    }

    constructor (capacity: nat, byteLimit: nat, batched: bool, threads: nat)
      ensures Valid() && jobs == [] && completions == [] && accepted == [] && !closing
      ensures |workers| == (if batched then 1 else threads) && forall w :: w in workers ==> w == Waiting
      ensures this.capacity == capacity && this.byteLimit == byteLimit && this.batched == batched
    {
      this.capacity, this.byteLimit, this.batched := capacity, byteLimit, batched;
      jobs, queuedBytes, closing, completions, next, accepted, taken := [], 0, false, [], 0, [], [];
      var n := if batched then 1 else threads;
      workers := seq(n, _ => Waiting);
      new;
      NobodyBusy(workers);
      assert Ids([]) == [] && Done([]) == [];
    }

    /** Admission: refused while closing or beyond the count or byte limit, which never underflows. */
    method Submit(input: Bytes) returns (ok: bool)
      requires Valid()
      modifies this
      ensures Valid() && Continues()
      ensures ok <==> !old(closing) && |old(jobs)| < capacity && old(queuedBytes) + |input| <= byteLimit
      ensures jobs == if ok then old(jobs) + [Job(old(next), input)] else old(jobs)
      ensures accepted == if ok then old(accepted) + [old(next)] else old(accepted)
      ensures workers == old(workers) && completions == old(completions) && closing == old(closing)
    {
      hide Ids, Exactly, QueuedSize;
      if closing || |jobs| >= capacity || |input| > byteLimit - queuedBytes {
        return false;
      }
      var job := Job(next, input);
      SizeSplit(jobs, [job]);
      IdsOne(job);
      Accepts(jobs, workers, completions, accepted, job);
      assert Ids(jobs + [job]) == Ids(jobs) + [job.id] by { IdsSplit(jobs, [job]); }
      assert taken + (Ids(jobs) + [job.id]) == accepted + [job.id];
      queuedBytes := queuedBytes + |job.input|;
      jobs := jobs + [job];
      accepted := accepted + [job.id];
      next := next + 1;
      return true;
    }

    /** A waiting worker takes the oldest jobs, or leaves once the queue is closed and empty. */
    method Take(k: nat)
      requires Valid() && k < |workers| && workers[k].Waiting? && (closing || jobs != [])
      modifies this
      ensures Valid() && Continues() && completions == old(completions) && accepted == old(accepted)
      ensures closing == old(closing)
      ensures old(jobs) == [] ==> jobs == [] && workers == old(workers)[k := Gone]
      ensures old(jobs) != [] ==>
                var n := if batched then Min(64, |old(jobs)|) else 1;
                jobs == old(jobs)[n..] && workers == old(workers)[k := Holding(old(jobs)[..n])]
    {
      hide Ids, Exactly, QueuedSize, Held, Done, Numbered;
      if jobs == [] {
        Swaps(jobs, workers, completions, accepted, k, Gone);
        workers := workers[k := Gone];
        return;
      }
      var count := if batched then Min(BATCH_LIMIT, |jobs|) else 1;
      ghost var all := jobs;
      var batch := PopFront(count);
      TakesBatch(all, workers, completions, accepted, k, count);
      assert taken + Ids(batch) + Ids(jobs) == accepted by {
        assert all == all[..count] + all[count..];
        IdsSplit(all[..count], all[count..]);
      }
      taken := taken + Ids(batch);
      workers := workers[k := Holding(batch)];
    }

    /** Moves the oldest `count` jobs out, keeping the byte counter in step. */
    method PopFront(count: nat) returns (batch: seq<Job>)
      requires count <= |jobs| && queuedBytes == QueuedSize(jobs)
      modifies this`jobs, this`queuedBytes
      ensures batch == old(jobs)[..count] && jobs == old(jobs)[count..]
      ensures queuedBytes == QueuedSize(jobs) <= old(queuedBytes)
    {
      hide QueuedSize;
      batch := [];
      while |batch| < count
        invariant |batch| <= count && batch == old(jobs)[..|batch|] && jobs == old(jobs)[|batch|..]
        invariant queuedBytes == QueuedSize(jobs) <= old(queuedBytes)
        decreases count - |batch|
      {
        SizeHead(jobs);
        queuedBytes := queuedBytes - |jobs[0].input|;
        batch := batch + [jobs[0]];
        jobs := jobs[1..];
      }
    }

    /** The handler returned or threw; a wrong number of replies counts as a throw. */
    method Handle(k: nat, h: Handled)
      requires Valid() && k < |workers| && workers[k].Holding?
      modifies this`workers
      ensures Valid() && Continues()
      ensures var batch := old(workers)[k].batch;
              var ok := h.Returned? && |h.replies| == |batch|;
              workers == old(workers)[k := Answering(batch, if ok then h.replies else seq(|batch|, _ => FAILURE))]
      ensures FAILURE.close && FAILURE.bytes == [] && FAILURE.consumed == 0
    {
      hide Ids, Exactly, QueuedSize, Held, Done, Numbered;
      var batch := workers[k].batch;
      var replies := if h.Returned? && |h.replies| == |batch| then h.replies else seq(|batch|, _ => FAILURE);
      Swaps(jobs, workers, completions, accepted, k, Answering(batch, replies));
      workers := workers[k := Answering(batch, replies)];
    }

    /** The next job of the batch is completed; after the last one the worker waits again. */
    method CompleteNext(k: nat)
      requires Valid() && k < |workers| && workers[k].Answering?
      modifies this
      ensures Valid() && Continues() && jobs == old(jobs) && accepted == old(accepted) && closing == old(closing)
      ensures var w := old(workers)[k];
              if w.batch == [] then completions == old(completions) && workers == old(workers)[k := Waiting]
              else completions == old(completions) + [Completion(w.batch[0].id, w.replies[0])]
                   && workers == old(workers)[k := Answering(w.batch[1..], w.replies[1..])]
    {
      hide Ids, Exactly, QueuedSize, Held, Done, Numbered;
      var w := workers[k];
      assert w in workers;
      if w.batch == [] {
        Swaps(jobs, workers, completions, accepted, k, Waiting);
        workers := workers[k := Waiting];
        return;
      }
      var rest := Answering(w.batch[1..], w.replies[1..]);
      Completes(jobs, workers, completions, accepted, k, rest, w.replies[0]);
      completions := completions + [Completion(w.batch[0].id, w.replies[0])];
      workers := workers[k := rest];
    }

    method Close()
      requires Valid()
      modifies this`closing
      ensures Valid() && Continues() && closing
    {
      hide Ids, Exactly, QueuedSize, Held, Done, Numbered;
      closing := true;
    }

    /** One step of any thread; a step that is not possible now does nothing. */
    method Step(e: Event)
      requires Valid()
      modifies this
      ensures Valid() && Continues()
    {
      hide Ids, Exactly, QueuedSize, Held, Done, Numbered;
      match e {
        case Submits(input) =>
          var ok := Submit(input);
        case Takes(k) =>
          if k < |workers| && workers[k].Waiting? && (closing || jobs != []) { Take(k); }
        case Handles(k, h) =>
          if k < |workers| && workers[k].Holding? { Handle(k, h); }
        case CompletesNext(k) =>
          if k < |workers| && workers[k].Answering? { CompleteNext(k); }
        case Closes =>
          Close();
      }
    }

    /** Any interleaving of submitters and workers. */
    method Run(events: seq<Event>)
      requires Valid()
      modifies this
      ensures Valid() && Continues()
    {
      hide Ids, Exactly, QueuedSize, Held, Done, Numbered;
      for i := 0 to |events|
        invariant Valid() && Continues()
      {
        Step(events[i]);
      }
    }

    /** No job is completed twice or without having been accepted. */
    lemma AtMostOnce(id: nat)
      requires Valid()
      ensures multiset(Done(completions))[id] <= 1
      ensures id in Done(completions) ==> id in accepted
    {
      assert forall i, j :: 0 <= i < j < |accepted| ==> accepted[i] != accepted[j];
      Distinct(accepted, id);
      hide Ids, Held, Done, QueuedSize;
      assert multiset(Done(completions))[id] <= multiset(accepted)[id];
      assert id in Done(completions) ==> id in multiset(Done(completions));
    }

    /** Once all workers have left, the queue is empty and every accepted job was completed exactly once. */
    lemma Drained()
      requires Valid() && workers != [] && forall w :: w in workers ==> w.Gone?
      ensures closing && jobs == [] && queuedBytes == 0
      ensures multiset(Done(completions)) == multiset(accepted)
    {
      assert workers[0] in workers;
      NobodyHolds(workers);
      assert Ids([]) == [];
      hide Ids, Held, Done;
    }
  }
}
