/**
 One connection on the server. Bytes come in, are cut into jobs for the workers, replies are queued
 and sent. Reading pauses while too many jobs are pending or too much output is queued; the peer
 may close its sending side at any time.
 */
module ServerPeers {
  import opened Common
  import opened Framing
  import opened WorkQueues

  const IO_BUDGET: nat := 256 * 1024
  const READ_CHUNK: nat := 16384
  const FRAMES_PER_TURN: nat := 32

  /** Without a frame sizer every job is the whole buffer. */
  datatype Options = Options(framed: bool, batched: bool, protocol: Protocol, pipeline: nat, outputLimit: nat,
                             maxFrame: nat)

  /** What the server's configuration checks. */
  predicate Configured(o: Options) { o.pipeline > 0 && o.maxFrame > 0 && o.outputLimit >= o.maxFrame }

  function Allowance(o: Options): (n: nat)
    ensures Configured(o) ==> n > 0
  {
    if o.batched || !o.framed then 1 else o.pipeline
  }

  /**
   Input: the unread buffer, every byte ever read and every byte consumed. `dry`: the kernel had no
   more and will report some.
   */
  datatype Inflow = Inflow(input: Bytes, incomplete: bool, eof: bool, dry: bool, received: Bytes, consumed: Bytes)

  /** Output: the queue, and every reply ever queued and byte ever sent. `full`: the kernel will report room. */
  datatype Outflow = Outflow(output: seq<Bytes>, sent: nat, bytes: nat, full: bool, queued: seq<Bytes>, wire: Bytes)

  /** A job not yet completed: its number among all jobs of the connection, and its size. */
  datatype Ticket = Ticket(number: nat, size: nat)

  /** A completed job and its reply. */
  datatype Answer = Answer(number: nat, reply: Reply)

  /** Jobs: those not yet completed, the input of every job ever submitted, and the completed ones in order. */
  datatype Work = Work(pending: nat, jobs: seq<Ticket>, taken: seq<Bytes>, answers: seq<Answer>)

  /** `reading` and `writing` are what the loop is asked to report. */
  datatype Peer = Peer(rx: Inflow, tx: Outflow, work: Work, closed: bool, scheduled: bool, reading: bool, writing: bool)

  const FRESH_PEER :=
    Peer(Inflow([], false, false, true, [], []), Outflow([], 0, 0, false, [], []), Work(0, [], [], []),
         false, false, true, false)

  // ----- What always holds -----

  /** The counter is the queued bytes still to send, and the wire carries the replies in order. */
  ghost predicate OutputOk(o: Options, t: Outflow)
  {
    && (forall b :: b in t.output ==> b != [])
    && (t.output == [] ==> t.sent == 0) && (t.output != [] ==> t.sent < |t.output[0]|)
    && t.sent <= |Flatten(t.output)| && t.bytes == |Flatten(t.output)| - t.sent <= o.outputLimit
    && t.wire + Flatten(t.output)[t.sent..] == Flatten(t.queued)
  }

  /** Pending jobs are counted and bounded; without framing the job is still the whole buffer. */
  predicate JobsOk(o: Options, w: Work, buffer: Bytes)
  {
    && w.pending == |w.jobs| <= Allowance(o)
    && (forall j :: j in w.jobs ==> 0 < j.size <= o.maxFrame && (!o.framed ==> IsBuffer(w, j, buffer)))
  }

  /** The handler was given the buffer as it stands. */
  predicate IsBuffer(w: Work, j: Ticket, buffer: Bytes)
  {
    j.size == |buffer| && j.number < |w.taken| && w.taken[j.number] == buffer
  }

  function Numbers(jobs: seq<Ticket>): (ns: seq<nat>)
    ensures |ns| == |jobs| && forall i :: 0 <= i < |ns| ==> ns[i] == jobs[i].number
  {
    seq(|jobs|, i requires 0 <= i < |jobs| => jobs[i].number)
  }

  function Completed(answers: seq<Answer>): (ns: seq<nat>)
    ensures |ns| == |answers| && forall i :: 0 <= i < |ns| ==> ns[i] == answers[i].number
  {
    seq(|answers|, i requires 0 <= i < |answers| => answers[i].number)
  }

  function UpTo(n: nat): (ns: seq<nat>)
    ensures |ns| == n && forall i :: 0 <= i < n ==> ns[i] == i
  {
    seq(n, i => i)
  }

  /** The replies that carry bytes, in the order of completion. */
  function Spoken(answers: seq<Answer>): seq<Bytes>
  {
    if answers == [] then []
    else
      var a := answers[|answers| - 1].reply.bytes;
      Spoken(answers[..|answers| - 1]) + (if a == [] then [] else [a])
  }

  /**
   Every job ever submitted is outstanding or completed, once. The outstanding ones are in order, and
   each has the size of its own input.
   */
  ghost predicate Booked(w: Work)
  {
    && multiset(Numbers(w.jobs)) + multiset(Completed(w.answers)) == multiset(UpTo(|w.taken|))
    && (forall i, j :: 0 <= i < j < |w.jobs| ==> w.jobs[i].number < w.jobs[j].number)
    && (forall j :: j in w.jobs ==> j.number < |w.taken| && j.size == |w.taken[j.number]|)
  }

  /** Frames already taken and frames still to come are those of the whole stream, whatever arrives next. */
  ghost predicate Follows(o: Options, received: Bytes, taken: seq<Bytes>, input: Bytes)
  {
    forall coming: Bytes ::
      Extract(o.protocol, o.maxFrame, received + coming).frames
      == taken + Extract(o.protocol, o.maxFrame, input + coming).frames
  }

  ghost predicate InputOk(o: Options, r: Inflow, taken: seq<Bytes>)
  {
    && |r.input| <= o.maxFrame && r.received == r.consumed + r.input
    && (o.framed ==> !r.incomplete && r.consumed == Flatten(taken) && Follows(o, r.received, taken, r.input))
    && (r.incomplete ==> |r.input| < o.maxFrame) && (o.outputLimit < 2 ==> r.input == [] && !r.eof)
  }

  ghost predicate Inv(o: Options, p: Peer)
    ensures Inv(o, p) ==> Configured(o)
  {
    && Configured(o) && OutputOk(o, p.tx) && InputOk(o, p.rx, p.work.taken)
    && (!p.closed ==> JobsOk(o, p.work, p.rx.input) && Booked(p.work) && p.tx.queued == Spoken(p.work.answers))
  }

  // ----- What a turn of the pump leaves behind -----

  predicate Room(o: Options, p: Peer) { p.work.pending < Allowance(o) && p.tx.bytes < o.outputLimit / 2 }

  /** Is there anything a worker could be given now? */
  predicate Complete(o: Options, r: Inflow)
  {
    r.input != [] && !r.incomplete && (o.framed ==> Ready(o.protocol, o.maxFrame, r.input))
  }

  /** The loop reports what the connection can use: input while there is room, output while some is queued. */
  predicate Interested(o: Options, p: Peer)
  {
    (p.reading <==> !p.rx.eof && Room(o, p)) && (p.writing <==> p.tx.output != [])
  }

  /** Something is going to move the connection on: input, output, a completion or a posted wake-up. */
  predicate Awake(p: Peer) { p.reading || p.writing || p.work.jobs != [] || p.scheduled }

  /**
   An edge-triggered loop reports a change only after the kernel refused. Unsent output waits for the
   kernel or for a posted wake-up; unread input may also wait for a job that will pump again.
   */
  predicate SendAttended(p: Peer) { p.tx.output == [] || p.tx.full || p.scheduled }

  predicate ReadAttended(p: Peer) { p.reading ==> p.rx.dry || p.scheduled || p.work.jobs != [] }

  /** The frame limit leaves room for a header. */
  predicate HeaderFits(o: Options) { o.framed ==> o.maxFrame >= HeaderSize(o.protocol) }

  /** The buffer is full of a header that will never be complete. */
  predicate Jammed(o: Options, p: Peer) { !HeaderFits(o) && |p.rx.input| == o.maxFrame }

  /** A jammed connection without a job. */
  predicate Stalled(o: Options, p: Peer) { Jammed(o, p) && p.work.jobs == [] }

  /** A complete frame is left in the buffer only if the limits say so or another turn is posted. */
  predicate Unstuck(o: Options, p: Peer) { Complete(o, p.rx) ==> !Room(o, p) || p.scheduled }

  /** A connection at rest between two events. */
  predicate Resting(o: Options, p: Peer)
  {
    && Interested(o, p) && Unstuck(o, p) && SendAttended(p) && (ReadAttended(p) || Jammed(o, p))
    && (o.outputLimit >= 2 ==> Awake(p))
    && !(p.rx.eof && p.work.jobs == [] && p.tx.output == [])
  }

  /**
   The limits of an open connection: one job at a time, or as many as the pipeline allows; a buffer of one
   frame; a bounded output queue. At rest it is read exactly while there is room for another job and less
   than half of the output limit is unsent.
   */
  lemma LimitsHold(o: Options, p: Peer)
    requires Inv(o, p) && !p.closed
    ensures |p.work.jobs| <= (if o.batched || !o.framed then 1 else o.pipeline) && |p.rx.input| <= o.maxFrame
    ensures p.tx.sent <= |Flatten(p.tx.output)| && |Flatten(p.tx.output)| - p.tx.sent <= o.outputLimit
    ensures Resting(o, p) ==>
              && (p.reading <==> !p.rx.eof && |p.work.jobs| < (if o.batched || !o.framed then 1 else o.pipeline)
                                 && |Flatten(p.tx.output)| - p.tx.sent < o.outputLimit / 2)
              && (p.writing <==> p.tx.output != [])
  {
    hide Follows, Booked, Spoken, Flatten, Complete;
  }

  /** A paused connection always has something to wake it, provided half of the output limit is not zero. */
  lemma PausedIsAwake(o: Options, p: Peer)
    requires Inv(o, p) && !p.closed && Interested(o, p) && (p.rx.eof ==> p.work.jobs != [] || p.tx.output != [])
    ensures o.outputLimit >= 2 ==> Awake(p)
  {
    hide Follows, Extract;
    if o.outputLimit >= 2 && p.tx.output == [] {
      assert Flatten(p.tx.output) == [] && p.tx.bytes == 0;
    }
  }

  /** With an output limit of one byte a fresh connection is never read, and nothing will wake it. */
  lemma FreshIsAwake(o: Options, p: Peer)
    requires Configured(o) && Interested(o, p) && p == FRESH_PEER.(reading := p.reading, writing := p.writing)
    ensures Awake(p) <==> o.outputLimit >= 2
  {}

  /** A connection that has read `b`, a full buffer, and asks for more without having seen the kernel refuse. */
  function FullPeer(b: Bytes): Peer
  {
    FRESH_PEER.(rx := Inflow(b, false, false, false, b, []))
  }

  /**
   Unread input is attended to on every connection at rest if and only if a header fits the frame
   limit. Otherwise any full buffer is at rest although the kernel has not refused: no header can
   complete, and `Run` shows that whatever happens nothing more is read.
   */
  lemma HeaderMustFit(o: Options)
    requires Configured(o) && o.outputLimit >= 2
    ensures HeaderFits(o) <==> forall p :: Inv(o, p) && !p.closed && Resting(o, p) ==> ReadAttended(p)
    ensures !HeaderFits(o) ==> forall b: Bytes :: |b| == o.maxFrame ==>
              Inv(o, FullPeer(b)) && Resting(o, FullPeer(b)) && !ReadAttended(FullPeer(b))
              && SizeOf(o.protocol, b) == Size(0)
  {
    if !HeaderFits(o) {
      forall b: Bytes | |b| == o.maxFrame
        ensures Inv(o, FullPeer(b)) && Resting(o, FullPeer(b)) && !ReadAttended(FullPeer(b))
        ensures SizeOf(o.protocol, b) == Size(0)
      {
        FullIsJammed(o, b);
      }
      var b: Bytes := seq(o.maxFrame, _ => 0);
      assert |b| == o.maxFrame;
      assert Inv(o, FullPeer(b)) && !FullPeer(b).closed && Resting(o, FullPeer(b)) && !ReadAttended(FullPeer(b));
    }
    hide Inv;
  }

  lemma FullIsJammed(o: Options, b: Bytes)
    requires Configured(o) && o.outputLimit >= 2 && !HeaderFits(o) && |b| == o.maxFrame
    ensures Inv(o, FullPeer(b)) && Resting(o, FullPeer(b)) && !ReadAttended(FullPeer(b))
    ensures SizeOf(o.protocol, b) == Size(0)
  {
    FollowsSelf(o, b);
    hide Follows, Extract;
    assert Flatten([]) == [] && [] + b == b;
  }

  lemma FreshOk(o: Options)
    requires Configured(o)
    ensures Inv(o, FRESH_PEER)
  {
    FollowsSelf(o, []);
    hide Follows, Extract;
    assert Flatten([]) == [] && Numbers([]) == [] && Completed([]) == [] && UpTo(0) == [];
  }

  lemma FollowsSelf(o: Options, b: Bytes)
    ensures Follows(o, b, [], b)
  {
    hide Extract;
    forall coming: Bytes
      ensures Extract(o.protocol, o.maxFrame, b + coming).frames
           == [] + Extract(o.protocol, o.maxFrame, b + coming).frames
    {}
  }

  // ----- Sending -----

  lemma FlattenTail(output: seq<Bytes>)
    requires output != []
    ensures Flatten(output) == output[0] + Flatten(output[1..])
  {}

  function SomeSent(t: Outflow, n: nat): Outflow
    requires t.output != [] && t.sent + n <= |t.output[0]| && n <= t.bytes
  {
    t.(sent := t.sent + n, bytes := t.bytes - n, wire := t.wire + t.output[0][t.sent..t.sent + n])
  }

  function Popped(t: Outflow): Outflow
    requires t.output != []
  {
    t.(output := t.output[1..], sent := 0)
  }

  /** Some bytes of the first reply go out; when it is complete it leaves the queue. */
  function Sends(t: Outflow, n: nat): Outflow
    requires t.output != [] && t.sent + n <= |t.output[0]| && n <= t.bytes
  {
    if t.sent + n == |t.output[0]| then Popped(SomeSent(t, n)) else SomeSent(t, n)
  }

  lemma SentPart(o: Options, t: Outflow, n: nat)
    requires OutputOk(o, t) && t.output != [] && t.sent + n < |t.output[0]|
    ensures n <= t.bytes && OutputOk(o, SomeSent(t, n))
  {
    FlattenTail(t.output);
    hide Flatten;
    var all, b := Flatten(t.output), t.output[0];
    assert all[t.sent..] == b[t.sent..t.sent + n] + all[t.sent + n..];
    assert t.wire + b[t.sent..t.sent + n] + all[t.sent + n..] == t.wire + all[t.sent..];
  }

  lemma SentWhole(o: Options, t: Outflow, n: nat)
    requires OutputOk(o, t) && t.output != [] && t.sent + n == |t.output[0]|
    ensures n <= t.bytes && OutputOk(o, Popped(SomeSent(t, n)))
  {
    FlattenTail(t.output);
    hide Flatten;
    var all, b, rest := Flatten(t.output), t.output[0], Flatten(t.output[1..]);
    assert all[t.sent..] == b[t.sent..t.sent + n] + rest && rest[0..] == rest;
    assert t.wire + b[t.sent..t.sent + n] + rest == t.wire + all[t.sent..];
    assert forall x :: x in t.output[1..] ==> x in t.output;
    assert t.output[1..] != [] ==> t.output[1..][0] in t.output;
  }

  lemma SendsOk(o: Options, t: Outflow, n: nat)
    requires OutputOk(o, t) && t.output != [] && t.sent + n <= |t.output[0]|
    ensures n <= t.bytes && OutputOk(o, Sends(t, n)) && t.wire <= Sends(t, n).wire && Sends(t, n).queued == t.queued
  {
    hide OutputOk;
    if t.sent + n == |t.output[0]| { SentWhole(o, t, n); } else { SentPart(o, t, n); }
  }

  lemma SentInside(o: Options, t: Outflow)
    requires OutputOk(o, t) && t.output != []
    ensures t.sent < |t.output[0]|
  {
    hide Flatten;
  }

  // ----- Queueing -----

  lemma FlattenOne(queued: seq<Bytes>, b: Bytes)
    ensures Flatten(queued + [b]) == Flatten(queued) + b
  {
    FlattenAppend(queued, [b]);
    assert Flatten([b]) == b + Flatten([]) == b;
  }

  function Queues(t: Outflow, b: Bytes): Outflow
  {
    t.(output := t.output + [b], bytes := t.bytes + |b|, queued := t.queued + [b])
  }

  lemma QueuesOk(o: Options, t: Outflow, b: Bytes)
    requires OutputOk(o, t) && b != [] && |b| <= o.outputLimit - t.bytes
    ensures OutputOk(o, Queues(t, b))
  {
    hide Flatten;
    FlattenOne(t.output, b);
    FlattenOne(t.queued, b);
    var all := Flatten(t.output);
    assert (all + b)[t.sent..] == all[t.sent..] + b;
    assert t.wire + (all[t.sent..] + b) == t.wire + all[t.sent..] + b;
    assert t.output != [] ==> (t.output + [b])[0] == t.output[0];
    assert forall x :: x in t.output + [b] <==> x in t.output || x == b;
  }

  lemma OutputBound(o: Options, t: Outflow)
    requires OutputOk(o, t)
    ensures t.bytes <= o.outputLimit
  {
    hide Flatten;
  }

  // ----- Reading -----

  lemma FollowsMore(o: Options, received: Bytes, taken: seq<Bytes>, input: Bytes, chunk: Bytes)
    requires Follows(o, received, taken, input)
    ensures Follows(o, received + chunk, taken, input + chunk)
  {
    hide Extract;
    forall coming: Bytes
      ensures Extract(o.protocol, o.maxFrame, received + chunk + coming).frames
           == taken + Extract(o.protocol, o.maxFrame, input + chunk + coming).frames
    {
      assert received + chunk + coming == received + (chunk + coming);
      assert input + chunk + coming == input + (chunk + coming);
    }
  }

  function Reads(r: Inflow, bytes: Bytes): Inflow
  {
    r.(input := r.input + bytes, received := r.received + bytes, incomplete := false)
  }

  lemma ReadsOk(o: Options, p: Peer, bytes: Bytes)
    requires Inv(o, p) && |p.rx.input| + |bytes| <= o.maxFrame && Room(o, p)
    ensures Inv(o, p.(rx := Reads(p.rx, bytes)))
  {
    hide Follows, OutputOk, Flatten;
    if o.framed { FollowsMore(o, p.rx.received, p.work.taken, p.rx.input, bytes); }
    assert p.rx.consumed + (p.rx.input + bytes) == p.rx.received + bytes;
  }

  lemma EofOk(o: Options, p: Peer)
    requires Inv(o, p) && Room(o, p)
    ensures Inv(o, p.(rx := p.rx.(eof := true)))
  {
    hide Follows, OutputOk;
  }

  lemma InputBound(o: Options, p: Peer)
    requires Inv(o, p)
    ensures |p.rx.input| <= o.maxFrame && (p.rx.incomplete ==> |p.rx.input| < o.maxFrame)
  {
    hide OutputOk, JobsOk, Booked, Follows;
  }

  // ----- Cutting -----

  lemma FollowsTake(o: Options, received: Bytes, taken: seq<Bytes>, input: Bytes, n: nat)
    requires Follows(o, received, taken, input)
    requires Ready(o.protocol, o.maxFrame, input) && SizeOf(o.protocol, input) == Size(n) && n <= |input|
    ensures Follows(o, received, taken + [input[..n]], input[n..])
  {
    hide Extract, Ready, SizeOf;
    forall coming: Bytes
      ensures Extract(o.protocol, o.maxFrame, received + coming).frames
           == taken + [input[..n]] + Extract(o.protocol, o.maxFrame, input[n..] + coming).frames
    {
      TakeOne(o.protocol, o.maxFrame, input, coming);
      assert taken + ([input[..n]] + Extract(o.protocol, o.maxFrame, input[n..] + coming).frames)
          == taken + [input[..n]] + Extract(o.protocol, o.maxFrame, input[n..] + coming).frames;
    }
  }

  /** A job is the next frame, which leaves the buffer, or the whole buffer, which stays until the reply. */
  function Cuts(o: Options, p: Peer, size: nat): Peer
    requires size <= |p.rx.input|
  {
    var w := p.work;
    p.(work := w.(pending := w.pending + 1, jobs := w.jobs + [Ticket(|w.taken|, size)],
                  taken := w.taken + [p.rx.input[..size]]),
       rx := if o.framed then p.rx.(input := p.rx.input[size..], consumed := p.rx.consumed + p.rx.input[..size])
             else p.rx)
  }

  lemma CutOk(o: Options, p: Peer, size: nat)
    requires Inv(o, p) && !p.closed && Room(o, p) && 0 < size <= |p.rx.input|
    requires if o.framed then Ready(o.protocol, o.maxFrame, p.rx.input) && SizeOf(o.protocol, p.rx.input) == Size(size)
             else size == |p.rx.input|
    ensures Inv(o, Cuts(o, p, size))
  {
    hide Follows, OutputOk, Ready, SizeOf, Flatten, Booked, Spoken;
    CutBooked(p.work, p.rx.input[..size]);
    if o.framed {
      FollowsTake(o, p.rx.received, p.work.taken, p.rx.input, size);
      FlattenOne(p.work.taken, p.rx.input[..size]);
      assert p.rx.consumed + p.rx.input[..size] + p.rx.input[size..] == p.rx.consumed + p.rx.input;
    }
    var job := Ticket(|p.work.taken|, size);
    assert forall j :: j in p.work.jobs + [job] <==> j in p.work.jobs || j == job;
  }

  lemma NumbersMore(jobs: seq<Ticket>, job: Ticket, n: nat)
    requires job.number == n
    ensures multiset(Numbers(jobs + [job])) == multiset(Numbers(jobs)) + multiset{n}
    ensures multiset(UpTo(n + 1)) == multiset(UpTo(n)) + multiset{n}
  {
    assert Numbers(jobs + [job]) == Numbers(jobs) + [n];
    assert UpTo(n + 1) == UpTo(n) + [n];
    hide Numbers, UpTo;
  }

  lemma CutNumbers(w: Work, size: nat)
    requires Booked(w)
    ensures multiset(Numbers(w.jobs + [Ticket(|w.taken|, size)])) + multiset(Completed(w.answers))
         == multiset(UpTo(|w.taken| + 1))
  {
    NumbersMore(w.jobs, Ticket(|w.taken|, size), |w.taken|);
    hide Numbers, Completed, UpTo;
    var a, b, n := multiset(Numbers(w.jobs)), multiset(Completed(w.answers)), multiset{|w.taken|};
    assert a + n + b == a + b + n;
  }

  lemma CutInOrder(w: Work, input: Bytes)
    requires Booked(w)
    ensures var jobs, taken := w.jobs + [Ticket(|w.taken|, |input|)], w.taken + [input];
            && (forall i, j :: 0 <= i < j < |jobs| ==> jobs[i].number < jobs[j].number)
            && (forall j :: j in jobs ==> j.number < |taken| && j.size == |taken[j.number]|)
  {
    hide Numbers, Completed, UpTo;
    var job := Ticket(|w.taken|, |input|);
    assert forall j :: j in w.jobs + [job] <==> j in w.jobs || j == job;
    assert forall k :: 0 <= k < |w.jobs| ==> w.jobs[k] in w.jobs;
  }

  lemma CutBooked(w: Work, input: Bytes)
    requires Booked(w)
    ensures Booked(w.(pending := w.pending + 1, jobs := w.jobs + [Ticket(|w.taken|, |input|)],
                      taken := w.taken + [input]))
  {
    hide Numbers, Completed, UpTo;
    CutNumbers(w, |input|);
    CutInOrder(w, input);
  }

  /** The buffer is full and there is room to hand its contents on. */
  predicate Brimming(o: Options, p: Peer) { |p.rx.input| == o.maxFrame && Room(o, p) }

  /** What the sizer makes of a buffer: too little, no frame at all, or a whole job. */
  datatype Measure = Short | Bad | Whole(size: nat)

  function Measured(o: Options, b: Bytes): Measure
  {
    if !o.framed then Whole(|b|)
    else
      var s := SizeOf(o.protocol, b);
      if s.Malformed? || s.n > o.maxFrame then Bad
      else if s.n == 0 || s.n > |b| then Short
      else Whole(s.n)
  }

  lemma MeasuredIs(o: Options, p: Peer)
    requires |p.rx.input| <= o.maxFrame && p.rx.input != []
    ensures var m := Measured(o, p.rx.input);
            && (m.Whole? ==> 0 < m.size <= |p.rx.input|)
            && (m.Whole? ==> if o.framed then Ready(o.protocol, o.maxFrame, p.rx.input)
                                              && SizeOf(o.protocol, p.rx.input) == Size(m.size)
                             else m.size == |p.rx.input|)
            && (m.Bad? <==> o.framed && Broken(o.protocol, o.maxFrame, p.rx.input))
            && (m.Short? ==> !Complete(o, p.rx) && (|p.rx.input| == o.maxFrame ==> Jammed(o, p)))
            && (Jammed(o, p) ==> m.Short?)
  {
    SizeCases(o.protocol, o.maxFrame, p.rx.input);
    hide SizeOf, Ready, Broken;
  }

  /** When no complete frame is left, the frames taken are all the frames of the stream. */
  lemma NoneLeft(o: Options, received: Bytes, taken: seq<Bytes>, input: Bytes)
    requires Follows(o, received, taken, input) && !Ready(o.protocol, o.maxFrame, input)
    ensures taken == Extract(o.protocol, o.maxFrame, received).frames
  {
    hide Ready, Broken, SizeOf;
    assert received + [] == received && input + [] == input;
    assert Extract(o.protocol, o.maxFrame, input).frames == [];
  }

  lemma NotReady(o: Options, b: Bytes)
    ensures b == [] ==> !Ready(o.protocol, o.maxFrame, b)
  {}

  // ----- Replies -----

  /** The replies a connection accepts; any other reply closes it. */
  predicate Acceptable(o: Options, p: Peer, size: nat, r: Reply)
  {
    && !r.close && r.consumed <= size && (o.framed ==> r.consumed == size)
    && |r.bytes| <= o.maxFrame && p.tx.bytes <= o.outputLimit && |r.bytes| <= o.outputLimit - p.tx.bytes
    && (r.consumed == 0 ==> r.bytes == [] && size != o.maxFrame)
  }

  /** Job `k` is completed with this reply. */
  function WithoutJob(w: Work, k: nat, r: Reply): (v: Work)
    requires k < |w.jobs| && w.pending > 0
  {
    w.(pending := w.pending - 1, jobs := w.jobs[..k] + w.jobs[k + 1..],
       answers := w.answers + [Answer(w.jobs[k].number, r)])
  }

  lemma JobsLess(o: Options, w: Work, buffer: Bytes, left: Bytes, k: nat, r: Reply)
    requires JobsOk(o, w, buffer) && k < |w.jobs| && (o.framed ==> left == buffer)
    ensures 0 < w.pending && 0 < w.jobs[k].size <= o.maxFrame
    ensures !o.framed ==> WithoutJob(w, k, r).jobs == [] && IsBuffer(w, w.jobs[k], buffer)
    ensures JobsOk(o, WithoutJob(w, k, r), left)
  {
    var rest := w.jobs[..k] + w.jobs[k + 1..];
    assert w.jobs[k] in w.jobs;
    assert forall j :: j in rest ==> j in w.jobs;
  }

  /** Exactly the job answered leaves the books, and the others keep their order and their sizes. */
  lemma AnswerBooked(w: Work, k: nat, r: Reply)
    requires Booked(w) && k < |w.jobs| && w.pending > 0
    ensures Booked(WithoutJob(w, k, r))
    ensures multiset(w.jobs) == multiset(WithoutJob(w, k, r).jobs) + multiset{w.jobs[k]}
  {
    var jobs, n := w.jobs, w.jobs[k].number;
    NumbersWithout(jobs, k);
    assert Completed(w.answers + [Answer(n, r)]) == Completed(w.answers) + [n];
    JobsInOrder(w, k);
    hide Numbers, Completed, UpTo;
  }

  lemma NumbersWithout(jobs: seq<Ticket>, k: nat)
    requires k < |jobs|
    ensures multiset(Numbers(jobs)) == multiset(Numbers(jobs[..k] + jobs[k + 1..])) + multiset{jobs[k].number}
    ensures multiset(jobs) == multiset(jobs[..k] + jobs[k + 1..]) + multiset{jobs[k]}
  {
    var a, b := jobs[..k], jobs[k + 1..];
    assert jobs == a + [jobs[k]] + b;
    assert Numbers(jobs) == Numbers(a) + [jobs[k].number] + Numbers(b) && Numbers(a + b) == Numbers(a) + Numbers(b);
    hide Numbers;
  }

  lemma JobsInOrder(w: Work, k: nat)
    requires Booked(w) && k < |w.jobs|
    ensures var rest := w.jobs[..k] + w.jobs[k + 1..];
            && (forall i, j :: 0 <= i < j < |rest| ==> rest[i].number < rest[j].number)
            && (forall j :: j in rest ==> j.number < |w.taken| && j.size == |w.taken[j.number]|)
  {
    hide Numbers, Completed, UpTo;
    var rest := w.jobs[..k] + w.jobs[k + 1..];
    assert forall i :: 0 <= i < |rest| ==> rest[i] == if i < k then w.jobs[i] else w.jobs[i + 1];
  }

  lemma SpokenNext(answers: seq<Answer>, n: nat, r: Reply)
    ensures Spoken(answers + [Answer(n, r)]) == Spoken(answers) + if r.bytes == [] then [] else [r.bytes]
  {
    assert (answers + [Answer(n, r)])[..|answers|] == answers;
  }

  /** Without framing the handler says how much of the buffer it consumed; none means it wants more. */
  function Consumes(r: Inflow, n: nat): Inflow
    requires n <= |r.input|
  {
    r.(input := r.input[n..], incomplete := n == 0, consumed := r.consumed + r.input[..n])
  }

  lemma ConsumesOk(o: Options, r: Inflow, taken: seq<Bytes>, n: nat)
    requires InputOk(o, r, taken) && !o.framed && n <= |r.input| && (n == 0 ==> |r.input| != o.maxFrame)
    ensures InputOk(o, Consumes(r, n), taken)
  {
    assert r.consumed + r.input[..n] + r.input[n..] == r.consumed + r.input;
  }

  /** The connection after an acceptable reply to job `k`. */
  function Settled(o: Options, p: Peer, k: nat, r: Reply): Peer
    requires k < |p.work.jobs| && p.work.pending > 0 && (!o.framed ==> r.consumed <= |p.rx.input|)
  {
    p.(work := WithoutJob(p.work, k, r),
       rx := if o.framed then p.rx else Consumes(p.rx, r.consumed),
       tx := if r.bytes == [] then p.tx else Queues(p.tx, r.bytes))
  }

  lemma SettledOk(o: Options, p: Peer, k: nat, r: Reply)
    requires Inv(o, p) && !p.closed && k < |p.work.jobs|
    ensures 0 < p.work.pending && (!o.framed ==> p.work.jobs[k].size == |p.rx.input|)
    ensures Inv(o, p.(work := WithoutJob(p.work, k, r), closed := true))
    ensures Acceptable(o, p, p.work.jobs[k].size, r) ==> Inv(o, Settled(o, p, k, r))
  {
    hide OutputOk, InputOk, JobsOk, Booked, WithoutJob, Spoken, Queues, Consumes;
    JobsLess(o, p.work, p.rx.input, p.rx.input, k, r);
    AnswerBooked(p.work, k, r);
    TakenSame(p.work, k, r);
    if Acceptable(o, p, p.work.jobs[k].size, r) {
      SpokenNext(p.work.answers, p.work.jobs[k].number, r);
      if r.bytes != [] { QueuesOk(o, p.tx, r.bytes); QueuedMore(p.tx, r.bytes); }
      if !o.framed {
        ConsumesOk(o, p.rx, p.work.taken, r.consumed);
        JobsLess(o, p.work, p.rx.input, Consumes(p.rx, r.consumed).input, k, r);
      }
    }
  }

  lemma TakenSame(w: Work, k: nat, r: Reply)
    requires k < |w.jobs| && w.pending > 0
    ensures var v := WithoutJob(w, k, r);
            v.taken == w.taken && v.answers == w.answers + [Answer(w.jobs[k].number, r)]
  {}

  lemma QueuedMore(t: Outflow, b: Bytes)
    ensures Queues(t, b).queued == t.queued + [b]
  {}

  /**
   With framing a reply is accepted if and only if it does not ask to close, consumes exactly the frame of
   its own job, and its bytes fit a frame and the room left in the output queue.
   */
  lemma OwnFrame(o: Options, p: Peer, k: nat, r: Reply)
    requires Inv(o, p) && !p.closed && o.framed && k < |p.work.jobs|
    ensures p.work.jobs[k].number < |p.work.taken| && p.tx.sent <= |Flatten(p.tx.output)|
    ensures Acceptable(o, p, p.work.jobs[k].size, r) <==>
              && !r.close && r.consumed == |p.work.taken[p.work.jobs[k].number]| && |r.bytes| <= o.maxFrame
              && |r.bytes| <= o.outputLimit - (|Flatten(p.tx.output)| - p.tx.sent)
  {
    hide InputOk, Flatten, Numbers, Completed, UpTo;
    assert p.work.jobs[k] in p.work.jobs;
  }

  /**
   Without framing a job is the buffer, and the handler may consume any part of it. A reply that consumes
   nothing asks for more input: it must be silent, and there must be room to read more.
   */
  lemma OwnBuffer(o: Options, p: Peer, k: nat, r: Reply)
    requires Inv(o, p) && !p.closed && !o.framed && k < |p.work.jobs|
    ensures k == 0 && p.work.jobs[k].number < |p.work.taken| && p.work.taken[p.work.jobs[k].number] == p.rx.input
    ensures p.tx.sent <= |Flatten(p.tx.output)|
    ensures Acceptable(o, p, p.work.jobs[k].size, r) <==>
              && !r.close && r.consumed <= |p.rx.input| && |r.bytes| <= o.maxFrame
              && |r.bytes| <= o.outputLimit - (|Flatten(p.tx.output)| - p.tx.sent)
              && (r.consumed == 0 ==> r.bytes == [] && |p.rx.input| < o.maxFrame)
    ensures Acceptable(o, p, p.work.jobs[k].size, r) ==>
              var q := Settled(o, p, k, r).rx;
              && q.consumed == p.rx.consumed + p.rx.input[..r.consumed] && q.input == p.rx.input[r.consumed..]
              && (q.incomplete <==> r.consumed == 0)
  {
    hide Flatten, Numbers, Completed, UpTo, Booked, Queues, WithoutJob;
    InputBound(o, p);
    assert p.work.jobs[k] in p.work.jobs;
  }

  // ----- The end -----

  /**
   Every job was answered once and all replies are on the wire, in the order of completion. With framing
   the jobs were all the frames of the stream; without, the handler has consumed everything or asked for
   more than there is.
   */
  ghost predicate Served(o: Options, p: Peer)
  {
    && multiset(Completed(p.work.answers)) == multiset(UpTo(|p.work.taken|))
    && p.tx.output == [] && p.tx.wire == Flatten(Spoken(p.work.answers))
    && (if o.framed then
          p.work.taken == Extract(o.protocol, o.maxFrame, p.rx.received).frames
        else (p.rx.input == [] || p.rx.incomplete) && p.rx.received == p.rx.consumed + p.rx.input)
  }

  lemma AllServed(o: Options, p: Peer)
    requires Inv(o, p) && !p.closed && p.rx.eof && p.work.pending == 0 && p.tx.output == []
    requires !Complete(o, p.rx) || !Room(o, p)
    ensures Served(o, p.(closed := true))
  {
    hide Ready, Extract, Follows, Completed, UpTo, Spoken;
    assert Flatten(p.tx.output) == [] && p.tx.wire + [] == p.tx.wire;
    assert p.work.jobs == [] && Numbers([]) == [];
    if o.framed {
      NotReady(o, p.rx.input);
      NoneLeft(o, p.rx.received, p.work.taken, p.rx.input);
    }
  }

  lemma OutputRoom(o: Options, p: Peer)
    requires Inv(o, p)
    ensures p.tx.bytes <= o.outputLimit
  {
    OutputBound(o, p.tx);
  }

  lemma PendingIs(o: Options, p: Peer)
    requires Inv(o, p) && !p.closed
    ensures p.work.pending == |p.work.jobs| <= Allowance(o)
  {
    hide InputOk, OutputOk, Booked;
  }

  /** The flags of a connection, and what the kernel said last, are not part of the invariant. */
  lemma FlagsKeep(o: Options, p: Peer, q: Peer)
    requires Inv(o, p) && (p.closed ==> q.closed) && q.work == p.work
    requires q.rx == p.rx.(dry := q.rx.dry) && q.tx == p.tx.(full := q.tx.full)
    ensures Inv(o, q)
  {
    hide Follows, Flatten;
  }

  // ----- The connection -----

  datatype Sending = Moved(n: nat) | Full | SendFailed
  datatype Receiving = Data(bytes: Bytes) | Empty | Eof | ReceiveFailed

  /** Readiness, the posted wake-up, a worker's reply, and an error or the idle deadline. */
  datatype Event = Reports | Wakes | Answers(job: nat, reply: Reply) | Breaks

  class ServerPeer {
    const o: Options
    var p: Peer

    ghost predicate Valid()
      reads this
    {
      Inv(o, p)
    }

    /** The stream only grows: what was received, taken, queued or sent stays. */
    twostate predicate Continues()
      reads this
    {
      && old(p.rx.received) <= p.rx.received && old(p.work.taken) <= p.work.taken
      && old(p.work.answers) <= p.work.answers
      && old(p.tx.queued) <= p.tx.queued && old(p.tx.wire) <= p.tx.wire
      && (old(p.rx.eof) ==> p.rx.eof) && (old(p.closed) ==> p.closed)
    }

    constructor (options: Options)
      requires options.pipeline > 0 && 0 < options.maxFrame <= options.outputLimit
      ensures Valid() && o == options && p == FRESH_PEER && (o.outputLimit >= 2 ==> Resting(o, p))
    {
      hide Inv;
      FreshOk(options);
      o := options;
      p := FRESH_PEER;
    }

    method Close()
      requires Valid()
      modifies this
      ensures Valid() && p == old(p).(closed := true)
    {
      hide Inv;
      FlagsKeep(o, p, p.(closed := true));
      p := p.(closed := true);
    }

    method Schedule()
      requires Valid()
      modifies this
      ensures Valid() && p == if old(p).closed then old(p) else old(p).(scheduled := true)
    {
      hide Inv;
      if p.scheduled || p.closed {
        return;
      }
      FlagsKeep(o, p, p.(scheduled := true));
      p := p.(scheduled := true);
    }

    method Send(room: nat) returns (r: Sending)
      ensures r.Moved? ==> 0 < r.n <= room
    {
      var n: nat := *;
      var blocked: bool := *;
      r := if 0 < n <= room then Moved(n) else if blocked then Full else SendFailed;
    }

    method Receive(room: nat) returns (r: Receiving)
      ensures r.Data? ==> 0 < |r.bytes| <= room
    {
      var bytes: Bytes := *;
      var kind: nat := *;
      r := if 0 < |bytes| <= room then Data(bytes)
           else if kind == 0 then Empty
           else if kind == 1 then Eof
           else ReceiveFailed;
    }

    /** Sends what the budget and the kernel allow. */
    method Flush()
      requires Valid() && !p.closed
      modifies this
      ensures Valid() && Continues() && (!p.closed ==> SendAttended(p))
      ensures p == old(p).(tx := p.tx, closed := p.closed, scheduled := p.scheduled)
    {
      hide InputOk, JobsOk, Booked, OutputOk, Sends, Spoken;
      var budget := IO_BUDGET;
      while p.tx.output != [] && budget > 0
        invariant Valid() && Continues() && !p.closed
        invariant p == old(p).(tx := p.tx)
        decreases budget
      {
        SentInside(o, p.tx);
        var r := Send(Min(budget, |p.tx.output[0]| - p.tx.sent));
        match r {
          case Moved(n) =>
            budget := budget - n;
            SendsOk(o, p.tx, n);
            p := p.(tx := Sends(p.tx, n));
          case Full =>
            FlagsKeep(o, p, p.(tx := p.tx.(full := true)));
            p := p.(tx := p.tx.(full := true));
            return;
          case SendFailed =>
            Close();
            return;
        }
      }
      if budget == 0 && p.tx.output != [] {
        Schedule();
      }
    }

    /** Reads while there is room, within the budget and never beyond one frame's worth of buffer. */
    method Fill()
      requires Valid() && !p.closed
      modifies this
      ensures Valid() && Continues()
      ensures p == old(p).(rx := p.rx, closed := p.closed, scheduled := p.scheduled)
      ensures old(p).scheduled ==> p.scheduled
      ensures !Room(o, old(p)) ==> p == old(p)
      ensures !p.closed && Room(o, old(p)) ==> p.rx.eof || p.rx.dry || p.scheduled || |p.rx.input| == o.maxFrame
      ensures |old(p).rx.input| == o.maxFrame ==> p == old(p)
    {
      hide Inv, Reads;
      var canRead := Room(o, p);
      if !canRead {
        return;
      }
      var budget := IO_BUDGET;
      InputBound(o, p);
      while !p.rx.eof && |p.rx.input| < o.maxFrame && budget > 0
        invariant Valid() && Continues() && !p.closed && p == old(p).(rx := p.rx) && |p.rx.input| <= o.maxFrame
        invariant |old(p).rx.input| == o.maxFrame ==> p == old(p) && budget == IO_BUDGET
        decreases budget, !p.rx.eof
      {
        var r := Receive(Min(READ_CHUNK, Min(budget, o.maxFrame - |p.rx.input|)));
        match r {
          case Data(bytes) =>
            ReadsOk(o, p, bytes);
            InputBound(o, p.(rx := Reads(p.rx, bytes)));
            GrowsBy(p.rx, bytes);
            p := p.(rx := Reads(p.rx, bytes));
            budget := budget - |bytes|;
          case Empty =>
            FlagsKeep(o, p, p.(rx := p.rx.(dry := true)));
            p := p.(rx := p.rx.(dry := true));
            return;
          case Eof =>
            EofOk(o, p);
            p := p.(rx := p.rx.(eof := true));
          case ReceiveFailed =>
            Close();
            return;
        }
      }
      if budget == 0 {
        Schedule();
      }
    }

    /**
     Cuts jobs off the buffer while there is room, a bounded number per turn. The work queue may
     refuse a job, which costs the connection.
     */
    method Cut() returns (frames: nat, refused: bool)
      requires Valid() && !p.closed
      modifies this
      ensures Valid() && Continues() && p == old(p).(rx := p.rx, work := p.work, closed := p.closed)
      ensures p.rx == old(p).rx.(input := p.rx.input, consumed := p.rx.consumed)
      ensures p.closed ==> refused || (o.framed && Broken(o.protocol, o.maxFrame, p.rx.input))
      ensures !p.closed ==> frames <= |p.work.jobs| + 1
      ensures !p.closed ==> !Complete(o, p.rx) || !Room(o, p) || frames >= 32
      ensures !p.closed && Brimming(o, old(p)) ==> p.work.jobs != [] || (Jammed(o, p) && p.rx == old(p).rx)
      ensures !p.closed && Room(o, p) ==> Room(o, old(p))
      ensures Jammed(o, old(p)) ==> p == old(p)
    {
      hide Inv, Ready;
      frames, refused := 0, false;
      InputBound(o, p);
      while p.rx.input != [] && !p.rx.incomplete && Room(o, p) && frames < FRAMES_PER_TURN
        invariant Valid() && Continues() && !p.closed && frames <= |p.work.jobs|
        invariant old(p).work.pending <= p.work.pending
        invariant p == old(p).(rx := p.rx, work := p.work)
        invariant p.rx == old(p).rx.(input := p.rx.input, consumed := p.rx.consumed)
        invariant frames == 0 || Jammed(o, old(p)) ==> p == old(p)
        decreases FRAMES_PER_TURN - frames
      {
        frames := frames + 1;
        var taken;
        taken, refused := CutNext();
        if !taken {
          return;
        }
      }
    }

    /** Cuts one job; an invalid frame or a refusal by the work queue closes the connection. */
    method CutNext() returns (taken: bool, refused: bool)
      requires Valid() && !p.closed && p.rx.input != [] && !p.rx.incomplete && Room(o, p)
      modifies this
      ensures Valid() && Continues() && p == old(p).(rx := p.rx, work := p.work, closed := p.closed)
      ensures p.rx == old(p).rx.(input := p.rx.input, consumed := p.rx.consumed)
      ensures if taken then !p.closed && |p.work.jobs| == |old(p).work.jobs| + 1
              else p.closed || (p == old(p) && !Complete(o, p.rx) && (|p.rx.input| == o.maxFrame ==> Jammed(o, p)))
      ensures refused ==> p.closed
      ensures p.closed && !refused <==> o.framed && Broken(o.protocol, o.maxFrame, old(p).rx.input)
      ensures p.closed && !refused ==> p.rx == old(p).rx
      ensures taken ==> p.work.pending == old(p).work.pending + 1
      ensures Jammed(o, old(p)) ==> p == old(p) && !taken
    {
      hide Inv, Measured, Complete, Broken;
      taken, refused := false, false;
      var m := Measured(o, p.rx.input);
      InputBound(o, p);
      MeasuredIs(o, p);
      if m.Bad? {
        Close();
        return;
      }
      if m.Short? {
        return;
      }
      CutOk(o, p, m.size);
      p := Cuts(o, p, m.size);
      var accepted: bool := *;
      if !accepted {
        Close();
        refused := true;
        return;
      }
      taken := true;
    }

    /**
     One turn: send, read, cut. The connection is left open and at rest, or closed; `finished` says it
     was closed because the peer is done and fully served.
     */
    method Pump() returns (finished: bool)
      requires Valid()
      modifies this
      ensures Valid() && Continues() && (old(p).closed ==> p == old(p))
      ensures !p.closed ==> Resting(o, p)
      ensures finished ==> p.closed && p.rx.eof && Served(o, p)
      ensures Jammed(o, old(p)) ==> p.rx == old(p).rx && p.work == old(p).work
    {
      hide Inv, Complete, Resting, Served;
      finished := false;
      if p.closed {
        return;
      }
      Flush();
      if p.closed {
        return;
      }
      Fill();
      if p.closed {
        return;
      }
      InputBound(o, p);
      var frames, refused := Cut();
      if p.closed {
        return;
      }
      finished := Conclude(frames);
    }

    /** The end of a turn: another turn, the end of a half-closed connection, or the interest to report. */
    method Conclude(frames: nat) returns (finished: bool)
      requires Valid() && !p.closed && frames <= |p.work.jobs| + 1 && SendAttended(p)
      requires !Complete(o, p.rx) || !Room(o, p) || frames >= FRAMES_PER_TURN
      requires Room(o, p) && !p.rx.eof ==> p.rx.dry || p.scheduled || p.work.jobs != [] || Jammed(o, p)
      modifies this
      ensures Valid() && Continues() && p.rx == old(p).rx && p.work == old(p).work
      ensures !p.closed ==> Resting(o, p)
      ensures finished ==> p.closed && p.rx.eof && Served(o, p)
    {
      hide Inv, Complete, Served;
      PendingIs(o, p);
      if frames >= FRAMES_PER_TURN && p.work.pending < Allowance(o) {
        Schedule();
      }
      if p.rx.eof && p.work.pending == 0 && p.tx.output == [] {
        AllServed(o, p);
        Close();
        return true;
      }
      var q := p.(reading := !p.rx.eof && Room(o, p), writing := p.tx.output != []);
      FlagsKeep(o, p, q);
      PausedIsAwake(o, q);
      p := q;
      finished := false;
    }

    /** The bookkeeping for a worker's reply to job `k`; an unacceptable reply closes the connection. */
    method Settle(k: nat, r: Reply)
      requires Valid() && !p.closed && k < |p.work.jobs|
      modifies this
      ensures Valid() && Continues() && old(p).work.pending > 0
      ensures p.closed <==> !Acceptable(o, old(p), old(p).work.jobs[k].size, r)
      ensures p.closed ==> p == old(p).(work := WithoutJob(old(p).work, k, r), closed := true)
      ensures !p.closed ==> (o.framed || r.consumed <= |old(p).rx.input|) && p == Settled(o, old(p), k, r)
    {
      hide Inv;
      SettledOk(o, p, k, r);
      var size := p.work.jobs[k].size;
      var q := p.(work := WithoutJob(p.work, k, r));
      OutputRoom(o, p);
      if r.close || r.consumed > size || (o.framed && r.consumed != size) || |r.bytes| > o.maxFrame
         || |r.bytes| > o.outputLimit - p.tx.bytes || (r.consumed == 0 && (r.bytes != [] || size == o.maxFrame)) {
        p := q.(closed := true);
        return;
      }
      if !o.framed {
        q := q.(rx := Consumes(q.rx, r.consumed));
      }
      if r.bytes != [] {
        q := q.(tx := Queues(q.tx, r.bytes));
      }
      p := q;
    }

    /** A worker's reply arrives on the connection's thread. */
    method Answer(k: nat, r: Reply)
      requires Valid() && k < |p.work.jobs|
      modifies this
      ensures Valid() && Continues() && (old(p).closed ==> p == old(p)) && (!p.closed ==> Resting(o, p))
      ensures !old(p).closed && !Acceptable(o, old(p), old(p).work.jobs[k].size, r) ==>
                p.closed && p.tx.queued == old(p).tx.queued
      ensures !old(p).closed && Acceptable(o, old(p), old(p).work.jobs[k].size, r) && r.bytes != [] ==>
                old(p).tx.queued + [r.bytes] <= p.tx.queued
    {
      hide Inv, Acceptable, Resting, Served;
      if p.closed {
        return;
      }
      PendingIs(o, p);
      Settle(k, r);
      if !p.closed {
        var finished := Pump();
      }
    }

    /** The posted wake-up. */
    method WakeUp()
      requires Valid()
      modifies this
      ensures Valid() && Continues() && (!p.closed ==> Resting(o, p))
      ensures Jammed(o, old(p)) ==> p.rx == old(p).rx && p.work == old(p).work
    {
      hide Inv, Resting, Served;
      FlagsKeep(o, p, p.(scheduled := false));
      p := p.(scheduled := false);
      if !p.closed {
        var finished := Pump();
      }
    }

    /** One event; an event that is not possible now does nothing. */
    method Step(e: Event)
      requires Valid()
      modifies this
      ensures Valid() && Continues()
      ensures old(p).closed || Resting(o, old(p)) ==> p.closed || Resting(o, p)
      ensures Stalled(o, old(p)) ==> Stalled(o, p) && p.rx.received == old(p).rx.received
    {
      hide Inv, Resting, Served;
      match e {
        case Reports =>
          var q := p.(rx := p.rx.(dry := false), tx := p.tx.(full := false));
          FlagsKeep(o, p, q);
          p := q;
          var finished := Pump();
        case Wakes =>
          WakeUp();
        case Answers(k, r) =>
          if k < |p.work.jobs| { Answer(k, r); }
        case Breaks =>
          Close();
      }
    }

    /**
     Any run of a connection: once closed or at rest, it is so after every event. Once its buffer is full
     of a header that does not fit, it never reads another byte.
     */
    method Run(events: seq<Event>)
      requires Valid()
      modifies this
      ensures Valid() && Continues()
      ensures old(p).closed || Resting(o, old(p)) ==> p.closed || Resting(o, p)
      ensures Stalled(o, old(p)) ==> Stalled(o, p) && p.rx.received == old(p).rx.received
    {
      hide Inv, Resting;
      for i := 0 to |events|
        invariant Valid() && Continues()
        invariant old(p).closed || Resting(o, old(p)) ==> p.closed || Resting(o, p)
        invariant Stalled(o, old(p)) ==> Stalled(o, p) && p.rx.received == old(p).rx.received
      {
        Step(events[i]);
      }
    }
  }

  lemma GrowsBy(r: Inflow, bytes: Bytes)
    ensures r.received <= Reads(r, bytes).received && Reads(r, bytes).eof == r.eof
  {}
}
