/** What the transport's invariant says to its callers. */
module TransportTheorems {
  import opened Common
  import opened Framing
  import opened RpcProtocol
  import opened Multiplex
  import opened MultiplexSteps
  import opened Streams
  import opened StreamSteps
  import opened TransportSteps

  // ----- Runs -----

  /** Completions are final: what was completed stays completed with the same outcome. */
  ghost predicate Grows(s: Impl, t: Impl)
    ensures Grows(s, t) ==> |t.sockets| == |s.sockets|
  {
    && |t.sockets| == |s.sockets|
    && (forall id :: id in s.submitted ==> id in t.submitted && t.submitted[id] == s.submitted[id])
    && (forall id :: id in s.completed ==> id in t.completed && t.completed[id] == s.completed[id])
  }

  lemma GrowsSelf(s: Impl)
    ensures Grows(s, s)
  {}

  lemma GrowsTrans(s: Impl, t: Impl, u: Impl)
    requires Grows(s, t) && Grows(t, u)
    ensures Grows(s, u)
  {}

  lemma GrowsOn(s: Impl, t: Impl, u: Impl)
    requires Grows(s, t) && Advances(t, u)
    ensures Grows(s, u)
  {}

  lemma SubmitGrows(s: Impl, id: Id, data: Bytes)
    requires id !in s.submitted && id !in s.completed
    ensures Grows(s, Submitted(s, id, data)) && Grows(s, Refused(s, id, data))
    ensures Submitted(s, id, data).sockets == s.sockets == Refused(s, id, data).sockets
  {}

  lemma EnrolledGrows(s: Impl, id: Id, data: Bytes)
    requires s.posted != []
    ensures Grows(s, Enrolled(s, id, data))
  {}

  lemma WokenGrows(s: Impl, i: nat)
    requires i < |s.sockets| && s.posted != []
    ensures Grows(s, Woken(s, i))
  {}

  lemma DrainGrows(s: Impl)
    requires s.posted != []
    ensures Grows(s, Draining(s))
  {}

  lemma WakeInRange(l: Limits, s: Impl, w: World, i: nat)
    requires Inv(l, s, w) && s.posted != [] && s.posted[0] == Wake(i)
    ensures i < |s.sockets|
  {
    assert s.posted[0] in s.posted;
    hide Base, SocketInv, NoDup;
  }

  lemma AdmissionFacts(l: Limits, s: Impl, w: World, id: Id)
    requires Inv(l, s, w) && id !in s.submitted
    ensures s.bytes <= l.queueBytes && id !in s.completed
  {
    hide Slotted, Queued, Timed, ConnectTimed, Accounted, TasksOk, SocketInv;
  }

  lemma TimerFacts(l: Limits, s: Impl, w: World, timer: nat)
    requires Inv(l, s, w) && timer in s.timers
    ensures match s.timers[timer]
            case RequestDeadline(id) => id in s.requests && s.requests[id].timer == timer
            case ConnectDeadline(i) => i < |s.sockets|
  {
    hide Slotted, Queued, Accounted, Ledger, TasksOk, SocketInv;
  }

  // ----- The beginning -----

  function Initial(connections: nat): Impl
  {
    Impl(seq(connections, _ => Socket(false, false, false, 0, [], [], [], 0, 0, {}, IDLE_KERNEL)),
         [], map[], 0, 0, false, false, false, map[], 1, [], map[], map[])
  }

  lemma InitialBase(n: nat)
    ensures Base(Initial(n))
  {
    var s := Initial(n);
    assert forall i: nat :: InSlot(map[], i) == {};
    assert SumBytes(map[]) == 0;
    hide InSlot, SumBytes;
  }

  lemma InitialOk(l: Limits, n: nat, w: World)
    requires w.peers == seq(n, _ => FRESH_PEER) && w.reply == map[] && w.faults == 0
    ensures Inv(l, Initial(n), w)
  {
    InitialBase(n);
    hide Base, SocketOk, PeerOk;
    var s := Initial(n);
    forall i | 0 <= i < |s.sockets| ensures SocketInv(l, s, w, i) { ClosedIsOk(l, s, w, i); }
  }

  // ----- Conservation -----

  function Ids(s: seq<Id>): set<Id> { set id | id in s }

  lemma Partition(r: Requests, posted: seq<Task>, completed: map<Id, Outcome>, submitted: map<Id, Bytes>)
    requires Ledger(r, posted, completed, submitted)
    ensures submitted.Keys == r.Keys + Ids(PostedIds(posted)) + completed.Keys
    ensures r.Keys !! Ids(PostedIds(posted)) !! completed.Keys
  {
    hide PostedIds, NoDup;
  }

  /**
   Every submitted request is posted, registered or completed, and only one of these; the admission
   counters are the number and total size of the posted and registered ones and stay within limits.
   */
  lemma Conservation(l: Limits, s: Impl, w: World)
    requires Inv(l, s, w)
    ensures s.submitted.Keys == s.requests.Keys + Ids(PostedIds(s.posted)) + s.completed.Keys
    ensures s.requests.Keys !! Ids(PostedIds(s.posted)) !! s.completed.Keys
    ensures s.admitted == |s.requests| + |PostedIds(s.posted)| <= l.queueCapacity
    ensures s.bytes == SumBytes(s.requests) + PostedBytes(s.posted) <= l.queueBytes
  {
    hide Slotted, Queued, Timed, ConnectTimed, Ledger, TasksOk, SocketInv, PostedIds, PostedBytes, SumBytes, Ids;
    Partition(s.requests, s.posted, s.completed, s.submitted);
  }

  // ----- Shutdown -----

  lemma {:induction false} NothingPosted(posted: seq<Task>)
    requires forall t :: t in posted ==> !t.Register?
    ensures PostedIds(posted) == []
  {
    if posted != [] {
      assert posted[0] in posted;
      NothingPosted(posted[1..]);
    }
  }

  /** While draining, the loop is stopped exactly when no request is left, and then all are completed. */
  lemma DrainedMeansCompleted(l: Limits, s: Impl, w: World)
    requires Inv(l, s, w) && s.draining
    ensures s.stopped <==> s.requests == map[]
    ensures s.stopped <==> s.completed.Keys == s.submitted.Keys
  {
    assert forall t :: t in s.posted ==> !t.Register? by { hide Base, SocketInv, NoDup; }
    NothingPosted(s.posted);
    hide Slotted, Queued, Timed, ConnectTimed, Accounted, TasksOk, SocketInv, PostedIds;
    if s.requests != map[] {
      var id :| id in s.requests;
      assert id in s.submitted && id !in s.completed;
    }
  }

  // ----- Sockets and deadlines -----

  /**
   Each socket counts its registered requests; with the retired identifiers, which belong to no
   registered request, it never carries more than its window. A closed socket carries nothing.
   */
  lemma InflightBound(l: Limits, s: Impl, w: World, i: nat)
    requires Inv(l, s, w) && i < |s.sockets|
    ensures s.sockets[i].inflight == |InSlot(s.requests, i)|
    ensures s.sockets[i].open ==>
              s.sockets[i].inflight + |s.sockets[i].retired| <= if l.protocol.Rpc? then l.maxInflight else 1
    ensures s.sockets[i].retired !! s.requests.Keys
    ensures !s.sockets[i].open ==> Closed(s.sockets[i]) && InSlot(s.requests, i) == {}
  {
    InvSplit(l, s, w, i);
    hide Inv, Rest, Books, PeerOk, WireOk, OutputOk, OrderOk, InSlot;
    assert Books(l, s) by { hide *; InvBooks(l, s, w); }
    if s.sockets[i].open {
      RetiredUnregistered(l, s, i);
    } else {
      ClosedSlotEmpty(l, s, w, i);
    }
  }

  lemma InvBooks(l: Limits, s: Impl, w: World)
    requires Inv(l, s, w)
    ensures Books(l, s)
  {}

  /** Every registered request is under exactly one armed deadline. */
  lemma OneDeadline(l: Limits, s: Impl, w: World, id: Id)
    requires Inv(l, s, w) && id in s.requests
    ensures s.requests[id].timer in s.timers
    ensures forall t :: t in s.timers && s.timers[t] == RequestDeadline(id) <==> t == s.requests[id].timer
  {
    hide Slotted, Queued, ConnectTimed, Accounted, Ledger, TasksOk, SocketInv;
  }

  // ----- What goes out -----

  ghost predicate AllSubmitted(submitted: map<Id, Bytes>, ids: seq<Id>) { forall id :: id in ids ==> id in submitted }

  /** The data submitted under these identifiers. */
  function DataOf(submitted: map<Id, Bytes>, ids: seq<Id>): (data: seq<Bytes>)
    requires forall id :: id in ids ==> id in submitted
    ensures |data| == |ids| && forall i :: 0 <= i < |ids| ==> data[i] == submitted[ids[i]]
  {
    seq(|ids|, i requires 0 <= i < |ids| => submitted[ids[i]])
  }

  /** The first `done` requests completely, and `part` bytes of the next. */
  ghost predicate CutAt(submitted: map<Id, Bytes>, given: seq<Id>, wire: Bytes, done: nat, part: nat)
  {
    && AllSubmitted(submitted, given) && done <= |given| && (done == |given| ==> part == 0)
    && (done < |given| ==> part <= |submitted[given[done]]|)
    && wire == Flatten(DataOf(submitted, given[..done]))
               + (if done < |given| then submitted[given[done]][..part] else [])
  }

  /**
   The bytes handed to the kernel on a connection are the submitted bytes of the requests given to it, one
   request after the other in the order given, up to a point inside the next one.
   */
  ghost predicate SentAsGiven(s: Impl, w: World, i: nat)
  {
    && i < |s.sockets| && i < |w.peers|
    && exists done: nat, part: nat :: CutAt(s.submitted, w.peers[i].given, w.peers[i].wire, done, part)
  }

  lemma SentAsSubmitted(l: Limits, s: Impl, w: World, i: nat)
    requires Inv(l, s, w) && i < |s.sockets|
    ensures SentAsGiven(s, w, i)
  {
    hide Inv, Rest, SocketOk, PeerOk, WireOk, CutAt;
    InvSplit(l, s, w, i);
    var c, p := s.sockets[i], w.peers[i];
    if c.open {
      OutputCursor(l, c, i, s.requests, s.completed);
      WireIsGiven(c, p, s.submitted);
      assert CutAt(s.submitted, p.given, p.wire, |p.whole|, if c.output == [] then 0 else c.sent);
    } else {
      NothingGiven(c, p, s.submitted);
      assert CutAt(s.submitted, p.given, p.wire, 0, 0);
    }
  }

  lemma NothingGiven(c: Socket, p: Peer, submitted: map<Id, Bytes>)
    requires WireOk(c, p, submitted) && !c.open
    ensures CutAt(submitted, p.given, p.wire, 0, 0)
  {
    assert p.given[..0] == [] && DataOf(submitted, []) == [];
  }

  lemma OutputCursor(l: Limits, c: Socket, i: nat, r: Requests, done: map<Id, Outcome>)
    requires SocketOk(l, c, i, r, done) && c.open
    ensures c.output == [] ==> c.sent == 0
    ensures c.output != [] ==> c.sent <= |c.output[0].bytes|
  {
    hide NoDup, OrderOk;
  }

  lemma WireIsGiven(c: Socket, p: Peer, submitted: map<Id, Bytes>)
    requires WireOk(c, p, submitted) && c.open && (c.output != [] ==> c.sent <= |c.output[0].bytes|)
    ensures CutAt(submitted, p.given, p.wire, |p.whole|, if c.output == [] then 0 else c.sent)
  {
    GivenAre(c, p, submitted);
    var n := |p.whole|;
    assert DataOf(submitted, p.given[..n]) == OutData(p.whole);
    hide Flatten, OutData, OutIds, Genuine, DataOf;
  }

  lemma GivenAre(c: Socket, p: Peer, submitted: map<Id, Bytes>)
    requires WireOk(c, p, submitted) && c.open
    ensures |p.given| == |p.whole| + |c.output| && AllSubmitted(submitted, p.given)
    ensures forall k :: 0 <= k < |p.given| ==>
              submitted[p.given[k]] == if k < |p.whole| then p.whole[k].bytes else c.output[k - |p.whole|].bytes
  {
    hide Flatten, OutData;
    forall k | 0 <= k < |p.given|
      ensures p.given[k] in submitted
      ensures submitted[p.given[k]] == if k < |p.whole| then p.whole[k].bytes else c.output[k - |p.whole|].bytes
    {
      if k < |p.whole| { assert p.whole[k] in p.whole; } else { assert c.output[k - |p.whole|] in c.output; }
    }
  }

  /** A waiting request is dispatched before every one registered after it. */
  lemma OldestFirst(l: Limits, s: Impl, w: World, i: nat, j: nat)
    requires Inv(l, s, w) && i < j < |s.waiting|
    ensures s.waiting[i] in s.requests && s.waiting[j] in s.requests
    ensures s.requests[s.waiting[i]].timer < s.requests[s.waiting[j]].timer
  {
    hide Slotted, Timed, ConnectTimed, Accounted, Ledger, TasksOk, SocketInv, NoDup, Carried, Received;
    assert s.waiting[i] in s.waiting && s.waiting[j] in s.waiting;
  }

  /**
   Whatever the peers send, a response delivered to a caller is one complete frame within the limit, and
   carries the identifier of the request if the protocol has identifiers.
   */
  lemma ResponsesAreFrames(l: Limits, s: Impl, w: World, id: Id)
    requires Inv(l, s, w) && id in s.completed && s.completed[id].Answered?
    ensures var frame := s.completed[id].frame;
            && SizeOf(l.protocol, frame) == Size(|frame|)
            && |frame| <= l.maxFrame + (if l.protocol.Rpc? then 16 else 0) && (l.protocol.Rpc? ==> IdOf(frame) == id)
  {
    hide Base, TasksOk, SocketInv, Carried, InTurn, SizeOf, IdOf;
    assert Proper(l, id, s.completed[id].frame);
  }

  // ----- No cross-talk -----

  /** With conforming peers every success is the answer to its own request, and no response is ever faulted. */
  lemma NoCrossTalk(l: Limits, s: Impl, w: World)
    requires Inv(l, s, w) && w.conforming
    ensures w.faults == 0
    ensures forall id :: id in s.completed && s.completed[id].Answered? ==>
              id in w.reply && w.reply[id] == s.completed[id].frame
  {
    hide Books, SocketInv;
  }
}
