/** The client transport's bookkeeping as values: what its maps, lists and counters must agree on. */
module Multiplex {
  import opened Common

  type Id = nat

  datatype Request = Request(bytes: Bytes, slot: Option<nat>, sent: bool, timer: nat)

  /** A request queued on a socket; it may outlive its registration. */
  datatype Out = Out(id: Id, bytes: Bytes)

  /**
   What is known of the kernel's side: it took no more output, it had no more input, and the loop is
   asked to report room for output. Input is always reported.
   */
  datatype Kernel = Kernel(full: bool, dry: bool, watching: bool)

  const IDLE_KERNEL := Kernel(false, false, false)

  datatype Socket = Socket(
    open: bool, connecting: bool, scheduled: bool, connectTimer: nat,
    input: Bytes, output: seq<Out>, order: seq<Id>, sent: nat, inflight: nat, retired: set<Id>,
    kernel: Kernel)

  datatype TimerTask = RequestDeadline(id: Id) | ConnectDeadline(socket: nat)

  datatype Task = Register(id: Id, bytes: Bytes) | Wake(socket: nat) | Drain

  datatype Outcome = Answered(frame: Bytes) | Failed

  type Requests = map<Id, Request>
  type Timers = map<nat, TimerTask>

  // ----- Counting -----

  function InSlot(r: Requests, i: nat): set<Id> { set id | id in r && r[id].slot == Some(i) }

  ghost function SumBytes(r: Requests): nat
    decreases |r|
  {
    if r == map[] then 0
    else
      var id :| id in r;
      assert |r - {id}| < |r| by { SmallerMap(r, id); }
      |r[id].bytes| + SumBytes(r - {id})
  }

  lemma SmallerMap(r: Requests, id: Id)
    requires id in r
    ensures |r - {id}| == |r| - 1
  {
    assert (r - {id}).Keys == r.Keys - {id};
    assert |r.Keys| == |r| && |(r - {id}).Keys| == |r - {id}|;
  }

  lemma {:induction false} SumRemove(r: Requests, id: Id)
    requires id in r
    ensures SumBytes(r) == |r[id].bytes| + SumBytes(r - {id})
    decreases |r|
  {
    var first := SumWitness(r);
    if first != id {
      SmallerMap(r, first);
      SmallerMap(r, id);
      SumRemove(r - {first}, id);
      SumRemove(r - {id}, first);
      assert (r - {first}) - {id} == (r - {id}) - {first};
    }
  }

  lemma SumWitness(r: Requests) returns (id: Id)
    requires r != map[]
    ensures id in r && SumBytes(r) == |r[id].bytes| + SumBytes(r - {id})
  {
    id :| id in r && SumBytes(r) == |r[id].bytes| + SumBytes(r - {id});
  }

  lemma SumAdd(r: Requests, id: Id, q: Request)
    requires id !in r
    ensures SumBytes(r[id := q]) == SumBytes(r) + |q.bytes| && |r[id := q]| == |r| + 1
  {
    SumRemove(r[id := q], id);
    SmallerMap(r[id := q], id);
    assert r[id := q] - {id} == r;
  }

  /** Replacing a request by one with the same bytes does not change the sum. */
  lemma SumSame(r: Requests, id: Id, q: Request)
    requires id in r && q.bytes == r[id].bytes
    ensures SumBytes(r[id := q]) == SumBytes(r) && |r[id := q]| == |r|
  {
    SumRemove(r, id);
    SumRemove(r[id := q], id);
    SmallerMap(r, id);
    SmallerMap(r[id := q], id);
    assert r[id := q] - {id} == r - {id};
  }

  // ----- Tasks posted to the loop -----

  function PostedIds(tasks: seq<Task>): (s: seq<Id>)
  {
    if tasks == [] then []
    else (if tasks[0].Register? then [tasks[0].id] else []) + PostedIds(tasks[1..])
  }

  function PostedBytes(tasks: seq<Task>): nat
  {
    if tasks == [] then 0
    else (if tasks[0].Register? then |tasks[0].bytes| else 0) + PostedBytes(tasks[1..])
  }

  lemma {:induction false} PostedAppend(a: seq<Task>, t: Task)
    ensures PostedIds(a + [t]) == PostedIds(a) + (if t.Register? then [t.id] else [])
    ensures PostedBytes(a + [t]) == PostedBytes(a) + (if t.Register? then |t.bytes| else 0)
  {
    if a == [] {
      assert a + [t] == [t];
      PostedOne(t);
    } else {
      var rest := a[1..];
      assert (a + [t])[0] == a[0] && (a + [t])[1..] == rest + [t];
      PostedAppend(rest, t);
      PostedFirst(a);
      PostedFirst(a + [t]);
      hide PostedIds, PostedBytes;
    }
  }

  lemma PostedOne(t: Task)
    ensures PostedIds([t]) == (if t.Register? then [t.id] else [])
    ensures PostedBytes([t]) == if t.Register? then |t.bytes| else 0
  {
    assert [t][1..] == [];
  }

  lemma PostedFirst(a: seq<Task>)
    requires a != []
    ensures PostedIds(a) == (if a[0].Register? then [a[0].id] else []) + PostedIds(a[1..])
    ensures PostedBytes(a) == (if a[0].Register? then |a[0].bytes| else 0) + PostedBytes(a[1..])
  {}

  // ----- What always holds, even inside a disconnect -----

  predicate NoDup<T(==)>(s: seq<T>) { forall i, j :: 0 <= i < j < |s| ==> s[i] != s[j] }

  /** Slots exist, and each socket counts the registered requests assigned to it. */
  ghost predicate Slotted(r: Requests, sockets: seq<Socket>)
  {
    && (forall id :: id in r && r[id].slot.Some? ==> r[id].slot.value < |sockets|)
    && (forall i :: 0 <= i < |sockets| ==> sockets[i].inflight == |InSlot(r, i)|)
  }

  /** The waiting list holds exactly the registered requests without a slot, once each. */
  ghost predicate Queued(r: Requests, waiting: seq<Id>)
  {
    NoDup(waiting) && forall id :: id in waiting <==> id in r && r[id].slot.None?
  }

  /** Every registered request has exactly one armed deadline, and no other deadline is armed. */
  ghost predicate Timed(r: Requests, timers: Timers, next: nat)
  {
    && (forall id :: id in r ==> r[id].timer in timers && timers[r[id].timer] == RequestDeadline(id))
    && (forall t :: t in timers && timers[t].RequestDeadline? ==> timers[t].id in r && r[timers[t].id].timer == t)
    && (forall t :: t in timers ==> 0 < t < next)
  }

  /** A connection attempt is under its own deadline, and no other connect deadline is armed. */
  ghost predicate ConnectTimed(sockets: seq<Socket>, timers: Timers)
  {
    && (forall i :: 0 <= i < |sockets| ==>
          (sockets[i].open && sockets[i].connecting <==> sockets[i].connectTimer in timers))
    && (forall i :: 0 <= i < |sockets| && sockets[i].connectTimer in timers ==>
          timers[sockets[i].connectTimer] == ConnectDeadline(i))
    && (forall t :: t in timers && timers[t].ConnectDeadline? ==>
          timers[t].socket < |sockets| && sockets[timers[t].socket].connectTimer == t)
  }

  /** The admission counters are the number and total size of posted and registered requests. */
  ghost predicate Accounted(r: Requests, posted: seq<Task>, admitted: nat, bytes: nat)
  {
    admitted == |r| + |PostedIds(posted)| && bytes == SumBytes(r) + PostedBytes(posted)
  }

  /** Every submitted request is posted, registered or completed, and only one of these. */
  ghost predicate Ledger(r: Requests, posted: seq<Task>, completed: map<Id, Outcome>, submitted: map<Id, Bytes>)
  {
    && NoDup(PostedIds(posted))
    && (forall id :: id in submitted <==> id in r || id in PostedIds(posted) || id in completed)
    && (forall id :: id in r ==> id !in PostedIds(posted) && id !in completed)
    && (forall id :: id in PostedIds(posted) ==> id !in completed)
  }

  /** What is posted and registered is what was submitted, byte for byte. */
  ghost predicate Carried(r: Requests, posted: seq<Task>, submitted: map<Id, Bytes>)
  {
    && (forall id :: id in r ==> id in submitted && submitted[id] == r[id].bytes)
    && (forall t :: t in posted && t.Register? ==> t.id in submitted && submitted[t.id] == t.bytes)
  }

  /** The waiting list is in the order of registration; deadlines are numbered in that order. */
  ghost predicate InTurn(r: Requests, waiting: seq<Id>)
  {
    forall i, j :: 0 <= i < j < |waiting| && waiting[i] in r && waiting[j] in r ==>
      r[waiting[i]].timer < r[waiting[j]].timer
  }

  // ----- Removing one request -----

  function Drop(waiting: seq<Id>, id: Id): (w: seq<Id>)
  {
    if waiting == [] then []
    else if waiting[0] == id then Drop(waiting[1..], id)
    else [waiting[0]] + Drop(waiting[1..], id)
  }

  lemma {:induction false} DropIs(waiting: seq<Id>, id: Id)
    ensures forall x :: x in Drop(waiting, id) <==> x in waiting && x != id
    ensures NoDup(waiting) ==> NoDup(Drop(waiting, id))
    ensures id !in waiting ==> Drop(waiting, id) == waiting
  {
    if waiting != [] {
      var rest := waiting[1..];
      DropIs(rest, id);
      if NoDup(waiting) {
        assert NoDup(rest) by { assert forall i :: 0 <= i < |rest| ==> rest[i] == waiting[i + 1]; }
        assert waiting[0] !in rest;
        var w := Drop(rest, id);
        assert waiting[0] !in w;
      }
    }
  }

  lemma {:induction false} DropInTurn(r: Requests, waiting: seq<Id>, id: Id)
    requires InTurn(r, waiting)
    ensures InTurn(r, Drop(waiting, id))
    decreases |waiting|
  {
    if waiting != [] {
      var rest, w := waiting[1..], Drop(waiting[1..], id);
      assert forall i :: 0 <= i < |rest| ==> rest[i] == waiting[i + 1];
      DropInTurn(r, rest, id);
      DropIs(rest, id);
      if waiting[0] != id {
        forall j | 0 <= j < |w| && w[j] in r && waiting[0] in r ensures r[waiting[0]].timer < r[w[j]].timer {
          assert w[j] in rest;
          var k :| 0 <= k < |rest| && rest[k] == w[j];
          assert waiting[k + 1] == w[j];
        }
        assert forall j :: 0 < j < |[waiting[0]] + w| ==> ([waiting[0]] + w)[j] == w[j - 1];
      }
    }
  }

  function Release(sockets: seq<Socket>, slot: Option<nat>): seq<Socket>
    requires slot.Some? ==> slot.value < |sockets| && sockets[slot.value].inflight > 0
  {
    if slot.None? then sockets
    else sockets[slot.value := sockets[slot.value].(inflight := sockets[slot.value].inflight - 1)]
  }

  lemma SlotMembers(r: Requests, i: nat)
    ensures forall id :: id in InSlot(r, i) <==> id in r && r[id].slot == Some(i)
  {}

  lemma InSlotRemove(r: Requests, id: Id, i: nat)
    requires id in r
    ensures InSlot(r - {id}, i) == InSlot(r, i) - {id}
  {}

  lemma SlottedRemove(r: Requests, sockets: seq<Socket>, id: Id)
    requires Slotted(r, sockets) && id in r
    ensures r[id].slot.Some? ==> r[id].slot.value < |sockets| && sockets[r[id].slot.value].inflight > 0
    ensures Slotted(r - {id}, Release(sockets, r[id].slot))
  {
    forall i | 0 <= i < |sockets|
      ensures |InSlot(r - {id}, i)| == |InSlot(r, i)| - (if r[id].slot == Some(i) then 1 else 0)
    {
      InSlotRemove(r, id, i);
      if r[id].slot == Some(i) { assert id in InSlot(r, i); } else { assert InSlot(r, i) - {id} == InSlot(r, i); }
    }
    if r[id].slot.Some? { assert id in InSlot(r, r[id].slot.value); }
    hide InSlot;
  }

  lemma QueuedRemove(r: Requests, waiting: seq<Id>, id: Id)
    requires Queued(r, waiting) && id in r
    ensures Queued(r - {id}, if r[id].slot.Some? then waiting else Drop(waiting, id))
  {
    DropIs(waiting, id);
  }

  lemma TimedRemove(r: Requests, timers: Timers, next: nat, id: Id)
    requires Timed(r, timers, next) && id in r
    ensures Timed(r - {id}, timers - {r[id].timer}, next)
  {}

  lemma ConnectTimedRemove(r: Requests, sockets: seq<Socket>, timers: Timers, next: nat, id: Id)
    requires Timed(r, timers, next) && ConnectTimed(sockets, timers) && Slotted(r, sockets) && id in r
    requires r[id].slot.Some? ==> r[id].slot.value < |sockets| && sockets[r[id].slot.value].inflight > 0
    ensures ConnectTimed(Release(sockets, r[id].slot), timers - {r[id].timer})
  {
    hide Slotted;
  }

  lemma AccountedRemove(r: Requests, posted: seq<Task>, admitted: nat, bytes: nat, id: Id)
    requires Accounted(r, posted, admitted, bytes) && id in r
    ensures admitted > 0 && bytes >= |r[id].bytes|
    ensures Accounted(r - {id}, posted, admitted - 1, bytes - |r[id].bytes|)
  {
    SumRemove(r, id);
    SmallerMap(r, id);
  }

  lemma LedgerRemove(r: Requests, posted: seq<Task>, completed: map<Id, Outcome>, submitted: map<Id, Bytes>, id: Id,
                     o: Outcome)
    requires Ledger(r, posted, completed, submitted) && id in r
    ensures id !in completed && Ledger(r - {id}, posted, completed[id := o], submitted)
  {}

  // ----- Resetting a socket -----

  /** A disconnected socket; `scheduled` belongs to a task already posted. */
  function Reset(s: Socket): Socket
  {
    s.(open := false, connecting := false, input := [], output := [], order := [], sent := 0, retired := {},
        kernel := IDLE_KERNEL)
  }

  lemma ConnectTimedReset(sockets: seq<Socket>, timers: Timers, i: nat)
    requires ConnectTimed(sockets, timers) && i < |sockets|
    ensures ConnectTimed(sockets[i := Reset(sockets[i])], timers - {sockets[i].connectTimer})
  {}

  lemma TimedConnect(r: Requests, sockets: seq<Socket>, timers: Timers, next: nat, i: nat)
    requires Timed(r, timers, next) && ConnectTimed(sockets, timers) && i < |sockets|
    ensures Timed(r, timers - {sockets[i].connectTimer}, next)
  {}

  // ----- The transport's state -----

  datatype Impl = Impl(
    sockets: seq<Socket>,
    waiting: seq<Id>,
    requests: Requests,
    admitted: nat,
    bytes: nat,
    closing: bool,
    draining: bool,
    stopped: bool,
    timers: Timers,
    next: nat,
    posted: seq<Task>,
    completed: map<Id, Outcome>,  // every completion called so far
    submitted: map<Id, Bytes>)    // every request ever submitted, as submitted

  /** What holds at every point, also inside a disconnect. */
  ghost predicate Base(s: Impl)
  {
    && Slotted(s.requests, s.sockets) && Queued(s.requests, s.waiting)
    && Timed(s.requests, s.timers, s.next) && ConnectTimed(s.sockets, s.timers)
    && Accounted(s.requests, s.posted, s.admitted, s.bytes)
    && Ledger(s.requests, s.posted, s.completed, s.submitted)
    && (s.stopped ==> s.draining && s.requests == map[])
  }

  /** Once draining, the loop is stopped exactly when no request is registered. */
  predicate DrainOk(s: Impl)
  {
    (s.stopped ==> s.draining) && (s.draining ==> (s.stopped <==> s.requests == map[]))
  }

  /** One request leaves the books and its completion is called. */
  function Unregister(s: Impl, id: Id, o: Outcome): Impl
    requires id in s.requests && s.admitted > 0 && s.bytes >= |s.requests[id].bytes|
    requires var slot := s.requests[id].slot;
             slot.Some? ==> slot.value < |s.sockets| && s.sockets[slot.value].inflight > 0
  {
    var q := s.requests[id];
    s.(requests := s.requests - {id}, timers := s.timers - {q.timer}, sockets := Release(s.sockets, q.slot),
       waiting := if q.slot.Some? then s.waiting else Drop(s.waiting, id),
       admitted := s.admitted - 1, bytes := s.bytes - |q.bytes|, completed := s.completed[id := o])
  }

  ghost predicate CanUnregister(s: Impl, id: Id)
  {
    && id in s.requests && s.admitted > 0 && s.bytes >= |s.requests[id].bytes|
    && (var slot := s.requests[id].slot;
        slot.Some? ==> slot.value < |s.sockets| && s.sockets[slot.value].inflight > 0)
  }

  lemma Unregisterable(s: Impl, id: Id)
    requires Base(s) && id in s.requests
    ensures CanUnregister(s, id) && id !in s.completed && !s.stopped
  {
    hide Queued, Timed, ConnectTimed, Accounted, SumBytes, InSlot;
    SlottedRemove(s.requests, s.sockets, id);
    AccountedRemove(s.requests, s.posted, s.admitted, s.bytes, id);
    assert s.requests != map[];
  }

  lemma UnregisterIs(s: Impl, id: Id, o: Outcome)
    requires CanUnregister(s, id)
    ensures var t, q := Unregister(s, id, o), s.requests[id];
            && t.requests == s.requests - {id} && t.sockets == Release(s.sockets, q.slot)
            && t.waiting == (if q.slot.Some? then s.waiting else Drop(s.waiting, id))
            && t.timers == s.timers - {q.timer} && t.next == s.next && t.posted == s.posted
            && t.admitted == s.admitted - 1 && t.bytes == s.bytes - |q.bytes|
            && t.completed == s.completed[id := o] && t.submitted == s.submitted && t.stopped == s.stopped
  {
    hide Drop;
  }

  lemma UnregisterKeeps(s: Impl, id: Id, o: Outcome)
    requires Base(s) && id in s.requests
    ensures CanUnregister(s, id) && id !in s.completed && Base(Unregister(s, id, o)) && !s.stopped
  {
    Unregisterable(s, id);
    UnregisterIs(s, id, o);
    hide Slotted, Queued, Timed, ConnectTimed, Accounted, Ledger, Drop, Release, CanUnregister, Unregister;
    SlottedRemove(s.requests, s.sockets, id);
    QueuedRemove(s.requests, s.waiting, id);
    TimedRemove(s.requests, s.timers, s.next, id);
    ConnectTimedRemove(s.requests, s.sockets, s.timers, s.next, id);
    AccountedRemove(s.requests, s.posted, s.admitted, s.bytes, id);
    LedgerRemove(s.requests, s.posted, s.completed, s.submitted, id, o);
  }

  /** The first half of a disconnect: everything but failing the requests. */
  function CloseSocket(s: Impl, i: nat): Impl
    requires i < |s.sockets|
  {
    s.(sockets := s.sockets[i := Reset(s.sockets[i])], timers := s.timers - {s.sockets[i].connectTimer})
  }

  lemma CloseSocketKeeps(s: Impl, i: nat)
    requires Base(s) && i < |s.sockets|
    ensures Base(CloseSocket(s, i))
  {
    hide Queued, Timed, ConnectTimed, Accounted, Ledger, InSlot;
    ConnectTimedReset(s.sockets, s.timers, i);
    TimedConnect(s.requests, s.sockets, s.timers, s.next, i);
  }

  /** `t` is `s` with some requests of socket `i` failed and the socket in its closed state. */
  ghost predicate Failing(s: Impl, t: Impl, i: nat)
    requires i < |s.sockets|
  {
    && |t.sockets| == |s.sockets| && (forall j :: 0 <= j < |s.sockets| && j != i ==> t.sockets[j] == s.sockets[j])
    && t.sockets[i] == Reset(s.sockets[i]).(inflight := t.sockets[i].inflight)
    && (forall id :: id in t.requests ==> id in s.requests && t.requests[id] == s.requests[id])
    && (forall id :: id in s.requests && s.requests[id].slot != Some(i) ==> id in t.requests)
    && (forall id :: id in s.completed ==> id in t.completed && t.completed[id] == s.completed[id])
    && (forall id :: id in t.completed && id !in s.completed ==> id in s.requests && t.completed[id] == Failed)
    && t.waiting == s.waiting && t.posted == s.posted && t.next == s.next && t.submitted == s.submitted
    && t.closing == s.closing && t.draining == s.draining
    && t.admitted <= s.admitted && t.bytes <= s.bytes
    && (forall k :: k in t.timers ==> k in s.timers && t.timers[k] == s.timers[k])
  }

  lemma CloseSocketFails(s: Impl, i: nat)
    requires i < |s.sockets|
    ensures Failing(s, CloseSocket(s, i), i)
  {}

  lemma FailingUnregister(s: Impl, t: Impl, i: nat, id: Id)
    requires i < |s.sockets| && Failing(s, t, i) && CanUnregister(t, id) && t.requests[id].slot == Some(i)
    requires id !in t.completed
    ensures Failing(s, Unregister(t, id, Failed), i)
  {
    hide Drop;
    var u := Unregister(t, id, Failed);
    assert u.sockets == t.sockets[i := t.sockets[i].(inflight := t.sockets[i].inflight - 1)];
    assert u.waiting == t.waiting;
  }

  lemma FailingTrans(s: Impl, t: Impl, u: Impl, i: nat)
    requires i < |s.sockets| && Failing(s, t, i) && |t.sockets| == |s.sockets| && Failing(t, u, i)
    ensures Failing(s, u, i)
  {}

  lemma StopKeeps(s: Impl)
    requires Base(s)
    ensures s.stopped ==> s.draining && s.requests == map[]
    ensures s.draining && s.requests == map[] ==> Base(s.(stopped := true))
  {
    hide Slotted, Queued, Timed, ConnectTimed, Accounted, Ledger;
  }

  lemma FailingStop(s: Impl, t: Impl, i: nat)
    requires i < |s.sockets| && Failing(s, t, i)
    ensures forall b: bool :: Failing(s, t.(stopped := b), i)
  {}

  lemma FailingFacts(s: Impl, t: Impl, i: nat)
    requires i < |s.sockets| && Failing(s, t, i)
    ensures |t.sockets| == |s.sockets| && |t.requests| <= |s.requests|
    ensures forall id :: id in t.requests ==> id in s.requests && t.requests[id] == s.requests[id]
  {
    assert t.requests.Keys <= s.requests.Keys;
    SubsetSize(t.requests.Keys, s.requests.Keys);
    assert |t.requests.Keys| == |t.requests| && |s.requests.Keys| == |s.requests|;
  }

  lemma {:induction false} SubsetSize(a: set<Id>, b: set<Id>)
    requires a <= b
    ensures |a| <= |b|
    decreases |a|
  {
    if a != {} {
      var x :| x in a;
      SubsetSize(a - {x}, b - {x});
    }
  }
}
