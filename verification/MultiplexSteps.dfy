/** The transport's elementary state changes other than finishing, and the bookkeeping each one keeps. */
module MultiplexSteps {
  import opened Common
  import opened Multiplex

  // ----- Changes inside one socket -----

  function SetSocket(s: Impl, i: nat, c: Socket): Impl
    requires i < |s.sockets|
  {
    s.(sockets := s.sockets[i := c])
  }

  /** Streams may change freely: the books only depend on these four fields. */
  predicate SameBooks(a: Socket, b: Socket)
  {
    a.open == b.open && a.connecting == b.connecting && a.connectTimer == b.connectTimer && a.inflight == b.inflight
  }

  lemma SetSocketKeeps(s: Impl, i: nat, c: Socket)
    requires Base(s) && i < |s.sockets| && SameBooks(s.sockets[i], c)
    ensures Base(SetSocket(s, i, c))
  {
    hide InSlot, Queued, Timed, Accounted, Ledger;
  }

  // ----- A request is fully sent -----

  function Marked(s: Impl, id: Id): Impl
    requires id in s.requests
  {
    s.(requests := s.requests[id := s.requests[id].(sent := true)])
  }

  lemma InSlotSame(r: Requests, id: Id, q: Request, i: nat)
    requires id in r && q.slot == r[id].slot
    ensures InSlot(r[id := q], i) == InSlot(r, i)
  {}

  /** Changing a request's slot or sent flag leaves deadlines, sums and the ledger alone. */
  lemma ReplaceKeeps(s: Impl, id: Id, q: Request)
    requires Base(s) && id in s.requests && q.bytes == s.requests[id].bytes && q.timer == s.requests[id].timer
    ensures var r := s.requests[id := q];
            && Timed(r, s.timers, s.next) && Ledger(r, s.posted, s.completed, s.submitted)
            && Accounted(r, s.posted, s.admitted, s.bytes) && !s.stopped
  {
    hide Slotted, Queued, ConnectTimed, SumBytes, PostedIds, PostedBytes, NoDup;
    SumSame(s.requests, id, q);
  }

  lemma MarkedSlots(r: Requests, sockets: seq<Socket>, waiting: seq<Id>, id: Id, q: Request)
    requires Slotted(r, sockets) && Queued(r, waiting) && id in r && q.slot == r[id].slot
    ensures Slotted(r[id := q], sockets) && Queued(r[id := q], waiting)
  {
    forall i: nat ensures InSlot(r[id := q], i) == InSlot(r, i) { InSlotSame(r, id, q, i); }
    hide InSlot, NoDup;
  }

  lemma MarkedKeeps(s: Impl, id: Id)
    requires Base(s) && id in s.requests
    ensures Base(Marked(s, id))
  {
    hide Slotted, Queued, Timed, ConnectTimed, Accounted, Ledger;
    var q := s.requests[id].(sent := true);
    ReplaceKeeps(s, id, q);
    MarkedSlots(s.requests, s.sockets, s.waiting, id, q);
  }

  // ----- A request is registered -----

  function Enrolled(s: Impl, id: Id, data: Bytes): Impl
    requires s.posted != []
  {
    s.(requests := s.requests[id := Request(data, None, false, s.next)],
       timers := s.timers[s.next := RequestDeadline(id)], next := s.next + 1,
       waiting := s.waiting + [id], posted := s.posted[1..])
  }

  lemma EnrolledLedger(r: Requests, posted: seq<Task>, completed: map<Id, Outcome>, submitted: map<Id, Bytes>, id: Id,
                       q: Request)
    requires posted != [] && posted[0].Register? && posted[0].id == id
    requires Ledger(r, posted, completed, submitted)
    ensures id !in r && id !in completed && Ledger(r[id := q], posted[1..], completed, submitted)
  {
    PostedFirst(posted);
    hide PostedIds;
    var ids, rest := PostedIds(posted), PostedIds(posted[1..]);
    assert ids == [id] + rest;
    assert ids[0] == id && forall k :: 0 <= k < |rest| ==> rest[k] == ids[k + 1];
    assert id in ids && id !in rest && NoDup(rest);
    assert forall x :: x in ids <==> x == id || x in rest;
    hide NoDup;
  }

  lemma EnrolledBooks(r: Requests, sockets: seq<Socket>, waiting: seq<Id>, timers: Timers, next: nat, id: Id,
                      data: Bytes)
    requires Slotted(r, sockets) && Queued(r, waiting) && Timed(r, timers, next) && ConnectTimed(sockets, timers)
    requires id !in r && next > 0
    requires forall i :: 0 <= i < |sockets| ==> sockets[i].connectTimer < next
    ensures var q := Request(data, None, false, next);
            && Slotted(r[id := q], sockets) && Queued(r[id := q], waiting + [id])
            && Timed(r[id := q], timers[next := RequestDeadline(id)], next + 1)
            && ConnectTimed(sockets, timers[next := RequestDeadline(id)])
  {
    var q := Request(data, None, false, next);
    forall i: nat ensures InSlot(r[id := q], i) == InSlot(r, i) {}
    hide InSlot;
  }

  lemma EnrolledKeeps(s: Impl, id: Id, data: Bytes)
    requires Base(s) && s.posted != [] && s.posted[0] == Register(id, data) && Stamped(s)
    requires !s.stopped
    ensures id !in s.requests && id !in s.completed && Base(Enrolled(s, id, data)) && Stamped(Enrolled(s, id, data))
  {
    hide Slotted, Queued, Timed, ConnectTimed, Ledger, SumBytes;
    var q := Request(data, None, false, s.next);
    EnrolledLedger(s.requests, s.posted, s.completed, s.submitted, id, q);
    EnrolledBooks(s.requests, s.sockets, s.waiting, s.timers, s.next, id, data);
    SumAdd(s.requests, id, q);
  }

  /** Timer identifiers are handed out once and in order. */
  ghost predicate Stamped(s: Impl)
  {
    s.next > 0 && forall i :: 0 <= i < |s.sockets| ==> s.sockets[i].connectTimer < s.next
  }

  // ----- A waiting request is given to a socket -----

  function Assigned(s: Impl, i: nat, ordered: bool): Impl
    requires i < |s.sockets| && s.waiting != [] && s.waiting[0] in s.requests
  {
    var id, c := s.waiting[0], s.sockets[i];
    var q := s.requests[id];
    s.(requests := s.requests[id := q.(slot := Some(i))], waiting := s.waiting[1..],
       sockets := s.sockets[i := c.(inflight := c.inflight + 1, output := c.output + [Out(id, q.bytes)],
                                    order := if ordered then c.order + [id] else c.order)])
  }

  lemma InSlotAssign(r: Requests, id: Id, i: nat, j: nat)
    requires id in r && r[id].slot.None?
    ensures var r2 := r[id := r[id].(slot := Some(i))];
            InSlot(r2, j) == (if j == i then InSlot(r, j) + {id} else InSlot(r, j)) && id !in InSlot(r, j)
  {}

  lemma AssignedSlots(r: Requests, sockets: seq<Socket>, id: Id, i: nat, c: Socket)
    requires Slotted(r, sockets) && id in r && r[id].slot.None? && i < |sockets|
    requires c.inflight == sockets[i].inflight + 1
    ensures Slotted(r[id := r[id].(slot := Some(i))], sockets[i := c])
  {
    var r2 := r[id := r[id].(slot := Some(i))];
    forall j: nat ensures |InSlot(r2, j)| == |InSlot(r, j)| + (if j == i then 1 else 0) { InSlotAssign(r, id, i, j); }
    hide InSlot;
  }

  lemma AssignedQueue(r: Requests, waiting: seq<Id>, i: nat)
    requires Queued(r, waiting) && waiting != []
    ensures var id := waiting[0];
            id in r && r[id].slot.None? && Queued(r[id := r[id].(slot := Some(i))], waiting[1..])
  {
    var id, rest := waiting[0], waiting[1..];
    assert id in waiting;
    assert forall k :: 0 <= k < |rest| ==> rest[k] == waiting[k + 1];
    assert id !in rest && forall x :: x in waiting <==> x == id || x in rest;
  }

  lemma BooksTimed(sockets: seq<Socket>, timers: Timers, i: nat, c: Socket)
    requires ConnectTimed(sockets, timers) && i < |sockets| && c.open == sockets[i].open
    requires c.connecting == sockets[i].connecting && c.connectTimer == sockets[i].connectTimer
    ensures ConnectTimed(sockets[i := c], timers)
  {}

  lemma AssignedKeeps(s: Impl, i: nat, ordered: bool)
    requires Base(s) && i < |s.sockets| && s.waiting != []
    ensures s.waiting[0] in s.requests && s.requests[s.waiting[0]].slot.None? && Base(Assigned(s, i, ordered))
    ensures !s.stopped
  {
    hide Slotted, Queued, Timed, ConnectTimed, Accounted, Ledger;
    var id := s.waiting[0];
    AssignedQueue(s.requests, s.waiting, i);
    var t := Assigned(s, i, ordered);
    AssignedSlots(s.requests, s.sockets, id, i, t.sockets[i]);
    ReplaceKeeps(s, id, t.requests[id]);
    BooksTimed(s.sockets, s.timers, i, t.sockets[i]);
  }

  // ----- Connections -----

  /** A connection attempt that succeeds at once or continues under a deadline. */
  function Opened(s: Impl, i: nat, connecting: bool): Impl
    requires i < |s.sockets|
  {
    var c := s.sockets[i].(open := true, connecting := connecting, kernel := Kernel(false, false, true));
    if connecting then
      s.(sockets := s.sockets[i := c.(connectTimer := s.next + 1)],
         timers := s.timers[s.next + 1 := ConnectDeadline(i)], next := s.next + 2)
    else s.(sockets := s.sockets[i := c], next := s.next + 1)
  }

  lemma SlotsSame(r: Requests, sockets: seq<Socket>, i: nat, c: Socket)
    requires Slotted(r, sockets) && i < |sockets| && c.inflight == sockets[i].inflight
    ensures Slotted(r, sockets[i := c])
  {
    hide InSlot;
  }

  lemma OpenedTimers(r: Requests, sockets: seq<Socket>, timers: Timers, next: nat, i: nat, c: Socket)
    requires Timed(r, timers, next) && ConnectTimed(sockets, timers) && i < |sockets| && !sockets[i].open
    requires forall j :: 0 <= j < |sockets| ==> sockets[j].connectTimer < next
    requires c.open && c.connecting && c.connectTimer == next + 1
    ensures Timed(r, timers[next + 1 := ConnectDeadline(i)], next + 2)
    ensures ConnectTimed(sockets[i := c], timers[next + 1 := ConnectDeadline(i)])
  {}

  lemma OpenedAtOnce(r: Requests, sockets: seq<Socket>, timers: Timers, next: nat, i: nat, c: Socket)
    requires Timed(r, timers, next) && ConnectTimed(sockets, timers) && i < |sockets| && !sockets[i].open
    requires c.open && !c.connecting && c.connectTimer == sockets[i].connectTimer
    ensures Timed(r, timers, next + 1) && ConnectTimed(sockets[i := c], timers)
  {}

  lemma OpenedKeeps(s: Impl, i: nat, connecting: bool)
    requires Base(s) && Stamped(s) && i < |s.sockets| && !s.sockets[i].open
    ensures Base(Opened(s, i, connecting)) && Stamped(Opened(s, i, connecting))
  {
    hide Slotted, Queued, Timed, ConnectTimed, Accounted, Ledger;
    var t := Opened(s, i, connecting);
    SlotsSame(s.requests, s.sockets, i, t.sockets[i]);
    if connecting {
      OpenedTimers(s.requests, s.sockets, s.timers, s.next, i, t.sockets[i]);
    } else {
      OpenedAtOnce(s.requests, s.sockets, s.timers, s.next, i, t.sockets[i]);
    }
  }

  function Established(s: Impl, i: nat): Impl
    requires i < |s.sockets|
  {
    s.(sockets := s.sockets[i := s.sockets[i].(connecting := false)], timers := s.timers - {s.sockets[i].connectTimer})
  }

  lemma EstablishedTimers(sockets: seq<Socket>, timers: Timers, i: nat, c: Socket)
    requires ConnectTimed(sockets, timers) && i < |sockets| && c == sockets[i].(connecting := false)
    ensures ConnectTimed(sockets[i := c], timers - {sockets[i].connectTimer})
  {}

  lemma EstablishedKeeps(s: Impl, i: nat)
    requires Base(s) && i < |s.sockets|
    ensures Base(Established(s, i))
  {
    hide Slotted, Queued, Timed, ConnectTimed, Accounted, Ledger;
    var t := Established(s, i);
    SlotsSame(s.requests, s.sockets, i, t.sockets[i]);
    EstablishedTimers(s.sockets, s.timers, i, t.sockets[i]);
    TimedConnect(s.requests, s.sockets, s.timers, s.next, i);
  }

  // ----- Posting -----

  /** Wake-ups and the drain request do not touch the books. */
  lemma PostKeeps(s: Impl, t: Task)
    requires Base(s) && !t.Register?
    ensures Base(s.(posted := s.posted + [t])) && PostedIds(s.posted + [t]) == PostedIds(s.posted)
  {
    hide Slotted, Queued, Timed, ConnectTimed, PostedIds, PostedBytes, SumBytes;
    PostedAppend(s.posted, t);
    assert PostedIds(s.posted) + [] == PostedIds(s.posted);
  }

  lemma UnpostKeeps(s: Impl)
    requires Base(s) && s.posted != [] && !s.posted[0].Register?
    ensures Base(s.(posted := s.posted[1..])) && PostedIds(s.posted[1..]) == PostedIds(s.posted)
  {
    hide Slotted, Queued, Timed, ConnectTimed, SumBytes, NoDup, PostedIds, PostedBytes;
    PostedFirst(s.posted);
    assert [] + PostedIds(s.posted[1..]) == PostedIds(s.posted[1..]);
  }

  lemma CarriedPost(r: Requests, posted: seq<Task>, submitted: map<Id, Bytes>, t: Task)
    requires Carried(r, posted, submitted) && (t.Register? ==> t.id in submitted && submitted[t.id] == t.bytes)
    ensures Carried(r, posted + [t], submitted)
  {}

  lemma CarriedUnpost(r: Requests, posted: seq<Task>, submitted: map<Id, Bytes>)
    requires Carried(r, posted, submitted) && posted != []
    ensures Carried(r, posted[1..], submitted)
    ensures posted[0].Register? ==> posted[0].id in submitted && submitted[posted[0].id] == posted[0].bytes
  {
    assert posted[0] in posted && forall t :: t in posted[1..] ==> t in posted;
  }

  lemma EnrolledInTurn(r: Requests, waiting: seq<Id>, timers: Timers, next: nat, id: Id, data: Bytes)
    requires Queued(r, waiting) && Timed(r, timers, next) && InTurn(r, waiting) && id !in r
    ensures InTurn(r[id := Request(data, None, false, next)], waiting + [id])
  {
    hide NoDup;
    assert forall i :: 0 <= i < |waiting| ==> waiting[i] in waiting;
  }

  function Submitted(s: Impl, id: Id, data: Bytes): Impl
  {
    s.(admitted := s.admitted + 1, bytes := s.bytes + |data|, posted := s.posted + [Register(id, data)],
       submitted := s.submitted[id := data])
  }

  lemma SubmittedKeeps(s: Impl, id: Id, data: Bytes)
    requires Base(s) && id !in s.submitted
    ensures Base(Submitted(s, id, data))
  {
    hide Slotted, Queued, Timed, ConnectTimed, PostedIds, PostedBytes, SumBytes;
    PostedAppend(s.posted, Register(id, data));
    var ids := PostedIds(s.posted);
    assert forall x :: x in ids + [id] <==> x in ids || x == id;
  }

  /** A refused request is completed on the spot. */
  function Refused(s: Impl, id: Id, data: Bytes): Impl
  {
    s.(completed := s.completed[id := Failed], submitted := s.submitted[id := data])
  }

  lemma RefusedKeeps(s: Impl, id: Id, data: Bytes)
    requires Base(s) && id !in s.submitted
    ensures Base(Refused(s, id, data))
  {
    hide Slotted, Queued, Timed, ConnectTimed, Accounted;
  }
}
