/** Every step of the client transport keeps the transport-wide invariant. */
module TransportSteps {
  import opened Common
  import opened Framing
  import opened RpcProtocol
  import opened Multiplex
  import opened MultiplexSteps
  import opened Streams
  import opened StreamSteps

  lemma InvKeeps(l: Limits, s: Impl, w: World, t: Impl, v: World, i: nat)
    requires Rest(l, s, w, i) && Apart(s, t, i) && SameWorld(w, v, i) && Books(l, t) && SocketInv(l, t, v, i)
    requires w.conforming ==> Delivered(t.completed, w.reply)
    ensures Inv(l, t, v)
  {
    hide Books, Apart, SocketInv, Delivered;
    RestKeeps(l, s, w, t, v, i);
    InvSplit(l, t, v, i);
  }

  // ----- Steps inside one socket -----

  lemma LocalBooks(l: Limits, s: Impl, i: nat, c: Socket)
    requires Books(l, s) && i < |s.sockets| && SameBooks(s.sockets[i], c) && c.scheduled == s.sockets[i].scheduled
    ensures Books(l, SetSocket(s, i, c)) && Apart(s, SetSocket(s, i, c), i)
  {
    hide Base, NoDup, Carried, InTurn, Received;
    SetSocketKeeps(s, i, c);
  }

  lemma LocalStep(l: Limits, s: Impl, w: World, i: nat, c: Socket, p: Peer)
    requires Inv(l, s, w) && i < |s.sockets| && SameBooks(s.sockets[i], c) && c.scheduled == s.sockets[i].scheduled
    requires SocketOk(l, c, i, s.requests, s.completed) && i < |w.peers|
    requires WireOk(c, p, s.submitted)
    requires w.conforming ==> PeerOk(l, c, p, i, s.requests, w.reply)
    ensures Inv(l, SetSocket(s, i, c), SetPeer(w, i, p))
  {
    hide Books, Apart, SocketOk, PeerOk, Delivered, WireOk;
    InvSplit(l, s, w, i);
    LocalBooks(l, s, i, c);
    InvKeeps(l, s, w, SetSocket(s, i, c), SetPeer(w, i, p), i);
  }

  /** The kernel said it takes no more, has no more, or reported a change. */
  lemma KernelStep(l: Limits, s: Impl, w: World, i: nat, kernel: Kernel)
    requires Inv(l, s, w) && i < |s.sockets| && s.sockets[i].open
    ensures Inv(l, SetSocket(s, i, s.sockets[i].(kernel := kernel)), w)
  {
    hide Books, SocketOk, PeerOk, WireOk;
    InvSplit(l, s, w, i);
    var c := s.sockets[i];
    FlagsOk(l, c, c.(kernel := kernel), w.peers[i], i, s.requests, s.completed, w.reply, s.submitted);
    LocalStep(l, s, w, i, c.(kernel := kernel), w.peers[i]);
    assert SetPeer(w, i, w.peers[i]) == w;
  }

  // ----- Sending -----

  /** A request that already finished has no flag left to set. */
  function MarkedIfAny(s: Impl, id: Id): (t: Impl)
    ensures t.sockets == s.sockets
  {
    if id in s.requests then Marked(s, id) else s
  }

  /** The first request queued on socket `i` is on the wire. */
  function Flushed(s: Impl, i: nat): Impl
    requires i < |s.sockets| && s.sockets[i].output != []
  {
    SetSocket(MarkedIfAny(s, s.sockets[i].output[0].id), i, Popped(s.sockets[i]))
  }

  function FlushedWorld(s: Impl, w: World, i: nat): World
    requires i < |s.sockets| && s.sockets[i].output != [] && i < |w.peers|
  {
    var p, o := w.peers[i], s.sockets[i].output[0];
    SetPeer(w, i, p.(owed := p.owed + {o.id}, whole := p.whole + [o]))
  }

  lemma MarkedDrain(s: Impl, id: Id)
    requires id in s.requests
    ensures Marked(s, id).requests != map[] && s.requests != map[]
  {
    assert id in Marked(s, id).requests;
  }

  lemma MarkedBooks(l: Limits, s: Impl, id: Id, i: nat)
    requires Books(l, s) && id in s.requests && s.requests[id].slot == Some(i)
    ensures Books(l, Marked(s, id)) && Apart(s, Marked(s, id), i)
  {
    hide Base, TasksOk;
    MarkedKeeps(s, id);
    MarkedDrain(s, id);
  }

  lemma RetiredUnregistered(l: Limits, s: Impl, i: nat)
    requires Books(l, s) && i < |s.sockets| && SocketOk(l, s.sockets[i], i, s.requests, s.completed)
    requires s.sockets[i].open
    ensures forall id :: id in s.sockets[i].retired ==> id !in s.requests
    ensures s.sockets[i].inflight == |InSlot(s.requests, i)|
  {
    hide InSlot, Queued, Timed, ConnectTimed, Accounted, OutputOk, OrderOk, TasksOk, NoDup;
  }

  lemma MarkedIfAnyBooks(l: Limits, s: Impl, id: Id, i: nat)
    requires Books(l, s) && (id in s.requests ==> s.requests[id].slot == Some(i))
    ensures Books(l, MarkedIfAny(s, id)) && Apart(s, MarkedIfAny(s, id), i)
    ensures MarkedIfAny(s, id).completed == s.completed
  {
    hide Books, Apart;
    if id in s.requests { MarkedBooks(l, s, id, i); } else { ApartSelf(s, i); }
  }

  lemma PoppedSocket(l: Limits, s: Impl, i: nat)
    requires i < |s.sockets| && s.sockets[i].open && s.sockets[i].output != []
    requires SocketOk(l, s.sockets[i], i, s.requests, s.completed)
    ensures var id := s.sockets[i].output[0].id;
            && (id in s.requests ==> s.requests[id].slot == Some(i))
            && SocketOk(l, Popped(s.sockets[i]), i, MarkedIfAny(s, id).requests, s.completed)
  {
    hide SocketOk;
    PoppedOk(l, s.sockets[i], i, s.requests, s.completed);
  }

  lemma FlushBooks(l: Limits, s: Impl, i: nat)
    requires Books(l, s) && i < |s.sockets| && s.sockets[i].open && s.sockets[i].output != []
    requires SocketOk(l, s.sockets[i], i, s.requests, s.completed)
    ensures Books(l, Flushed(s, i)) && Apart(s, Flushed(s, i), i)
    ensures SocketOk(l, Popped(s.sockets[i]), i, Flushed(s, i).requests, s.completed)
  {
    hide Books, Apart, SocketOk, MarkedIfAny;
    var c, m := s.sockets[i], MarkedIfAny(s, s.sockets[i].output[0].id);
    PoppedSocket(l, s, i);
    MarkedIfAnyBooks(l, s, c.output[0].id, i);
    LocalBooks(l, m, i, Popped(c));
    ApartTrans(s, m, Flushed(s, i), i);
  }

  lemma FlushPeer(l: Limits, s: Impl, w: World, i: nat)
    requires Books(l, s) && SocketInv(l, s, w, i) && w.conforming && s.sockets[i].open && s.sockets[i].output != []
    ensures PeerOk(l, Popped(s.sockets[i]), FlushedWorld(s, w, i).peers[i], i, Flushed(s, i).requests, w.reply)
  {
    hide Books, SocketOk, PeerOk, WireOk;
    RetiredUnregistered(l, s, i);
    HeadRegistered(l, s, w, i);
    PeerPopped(l, s.sockets[i], w.peers[i], i, s.requests, s.completed, w.reply);
    var p, o := w.peers[i], s.sockets[i].output[0];
    PeerWire(l, Popped(s.sockets[i]), p.(owed := p.owed + {o.id}), i, Flushed(s, i).requests, w.reply,
             FlushedWorld(s, w, i).peers[i]);
  }

  lemma FlushStep(l: Limits, s: Impl, w: World, i: nat)
    requires Inv(l, s, w) && i < |s.sockets| && s.sockets[i].open && s.sockets[i].output != []
    requires s.sockets[i].sent == |s.sockets[i].output[0].bytes|
    ensures Inv(l, Flushed(s, i), FlushedWorld(s, w, i))
  {
    hide Books, Apart, SocketOk, PeerOk, Delivered, WireOk;
    InvSplit(l, s, w, i);
    FlushBooks(l, s, i);
    WirePopped(s.sockets[i], w.peers[i], s.submitted);
    var p, o := w.peers[i], s.sockets[i].output[0];
    WireOnly(Popped(s.sockets[i]), p.(whole := p.whole + [o]),
             Popped(s.sockets[i]), FlushedWorld(s, w, i).peers[i], s.submitted);
    if w.conforming { FlushPeer(l, s, w, i); }
    InvKeeps(l, s, w, Flushed(s, i), FlushedWorld(s, w, i), i);
  }

  lemma HeadRegistered(l: Limits, s: Impl, w: World, i: nat)
    requires SocketInv(l, s, w, i) && w.conforming && s.sockets[i].open && s.sockets[i].output != []
    ensures s.sockets[i].output[0].id in s.requests
  {
    assert OutIds(s.sockets[i].output)[0] in OutIds(s.sockets[i].output);
    hide SocketOk, Owes, AnswerOk, Flatten;
  }

  lemma ApartSelf(s: Impl, i: nat)
    ensures Apart(s, s, i)
  {}

  lemma ApartTrans(s: Impl, t: Impl, u: Impl, i: nat)
    requires Apart(s, t, i) && Apart(t, u, i) && t.completed == s.completed
    ensures Apart(s, u, i)
  {}

  // ----- A request leaves -----

  /** The loop is stopped as soon as a draining transport has nothing left. */
  function Settled(s: Impl): Impl { s.(stopped := s.draining && s.requests == map[]) }

  lemma UnregisterApart(s: Impl, id: Id, o: Outcome, i: nat)
    requires CanUnregister(s, id) && (s.requests[id].slot == Some(i) || s.requests[id].slot.None?)
    ensures Apart(s, Unregister(s, id, o), i)
  {
    hide Drop;
  }

  lemma ReleaseFlags(s: Impl, id: Id)
    requires CanUnregister(s, id)
    ensures SameFlags(s.sockets, Release(s.sockets, s.requests[id].slot))
  {}

  predicate SameFlags(a: seq<Socket>, b: seq<Socket>)
  {
    |a| == |b|
    && forall j :: 0 <= j < |a| ==> a[j].scheduled == b[j].scheduled && a[j].connectTimer == b[j].connectTimer
  }

  lemma TasksSame(posted: seq<Task>, closing: bool, draining: bool, a: seq<Socket>, b: seq<Socket>)
    requires TasksOk(posted, closing, draining, a) && SameFlags(a, b)
    ensures TasksOk(posted, closing, draining, b)
  {
    hide NoDup;
  }

  lemma UnregisterBooks(l: Limits, s: Impl, id: Id, o: Outcome)
    requires Books(l, s) && id in s.requests && (o.Answered? ==> Proper(l, id, o.frame))
    ensures CanUnregister(s, id) && id !in s.completed && Books(l, Settled(Unregister(s, id, o)))
  {
    hide Base, TasksOk, Drop, Proper;
    DropInTurn(s.requests, s.waiting, id);
    UnregisterKeeps(s, id, o);
    var t := Unregister(s, id, o);
    StopKeeps(t);
    ReleaseFlags(s, id);
    TasksSame(s.posted, s.closing, s.draining, s.sockets, t.sockets);
  }

  lemma DeliveredMore(done: map<Id, Outcome>, reply: map<Id, Bytes>, id: Id, o: Outcome)
    requires Delivered(done, reply) && (o.Answered? ==> id in reply && reply[id] == o.frame)
    ensures Delivered(done[id := o], reply)
  {}

  lemma ApartSettled(s: Impl, t: Impl, i: nat)
    requires Apart(s, t, i)
    ensures Apart(s, Settled(t), i)
  {}

  /** A request of socket `i` leaves while the socket itself changes to `c`. */
  function Left(s: Impl, i: nat, c: Socket, id: Id, o: Outcome): Impl
    requires i < |s.sockets| && CanUnregister(SetSocket(s, i, c), id)
  {
    Unregister(SetSocket(s, i, c), id, o)
  }

  lemma LeaveBooks(l: Limits, s: Impl, i: nat, c: Socket, id: Id, o: Outcome)
    requires Books(l, s) && i < |s.sockets| && SameBooks(s.sockets[i], c) && c.scheduled == s.sockets[i].scheduled
    requires id in s.requests && s.requests[id].slot == Some(i) && (o.Answered? ==> Proper(l, id, o.frame))
    ensures CanUnregister(SetSocket(s, i, c), id) && id !in s.completed
    ensures Books(l, Settled(Left(s, i, c, id, o))) && Apart(s, Settled(Left(s, i, c, id, o)), i)
  {
    hide Books, Apart, Base;
    LocalBooks(l, s, i, c);
    var m := SetSocket(s, i, c);
    UnregisterBooks(l, m, id, o);
    UnregisterApart(m, id, o, i);
    ApartTrans(s, m, Left(s, i, c, id, o), i);
    ApartSettled(s, Left(s, i, c, id, o), i);
  }

  lemma LeaveStep(l: Limits, s: Impl, w: World, i: nat, c: Socket, p: Peer, id: Id, o: Outcome)
    requires Inv(l, s, w) && i < |s.sockets| && SameBooks(s.sockets[i], c) && c.scheduled == s.sockets[i].scheduled
    requires id in s.requests && s.requests[id].slot == Some(i) && c.inflight > 0 && i < |w.peers|
    requires SocketOk(l, c.(inflight := c.inflight - 1), i, s.requests - {id}, s.completed[id := o])
    requires w.conforming ==> PeerOk(l, c.(inflight := c.inflight - 1), p, i, s.requests - {id}, w.reply)
    requires w.conforming && o.Answered? ==> id in w.reply && w.reply[id] == o.frame
    requires WireOk(c.(inflight := c.inflight - 1), p, s.submitted) && (o.Answered? ==> Proper(l, id, o.frame))
    ensures CanUnregister(SetSocket(s, i, c), id) && id !in s.completed
    ensures Inv(l, Settled(Left(s, i, c, id, o)), SetPeer(w, i, p))
  {
    hide Books, Apart, SocketOk, PeerOk, Delivered, CanUnregister, WireOk;
    InvSplit(l, s, w, i);
    LeaveBooks(l, s, i, c, id, o);
    if w.conforming { DeliveredMore(s.completed, w.reply, id, o); }
    InvKeeps(l, s, w, Settled(Left(s, i, c, id, o)), SetPeer(w, i, p), i);
  }

  /** A waiting request leaves: no socket is concerned. */
  lemma ExpireStep(l: Limits, s: Impl, w: World, id: Id)
    requires Inv(l, s, w) && id in s.requests && s.requests[id].slot.None?
    ensures CanUnregister(s, id) && Inv(l, Settled(Unregister(s, id, Failed)), w)
  {
    hide Books, Apart, Delivered, CanUnregister, SocketInv;
    UnregisterBooks(l, s, id, Failed);
    var t := Settled(Unregister(s, id, Failed));
    UnregisterApart(s, id, Failed, |s.sockets|);
    ApartSettled(s, Unregister(s, id, Failed), |s.sockets|);
    if w.conforming { DeliveredMore(s.completed, w.reply, id, Failed); }
    EverySocket(l, s, w, t);
  }

  /** A step that concerns no socket. */
  lemma EverySocket(l: Limits, s: Impl, w: World, t: Impl)
    requires Inv(l, s, w) && Apart(s, t, |s.sockets|) && Books(l, t)
    requires w.conforming ==> Delivered(t.completed, w.reply)
    ensures Inv(l, t, w)
  {
    assert |t.sockets| == |s.sockets|;
    hide Books, Apart, SocketInv, Delivered;
    forall j | 0 <= j < |t.sockets| ensures SocketInv(l, t, w, j) {
      SocketInvKeeps(l, s, w, t, w, |s.sockets|, j);
    }
  }

  // ----- Tasks -----

  lemma TailTasks(posted: seq<Task>)
    requires posted != [] && NoDup(posted)
    ensures NoDup(posted[1..]) && posted[0] in posted && posted[0] !in posted[1..]
    ensures forall t :: t in posted <==> t == posted[0] || t in posted[1..]
    ensures forall a, b :: 0 <= a < b < |posted[1..]| ==>
              posted[1..][a] == posted[a + 1] && posted[1..][b] == posted[b + 1]
  {
    var rest := posted[1..];
    assert forall k :: 0 <= k < |rest| ==> rest[k] == posted[k + 1];
    assert forall k :: 0 < k < |posted| ==> posted[k] == rest[k - 1];
  }

  function Unscheduled(sockets: seq<Socket>, i: nat): seq<Socket>
    requires i < |sockets|
  {
    sockets[i := sockets[i].(scheduled := false)]
  }

  lemma UnpostTasks(posted: seq<Task>, closing: bool, draining: bool, sockets: seq<Socket>)
    requires TasksOk(posted, closing, draining, sockets) && posted != []
    ensures var t, rest := posted[0], posted[1..];
            && (t.Register? ==> TasksOk(rest, closing, draining, sockets) && !draining)
            && (t.Wake? ==> t.socket < |sockets| && TasksOk(rest, closing, draining, Unscheduled(sockets, t.socket)))
            && (t.Drain? ==> closing && !draining && TasksOk(rest, closing, true, sockets))
  {
    TailTasks(posted);
    var t, rest := posted[0], posted[1..];
    assert forall k :: 0 <= k < |rest| ==> rest[k] == posted[k + 1];
    if t.Drain? {
      forall u | u in rest ensures !u.Register? {
        var k :| 0 <= k < |rest| && rest[k] == u;
        assert posted[0] == Drain && posted[k + 1] == u;
      }
    }
    hide NoDup;
  }

  lemma PostTasks(posted: seq<Task>, closing: bool, draining: bool, sockets: seq<Socket>, t: Task)
    requires TasksOk(posted, closing, draining, sockets) && t !in posted
    ensures t.Wake? && t.socket < |sockets| ==>
              TasksOk(posted + [t], closing, draining, sockets[t.socket := sockets[t.socket].(scheduled := true)])
    ensures t.Drain? && !closing ==> TasksOk(posted + [t], true, draining, sockets)
    ensures t.Register? && !closing ==> TasksOk(posted + [t], closing, draining, sockets)
  {
    assert forall u :: u in posted + [t] <==> u in posted || u == t;
    assert NoDup(posted + [t]);
    hide NoDup;
  }

  // ----- Registering -----

  lemma EnrolledFaithful(s: Impl, id: Id, data: Bytes)
    requires Base(s) && s.posted != [] && s.posted[0] == Register(id, data)
    requires Carried(s.requests, s.posted, s.submitted) && InTurn(s.requests, s.waiting)
    ensures var t := Enrolled(s, id, data);
            Carried(t.requests, t.posted, t.submitted) && InTurn(t.requests, t.waiting)
  {
    hide Slotted, Queued, Timed, ConnectTimed, Accounted, InTurn, Ledger;
    var q := Request(data, None, false, s.next);
    EnrolledLedger(s.requests, s.posted, s.completed, s.submitted, id, q);
    EnrolledInTurn(s.requests, s.waiting, s.timers, s.next, id, data);
    CarriedUnpost(s.requests, s.posted, s.submitted);
  }

  lemma EnrolledApart(s: Impl, id: Id, data: Bytes)
    requires s.posted != [] && id !in s.requests && id !in s.completed
    ensures Apart(s, Enrolled(s, id, data), |s.sockets|)
  {}

  lemma EnrollBooks(l: Limits, s: Impl, id: Id, data: Bytes)
    requires Books(l, s) && s.posted != [] && s.posted[0] == Register(id, data)
    ensures id !in s.requests && id !in s.completed && !s.draining && Books(l, Enrolled(s, id, data))
    ensures Apart(s, Enrolled(s, id, data), |s.sockets|)
  {
    hide Base, TasksOk, Carried, InTurn, Received, Apart;
    EnrolledFaithful(s, id, data);
    UnpostTasks(s.posted, s.closing, s.draining, s.sockets);
    EnrolledKeeps(s, id, data);
    EnrolledApart(s, id, data);
  }

  lemma EnrollStep(l: Limits, s: Impl, w: World, id: Id, data: Bytes)
    requires Inv(l, s, w) && s.posted != [] && s.posted[0] == Register(id, data)
    ensures id !in s.requests && Inv(l, Enrolled(s, id, data), w)
  {
    EnrollBooks(l, s, id, data);
    hide Books, Apart, Delivered, SocketInv;
    EverySocket(l, s, w, Enrolled(s, id, data));
  }

  // ----- Assigning -----

  /** The request is given to the connection. */
  function Gave(w: World, i: nat, id: Id): World
    requires i < |w.peers|
  {
    SetPeer(w, i, w.peers[i].(given := w.peers[i].given + [id]))
  }

  lemma AssignBooks(l: Limits, s: Impl, i: nat)
    requires Books(l, s) && i < |s.sockets| && s.waiting != []
    ensures s.waiting[0] in s.requests && s.requests[s.waiting[0]].slot.None? && s.waiting[0] !in s.completed
    ensures Books(l, Assigned(s, i, l.protocol.Kv?)) && Apart(s, Assigned(s, i, l.protocol.Kv?), i) && !s.stopped
  {
    hide Base, TasksOk;
    AssignedKeeps(s, i, l.protocol.Kv?);
    var id, t := s.waiting[0], Assigned(s, i, l.protocol.Kv?);
    Unregisterable(s, id);
    assert id in t.requests;
    TasksSame(s.posted, s.closing, s.draining, s.sockets, t.sockets);
  }

  lemma AssignStep(l: Limits, s: Impl, w: World, i: nat)
    requires Inv(l, s, w) && i < |s.sockets| && s.waiting != [] && s.sockets[i].open
    requires s.sockets[i].inflight + |s.sockets[i].retired| < Window(l)
    ensures s.waiting[0] in s.requests && Inv(l, Assigned(s, i, l.protocol.Kv?), Gave(w, i, s.waiting[0]))
  {
    hide Books, Apart, SocketOk, PeerOk, Delivered, WireOk;
    InvSplit(l, s, w, i);
    AssignBooks(l, s, i);
    var id := s.waiting[0];
    SentNothing(l, s.sockets[i], i, s.requests, s.completed);
    assert !s.requests[id].sent && id in s.submitted && s.submitted[id] == s.requests[id].bytes by {
      hide *;
      UnsentWaits(l, s, id);
    }
    WireLoaded(l, s.sockets[i], w.peers[i], s.submitted, id, s.requests[id].bytes);
    LoadedOk(l, s.sockets[i], i, s.requests, s.completed, id);
    var v := Gave(w, i, id);
    if w.conforming {
      PeerLoaded(l, s.sockets[i], w.peers[i], i, s.requests, w.reply, id);
      PeerWire(l, Loaded(l, s.sockets[i], id, s.requests[id].bytes), w.peers[i], i,
               s.requests[id := s.requests[id].(slot := Some(i))], w.reply, v.peers[i]);
    }
    InvKeeps(l, s, w, Assigned(s, i, l.protocol.Kv?), v, i);
  }

  lemma SentNothing(l: Limits, s: Socket, i: nat, r: Requests, done: map<Id, Outcome>)
    requires SocketOk(l, s, i, r, done) && s.open
    ensures s.output == [] ==> s.sent == 0
  {
    hide NoDup, OrderOk;
  }

  lemma UnsentWaits(l: Limits, s: Impl, id: Id)
    requires Books(l, s) && id in s.requests && s.requests[id].slot.None?
    ensures !s.requests[id].sent && id in s.submitted && s.submitted[id] == s.requests[id].bytes
  {
    hide Base, TasksOk;
  }

  /** Before the connection attempt the request sits on a socket that is not open yet. */
  lemma AssignRest(l: Limits, s: Impl, w: World, i: nat)
    requires Inv(l, s, w) && i < |s.sockets| && s.waiting != []
    ensures s.waiting[0] in s.requests && i < |w.peers|
    ensures Rest(l, Assigned(s, i, l.protocol.Kv?), Gave(w, i, s.waiting[0]), i)
  {
    hide Books, Apart, SocketInv, Delivered;
    InvSplit(l, s, w, i);
    AssignBooks(l, s, i);
    RestKeeps(l, s, w, Assigned(s, i, l.protocol.Kv?), Gave(w, i, s.waiting[0]), i);
  }

  lemma OpenedFacts(s: Impl, i: nat, connecting: bool)
    requires i < |s.sockets|
    ensures var t := Opened(s, i, connecting);
            && t == s.(sockets := t.sockets, timers := t.timers, next := t.next) && |t.sockets| == |s.sockets|
            && t.sockets == s.sockets[i := t.sockets[i]] && t.sockets[i].scheduled == s.sockets[i].scheduled
  {
    if connecting {} else {}
  }

  lemma OpenBooks(l: Limits, s: Impl, i: nat, connecting: bool)
    requires Books(l, s) && i < |s.sockets| && !s.sockets[i].open
    ensures Books(l, Opened(s, i, connecting)) && Apart(s, Opened(s, i, connecting), i)
  {
    hide Base, TasksOk, Stamped, Opened, Carried, InTurn, Received;
    OpenedKeeps(s, i, connecting);
    OpenedFacts(s, i, connecting);
    SocketFlagTasks(s.posted, s.closing, s.draining, s.sockets, i, Opened(s, i, connecting).sockets[i]);
  }

  lemma SocketFlagTasks(posted: seq<Task>, closing: bool, draining: bool, sockets: seq<Socket>, i: nat, c: Socket)
    requires TasksOk(posted, closing, draining, sockets) && i < |sockets| && c.scheduled == sockets[i].scheduled
    ensures TasksOk(posted, closing, draining, sockets[i := c])
  {
    hide NoDup;
  }

  lemma ClosedSlotEmpty(l: Limits, s: Impl, w: World, i: nat)
    requires Books(l, s) && SocketInv(l, s, w, i) && !s.sockets[i].open
    ensures Closed(s.sockets[i]) && InSlot(s.requests, i) == {}
    ensures w.conforming ==> w.peers[i] == FRESH_PEER
    ensures w.peers[i].wire == [] && w.peers[i].whole == [] && w.peers[i].given == []
  {
    hide Queued, Timed, ConnectTimed, Accounted, Ledger, TasksOk, InSlot;
  }

  /** A request assigned to a socket that is not connected brings the connection up. */
  lemma AssignOpenStep(l: Limits, s: Impl, w: World, i: nat, connecting: bool)
    requires Inv(l, s, w) && i < |s.sockets| && s.waiting != [] && !s.sockets[i].open && Window(l) > 0
    ensures s.waiting[0] in s.requests && i < |w.peers|
    ensures Inv(l, Opened(Assigned(s, i, l.protocol.Kv?), i, connecting), Gave(w, i, s.waiting[0]))
  {
    hide Books, Apart, SocketOk, PeerOk, Delivered, WireOk;
    InvSplit(l, s, w, i);
    AssignBooks(l, s, i);
    AssignRest(l, s, w, i);
    var m := Assigned(s, i, l.protocol.Kv?);
    OpenBooks(l, m, i, connecting);
    OpenSocket(l, s, w, i, connecting);
    InvKeeps(l, m, Gave(w, i, s.waiting[0]), Opened(m, i, connecting), Gave(w, i, s.waiting[0]), i);
  }

  /** What opening after assigning does to the socket, the requests and the completions. */
  lemma OpenedSocket(l: Limits, s: Impl, i: nat, connecting: bool)
    requires i < |s.sockets| && s.waiting != [] && s.waiting[0] in s.requests
    ensures var id, t := s.waiting[0], Opened(Assigned(s, i, l.protocol.Kv?), i, connecting);
            && |t.sockets| == |s.sockets| && t.completed == s.completed && t.submitted == s.submitted
            && t.requests == s.requests[id := s.requests[id].(slot := Some(i))]
            && t.sockets[i] == Loaded(l, s.sockets[i], id, s.requests[id].bytes)
                               .(open := true, connecting := connecting,
                                 connectTimer := if connecting then s.next + 1 else s.sockets[i].connectTimer,
                                 kernel := Kernel(false, false, true))
  {
    var id, m := s.waiting[0], Assigned(s, i, l.protocol.Kv?);
    assert m.sockets[i] == Loaded(l, s.sockets[i], id, s.requests[id].bytes);
    hide Assigned, Loaded;
    if connecting {} else {}
  }

  lemma OpenSocket(l: Limits, s: Impl, w: World, i: nat, connecting: bool)
    requires Books(l, s) && SocketInv(l, s, w, i) && s.waiting != [] && !s.sockets[i].open && Window(l) > 0
    requires s.waiting[0] in s.requests && s.requests[s.waiting[0]].slot.None? && s.waiting[0] !in s.completed
    ensures SocketInv(l, Opened(Assigned(s, i, l.protocol.Kv?), i, connecting), Gave(w, i, s.waiting[0]), i)
  {
    hide Books, SocketOk, PeerOk, InSlot, WireOk, Assigned, Opened, Loaded;
    var c, id := s.sockets[i], s.waiting[0];
    OpenedSocket(l, s, i, connecting);
    ClosedSlotEmpty(l, s, w, i);
    UnsentWaits(l, s, id);
    assert w.peers[i].given + [id] == [id];
    FirstLoad(l, c, w.peers[i], i, s.requests, s.completed, w.reply, s.submitted, id, connecting,
              if connecting then s.next + 1 else c.connectTimer);
  }

  lemma EstablishStep(l: Limits, s: Impl, w: World, i: nat)
    requires Inv(l, s, w) && i < |s.sockets| && s.sockets[i].open
    ensures Inv(l, Established(s, i), w)
  {
    hide Books, Apart, SocketOk, PeerOk, Delivered, WireOk;
    InvSplit(l, s, w, i);
    EstablishBooks(l, s, i);
    var c := s.sockets[i];
    WireOnly(c, w.peers[i], c.(connecting := false), w.peers[i], s.submitted);
    FlagsOk(l, c, c.(connecting := false), w.peers[i], i, s.requests, s.completed, w.reply, s.submitted);
    InvKeeps(l, s, w, Established(s, i), w, i);
  }

  lemma EstablishBooks(l: Limits, s: Impl, i: nat)
    requires Books(l, s) && i < |s.sockets|
    ensures Books(l, Established(s, i)) && Apart(s, Established(s, i), i)
  {
    hide Base, TasksOk, Carried, InTurn, Received;
    EstablishedKeeps(s, i);
    SocketFlagTasks(s.posted, s.closing, s.draining, s.sockets, i, Established(s, i).sockets[i]);
  }

  // ----- Scheduling, closing and submitting -----

  function Scheduled(s: Impl, i: nat): Impl
    requires i < |s.sockets|
  {
    SetSocket(s, i, s.sockets[i].(scheduled := true)).(posted := s.posted + [Wake(i)])
  }

  function Woken(s: Impl, i: nat): Impl
    requires i < |s.sockets| && s.posted != []
  {
    SetSocket(s, i, s.sockets[i].(scheduled := false)).(posted := s.posted[1..])
  }

  lemma TaskFacts(l: Limits, s: Impl)
    requires Books(l, s)
    ensures forall i :: 0 <= i < |s.sockets| ==> (s.sockets[i].scheduled <==> Wake(i) in s.posted)
    ensures Drain in s.posted <==> s.closing && !s.draining
  {
    hide Base, NoDup, Carried, InTurn, Received;
  }

  lemma ScheduleBooks(l: Limits, s: Impl, i: nat)
    requires Books(l, s) && i < |s.sockets| && !s.sockets[i].scheduled
    ensures Books(l, Scheduled(s, i)) && Apart(s, Scheduled(s, i), i)
  {
    hide Base, TasksOk, Carried, InTurn, Received;
    TaskFacts(l, s);
    CarriedPost(s.requests, s.posted, s.submitted, Wake(i));
    var c := s.sockets[i].(scheduled := true);
    PostTasks(s.posted, s.closing, s.draining, s.sockets, Wake(i));
    SetSocketKeeps(s, i, c);
    PostKeeps(SetSocket(s, i, c), Wake(i));
  }

  lemma WakeBooks(l: Limits, s: Impl, i: nat)
    requires Books(l, s) && i < |s.sockets| && s.posted != [] && s.posted[0] == Wake(i)
    ensures Books(l, Woken(s, i)) && Apart(s, Woken(s, i), i)
  {
    hide Base, TasksOk, Carried, InTurn, Received;
    CarriedUnpost(s.requests, s.posted, s.submitted);
    var c := s.sockets[i].(scheduled := false);
    UnpostTasks(s.posted, s.closing, s.draining, s.sockets);
    SetSocketKeeps(s, i, c);
    UnpostKeeps(SetSocket(s, i, c));
  }

  lemma ScheduledOk(l: Limits, s: Impl, w: World, t: Impl, i: nat, b: bool)
    requires SocketInv(l, s, w, i) && |t.sockets| == |s.sockets| && t.sockets[i] == s.sockets[i].(scheduled := b)
    requires t.requests == s.requests && t.completed == s.completed && t.submitted == s.submitted
    ensures SocketInv(l, t, w, i)
  {
    var c := s.sockets[i];
    WireOnly(c, w.peers[i], c.(scheduled := b), w.peers[i], s.submitted);
    hide WireOk;
    if c.open {
      hide SocketOk, PeerOk;
      FlagsOk(l, c, c.(scheduled := b), w.peers[i], i, s.requests, s.completed, w.reply, s.submitted);
    }
  }

  lemma ScheduleStep(l: Limits, s: Impl, w: World, i: nat)
    requires Inv(l, s, w) && i < |s.sockets| && !s.sockets[i].scheduled
    ensures Inv(l, Scheduled(s, i), w)
  {
    hide Books, Apart, SocketInv, Delivered;
    InvSplit(l, s, w, i);
    ScheduleBooks(l, s, i);
    ScheduledOk(l, s, w, Scheduled(s, i), i, true);
    InvKeeps(l, s, w, Scheduled(s, i), w, i);
  }

  lemma WakeStep(l: Limits, s: Impl, w: World, i: nat)
    requires Inv(l, s, w) && i < |s.sockets| && s.posted != [] && s.posted[0] == Wake(i)
    ensures Inv(l, Woken(s, i), w)
  {
    hide Books, Apart, SocketInv, Delivered;
    InvSplit(l, s, w, i);
    WakeBooks(l, s, i);
    ScheduledOk(l, s, w, Woken(s, i), i, false);
    InvKeeps(l, s, w, Woken(s, i), w, i);
  }

  /** The admission test of `Submit`. */
  predicate Admits(l: Limits, s: Impl, data: Bytes)
  {
    !s.closing && s.admitted < l.queueCapacity && s.bytes <= l.queueBytes && |data| <= l.queueBytes - s.bytes
  }

  lemma {:induction false} RegisterPosted(posted: seq<Task>, id: Id, data: Bytes)
    requires Register(id, data) in posted
    ensures id in PostedIds(posted)
  {
    if posted[0] != Register(id, data) { RegisterPosted(posted[1..], id, data); }
  }

  lemma FreshTask(s: Impl, id: Id, data: Bytes)
    requires Base(s) && id !in s.submitted
    ensures Register(id, data) !in s.posted
  {
    hide Slotted, Queued, Timed, ConnectTimed, Accounted, PostedIds;
    if Register(id, data) in s.posted { RegisterPosted(s.posted, id, data); }
  }

  lemma SubmitBooks(l: Limits, s: Impl, id: Id, data: Bytes)
    requires Books(l, s) && id !in s.submitted && Admits(l, s, data)
    ensures Books(l, Submitted(s, id, data)) && Apart(s, Submitted(s, id, data), |s.sockets|)
  {
    hide Base, TasksOk;
    FreshTask(s, id, data);
    PostTasks(s.posted, s.closing, s.draining, s.sockets, Register(id, data));
    SubmittedKeeps(s, id, data);
  }

  lemma RefuseBooks(l: Limits, s: Impl, id: Id, data: Bytes)
    requires Books(l, s) && id !in s.submitted
    ensures Books(l, Refused(s, id, data)) && Apart(s, Refused(s, id, data), |s.sockets|)
  {
    hide Base, TasksOk;
    RefusedKeeps(s, id, data);
  }

  lemma SubmitStep(l: Limits, s: Impl, w: World, id: Id, data: Bytes)
    requires Inv(l, s, w) && id !in s.submitted
    ensures Admits(l, s, data) ==> Inv(l, Submitted(s, id, data), w)
    ensures Inv(l, Refused(s, id, data), w)
  {
    hide Books, Apart, SocketInv, Delivered;
    if Admits(l, s, data) {
      SubmitBooks(l, s, id, data);
      EverySocket(l, s, w, Submitted(s, id, data));
    }
    RefuseBooks(l, s, id, data);
    if w.conforming { DeliveredMore(s.completed, w.reply, id, Failed); }
    EverySocket(l, s, w, Refused(s, id, data));
  }

  /** Destruction: refuse new requests and post the drain request. */
  function ClosedDown(s: Impl): Impl { s.(closing := true, posted := s.posted + [Drain]) }

  function Draining(s: Impl): Impl
    requires s.posted != []
  {
    Settled(s.(posted := s.posted[1..], draining := true))
  }

  lemma DrainBooks(l: Limits, s: Impl)
    requires Books(l, s)
    ensures !s.closing ==> Books(l, ClosedDown(s)) && Apart(s, ClosedDown(s), |s.sockets|)
    ensures s.posted != [] && s.posted[0] == Drain ==> Books(l, Draining(s)) && Apart(s, Draining(s), |s.sockets|)
  {
    hide Books, Apart;
    if !s.closing { CloseBooks(l, s); }
    if s.posted != [] && s.posted[0] == Drain { DrainedBooks(l, s); }
  }

  lemma CloseBooks(l: Limits, s: Impl)
    requires Books(l, s) && !s.closing
    ensures Books(l, ClosedDown(s)) && Apart(s, ClosedDown(s), |s.sockets|)
  {
    hide Base, TasksOk, Carried, InTurn, Received;
    TaskFacts(l, s);
    CarriedPost(s.requests, s.posted, s.submitted, Drain);
    PostTasks(s.posted, s.closing, s.draining, s.sockets, Drain);
    PostKeeps(s, Drain);
    CloseKeeps(s.(posted := s.posted + [Drain]), true, s.draining);
  }

  lemma DrainedBooks(l: Limits, s: Impl)
    requires Books(l, s) && s.posted != [] && s.posted[0] == Drain
    ensures Books(l, Draining(s)) && Apart(s, Draining(s), |s.sockets|)
  {
    hide Base, TasksOk, Carried, InTurn, Received;
    TaskFacts(l, s);
    CarriedUnpost(s.requests, s.posted, s.submitted);
    UnpostTasks(s.posted, s.closing, s.draining, s.sockets);
    UnpostKeeps(s);
    CloseKeeps(s.(posted := s.posted[1..]), s.closing, true);
    StopKeeps(s.(posted := s.posted[1..], draining := true));
  }

  lemma CloseKeeps(s: Impl, closing: bool, draining: bool)
    requires Base(s) && (s.stopped ==> draining)
    ensures Base(s.(closing := closing, draining := draining))
  {
    hide Slotted, Queued, Timed, ConnectTimed, Accounted, Ledger;
  }

  lemma DrainStep(l: Limits, s: Impl, w: World)
    requires Inv(l, s, w)
    ensures !s.closing ==> Inv(l, ClosedDown(s), w)
    ensures s.posted != [] && s.posted[0] == Drain ==> Inv(l, Draining(s), w)
  {
    hide Books, Apart, SocketInv, Delivered;
    DrainBooks(l, s);
    if !s.closing { EverySocket(l, s, w, ClosedDown(s)); }
    if s.posted != [] && s.posted[0] == Drain { EverySocket(l, s, w, Draining(s)); }
  }

  // ----- The peer -----

  function AnswersWith(p: Peer, id: Id, frame: Bytes): Peer
  {
    p.(owed := p.owed - {id}, line := p.line + [Answer(id, frame)], net := p.net + frame)
  }

  /** A conforming peer answers a request it received, once, with a frame that carries its identifier. */
  function Replied(w: World, i: nat, id: Id, frame: Bytes): World
    requires i < |w.peers|
  {
    SetPeer(w.(reply := w.reply[id := frame]), i, AnswersWith(w.peers[i], id, frame))
  }

  lemma LineGrows(input: Bytes, p: Peer, id: Id, frame: Bytes)
    requires input + p.net == Flatten(Frames(p.line))
    ensures var line := p.line + [Answer(id, frame)];
            input + (p.net + frame) == Flatten(Frames(line)) && LineIds(line) == LineIds(p.line) + [id]
  {
    var line := p.line + [Answer(id, frame)];
    assert Frames(line) == Frames(p.line) + [frame];
    FlattenAppend(Frames(p.line), [frame]);
    assert Flatten([frame]) == frame + Flatten([]) == frame;
    assert input + (p.net + frame) == input + p.net + frame;
  }

  lemma OwesLess(s: Socket, p: Peer, i: nat, r: Requests, id: Id, frame: Bytes)
    requires Owes(s, p, i, r) && id in p.owed && LineIds(p.line + [Answer(id, frame)]) == LineIds(p.line) + [id]
    ensures Owes(s, AnswersWith(p, id, frame), i, r)
  {
    var ids := LineIds(p.line);
    assert forall x :: x in ids + [id] <==> x in ids || x == id;
    assert NoDup(ids + [id]);
    hide NoDup, LineIds;
  }

  lemma PeerReplies(l: Limits, s: Socket, p: Peer, i: nat, r: Requests, reply: map<Id, Bytes>, id: Id, frame: Bytes)
    requires PeerOk(l, s, p, i, r, reply) && s.open && id in p.owed && id !in reply
    requires AnswerOk(l, Answer(id, frame), reply[id := frame])
    ensures PeerOk(l, s, AnswersWith(p, id, frame), i, r, reply[id := frame])
  {
    hide NoDup, LineIds, Frames, Flatten, OutIds, WellFramed, IdOf, Owes;
    LineGrows(s.input, p, id, frame);
    OwesLess(s, p, i, r, id, frame);
    forall b | b in p.line + [Answer(id, frame)] ensures AnswerOk(l, b, reply[id := frame]) {
      assert b in p.line || b == Answer(id, frame);
    }
  }

  lemma ReplyElsewhere(l: Limits, s: Socket, p: Peer, i: nat, r: Requests, reply: map<Id, Bytes>, id: Id, frame: Bytes)
    requires PeerOk(l, s, p, i, r, reply) && id !in reply
    ensures PeerOk(l, s, p, i, r, reply[id := frame])
  {
    hide NoDup, LineIds, Frames, Flatten, OutIds, WellFramed, IdOf, Owes;
  }

  lemma ReplyStep(l: Limits, s: Impl, w: World, i: nat, id: Id, frame: Bytes)
    requires Inv(l, s, w) && w.conforming && i < |s.sockets| && i < |w.peers| && id in w.peers[i].owed && id !in w.reply
    requires AnswerOk(l, Answer(id, frame), w.reply[id := frame])
    ensures Inv(l, s, Replied(w, i, id, frame))
  {
    var v := Replied(w, i, id, frame);
    hide Books, SocketOk, AnswerOk, WireOk;
    assert WorldInv(s, v);
    forall j | 0 <= j < |s.sockets| ensures SocketInv(l, s, v, j) {
      assert SocketInv(l, s, w, j);
      WireOnly(s.sockets[j], w.peers[j], s.sockets[j], v.peers[j], s.submitted);
      hide PeerOk;
      if j == i {
        assert s.sockets[i].open by { OwedIsOpen(l, s.sockets[i], w.peers[i], i, s.requests, w.reply, id); }
        PeerReplies(l, s.sockets[i], w.peers[i], i, s.requests, w.reply, id, frame);
      } else {
        ReplyElsewhere(l, s.sockets[j], w.peers[j], j, s.requests, w.reply, id, frame);
      }
    }
  }

  lemma OwedIsOpen(l: Limits, s: Socket, p: Peer, i: nat, r: Requests, reply: map<Id, Bytes>, id: Id)
    requires PeerOk(l, s, p, i, r, reply) && id in p.owed
    ensures s.open
  {}

  // ----- What a callback may do -----

  /** Nothing is registered anew, and what was completed stays completed as it was. */
  ghost predicate Advances(s: Impl, t: Impl)
    ensures Advances(s, t) ==> |t.sockets| == |s.sockets|
  {
    && |t.sockets| == |s.sockets| && t.requests.Keys <= s.requests.Keys
    && (forall id :: id in s.completed ==> id in t.completed && t.completed[id] == s.completed[id])
    && t.submitted == s.submitted && t.closing == s.closing && t.draining == s.draining
  }

  /** The same, on behalf of socket `i` only. */
  ghost predicate Works(s: Impl, t: Impl, i: nat)
    ensures Works(s, t, i) ==> |t.sockets| == |s.sockets|
  {
    && Advances(s, t) && t.waiting == s.waiting
    && forall j :: 0 <= j < |s.sockets| && j != i ==> t.sockets[j] == s.sockets[j]
  }

  /** Waiting requests may be given to socket `i`; the other sockets stay as they are. */
  ghost predicate Fills(s: Impl, t: Impl, i: nat)
    ensures Fills(s, t, i) ==> |t.sockets| == |s.sockets|
  {
    && Advances(s, t) && |t.waiting| <= |s.waiting|
    && forall j :: 0 <= j < |s.sockets| && j != i ==> t.sockets[j] == s.sockets[j]
  }

  lemma FillsTrans(s: Impl, t: Impl, u: Impl, i: nat)
    requires Fills(s, t, i) && (Fills(t, u, i) || Works(t, u, i))
    ensures Fills(s, u, i)
  {}

  lemma FillsAdvances(s: Impl, t: Impl, i: nat)
    requires Fills(s, t, i) || Works(s, t, i)
    ensures Advances(s, t)
  {}

  lemma AssignedFills(s: Impl, i: nat, ordered: bool)
    requires i < |s.sockets| && s.waiting != [] && s.waiting[0] in s.requests
    ensures Fills(s, Assigned(s, i, ordered), i)
  {
    assert Assigned(s, i, ordered).requests.Keys == s.requests.Keys;
  }

  lemma OpenedWorks(s: Impl, i: nat, connecting: bool)
    requires i < |s.sockets|
    ensures Works(s, Opened(s, i, connecting), i) && Works(s, Established(s, i), i)
  {}

  lemma WorksTrans(s: Impl, t: Impl, u: Impl, i: nat)
    requires Works(s, t, i) && Works(t, u, i)
    ensures Works(s, u, i)
  {}

  lemma AdvancesTrans(s: Impl, t: Impl, u: Impl)
    requires Advances(s, t) && Advances(t, u)
    ensures Advances(s, u)
  {}

  lemma FailingWorks(s: Impl, t: Impl, i: nat)
    requires i < |s.sockets| && Failing(s, t, i)
    ensures Works(s, t, i)
  {}

  lemma LeftWorks(s: Impl, i: nat, c: Socket, id: Id, o: Outcome)
    requires i < |s.sockets| && CanUnregister(SetSocket(s, i, c), id) && id !in s.completed
    requires s.requests[id].slot == Some(i)
    ensures var t := Settled(Left(s, i, c, id, o));
            Works(s, t, i) && id !in t.requests && t.completed == s.completed[id := o]
  {
    hide Drop;
  }

  lemma FailingSettled(s: Impl, t: Impl, i: nat)
    requires i < |s.sockets| && Failing(s, t, i)
    ensures Failing(Settled(s), t, i)
  {}

  lemma StoppedWhenEmpty(s: Impl, t: Impl)
    requires t == s.(stopped := t.stopped) && DrainOk(t)
    ensures t == Settled(s)
  {}
}
