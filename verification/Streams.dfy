/** Per-socket invariants of the client transport, and what a conforming peer owes on each connection. */
module Streams {
  import opened Common
  import opened Framing
  import opened RpcProtocol
  import opened Multiplex
  import opened MultiplexSteps

  datatype Limits = Limits(protocol: Protocol, queueCapacity: nat, queueBytes: nat, maxInflight: nat, maxFrame: nat)

  /** Requests and retired identifiers one socket may carry: one at a time without identifiers. */
  function Window(l: Limits): nat { if l.protocol.Rpc? then l.maxInflight else 1 }

  function FrameLimit(l: Limits): nat { l.maxFrame + (if l.protocol.Rpc? then RPC_HEADER else 0) }

  /** An answer a peer has put on the wire. */
  datatype Answer = Answer(id: Id, frame: Bytes)

  /**
   A peer on one connection: requests received and not answered, answers not yet consumed and their
   bytes in flight; every byte handed to the kernel, the requests that are complete among them, and all
   requests ever given to this connection, in order.
   */
  datatype Peer = Peer(owed: set<Id>, line: seq<Answer>, net: Bytes, wire: Bytes, whole: seq<Out>, given: seq<Id>)

  const FRESH_PEER := Peer({}, [], [], [], [], [])

  function Frames(line: seq<Answer>): (fs: seq<Bytes>)
    ensures |fs| == |line| && forall i :: 0 <= i < |line| ==> fs[i] == line[i].frame
  {
    seq(|line|, i requires 0 <= i < |line| => line[i].frame)
  }

  function LineIds(line: seq<Answer>): (ids: seq<Id>)
    ensures |ids| == |line| && forall i :: 0 <= i < |line| ==> ids[i] == line[i].id
  {
    seq(|line|, i requires 0 <= i < |line| => line[i].id)
  }

  function OutIds(output: seq<Out>): (ids: seq<Id>)
    ensures |ids| == |output| && forall i :: 0 <= i < |output| ==> ids[i] == output[i].id
  {
    seq(|output|, i requires 0 <= i < |output| => output[i].id)
  }

  function OutData(output: seq<Out>): (data: seq<Bytes>)
    ensures |data| == |output| && forall i :: 0 <= i < |output| ==> data[i] == output[i].bytes
  {
    seq(|output|, i requires 0 <= i < |output| => output[i].bytes)
  }

  /** Each item carries the bytes that were submitted under its identifier. */
  ghost predicate Genuine(output: seq<Out>, submitted: map<Id, Bytes>)
  {
    forall o :: o in output ==> o.id in submitted && submitted[o.id] == o.bytes
  }

  // ----- Whatever the peer does -----

  predicate Closed(s: Socket)
  {
    !s.open && !s.connecting && s.input == [] && s.output == [] && s.order == [] && s.sent == 0
    && s.inflight == 0 && s.retired == {} && s.kernel == IDLE_KERNEL
  }

  /** Queued output: the send cursor is inside the first item; registered items are unsent items of this socket. */
  ghost predicate OutputOk(s: Socket, i: nat, r: Requests, done: map<Id, Outcome>)
  {
    && (s.output == [] ==> s.sent == 0) && (s.output != [] ==> s.sent <= |s.output[0].bytes|)
    && NoDup(OutIds(s.output))
    && (forall id :: id in OutIds(s.output) ==> id in r || id in done)
    && (forall id :: id in OutIds(s.output) && id in r ==> r[id].slot == Some(i) && !r[id].sent)
    && (forall id :: id in r && r[id].slot == Some(i) && !r[id].sent ==> id in OutIds(s.output))
  }

  /** Without identifiers the order list names exactly the requests of the socket. */
  ghost predicate OrderOk(l: Limits, s: Socket, i: nat, r: Requests)
  {
    if l.protocol.Rpc? then s.order == []
    else s.retired == {} && |s.order| == s.inflight && forall id :: id in s.order <==> id in InSlot(r, i)
  }

  ghost predicate SocketOk(l: Limits, s: Socket, i: nat, r: Requests, done: map<Id, Outcome>)
  {
    if !s.open then Closed(s)
    else
      && s.inflight + |s.retired| <= Window(l) && s.retired <= done.Keys
      && OrderOk(l, s, i, r) && OutputOk(s, i, r, done)
  }

  /**
   What went out is the completely sent requests, one after the other, and the sent part of the next:
   partial sends neither repeat nor skip nor interleave bytes. Sent and queued together are the requests
   given to the connection, in that order, each with the bytes submitted.
   */
  ghost predicate WireOk(s: Socket, p: Peer, submitted: map<Id, Bytes>)
  {
    if !s.open then p.wire == [] && p.whole == [] && p.given == []
    else
      && p.wire == Flatten(OutData(p.whole))
                   + (if s.output == [] || s.sent > |s.output[0].bytes| then [] else s.output[0].bytes[..s.sent])
      && OutIds(p.whole) + OutIds(s.output) == p.given && Genuine(p.whole, submitted) && Genuine(s.output, submitted)
  }

  // ----- With a conforming peer -----

  /** An answer is one well-formed frame carrying its request's identifier. */
  predicate AnswerOk(l: Limits, a: Answer, reply: map<Id, Bytes>)
  {
    && a.id != 0 && WellFramed(l.protocol, a.frame)
    && |a.frame| <= l.maxFrame + (if l.protocol.Rpc? then 16 else 0)
    && (l.protocol.Rpc? ==> IdOf(a.frame) == a.id) && a.id in reply && reply[a.id] == a.frame
  }

  /** Everything the peer owes or has on the wire is a fully sent request or a retired one, and vice versa. */
  ghost predicate Owes(s: Socket, p: Peer, i: nat, r: Requests)
  {
    && NoDup(LineIds(p.line)) && (forall id :: id in LineIds(p.line) ==> id !in p.owed)
    && (forall id :: id in p.owed || id in LineIds(p.line) <==>
          (id in r && r[id].slot == Some(i) && r[id].sent) || id in s.retired)
  }

  ghost predicate PeerOk(l: Limits, s: Socket, p: Peer, i: nat, r: Requests, reply: map<Id, Bytes>)
  {
    if !s.open then p == FRESH_PEER
    else
      && s.input + p.net == Flatten(Frames(p.line)) && Owes(s, p, i, r)
      && (forall a :: a in p.line ==> AnswerOk(l, a, reply))
      && (forall id :: id in OutIds(s.output) ==> id in r)
  }

  /** Every call that succeeded received the answer to its own request. */
  ghost predicate Delivered(done: map<Id, Outcome>, reply: map<Id, Bytes>)
  {
    forall id :: id in done && done[id].Answered? ==> id in reply && reply[id] == done[id].frame
  }

  /** A response is one frame within the limit, and names its request if it carries identifiers. */
  predicate Proper(l: Limits, id: Id, frame: Bytes)
  {
    && WellFramed(l.protocol, frame) && |frame| <= l.maxFrame + (if l.protocol.Rpc? then 16 else 0)
    && (l.protocol.Rpc? ==> IdOf(frame) == id)
  }

  /** Whatever the peers do, every response delivered is proper. */
  ghost predicate Received(l: Limits, done: map<Id, Outcome>)
  {
    forall id :: id in done && done[id].Answered? ==> Proper(l, id, done[id].frame)
  }

  // ----- Tasks waiting for the loop -----

  /**
   A socket is marked as scheduled exactly while its wake-up is posted, once. The drain request is
   posted once, by closing, and no registration follows it.
   */
  ghost predicate TasksOk(posted: seq<Task>, closing: bool, draining: bool, sockets: seq<Socket>)
  {
    && NoDup(posted)
    && (forall i :: 0 <= i < |sockets| ==> (sockets[i].scheduled <==> Wake(i) in posted))
    && (forall t :: t in posted && t.Wake? ==> t.socket < |sockets|)
    && (Drain in posted <==> closing && !draining) && (draining ==> closing)
    && (draining ==> forall t :: t in posted ==> !t.Register?)
    && (forall a, b :: 0 <= a < b < |posted| && posted[a] == Drain ==> !posted[b].Register?)
  }

  /** What surrounds the transport: the peers, if they conform, and the protocol errors charged to them. */
  datatype World = World(conforming: bool, peers: seq<Peer>, reply: map<Id, Bytes>, faults: nat)

  /** Nothing is sent before it has a socket. */
  ghost predicate Unsent(r: Requests) { forall id :: id in r && r[id].slot.None? ==> !r[id].sent }

  /** What holds of the transport as a whole, whatever its sockets carry. */
  ghost predicate Books(l: Limits, s: Impl)
  {
    && Base(s) && Stamped(s) && DrainOk(s) && Unsent(s.requests) && TasksOk(s.posted, s.closing, s.draining, s.sockets)
    && Carried(s.requests, s.posted, s.submitted) && InTurn(s.requests, s.waiting) && Received(l, s.completed)
    && s.admitted <= l.queueCapacity && s.bytes <= l.queueBytes
  }

  ghost predicate SocketInv(l: Limits, s: Impl, w: World, i: nat)
    ensures SocketInv(l, s, w, i) ==> i < |s.sockets| && i < |w.peers|
  {
    && i < |s.sockets| && i < |w.peers| && SocketOk(l, s.sockets[i], i, s.requests, s.completed)
    && WireOk(s.sockets[i], w.peers[i], s.submitted)
    && (w.conforming ==> PeerOk(l, s.sockets[i], w.peers[i], i, s.requests, w.reply))
  }

  ghost predicate WorldInv(s: Impl, w: World)
  {
    |w.peers| == |s.sockets| && (w.conforming ==> w.faults == 0 && Delivered(s.completed, w.reply))
  }

  /** Everything but socket `i`. */
  ghost predicate Rest(l: Limits, s: Impl, w: World, i: nat)
    ensures Rest(l, s, w, i) ==> i < |s.sockets| == |w.peers|
  {
    && Books(l, s) && WorldInv(s, w) && i < |s.sockets|
    && forall j :: 0 <= j < |s.sockets| && j != i ==> SocketInv(l, s, w, j)
  }

  ghost predicate Inv(l: Limits, s: Impl, w: World)
    ensures Inv(l, s, w) ==> |s.sockets| == |w.peers|
  {
    && Books(l, s) && WorldInv(s, w)
    && forall j :: 0 <= j < |s.sockets| ==> SocketInv(l, s, w, j)
  }

  lemma InvSplit(l: Limits, s: Impl, w: World, i: nat)
    requires i < |s.sockets|
    ensures Inv(l, s, w) <==> Rest(l, s, w, i) && SocketInv(l, s, w, i)
  {
    hide Books, WorldInv, SocketInv;
  }

  // ----- A socket is indifferent to requests of other sockets -----

  /** From the first state to the second nothing changes for socket `j`, and only completed requests left. */
  ghost predicate Keeps(r: Requests, done: map<Id, Outcome>, r2: Requests, done2: map<Id, Outcome>, j: nat)
  {
    && (forall id :: id in r && r[id].slot == Some(j) ==> id in r2 && r2[id] == r[id])
    && (forall id :: id in r2 && r2[id].slot == Some(j) ==> id in r && r[id].slot == Some(j))
    && (forall id :: id in r && id !in r2 ==> id in done2)
    && (forall id :: id in r2 && id !in r ==> id !in done)
    && done.Keys <= done2.Keys
  }

  lemma InSlotKeeps(r: Requests, done: map<Id, Outcome>, r2: Requests, done2: map<Id, Outcome>, j: nat)
    requires Keeps(r, done, r2, done2, j)
    ensures InSlot(r2, j) == InSlot(r, j)
  {}

  lemma SocketIndifferent(l: Limits, s: Socket, j: nat, r: Requests, done: map<Id, Outcome>, r2: Requests,
                          done2: map<Id, Outcome>)
    requires SocketOk(l, s, j, r, done) && Keeps(r, done, r2, done2, j)
    ensures SocketOk(l, s, j, r2, done2)
  {
    InSlotKeeps(r, done, r2, done2, j);
    hide InSlot, NoDup;
  }

  lemma PeerIndifferent(l: Limits, s: Socket, p: Peer, j: nat, r: Requests, done: map<Id, Outcome>,
                        r2: Requests, done2: map<Id, Outcome>, reply: map<Id, Bytes>)
    requires PeerOk(l, s, p, j, r, reply) && Keeps(r, done, r2, done2, j)
    requires s.open ==> OutputOk(s, j, r, done)
    ensures PeerOk(l, s, p, j, r2, reply)
  {
    hide NoDup, AnswerOk, Flatten;
  }

  /** A step that works on socket `i`: the other sockets are the same and keep their requests. */
  ghost predicate Apart(s: Impl, t: Impl, i: nat)
  {
    && |t.sockets| == |s.sockets| && (forall j :: 0 <= j < |s.sockets| && j != i ==> t.sockets[j] == s.sockets[j])
    && (forall id :: id in s.requests && s.requests[id].slot.Some? && s.requests[id].slot != Some(i) ==>
          id in t.requests && t.requests[id] == s.requests[id])
    && (forall id :: id in t.requests && t.requests[id].slot.Some? && t.requests[id].slot != Some(i) ==>
          id in s.requests && s.requests[id].slot == t.requests[id].slot)
    && (forall id :: id in s.requests && id !in t.requests ==> id in t.completed)
    && (forall id :: id in t.requests && id !in s.requests ==> id !in s.completed)
    && s.completed.Keys <= t.completed.Keys
    && (forall id :: id in s.submitted ==> id in t.submitted && t.submitted[id] == s.submitted[id])
  }

  lemma WireGrows(s: Socket, p: Peer, a: map<Id, Bytes>, b: map<Id, Bytes>)
    requires WireOk(s, p, a) && forall id :: id in a ==> id in b && b[id] == a[id]
    ensures WireOk(s, p, b)
  {
    hide Flatten, OutData, OutIds;
  }

  lemma ApartKeeps(s: Impl, t: Impl, i: nat, j: nat)
    requires Apart(s, t, i) && j != i
    ensures Keeps(s.requests, s.completed, t.requests, t.completed, j)
  {}

  lemma SocketInvKeeps(l: Limits, s: Impl, w: World, t: Impl, v: World, i: nat, j: nat)
    requires SocketInv(l, s, w, j) && Apart(s, t, i) && j != i
    requires |v.peers| == |w.peers| && v.peers[j] == w.peers[j] && v.conforming == w.conforming && v.reply == w.reply
    ensures SocketInv(l, t, v, j)
  {
    ApartKeeps(s, t, i, j);
    assert t.sockets[j] == s.sockets[j];
    WireGrows(s.sockets[j], w.peers[j], s.submitted, t.submitted);
    hide WireOk, Apart, Keeps, PeerOk, OutputOk, OrderOk;
    SocketIndifferent(l, s.sockets[j], j, s.requests, s.completed, t.requests, t.completed);
    if w.conforming {
      PeerIndifferent(l, s.sockets[j], w.peers[j], j, s.requests, s.completed, t.requests, t.completed, w.reply);
    }
  }

  /** The environment changed at most what concerns socket `i`. */
  predicate SameWorld(w: World, v: World, i: nat)
  {
    && |v.peers| == |w.peers| && v.conforming == w.conforming && v.reply == w.reply
    && (w.conforming ==> v.faults == w.faults)
    && forall j :: 0 <= j < |w.peers| && j != i ==> v.peers[j] == w.peers[j]
  }

  lemma RestKeeps(l: Limits, s: Impl, w: World, t: Impl, v: World, i: nat)
    requires Rest(l, s, w, i) && Apart(s, t, i) && SameWorld(w, v, i) && Books(l, t)
    requires w.conforming ==> Delivered(t.completed, w.reply)
    ensures Rest(l, t, v, i)
  {
    assert |t.sockets| == |s.sockets| && WorldInv(t, v);
    hide Apart, Books, SocketInv;
    forall j | 0 <= j < |t.sockets| && j != i ensures SocketInv(l, t, v, j) {
      SocketInvKeeps(l, s, w, t, v, i, j);
    }
  }

  // ----- Disconnecting -----

  lemma ClosedIsOk(l: Limits, s: Impl, w: World, i: nat)
    requires i < |s.sockets| && i < |w.peers| && Closed(s.sockets[i]) && w.peers[i] == FRESH_PEER
    ensures SocketInv(l, s, w, i)
  {}

  lemma FailingApart(s: Impl, t: Impl, i: nat)
    requires i < |s.sockets| && Failing(s, t, i) && Base(s) && Base(t)
    ensures Apart(s, t, i)
  {
    hide Slotted, Queued, Timed, ConnectTimed, Accounted;
  }

  lemma FailingDelivers(s: Impl, t: Impl, i: nat, reply: map<Id, Bytes>)
    requires i < |s.sockets| && Failing(s, t, i) && Delivered(s.completed, reply)
    ensures Delivered(t.completed, reply)
  {}

  lemma FailingBooks(l: Limits, s: Impl, t: Impl, i: nat)
    requires i < |s.sockets| && Failing(s, t, i) && Books(l, s) && Base(t) && DrainOk(t)
    ensures Books(l, t)
  {
    hide Base, DrainOk, NoDup;
    assert forall j :: 0 <= j < |s.sockets| ==> t.sockets[j].scheduled == s.sockets[j].scheduled;
    assert forall j :: 0 <= j < |s.sockets| ==> t.sockets[j].connectTimer == s.sockets[j].connectTimer;
  }

  lemma FailingCloses(s: Impl, t: Impl, i: nat)
    requires i < |s.sockets| && Failing(s, t, i) && Base(t) && InSlot(t.requests, i) == {}
    ensures |t.sockets| == |s.sockets| && Closed(t.sockets[i])
  {
    hide Queued, Timed, ConnectTimed, Accounted, Ledger, InSlot;
  }

  /** A disconnect leaves a completely empty slot and does not disturb the other sockets. */
  lemma DisconnectSettles(l: Limits, s: Impl, w: World, t: Impl, v: World, i: nat)
    requires i < |s.sockets| && Rest(l, s, w, i) && Base(t) && DrainOk(t) && Failing(s, t, i)
    requires InSlot(t.requests, i) == {}
    requires SameWorld(w, v, i) && i < |v.peers| && v.peers[i] == FRESH_PEER
    ensures Inv(l, t, v) && |t.sockets| == |s.sockets| && Closed(t.sockets[i])
  {
    hide Base, DrainOk, Apart, Failing, InSlot, Delivered, SocketInv;
    FailingApart(s, t, i);
    FailingBooks(l, s, t, i);
    FailingCloses(s, t, i);
    if w.conforming { FailingDelivers(s, t, i, w.reply); }
    RestKeeps(l, s, w, t, v, i);
    ClosedIsOk(l, t, v, i);
    InvSplit(l, t, v, i);
  }
}
