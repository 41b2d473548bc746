/** Reading responses: what the bytes at the head of a socket's buffer mean for the requests on it. */
module Responses {
  import opened Common
  import opened Framing
  import opened RpcProtocol
  import opened Multiplex
  import opened MultiplexSteps
  import opened Streams
  import opened StreamSteps
  import opened TransportSteps

  lemma RestBase(l: Limits, s: Impl, w: World, i: nat)
    requires Rest(l, s, w, i)
    ensures Base(s) && DrainOk(s)
  {}

  lemma FaultRest(l: Limits, s: Impl, w: World, i: nat, faults: nat)
    requires Rest(l, s, w, i) && !w.conforming
    ensures Rest(l, s, w.(faults := faults), i)
  {
    hide Books, SocketOk;
    var v := w.(faults := faults);
    forall j | 0 <= j < |s.sockets| && j != i ensures SocketInv(l, s, v, j) {
      assert SocketInv(l, s, w, j);
    }
  }

  lemma ValidBase(l: Limits, s: Impl, w: World)
    requires Inv(l, s, w)
    ensures Base(s) && DrainOk(s)
  {}

  lemma GoneStays(s: Impl, t: Impl, u: Impl, i: nat, id: Id)
    requires i < |t.sockets| && Works(s, t, i) && id !in t.requests && id in t.completed && Works(t, u, i)
    ensures id !in u.requests && id in u.completed && u.completed[id] == t.completed[id]
  {}

  lemma WorksSelf(s: Impl, i: nat)
    ensures Works(s, s, i)
  {}

  lemma SetSocketWorks(s: Impl, i: nat, c: Socket)
    requires i < |s.sockets|
    ensures Works(s, SetSocket(s, i, c), i)
  {}

  lemma SocketInvFacts(l: Limits, s: Impl, w: World, i: nat)
    requires SocketInv(l, s, w, i)
    ensures i < |s.sockets| && i < |w.peers| && SocketOk(l, s.sockets[i], i, s.requests, s.completed)
    ensures w.conforming ==> PeerOk(l, s.sockets[i], w.peers[i], i, s.requests, w.reply)
    ensures WireOk(s.sockets[i], w.peers[i], s.submitted)
  {}

  lemma OutputRoom(l: Limits, s: Impl, w: World, i: nat)
    requires Inv(l, s, w) && i < |s.sockets| && s.sockets[i].open && s.sockets[i].output != []
    ensures s.sockets[i].sent <= |s.sockets[i].output[0].bytes|
  {
    assert SocketInv(l, s, w, i);
    hide Books, PeerOk, OrderOk, NoDup;
  }

  function Written(w: World, s: Impl, i: nat, n: nat): World
    requires i < |w.peers| && i < |s.sockets| && s.sockets[i].output != []
    requires s.sockets[i].sent + n <= |s.sockets[i].output[0].bytes|
  {
    var c, p := s.sockets[i], w.peers[i];
    SetPeer(w, i, p.(wire := p.wire + c.output[0].bytes[c.sent..c.sent + n]))
  }

  lemma SentStep(l: Limits, s: Impl, w: World, i: nat, n: nat)
    requires Inv(l, s, w) && i < |s.sockets| && s.sockets[i].open && s.sockets[i].output != []
    requires s.sockets[i].sent + n <= |s.sockets[i].output[0].bytes|
    ensures Inv(l, SetSocket(s, i, s.sockets[i].(sent := s.sockets[i].sent + n)), Written(w, s, i, n))
  {
    hide Inv, SocketOk, PeerOk, WireOk;
    var c, p := s.sockets[i], w.peers[i];
    InvSplit(l, s, w, i);
    SocketInvFacts(l, s, w, i);
    SentMore(l, c, i, s.requests, s.completed, n);
    WireSent(c, p, s.submitted, n);
    var q := Written(w, s, i, n).peers[i];
    assert Written(w, s, i, n) == SetPeer(w, i, q);
    hide Written, SetSocket, SetPeer;
    if w.conforming {
      PeerSentMore(l, c, p, i, s.requests, w.reply, c.sent + n);
      PeerWire(l, c.(sent := c.sent + n), p, i, s.requests, w.reply, q);
    }
    LocalStep(l, s, w, i, c.(sent := c.sent + n), q);
  }

  lemma ReceiveStep(l: Limits, s: Impl, w: World, i: nat, bytes: Bytes, v: World)
    requires Inv(l, s, w) && i < |s.sockets| && s.sockets[i].open && i < |w.peers|
    requires if w.conforming
             then bytes <= w.peers[i].net && v == SetPeer(w, i, w.peers[i].(net := w.peers[i].net[|bytes|..]))
             else v == w
    ensures Inv(l, SetSocket(s, i, s.sockets[i].(input := s.sockets[i].input + bytes)), v)
  {
    hide Inv, SocketOk, PeerOk, WireOk;
    var c := s.sockets[i];
    InvSplit(l, s, w, i);
    SocketInvFacts(l, s, w, i);
    WireOnly(c, w.peers[i], c.(input := c.input + bytes), v.peers[i], s.submitted);
    ReceivedOk(l, c, i, s.requests, s.completed, c.input + bytes);
    if w.conforming {
      assert w.peers[i].net[..|bytes|] == bytes;
      PeerReceived(l, c, w.peers[i], i, s.requests, w.reply, |bytes|);
    }
    LocalStep(l, s, w, i, c.(input := c.input + bytes), v.peers[i]);
    assert SetPeer(w, i, v.peers[i]) == v;
  }

  lemma EmptyNotReady(p: Protocol, limit: nat, b: Bytes)
    requires b == []
    ensures !Ready(p, limit, b)
  {}

  lemma ReadySize(p: Protocol, limit: nat, b: Bytes)
    requires Ready(p, limit, b)
    ensures SizeOf(p, b).Size? && 0 < SizeOf(p, b).n <= |b| && SizeOf(p, b).n >= HeaderSize(p)
  {
    assert SizeOf(p, b).n != 0;
    hide SizeOf;
  }

  lemma NeverBroken(l: Limits, s: Impl, w: World, i: nat)
    requires SocketInv(l, s, w, i) && w.conforming && s.sockets[i].open
    ensures !Broken(l.protocol, FrameLimit(l), s.sockets[i].input)
  {
    hide Ready, Broken, SizeOf, SocketOk, PeerOk;
    NextAnswer(l, s.sockets[i], w.peers[i], i, s.requests, w.reply);
  }

  /** The identifier a response is matched by: its own, or the oldest outstanding one. */
  function ResponseId(l: Limits, c: Socket, n: nat): Id
    requires n <= |c.input|
  {
    if l.protocol.Rpc? then IdOf(c.input[..n]) else if c.order == [] then 0 else c.order[0]
  }

  /** A late answer to a request that timed out on this socket. */
  predicate Late(l: Limits, c: Socket, n: nat)
    requires n <= |c.input|
  {
    l.protocol.Rpc? && ResponseId(l, c, n) != 0 && ResponseId(l, c, n) in c.retired
  }

  /** A response to a request registered on socket `i`. */
  predicate Known(l: Limits, s: Impl, i: nat, n: nat)
    requires i < |s.sockets| && n <= |s.sockets[i].input|
  {
    var id := ResponseId(l, s.sockets[i], n);
    (l.protocol.Rpc? ==> id != 0) && id in s.requests && s.requests[id].slot == Some(i)
  }

  /** A late answer only frees its place; a known one is delivered; any other costs the connection. */
  ghost predicate Matches(l: Limits, s: Impl, t: Impl, i: nat, n: nat, alive: bool)
  {
    && i < |s.sockets| && n <= |s.sockets[i].input|
    && var c := s.sockets[i];
       var id := ResponseId(l, c, n);
       if Late(l, c, n) then t == SetSocket(s, i, c.(input := c.input[n..], retired := c.retired - {id}))
       else if Known(l, s, i, n) then id in t.completed && t.completed[id] == Answered(c.input[..n])
       else !alive
  }

  /** The first answer on the wire is for `id` and is the first `n` bytes of the buffer. */
  ghost predicate Answers(c: Socket, p: Peer, n: nat, id: Id, reply: map<Id, Bytes>)
  {
    && p.line != [] && p.line[0].id == id && n <= |c.input| && id in reply && reply[id] == c.input[..n]
    && c.input[n..] + p.net == Flatten(Frames(p.line[1..]))
  }

  /** A complete frame at the head of the buffer is a proper response to the request it names. */
  lemma HeadIsProper(l: Limits, c: Socket, n: nat)
    requires Ready(l.protocol, FrameLimit(l), c.input) && SizeOf(l.protocol, c.input) == Size(n) && n <= |c.input|
    ensures Proper(l, ResponseId(l, c, n), c.input[..n])
  {
    ReadySize(l.protocol, FrameLimit(l), c.input);
    assert c.input == c.input[..n] + c.input[n..];
    SizeStable(l.protocol, c.input[..n], c.input[n..]);
    hide SizeOf, IdOf;
  }

  /** With a conforming peer the identifier found is that of a request sent on this socket, or a retired one. */
  lemma Matched(l: Limits, s: Impl, w: World, i: nat, n: nat)
    requires SocketInv(l, s, w, i) && w.conforming && s.sockets[i].open
    requires Ready(l.protocol, FrameLimit(l), s.sockets[i].input) && SizeOf(l.protocol, s.sockets[i].input) == Size(n)
    requires n <= |s.sockets[i].input|
    ensures Answers(s.sockets[i], w.peers[i], n, ResponseId(l, s.sockets[i], n), w.reply)
    ensures Late(l, s.sockets[i], n) || Known(l, s, i, n)
  {
    hide Ready, Broken, SizeOf, SocketOk, PeerOk, IdOf, Flatten, Frames, WellFramed;
    NextAnswer(l, s.sockets[i], w.peers[i], i, s.requests, w.reply);
    AnswerIsOurs(l, s.sockets[i], w.peers[i], i, s.requests, w.reply);
    if l.protocol.Kv? { AnswerInOrder(l, s.sockets[i], w.peers[i], i, s.requests, s.completed, w.reply); }
  }

  lemma LateStep(l: Limits, s: Impl, w: World, i: nat, n: nat, id: Id)
    requires Inv(l, s, w) && i < |s.sockets| && s.sockets[i].open && id in s.sockets[i].retired
    requires n <= |s.sockets[i].input| && i < |w.peers|
    requires w.conforming ==> Answers(s.sockets[i], w.peers[i], n, id, w.reply)
    ensures var c, p := s.sockets[i], w.peers[i];
            && (w.conforming ==> p.line != [])
            && Inv(l, SetSocket(s, i, c.(input := c.input[n..], retired := c.retired - {id})),
                   if w.conforming then SetPeer(w, i, p.(line := p.line[1..])) else w)
  {
    hide Inv, SocketOk, PeerOk, WireOk, Flatten, Frames, Books;
    var c, p := s.sockets[i], w.peers[i];
    InvSplit(l, s, w, i);
    SocketInvFacts(l, s, w, i);
    RetiredUnregistered(l, s, i);
    LateAnswer(l, c, i, s.requests, s.completed, id, c.input[n..]);
    var d := c.(input := c.input[n..], retired := c.retired - {id});
    WireOnly(c, p, d, p, s.submitted);
    if w.conforming {
      WireOnly(c, p, d, p.(line := p.line[1..]), s.submitted);
      PeerLateAnswer(l, c, p, i, s.requests, w.reply, n);
      LocalStep(l, s, w, i, d, p.(line := p.line[1..]));
    } else {
      LocalStep(l, s, w, i, d, p);
      assert SetPeer(w, i, p) == w;
    }
  }

  /** What `FinishOn` needs to deliver the frame at the head of the buffer. */
  lemma MatchStep(l: Limits, s: Impl, w: World, i: nat, n: nat, id: Id)
    requires Inv(l, s, w) && i < |s.sockets| && s.sockets[i].open && i < |w.peers| && n <= |s.sockets[i].input|
    requires id in s.requests && s.requests[id].slot == Some(i)
    requires l.protocol.Kv? ==> id == if s.sockets[i].order == [] then 0 else s.sockets[i].order[0]
    requires w.conforming ==> Answers(s.sockets[i], w.peers[i], n, id, w.reply)
    ensures var c, p, r := s.sockets[i], w.peers[i], s.requests - {id};
            var d := c.(input := c.input[n..], order := TailOrder(l, c));
            && c.inflight > 0 && (w.conforming ==> p.line != [])
            && SocketOk(l, d.(inflight := c.inflight - 1), i, r, s.completed[id := Answered(c.input[..n])])
            && (w.conforming ==> PeerOk(l, d.(inflight := c.inflight - 1), p.(line := p.line[1..]), i, r, w.reply))
            && WireOk(d.(inflight := c.inflight - 1), if w.conforming then p.(line := p.line[1..]) else p, s.submitted)
  {
    hide Inv, SocketOk, PeerOk, WireOk, Flatten, Frames, Books, InSlot;
    var c, p := s.sockets[i], w.peers[i];
    InvSplit(l, s, w, i);
    SocketInvFacts(l, s, w, i);
    RetiredUnregistered(l, s, i);
    SlotMembers(s.requests, i);
    assert id in InSlot(s.requests, i) && c.inflight > 0;
    if l.protocol.Kv? { OrderNames(l, s, w, i, id); }
    WireOnly(c, p, c.(input := c.input[n..], order := TailOrder(l, c), inflight := c.inflight - 1),
             if w.conforming then p.(line := p.line[1..]) else p, s.submitted);
    AnsweredOk(l, c, i, s.requests, s.completed, id, c.input[n..], Answered(c.input[..n]));
    if w.conforming { PeerAnswered(l, c, p, i, s.requests, s.completed, w.reply, n); }
  }

  lemma OrderNames(l: Limits, s: Impl, w: World, i: nat, id: Id)
    requires SocketInv(l, s, w, i) && l.protocol.Kv? && s.sockets[i].open && id in InSlot(s.requests, i)
    ensures s.sockets[i].order != []
  {
    hide OutputOk, PeerOk, WireOk, InSlot;
    assert id in s.sockets[i].order;
  }

  lemma MarkedWorks(s: Impl, id: Id, i: nat)
    ensures Works(s, MarkedIfAny(s, id), i)
  {
    assert MarkedIfAny(s, id).requests.Keys == s.requests.Keys;
  }

  lemma FlushedWorks(s: Impl, i: nat)
    requires i < |s.sockets| && s.sockets[i].output != []
    ensures Works(s, Flushed(s, i), i) && Flushed(s, i).sockets[i] == Popped(s.sockets[i])
    ensures var id := s.sockets[i].output[0].id; Flushed(s, i).requests == MarkedIfAny(s, id).requests
  {
    hide Works, MarkedIfAny;
    var c, m := s.sockets[i], MarkedIfAny(s, s.sockets[i].output[0].id);
    MarkedWorks(s, s.sockets[i].output[0].id, i);
    SetSocketWorks(m, i, Popped(c));
    WorksTrans(s, m, Flushed(s, i), i);
  }

  /** The peers may have moved; whether they conform and what they replied has not changed. */
  predicate SameRules(w: World, v: World) { v.conforming == w.conforming && v.reply == w.reply }

  lemma SameWorldRules(w: World, v: World, i: nat)
    requires SameWorld(w, v, i)
    ensures SameRules(w, v)
  {}

  lemma SameWorldTrans(w: World, v: World, u: World, i: nat)
    requires SameWorld(w, v, i) && SameWorld(v, u, i)
    ensures SameWorld(w, u, i)
  {}

  lemma WorksWaiting(s: Impl, t: Impl, i: nat)
    requires Works(s, t, i)
    ensures t.waiting == s.waiting
  {}

  lemma FillsSelf(s: Impl, i: nat)
    ensures Fills(s, s, i)
  {}

  lemma AdvancesSelf(s: Impl)
    ensures Advances(s, s)
  {}

  lemma OthersStay(s: Impl, t: Impl, i: nat)
    requires Fills(s, t, i)
    ensures |t.sockets| == |s.sockets| && forall j :: 0 <= j < |s.sockets| && j != i ==> t.sockets[j] == s.sockets[j]
    ensures s.waiting == [] ==> t.waiting == []
  {}

  lemma SetPeerSame(w: World, i: nat, p: Peer)
    requires i < |w.peers|
    ensures SameWorld(w, SetPeer(w, i, p), i) && SameWorld(w, w, i)
  {}

  /** Sending has stopped for a reason: nothing is left, the kernel is full, or a wake-up is posted. */
  predicate SendPaused(c: Socket) { c.output == [] || c.kernel.full || c.scheduled }

  /** Unsent output waits for the kernel, which is asked to report room, or for a posted wake-up. */
  predicate SendAttended(c: Socket) { c.output == [] || (c.kernel.full && c.kernel.watching) || c.scheduled }

  /**
   No connection is forgotten: an edge-triggered loop reports a change only after the kernel refused,
   so whoever stops earlier must have posted a wake-up.
   */
  predicate Attended(c: Socket)
  {
    c.open && !c.connecting ==> SendAttended(c) && (c.kernel.dry || c.scheduled)
  }

  ghost predicate AllAttended(s: Impl) { forall j :: 0 <= j < |s.sockets| ==> Attended(s.sockets[j]) }

  /** All but socket `i`. */
  ghost predicate OthersAttended(s: Impl, i: nat)
  {
    forall j :: 0 <= j < |s.sockets| && j != i ==> Attended(s.sockets[j])
  }

  /** Matching responses does not touch the sending side. */
  predicate SameSending(c: Socket, d: Socket)
  {
    d.open == c.open && d.connecting == c.connecting && d.scheduled == c.scheduled && d.output == c.output
    && d.sent == c.sent && d.kernel == c.kernel
  }

  lemma WorksAttended(s: Impl, t: Impl, i: nat)
    requires (Works(s, t, i) || Fills(s, t, i)) && OthersAttended(s, i)
    ensures OthersAttended(t, i)
    ensures i < |t.sockets| && Attended(t.sockets[i]) ==> AllAttended(t)
  {
    hide Attended, Advances;
  }

  lemma WokenAttended(s: Impl, i: nat)
    requires i < |s.sockets| && s.posted != [] && AllAttended(s)
    ensures OthersAttended(Woken(s, i), i)
  {
    hide Attended;
  }

  lemma SameAttended(s: Impl, t: Impl)
    requires t.sockets == s.sockets
    ensures AllAttended(s) ==> AllAttended(t)
  {}

  lemma ClosedAttended(c: Socket)
    requires Closed(c)
    ensures Attended(c) && !c.open
  {}

  /** No more requests fit on the socket. */
  predicate Busy(l: Limits, c: Socket) { c.inflight + |c.retired| >= Window(l) }

  /** After dispatching, a request waits only while every socket is at its limit. */
  ghost predicate Saturated(l: Limits, s: Impl)
  {
    s.waiting == [] || forall j :: 0 <= j < |s.sockets| ==>
      s.sockets[j].inflight + |s.sockets[j].retired| >= if l.protocol.Rpc? then l.maxInflight else 1
  }

  /** Registered requests sit on open sockets. */
  lemma SlotIsOpen(l: Limits, s: Impl, w: World, id: Id, i: nat)
    requires Inv(l, s, w) && id in s.requests && s.requests[id].slot == Some(i)
    ensures i < |s.sockets| && s.sockets[i].open && s.sockets[i].inflight > 0
  {
    SlotInRange(s, id, i);
    assert SocketInv(l, s, w, i);
    SlotMembers(s.requests, i);
    hide Queued, Timed, ConnectTimed, Accounted, Ledger, TasksOk, PeerOk, InSlot, OutputOk, OrderOk;
    assert id in InSlot(s.requests, i);
  }

  lemma SlotInRange(s: Impl, id: Id, i: nat)
    requires Base(s) && id in s.requests && s.requests[id].slot == Some(i)
    ensures i < |s.sockets|
  {
    hide Queued, Timed, ConnectTimed, Accounted, Ledger, InSlot;
  }

  /** What `FinishOn` needs to retire a request that is on the wire. */
  lemma RetireStep(l: Limits, s: Impl, w: World, i: nat, id: Id)
    requires Inv(l, s, w) && i < |s.sockets| && id in s.requests && s.requests[id].slot == Some(i)
    requires s.requests[id].sent
    requires l.protocol.Rpc? && s.sockets[i].inflight > 0
    ensures var c, p, r := s.sockets[i], w.peers[i], s.requests - {id};
            var d := c.(retired := c.retired + {id}).(inflight := c.inflight - 1);
            && SocketOk(l, d, i, r, s.completed[id := Failed]) && WireOk(d, p, s.submitted)
            && (w.conforming ==> PeerOk(l, d, p, i, r, w.reply))
  {
    hide Inv, SocketOk, PeerOk, WireOk, Books, InSlot, Base;
    var c, p := s.sockets[i], w.peers[i];
    SlotIsOpen(l, s, w, id, i);
    InvSplit(l, s, w, i);
    SocketInvFacts(l, s, w, i);
    RetiredUnregistered(l, s, i);
    assert id !in s.completed by { ValidBase(l, s, w); Unregisterable(s, id); }
    RetiredOk(l, c, i, s.requests, s.completed, id);
    WireOnly(c, p, c.(retired := c.retired + {id}).(inflight := c.inflight - 1), p, s.submitted);
    if w.conforming { PeerRetired(l, c, p, i, s.requests, s.completed, w.reply, id); }
  }

  /** A disconnect fails every request of the socket. */
  lemma DisconnectFails(s: Impl, t: Impl, i: nat, id: Id)
    requires Base(s) && Base(t) && i < |s.sockets| && Failing(s, t, i) && InSlot(t.requests, i) == {}
    requires id in s.requests && s.requests[id].slot == Some(i)
    ensures id !in t.requests && id in t.completed && t.completed[id] == Failed
  {
    SlotMembers(t.requests, i);
    hide Slotted, Queued, Timed, ConnectTimed, Accounted, InSlot, NoDup, PostedIds;
  }

  lemma WaitingExpired(s: Impl, id: Id)
    requires CanUnregister(s, id) && s.requests[id].slot.None? && id !in s.completed
    ensures var t := Settled(Unregister(s, id, Failed));
            Advances(s, t) && id !in t.requests && t.sockets == s.sockets && t.completed == s.completed[id := Failed]
  {
    hide Drop;
  }

  /** What a deadline does to the sockets: retire on the wire, close otherwise, nothing for a waiting request. */
  ghost predicate Expired(l: Limits, s: Impl, t: Impl, id: Id)
  {
    && id in s.requests && |t.sockets| == |s.sockets|
    && match s.requests[id].slot
       case None => t.sockets == s.sockets
       case Some(i) =>
         && i < |s.sockets|
         && (var c := s.sockets[i];
             || Closed(t.sockets[i])
             || (l.protocol.Rpc? && s.requests[id].sent && c.inflight > 0
                 && t.sockets[i] == c.(retired := c.retired + {id}, inflight := c.inflight - 1)))
  }

  lemma StaysGone(s: Impl, t: Impl, id: Id)
    requires Advances(s, t) && id !in s.requests && id in s.completed
    ensures id !in t.requests && id in t.completed && t.completed[id] == s.completed[id]
  {}

  /** A response its request rejects: the request is finished all the same, and the connection goes. */
  lemma RejectedSettles(l: Limits, s: Impl, left: Impl, w: World, t: Impl, i: nat, id: Id, o: Outcome)
    requires i < |s.sockets| && Works(s, Settled(left), i) && Inv(l, Settled(left), w) && i < |left.sockets|
    requires id !in left.requests && id in left.completed && left.completed[id] == o
    requires Failing(left, t, i) && InSlot(t.requests, i) == {} && Base(t) && DrainOk(t)
    ensures i < |w.peers| && Inv(l, t, SetPeer(w, i, FRESH_PEER)) && Works(s, t, i) && i < |t.sockets|
    ensures Closed(t.sockets[i])
    ensures id !in t.requests && id in t.completed && t.completed[id] == o
  {
    hide Inv, Rest, Works, Failing, InSlot, Base, DrainOk, Closed, SocketInv;
    var m := Settled(left);
    FailingSettled(left, t, i);
    InvSplit(l, m, w, i);
    SetPeerSame(w, i, FRESH_PEER);
    DisconnectSettles(l, m, w, t, SetPeer(w, i, FRESH_PEER), i);
    FailingWorks(m, t, i);
    WorksTrans(s, m, t, i);
    GoneStays(s, m, t, i, id);
  }
}
