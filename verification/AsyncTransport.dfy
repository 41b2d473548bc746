/**
 The asynchronous client: one loop drives several sockets, requests are matched to responses by
 identifier (RPC) or by order (KV), every request carries a deadline, and a failing socket fails
 all requests assigned to it.
 */
module AsyncTransports {
  import opened Common
  import opened Framing
  import opened RpcProtocol
  import opened Multiplex
  import opened MultiplexSteps
  import opened Streams
  import opened StreamSteps
  import opened TransportSteps
  import opened Responses
  import opened TransportTheorems

  const IO_BUDGET: nat := 256 * 1024
  const READ_CHUNK: nat := 16384

  /** What the kernel says to `send` and `recv`; interrupted calls are simply repeated. */
  datatype Sending = Moved(n: nat) | Full | SendFailed
  datatype Receiving = Data(bytes: Bytes) | Empty | Eof | ReceiveFailed

  /** What may happen to the transport from outside. */
  datatype Event =
    | Submits(id: Id, data: Bytes)
    | Runs                                        // the loop runs a posted task
    | Fires(timer: nat)                           // a deadline passes
    | Becomes(socket: nat)                        // a socket becomes ready
    | Replies(socket: nat, id: Id, frame: Bytes)  // a conforming peer answers
    | Closes

  class AsyncTransport {
    const limits: Limits
    var impl: Impl
    var world: World  // the peers; the program itself never looks at them

    ghost predicate Valid()
      reads this
    {
      Inv(limits, impl, world)
    }

    /** Calls a completion; `false` says the response violates the application protocol. */
    method Complete(id: Id, outcome: Outcome) returns (valid: bool)
      requires id !in impl.completed
      modifies this`impl
      ensures impl == old(impl).(completed := old(impl).completed[id := outcome])
    {
      impl := impl.(completed := impl.completed[id := outcome]);
      valid := *;
    }

    /** Takes one request off the books and runs its completion. */
    method Detach(id: Id, outcome: Outcome) returns (valid: bool)
      requires id !in impl.completed && CanUnregister(impl, id)
      modifies this`impl
      ensures impl == Unregister(old(impl), id, outcome)
      ensures impl.requests == old(impl).requests - {id} && |impl.sockets| == |old(impl).sockets|
      ensures impl.draining == old(impl).draining
    {
      hide Drop;
      var request := impl.requests[id];
      impl := impl.(
        requests := impl.requests - {id}, timers := impl.timers - {request.timer},
        sockets := if request.slot.Some?
                   then impl.sockets[request.slot.value :=
                          impl.sockets[request.slot.value].(inflight := impl.sockets[request.slot.value].inflight - 1)]
                   else impl.sockets,
        waiting := if request.slot.Some? then impl.waiting else Drop(impl.waiting, id),
        admitted := impl.admitted - 1, bytes := impl.bytes - |request.bytes|);
      valid := Complete(id, outcome);
    }

    /**
     Finishes one request. A completion that rejects its response costs the whole socket, which
     fails every other request on it; finishing an unknown request does nothing.
     */
    method Finish(id: Id, outcome: Outcome) returns (valid: bool)
      requires Base(impl)
      modifies this`impl
      ensures Base(impl)
      ensures id !in old(impl).requests ==> impl == old(impl)
      ensures id in old(impl).requests ==> DrainOk(impl) && CanUnregister(old(impl), id)
      ensures id in old(impl).requests && (valid || old(impl).requests[id].slot.None?) ==>
                impl == Unregister(old(impl), id, outcome).(stopped := impl.stopped)
      ensures id in old(impl).requests && !valid && old(impl).requests[id].slot.Some? ==>
                var i := old(impl).requests[id].slot.value;
                i < |old(impl).sockets| && InSlot(impl.requests, i) == {}
                && Failing(Unregister(old(impl), id, outcome), impl, i)
      decreases |impl.requests|, 0
    {
      hide Base, InSlot, Failing, Unregister;
      valid := true;
      if id !in impl.requests {
        return;
      }
      ghost var start := impl;
      UnregisterKeeps(impl, id, outcome);
      var request := impl.requests[id];
      SmallerMap(impl.requests, id);
      valid := Detach(id, outcome);
      if !valid && request.slot.Some? {
        Disconnect(request.slot.value);
      }
      StopKeeps(impl);
      if impl.draining && impl.requests == map[] {
        ghost var before := impl;
        if !valid && request.slot.Some? {
          FailingStop(Unregister(start, id, outcome), impl, request.slot.value);
        }
        impl := impl.(stopped := true);
      }
    }

    /** Drops the connection of one socket and fails every request assigned to it. */
    method Disconnect(i: nat)
      requires Base(impl) && i < |impl.sockets|
      modifies this`impl
      ensures Base(impl) && Failing(old(impl), impl, i) && InSlot(impl.requests, i) == {}
      ensures InSlot(old(impl).requests, i) != {} || DrainOk(old(impl)) ==> DrainOk(impl)
      decreases |impl.requests|, 2
    {
      hide Base, Failing, InSlot;
      CloseSocketKeeps(impl, i);
      CloseSocketFails(impl, i);
      ghost var start := impl;
      impl := impl.(
        sockets := impl.sockets[i := Reset(impl.sockets[i])], timers := impl.timers - {impl.sockets[i].connectTimer});
      var failed := InSlot(impl.requests, i);
      ghost var all := failed;
      assert forall id :: id in all ==> id in start.requests && start.requests[id].slot == Some(i) by {
        SlotMembers(start.requests, i);
      }
      while failed != {}
        invariant Base(impl) && Failing(start, impl, i) && failed <= all
        invariant InSlot(impl.requests, i) <= failed && |impl.requests| <= |start.requests|
        invariant failed == all ==> impl == CloseSocket(start, i)
        invariant failed != all ==> DrainOk(impl)
        decreases failed
      {
        var id :| id in failed;
        failed := failed - {id};
        FinishOne(start, i, id);
      }
    }

    /** One turn of the loop that fails the requests of a closed socket. */
    method FinishOne(ghost start: Impl, i: nat, id: Id)
      requires Base(impl) && i < |start.sockets| && Failing(start, impl, i)
      requires id in start.requests && start.requests[id].slot == Some(i)
      modifies this`impl
      ensures Base(impl) && Failing(start, impl, i)
      ensures InSlot(impl.requests, i) <= InSlot(old(impl).requests, i) - {id}
      ensures |impl.requests| <= |old(impl).requests|
      ensures id in old(impl).requests || DrainOk(old(impl)) ==> DrainOk(impl)
      decreases |impl.requests|, 1
    {
      hide Base, DrainOk, Failing, InSlot;
      ghost var before := impl;
      FailingFacts(start, before, i);
      SlotMembers(before.requests, i);
      if id in before.requests {
        UnregisterKeeps(before, id, Failed);
        FailingUnregister(start, before, i, id);
        SmallerMap(before.requests, id);
        InSlotRemove(before.requests, id, i);
      }
      var valid := Finish(id, Failed);
      if id in before.requests {
        ghost var mid := Unregister(before, id, Failed);
        if valid {
          FailingStop(start, mid, i);
        } else {
          FailingFacts(mid, impl, i);
          FailingTrans(start, mid, impl, i);
        }
      }
    }

    // ----- Sockets -----

    /** Closes socket `i` for good reason: its slot ends up completely empty. */
    method Teardown(i: nat)
      requires Rest(limits, impl, world, i)
      modifies this
      ensures Valid() && Works(old(impl), impl, i) && Closed(impl.sockets[i]) && SameWorld(old(world), world, i)
      ensures forall id :: id in old(impl).requests && old(impl).requests[id].slot == Some(i) ==>
                id !in impl.requests && id in impl.completed && impl.completed[id] == Failed
    {
      hide Books, SocketInv, Failing, InSlot, Works, Closed, Base, DrainOk;
      ghost var start, before := impl, world;
      RestBase(limits, impl, world, i);
      Disconnect(i);
      FailingWorks(start, impl, i);
      forall id | id in start.requests && start.requests[id].slot == Some(i)
        ensures id !in impl.requests && id in impl.completed && impl.completed[id] == Failed
      {
        DisconnectFails(start, impl, i, id);
      }
      world := SetPeer(world, i, FRESH_PEER);
      DisconnectSettles(limits, start, before, impl, world, i);
    }

    /** A response that breaks the protocol: only a peer that does not conform gets here. */
    method Fault(i: nat)
      requires Rest(limits, impl, world, i) && !world.conforming
      modifies this
      ensures Valid() && Works(old(impl), impl, i) && Closed(impl.sockets[i]) && SameWorld(old(world), world, i)
    {
      hide Books, SocketInv, Works, Closed;
      FaultRest(limits, impl, world, i, world.faults + 1);
      world := world.(faults := world.faults + 1);
      Teardown(i);
    }

    method Schedule(i: nat)
      requires Valid() && i < |impl.sockets|
      modifies this`impl
      ensures Valid() && Works(old(impl), impl, i)
      ensures impl.sockets[i] == old(impl).sockets[i].(scheduled := true)
    {
      hide Inv;
      if impl.sockets[i].scheduled {
        return;
      }
      ScheduleStep(limits, impl, world, i);
      impl := SetSocket(impl, i, impl.sockets[i].(scheduled := true));
      impl := impl.(posted := impl.posted + [Wake(i)]);
    }

    /** Finishes a request of socket `i` after the socket's stream changed to `c`. */
    method FinishOn(i: nat, c: Socket, p: Peer, id: Id, o: Outcome) returns (valid: bool)
      requires Valid() && i < |impl.sockets| && SameBooks(impl.sockets[i], c)
      requires c.scheduled == impl.sockets[i].scheduled
      requires id in impl.requests && impl.requests[id].slot == Some(i) && c.inflight > 0 && i < |world.peers|
      requires SocketOk(limits, c.(inflight := c.inflight - 1), i, impl.requests - {id}, impl.completed[id := o])
      requires world.conforming ==>
                 PeerOk(limits, c.(inflight := c.inflight - 1), p, i, impl.requests - {id}, world.reply)
      requires world.conforming && o.Answered? ==> id in world.reply && world.reply[id] == o.frame
      requires WireOk(c.(inflight := c.inflight - 1), p, impl.submitted)
      requires o.Answered? ==> Proper(limits, id, o.frame)
      modifies this
      ensures Valid() && Works(old(impl), impl, i) && SameWorld(old(world), world, i) && id !in impl.requests
      ensures id in impl.completed && impl.completed[id] == o
      ensures valid ==> impl.sockets[i] == c.(inflight := c.inflight - 1)
      ensures !valid ==> Closed(impl.sockets[i])
    {
      hide Inv, SocketOk, PeerOk, WireOk, Base, DrainOk, Failing, InSlot, Works, Closed, Drop, Settled, CanUnregister;
      ghost var start, before := impl, world;
      LeaveStep(limits, impl, world, i, c, p, id, o);
      LeftWorks(impl, i, c, id, o);
      assert Base(SetSocket(impl, i, c)) by { ValidBase(limits, impl, world); SetSocketKeeps(impl, i, c); }
      ghost var left := Left(impl, i, c, id, o);
      impl := SetSocket(impl, i, c);
      valid := Finish(id, o);
      world := SetPeer(world, i, p);
      if valid {
        StoppedWhenEmpty(left, impl);
      } else {
        RejectedSettles(limits, start, left, world, impl, i, id, o);
        world := SetPeer(world, i, FRESH_PEER);
      }
    }

    // ----- Sending -----

    /** One `send` of at most `room` bytes. */
    method Send(room: nat) returns (r: Sending)
      ensures r.Moved? ==> 0 < r.n <= room
    {
      var n: nat := *;
      var blocked: bool := *;
      r := if 0 < n <= room then Moved(n) else if blocked then Full else SendFailed;
    }

    /** Sends what the budget and the kernel allow; `false` says the connection is gone. */
    method SendQueued(i: nat) returns (alive: bool)
      requires Valid() && i < |impl.sockets| && impl.sockets[i].open
      modifies this
      ensures Valid() && Works(old(impl), impl, i) && SameWorld(old(world), world, i)
      ensures alive ==> impl.sockets[i].open && SendPaused(impl.sockets[i])
      ensures alive ==> impl.sockets[i].connecting == old(impl).sockets[i].connecting
      ensures !alive ==> Closed(impl.sockets[i])
    {
      hide Inv, Works, Closed;
      ghost var start, before := impl, world;
      var budget := IO_BUDGET;
      assert Works(start, impl, i) by { WorksSelf(impl, i); }
      while impl.sockets[i].output != [] && budget > 0
        invariant Valid() && i < |impl.sockets| == |start.sockets| && Works(start, impl, i)
        invariant SameWorld(before, world, i)
        invariant impl.sockets[i].open && impl.sockets[i].connecting == start.sockets[i].connecting
        decreases budget
      {
        OutputRoom(limits, impl, world, i);
        var c := impl.sockets[i];
        var r := Send(Min(budget, |c.output[0].bytes| - c.sent));
        match r {
          case Moved(n) =>
            budget := budget - n;
            Advance(start, i, n);
          case Full =>
            var kernel := c.kernel.(full := true);
            KernelStep(limits, impl, world, i, kernel);
            SetSocketWorks(impl, i, c.(kernel := kernel));
            WorksTrans(start, impl, SetSocket(impl, i, c.(kernel := kernel)), i);
            impl := SetSocket(impl, i, c.(kernel := kernel));
            break;
          case SendFailed =>
            alive := false;
            InvSplit(limits, impl, world, i);
            ghost var mid := impl;
            Teardown(i);
            WorksTrans(start, mid, impl, i);
            return;
        }
      }
      alive := true;
      if budget == 0 && impl.sockets[i].output != [] {
        ghost var mid := impl;
        Schedule(i);
        WorksTrans(start, mid, impl, i);
      }
    }

    /** The kernel took `n` more bytes of the first queued request. */
    method Advance(ghost start: Impl, i: nat, n: nat)
      requires Valid() && i < |impl.sockets| && impl.sockets[i].open && impl.sockets[i].output != []
      requires impl.sockets[i].sent + n <= |impl.sockets[i].output[0].bytes| && Works(start, impl, i)
      modifies this
      ensures Valid() && |impl.sockets| == |old(impl).sockets| && Works(start, impl, i)
      ensures SameWorld(old(world), world, i)
      ensures var c := old(impl).sockets[i];
              if c.sent + n < |c.output[0].bytes| then impl.sockets[i] == c.(sent := c.sent + n)
              else impl.sockets[i] == Popped(c)
                   && (c.output[0].id in impl.requests ==> impl.requests[c.output[0].id].sent)
    {
      hide Inv, Works, SameWorld, Flushed;
      var c := impl.sockets[i].(sent := impl.sockets[i].sent + n);
      SentStep(limits, impl, world, i, n);
      var written := world.peers[i].(wire := world.peers[i].wire + c.output[0].bytes[c.sent - n..c.sent]);
      SetPeerSame(world, i, written);
      world := SetPeer(world, i, written);
      SetSocketWorks(impl, i, c);
      WorksTrans(start, impl, SetSocket(impl, i, c), i);
      impl := SetSocket(impl, i, c);
      if c.sent == |c.output[0].bytes| {
        FlushStep(limits, impl, world, i);
        FlushedWorks(impl, i);
        WorksTrans(start, impl, Flushed(impl, i), i);
        var peer := written.(owed := written.owed + {c.output[0].id}, whole := written.whole + [c.output[0]]);
        SetPeerSame(old(world), i, peer);
        assert SetPeer(old(world), i, peer) == SetPeer(world, i, peer);
        world := SetPeer(world, i, peer);
        impl := Flushed(impl, i);
      }
    }

    // ----- Receiving -----

    /** One `recv`; a conforming peer's bytes come off the wire in order. */
    method Receive(i: nat, room: nat) returns (r: Receiving)
      requires i < |world.peers|
      modifies this`world
      ensures r.Data? ==> 0 < |r.bytes| <= room
      ensures r.Data? && old(world).conforming ==>
                var p := old(world).peers[i];
                r.bytes <= p.net && world == SetPeer(old(world), i, p.(net := p.net[|r.bytes|..]))
      ensures !r.Data? || !old(world).conforming ==> world == old(world)
    {
      var n: nat, kind: nat := *, *;
      var bytes: Bytes := *;
      if world.conforming {
        bytes := world.peers[i].net[..Min(n, |world.peers[i].net|)];
      }
      if 0 < |bytes| <= room {
        if world.conforming {
          world := SetPeer(world, i, world.peers[i].(net := world.peers[i].net[|bytes|..]));
        }
        return Data(bytes);
      }
      r := if kind == 0 then Empty else if kind == 1 then Eof else ReceiveFailed;
    }

    /** Reads within the budget and answers requests as their frames complete. */
    method ReceiveQueued(i: nat) returns (alive: bool)
      requires Valid() && i < |impl.sockets| && impl.sockets[i].open && SendPaused(impl.sockets[i])
      modifies this
      ensures Valid() && Works(old(impl), impl, i) && SameWorld(old(world), world, i)
      ensures alive ==> impl.sockets[i].open && SendPaused(impl.sockets[i])
      ensures alive ==> impl.sockets[i].kernel.dry || impl.sockets[i].scheduled
      ensures !alive ==> Closed(impl.sockets[i])
    {
      hide Inv, Works, Closed;
      ghost var start, before := impl, world;
      var budget := IO_BUDGET;
      assert Works(start, impl, i) by { WorksSelf(impl, i); }
      while budget > 0
        invariant Valid() && i < |impl.sockets| == |start.sockets| && Works(start, impl, i)
        invariant SameWorld(before, world, i)
        invariant impl.sockets[i].open && SendPaused(impl.sockets[i])
        decreases budget
      {
        alive := false;
        ghost var mid := impl;
        ghost var w := world;
        var r := Receive(i, Min(READ_CHUNK, budget));
        match r {
          case Data(bytes) =>
            budget := budget - |bytes|;
            var c := impl.sockets[i];
            ReceiveStep(limits, impl, w, i, bytes, world);
            impl := SetSocket(impl, i, c.(input := c.input + bytes));
            SetSocketWorks(mid, i, c.(input := c.input + bytes));
            ghost var fed := impl;
            alive := TakeFrames(i);
            WorksTrans(mid, fed, impl, i);
            WorksTrans(start, mid, impl, i);
            if !alive {
              return;
            }
          case Empty =>
            var c := impl.sockets[i].(kernel := impl.sockets[i].kernel.(dry := true));
            KernelStep(limits, impl, world, i, c.kernel);
            SetSocketWorks(impl, i, c);
            WorksTrans(start, impl, SetSocket(impl, i, c), i);
            impl := SetSocket(impl, i, c);
            return true;
          case Eof =>
            InvSplit(limits, impl, world, i);
            Teardown(i);
            WorksTrans(start, mid, impl, i);
            return;
          case ReceiveFailed =>
            InvSplit(limits, impl, world, i);
            Teardown(i);
            WorksTrans(start, mid, impl, i);
            return;
        }
      }
      alive := true;
      ghost var mid := impl;
      Schedule(i);
      WorksTrans(start, mid, impl, i);
    }

    /** Asks the loop to report room for output exactly while some is queued. */
    method Watch(i: nat)
      requires Valid() && i < |impl.sockets| && impl.sockets[i].open && SendPaused(impl.sockets[i])
      requires impl.sockets[i].kernel.dry || impl.sockets[i].scheduled
      modifies this`impl
      ensures Valid() && Works(old(impl), impl, i) && Attended(impl.sockets[i])
      ensures impl.sockets[i].open && (impl.sockets[i].kernel.watching <==> impl.sockets[i].output != [])
    {
      hide Inv, Works;
      var c := impl.sockets[i];
      var kernel := c.kernel.(watching := c.output != []);
      KernelStep(limits, impl, world, i, kernel);
      SetSocketWorks(impl, i, c.(kernel := kernel));
      impl := SetSocket(impl, i, c.(kernel := kernel));
    }

    /** Takes every complete frame off the buffer; `false` says the connection is gone. */
    method TakeFrames(i: nat) returns (alive: bool)
      requires Valid() && i < |impl.sockets| && impl.sockets[i].open
      modifies this
      ensures Valid() && Works(old(impl), impl, i) && SameWorld(old(world), world, i)
      ensures alive ==> !Ready(limits.protocol, FrameLimit(limits), impl.sockets[i].input)
      ensures if alive then SameSending(old(impl).sockets[i], impl.sockets[i]) else Closed(impl.sockets[i])
    {
      hide Inv, Works, Closed, Broken, Ready, SizeOf;
      ghost var start, before := impl, world;
      alive := true;
      assert Works(start, impl, i) by { WorksSelf(impl, i); }
      while |impl.sockets[i].input| > 0
        invariant Valid() && i < |impl.sockets| == |start.sockets| && Works(start, impl, i)
        invariant SameWorld(before, world, i)
        invariant SameSending(start.sockets[i], impl.sockets[i])
        decreases |impl.sockets[i].input|
      {
        var input := impl.sockets[i].input;
        var size := SizeOf(limits.protocol, input);
        SizeCases(limits.protocol, FrameLimit(limits), input);
        ghost var mid := impl;
        InvSplit(limits, impl, world, i);
        if size.Malformed? || size.n > FrameLimit(limits) {
          if world.conforming { NeverBroken(limits, impl, world, i); }
          alive := false;
          Fault(i);
          WorksTrans(start, mid, impl, i);
          return;
        }
        if size.n == 0 || size.n > |input| {
          return;
        }
        ReadySize(limits.protocol, FrameLimit(limits), input);
        alive := Match(i, size.n);
        WorksTrans(start, mid, impl, i);
        if !alive {
          return;
        }
      }
      EmptyNotReady(limits.protocol, FrameLimit(limits), impl.sockets[i].input);
    }

    /** Matches one complete response: late, expected, or a reason to give the connection up. */
    method Match(i: nat, n: nat) returns (alive: bool)
      requires Valid() && i < |impl.sockets| && impl.sockets[i].open && 0 < n <= |impl.sockets[i].input|
      requires Ready(limits.protocol, FrameLimit(limits), impl.sockets[i].input)
      requires SizeOf(limits.protocol, impl.sockets[i].input) == Size(n)
      modifies this
      ensures Valid() && Works(old(impl), impl, i) && SameWorld(old(world), world, i)
      ensures alive ==> |impl.sockets[i].input| < |old(impl).sockets[i].input|
      ensures if alive then SameSending(old(impl).sockets[i], impl.sockets[i]) else Closed(impl.sockets[i])
      ensures Matches(limits, old(impl), impl, i, n, alive)
    {
      hide Inv, Rest, SocketInv, Works, SameWorld, SameSending, Closed, Broken, Ready, SizeOf, Answers, IdOf, SetSocket;
      var c := impl.sockets[i];
      InvSplit(limits, impl, world, i);
      if world.conforming { Matched(limits, impl, world, i, n); }
      if Late(limits, c, n) {
        alive := true;
        DropLate(i, n, ResponseId(limits, c, n));
      } else if !Known(limits, impl, i, n) {
        alive := false;
        Fault(i);
      } else {
        HeadIsProper(limits, c, n);
        alive := Deliver(i, n, ResponseId(limits, c, n));
      }
    }

    /** A late answer is dropped, and its identifier's place becomes free. */
    method DropLate(i: nat, n: nat, id: Id)
      requires Valid() && i < |impl.sockets| && impl.sockets[i].open && n <= |impl.sockets[i].input|
      requires id in impl.sockets[i].retired
      requires world.conforming ==> Answers(impl.sockets[i], world.peers[i], n, id, world.reply)
      modifies this
      ensures Valid() && Works(old(impl), impl, i) && SameWorld(old(world), world, i)
      ensures var c := old(impl).sockets[i];
              impl == SetSocket(old(impl), i, c.(input := c.input[n..], retired := c.retired - {id}))
      ensures SameSending(old(impl).sockets[i], impl.sockets[i])
      ensures |impl.sockets[i].input| == |old(impl).sockets[i].input| - n
    {
      hide Inv, Works, SameWorld, Answers;
      var c := impl.sockets[i].(input := impl.sockets[i].input[n..], retired := impl.sockets[i].retired - {id});
      LateStep(limits, impl, world, i, n, id);
      SetSocketWorks(impl, i, c);
      impl := SetSocket(impl, i, c);
      SetPeerSame(world, i, world.peers[i]);
      if world.conforming {
        var peer := world.peers[i].(line := world.peers[i].line[1..]);
        SetPeerSame(world, i, peer);
        world := SetPeer(world, i, peer);
      }
    }

    /** Hands the frame at the head of the buffer to the request it answers. */
    method Deliver(i: nat, n: nat, id: Id) returns (alive: bool)
      requires Valid() && i < |impl.sockets| && impl.sockets[i].open && 0 < n <= |impl.sockets[i].input|
      requires id in impl.requests && impl.requests[id].slot == Some(i)
      requires limits.protocol.Kv? ==> id == if impl.sockets[i].order == [] then 0 else impl.sockets[i].order[0]
      requires world.conforming ==> Answers(impl.sockets[i], world.peers[i], n, id, world.reply)
      requires Proper(limits, id, impl.sockets[i].input[..n])
      modifies this
      ensures Valid() && Works(old(impl), impl, i) && SameWorld(old(world), world, i)
      ensures id in impl.completed && impl.completed[id] == Answered(old(impl).sockets[i].input[..n])
      ensures alive ==> |impl.sockets[i].input| < |old(impl).sockets[i].input|
      ensures if alive then SameSending(old(impl).sockets[i], impl.sockets[i]) else Closed(impl.sockets[i])
    {
      hide Inv, Works, SameWorld, Closed, SocketOk, PeerOk, WireOk, Flatten, Frames, TailOrder, Proper;
      var c := impl.sockets[i];
      var d := c.(input := c.input[n..], order := TailOrder(limits, c));
      var p := if world.conforming then world.peers[i].(line := world.peers[i].line[1..]) else world.peers[i];
      MatchStep(limits, impl, world, i, n, id);
      alive := FinishOn(i, d, p, id, Answered(c.input[..n]));
    }

    // ----- Progress -----

    /** Moves one socket as far as the kernel and the budgets allow; nothing is left unattended. */
    method Pump(i: nat)
      requires Valid() && i < |impl.sockets|
      modifies this
      ensures Valid() && Works(old(impl), impl, i) && SameWorld(old(world), world, i) && Attended(impl.sockets[i])
      ensures var c := impl.sockets[i];
              c.open && !c.connecting ==> (c.kernel.watching <==> c.output != [])
    {
      hide Inv, Works, SameWorld, Closed;
      WorksSelf(impl, i);
      SetPeerSame(world, i, world.peers[i]);
      if !impl.sockets[i].open {
        return;
      }
      ghost var start := impl;
      if impl.sockets[i].connecting {
        var failed: bool, pending: bool := *, *;
        if failed {
          InvSplit(limits, impl, world, i);
          Teardown(i);
          ClosedAttended(impl.sockets[i]);
          return;
        }
        if pending {
          return;
        }
        EstablishStep(limits, impl, world, i);
        OpenedWorks(impl, i, false);
        impl := Established(impl, i);
      }
      ghost var up := impl;
      ghost var before := world;
      var alive := SendQueued(i);
      WorksTrans(start, up, impl, i);
      if !alive {
        ClosedAttended(impl.sockets[i]);
        return;
      }
      ghost var sent, mid := impl, world;
      alive := ReceiveQueued(i);
      WorksTrans(start, sent, impl, i);
      SameWorldTrans(before, mid, world, i);
      if !alive {
        ClosedAttended(impl.sockets[i]);
        return;
      }
      ghost var read := impl;
      Watch(i);
      WorksTrans(start, read, impl, i);
    }

    /** Gives the first waiting request to socket `i`, connecting it if need be. */
    method Assign(i: nat)
      requires Valid() && i < |impl.sockets| && impl.waiting != [] && !Busy(limits, impl.sockets[i])
      modifies this
      ensures Valid() && Fills(old(impl), impl, i) && SameWorld(old(world), world, i)
      ensures impl.waiting == old(impl).waiting[1..] && old(impl).waiting[0] in old(impl).requests
      ensures old(impl).sockets[i].open ==> impl == Assigned(old(impl), i, limits.protocol.Kv?)
      ensures !old(impl).sockets[i].open && impl.sockets[i].open ==>
                exists b: bool :: impl == Opened(Assigned(old(impl), i, limits.protocol.Kv?), i, b)
    {
      hide Inv, Rest, SameWorld, Fills, Works, Closed, Opened;
      ghost var start, before := impl, world;
      AssignRest(limits, impl, world, i);
      SetPeerSame(world, i, world.peers[i].(given := world.peers[i].given + [impl.waiting[0]]));
      AssignedFills(impl, i, limits.protocol.Kv?);
      if impl.sockets[i].open {
        AssignStep(limits, impl, world, i);
        world := Gave(world, i, impl.waiting[0]);
        impl := Assigned(impl, i, limits.protocol.Kv?);
      } else {
        AssignOpenStep(limits, impl, world, i, true);
        AssignOpenStep(limits, impl, world, i, false);
        world := Gave(world, i, impl.waiting[0]);
        impl := Assigned(impl, i, limits.protocol.Kv?);
        ghost var mid, gave := impl, world;
        Connect(i);
        SameWorldTrans(before, gave, world, i);
        FillsTrans(start, mid, impl, i);
        WorksWaiting(mid, impl, i);
      }
    }

    /** A connection attempt: refused at once, under way with a deadline, or up. */
    method Connect(i: nat)
      requires Rest(limits, impl, world, i) && (forall b: bool :: Inv(limits, Opened(impl, i, b), world))
      modifies this
      ensures Valid() && Works(old(impl), impl, i) && SameWorld(old(world), world, i)
      ensures impl.sockets[i].open ==> exists b: bool :: impl == Opened(old(impl), i, b)
      ensures !impl.sockets[i].open ==> Closed(impl.sockets[i])
    {
      hide Inv, Rest, SameWorld, Works;
      SetPeerSame(world, i, world.peers[i]);
      var failed: bool, connecting: bool := *, *;
      if failed {
        Teardown(i);
        return;
      }
      OpenedWorks(impl, i, connecting);
      impl := Opened(impl, i, connecting);
    }

    /** Hands waiting requests to sockets until none waits or no socket has room. */
    method Dispatch()
      requires Valid() && AllAttended(impl)
      modifies this
      ensures Valid() && AllAttended(impl)
      ensures Advances(old(impl), impl) && Saturated(limits, impl) && SameRules(old(world), world)
    {
      hide Inv, SameWorld, Fills, Advances, Attended;
      ghost var start, before := impl, world;
      AdvancesSelf(impl);
      var i := 0;
      while i < |impl.sockets| && impl.waiting != []
        invariant Valid() && AllAttended(impl) && Advances(start, impl) && SameRules(before, world)
        invariant i <= |impl.sockets|
        invariant impl.waiting != [] ==> forall j :: 0 <= j < i ==> Busy(limits, impl.sockets[j])
      {
        ghost var mid, w := impl, world;
        Fill(i);
        WorksAttended(mid, impl, i);
        OthersStay(mid, impl, i);
        FillsAdvances(mid, impl, i);
        AdvancesTrans(start, mid, impl);
        SameWorldRules(w, world, i);
        i := i + 1;
      }
    }

    /** Fills one socket up to its limit. */
    method Fill(i: nat)
      requires Valid() && i < |impl.sockets| && Attended(impl.sockets[i])
      modifies this
      ensures Valid() && Fills(old(impl), impl, i) && SameWorld(old(world), world, i) && Attended(impl.sockets[i])
      ensures impl.waiting != [] ==> Busy(limits, impl.sockets[i])
    {
      hide Inv, SameWorld, Fills, Works, Busy, Attended;
      ghost var start, before := impl, world;
      FillsSelf(impl, i);
      SetPeerSame(world, i, world.peers[i]);
      while impl.waiting != [] && !Busy(limits, impl.sockets[i])
        invariant Valid() && Fills(start, impl, i) && SameWorld(before, world, i) && Attended(impl.sockets[i])
        decreases |impl.waiting|
      {
        ghost var mid, w := impl, world;
        Assign(i);
        ghost var given, v := impl, world;
        Pump(i);
        WorksWaiting(given, impl, i);
        FillsTrans(mid, given, impl, i);
        FillsTrans(start, mid, impl, i);
        SameWorldTrans(w, v, world, i);
        SameWorldTrans(before, w, world, i);
      }
    }

    // ----- Deadlines -----

    /**
     A request's deadline passed. On the wire it is retired and keeps its place on the socket; on a
     socket but not retirable it costs the connection; in the queue it just leaves.
     */
    method Expire(id: Id)
      requires Valid() && id in impl.requests && AllAttended(impl)
      modifies this
      ensures Valid() && AllAttended(impl) && Advances(old(impl), impl) && SameRules(old(world), world)
      ensures id !in impl.requests && id in impl.completed && impl.completed[id] == Failed
      ensures Expired(limits, old(impl), impl, id)
    {
      hide Inv, SameWorld, Works, Advances, Closed, SocketOk, PeerOk, WireOk, Base, InSlot;
      var q := impl.requests[id];
      if q.slot.Some? {
        var i := q.slot.value;
        ghost var start, before := impl, world;
        SlotIsOpen(limits, impl, world, id, i);
        if limits.protocol.Rpc? && q.sent {
          var c := impl.sockets[i];
          RetireStep(limits, impl, world, i, id);
          var valid := FinishOn(i, c.(retired := c.retired + {id}), world.peers[i], id, Failed);
        } else {
          InvSplit(limits, impl, world, i);
          Teardown(i);
        }
        if Closed(impl.sockets[i]) { ClosedAttended(impl.sockets[i]); }
        WorksAttended(start, impl, i);
        FillsAdvances(start, impl, i);
        SameWorldRules(before, world, i);
      } else {
        ghost var start := impl;
        ExpireStep(limits, impl, world, id);
        ValidBase(limits, impl, world);
        Unregisterable(impl, id);
        WaitingExpired(impl, id);
        var valid := Finish(id, Failed);
        StoppedWhenEmpty(Unregister(start, id, Failed), impl);
      }
    }

    method OnDeadline(id: Id)
      requires Valid() && id in impl.requests && AllAttended(impl)
      modifies this
      ensures Valid() && AllAttended(impl) && Advances(old(impl), impl) && Saturated(limits, impl)
      ensures SameRules(old(world), world)
      ensures id !in impl.requests && id in impl.completed && impl.completed[id] == Failed
    {
      hide Inv, Advances, Saturated, AllAttended;
      ghost var start := impl;
      Expire(id);
      ghost var mid := impl;
      Dispatch();
      StaysGone(mid, impl, id);
      AdvancesTrans(start, mid, impl);
    }

    method OnConnectDeadline(i: nat)
      requires Valid() && i < |impl.sockets| && AllAttended(impl)
      modifies this
      ensures Valid() && AllAttended(impl) && Advances(old(impl), impl) && Saturated(limits, impl)
      ensures SameRules(old(world), world)
    {
      hide Inv, Advances, Saturated, Works, SameWorld, Closed, Attended;
      ghost var start, before := impl, world;
      InvSplit(limits, impl, world, i);
      Teardown(i);
      ClosedAttended(impl.sockets[i]);
      WorksAttended(start, impl, i);
      FillsAdvances(start, impl, i);
      SameWorldRules(before, world, i);
      ghost var mid := impl;
      Dispatch();
      AdvancesTrans(start, mid, impl);
    }

    /** The loop reports a socket as ready, or runs its posted wake-up. */
    method OnReady(i: nat)
      requires Valid() && i < |impl.sockets| && OthersAttended(impl, i)
      modifies this
      ensures Valid() && AllAttended(impl) && Advances(old(impl), impl) && Saturated(limits, impl)
      ensures SameRules(old(world), world)
    {
      hide Inv, Advances, Saturated, Works, SameWorld, Attended;
      ghost var start, before := impl, world;
      Pump(i);
      WorksAttended(start, impl, i);
      FillsAdvances(start, impl, i);
      SameWorldRules(before, world, i);
      ghost var mid := impl;
      Dispatch();
      AdvancesTrans(start, mid, impl);
    }

    // ----- The interface and the loop -----

    /** A request is posted to the loop, or refused and completed at once. */
    method Submit(id: Id, data: Bytes) returns (taken: bool)
      requires Valid() && id !in impl.submitted
      modifies this`impl
      ensures Valid() && Grows(old(impl), impl) && (AllAttended(old(impl)) ==> AllAttended(impl))
      ensures taken <==> !old(impl).closing && old(impl).admitted < limits.queueCapacity
                         && old(impl).bytes + |data| <= limits.queueBytes
      ensures impl == if taken then Submitted(old(impl), id, data) else Refused(old(impl), id, data)
    {
      hide Inv, Grows, AllAttended;
      SubmitStep(limits, impl, world, id, data);
      AdmissionFacts(limits, impl, world, id);
      SubmitGrows(impl, id, data);
      SameAttended(impl, Submitted(impl, id, data));
      SameAttended(impl, Refused(impl, id, data));
      if impl.closing || impl.admitted >= limits.queueCapacity || |data| > limits.queueBytes - impl.bytes {
        impl := impl.(submitted := impl.submitted[id := data]);
        var valid := Complete(id, Failed);
        return false;
      }
      impl := impl.(
        admitted := impl.admitted + 1, bytes := impl.bytes + |data|, submitted := impl.submitted[id := data]);
      impl := impl.(posted := impl.posted + [Register(id, data)]);
      return true;
    }

    /** Runs the oldest posted task. */
    method RunTask()
      requires Valid() && impl.posted != [] && AllAttended(impl)
      modifies this
      ensures Valid() && AllAttended(impl) && Grows(old(impl), impl) && SameRules(old(world), world)
      ensures old(impl).posted[0].Drain? ==> impl == Draining(old(impl))
      ensures !old(impl).posted[0].Drain? ==> Saturated(limits, impl)
    {
      hide Inv, Advances, Grows, Saturated, AllAttended, OthersAttended;
      ghost var start := impl;
      match impl.posted[0] {
        case Register(id, data) =>
          EnrollStep(limits, impl, world, id, data);
          EnrolledGrows(impl, id, data);
          SameAttended(impl, Enrolled(impl, id, data));
          impl := Enrolled(impl, id, data);
          ghost var mid := impl;
          Dispatch();
          GrowsOn(start, mid, impl);
        case Wake(i) =>
          assert i < |impl.sockets| by { WakeInRange(limits, impl, world, i); }
          WakeStep(limits, impl, world, i);
          WokenGrows(impl, i);
          WokenAttended(impl, i);
          impl := Woken(impl, i);
          ghost var mid := impl;
          OnReady(i);
          GrowsOn(start, mid, impl);
        case Drain =>
          DrainStep(limits, impl, world);
          DrainGrows(impl);
          impl := impl.(posted := impl.posted[1..], draining := true);
          impl := impl.(stopped := impl.requests == map[]);
          SameAttended(start, impl);
      }
    }

    /** The loop fires an armed timer; the finishing that follows takes it off the list. */
    method Fire(timer: nat)
      requires Valid() && timer in impl.timers && AllAttended(impl)
      modifies this
      ensures Valid() && AllAttended(impl) && Advances(old(impl), impl) && Saturated(limits, impl)
      ensures SameRules(old(world), world)
      ensures old(impl).timers[timer].RequestDeadline? ==>
                var id := old(impl).timers[timer].id;
                id in old(impl).requests && id !in impl.requests && id in impl.completed && impl.completed[id] == Failed
    {
      hide Inv, Advances, Saturated, AllAttended;
      TimerFacts(limits, impl, world, timer);
      match impl.timers[timer] {
        case RequestDeadline(id) => OnDeadline(id);
        case ConnectDeadline(i) => OnConnectDeadline(i);
      }
    }

    /** Destruction refuses further requests and asks the loop to drain. */
    method CloseDown()
      requires Valid() && !impl.closing
      modifies this`impl
      ensures Valid() && Grows(old(impl), impl) && impl == ClosedDown(old(impl))
      ensures AllAttended(old(impl)) ==> AllAttended(impl)
    {
      hide Inv;
      DrainStep(limits, impl, world);
      impl := impl.(closing := true, posted := impl.posted + [Drain]);
    }

    /** A conforming peer answers a request it has received. */
    method PeerReplies(i: nat, id: Id, frame: Bytes)
      requires Valid() && world.conforming && i < |world.peers| && id in world.peers[i].owed && id !in world.reply
      requires AnswerOk(limits, Answer(id, frame), world.reply[id := frame])
      modifies this`world
      ensures Valid() && world == Replied(old(world), i, id, frame)
    {
      hide Inv, AnswerOk;
      ReplyStep(limits, impl, world, i, id, frame);
      world := Replied(world, i, id, frame);
    }

    constructor (l: Limits, connections: nat, conforming: bool)
      requires connections > 0 && l.queueCapacity > 0 && l.queueBytes > 0 && l.maxInflight > 0 && l.maxFrame > 0
      ensures Valid() && AllAttended(impl) && limits == l && world.conforming == conforming
      ensures impl == Initial(connections)
    {
      limits := l;
      impl := Initial(connections);
      world := World(conforming, seq(connections, _ => FRESH_PEER), map[], 0);
      new;
      InitialOk(l, connections, world);
    }

    /** One event of the environment; an event that is not possible now does nothing. */
    method Step(e: Event)
      requires Valid() && AllAttended(impl)
      modifies this
      ensures Valid() && AllAttended(impl) && Grows(old(impl), impl) && world.conforming == old(world).conforming
      ensures e.Fires? && e.timer in old(impl).timers && old(impl).timers[e.timer].RequestDeadline? ==>
                old(impl).timers[e.timer].id !in impl.requests
    {
      hide Inv, Advances, Saturated, AnswerOk, Grows, Attended;
      GrowsSelf(impl);
      ghost var start := impl;
      match e {
        case Submits(id, data) =>
          if id !in impl.submitted { var taken := Submit(id, data); }
        case Runs =>
          if impl.posted != [] { RunTask(); }
        case Fires(timer) =>
          if timer in impl.timers { Fire(timer); GrowsOn(start, start, impl); }
        case Becomes(i) =>
          if i < |impl.sockets| && impl.sockets[i].open {
            var kernel := impl.sockets[i].kernel.(full := false, dry := false);
            KernelStep(limits, impl, world, i, kernel);
            impl := SetSocket(impl, i, impl.sockets[i].(kernel := kernel));
            SetSocketWorks(start, i, impl.sockets[i]);
            WorksAttended(start, impl, i);
            FillsAdvances(start, impl, i);
            ghost var mid := impl;
            GrowsOn(start, start, mid);
            OnReady(i);
            GrowsOn(start, mid, impl);
          }
        case Replies(i, id, frame) =>
          if world.conforming && i < |world.peers| && id in world.peers[i].owed && id !in world.reply
             && AnswerOk(limits, Answer(id, frame), world.reply[id := frame]) {
            PeerReplies(i, id, frame);
          }
        case Closes =>
          if !impl.closing { CloseDown(); }
      }
    }

    /**
     Any run: the invariant holds throughout, completions are never revoked or repeated, every success
     is the answer of a conforming peer to that very request, a drained transport has completed all, and
     every connection has carried the bytes submitted.
     */
    method Run(events: seq<Event>)
      requires Valid() && AllAttended(impl)
      modifies this
      ensures Valid() && AllAttended(impl) && Grows(old(impl), impl) && world.conforming == old(world).conforming
      ensures world.conforming ==> world.faults == 0 && Delivered(impl.completed, world.reply)
      ensures impl.draining ==> (impl.stopped <==> impl.completed.Keys == impl.submitted.Keys)
      ensures forall i :: 0 <= i < |impl.sockets| ==> SentAsGiven(impl, world, i)
    {
      hide Inv, Grows, AllAttended, SentAsGiven;
      GrowsSelf(impl);
      for k := 0 to |events|
        invariant Valid() && AllAttended(impl) && Grows(old(impl), impl) && world.conforming == old(world).conforming
      {
        ghost var mid := impl;
        Step(events[k]);
        GrowsTrans(old(impl), mid, impl);
      }
      if world.conforming { NoCrossTalk(limits, impl, world); }
      if impl.draining { DrainedMeansCompleted(limits, impl, world); }
      forall i | 0 <= i < |impl.sockets| ensures SentAsGiven(impl, world, i) {
        SentAsSubmitted(limits, impl, world, i);
      }
    }
  }
}
