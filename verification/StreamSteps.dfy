/** Sending, receiving and matching on one socket: each elementary step keeps the socket's invariant. */
module StreamSteps {
  import opened Common
  import opened Framing
  import opened RpcProtocol
  import opened Multiplex
  import opened MultiplexSteps
  import opened Streams

  function SetPeer(w: World, i: nat, p: Peer): World
    requires i < |w.peers|
  {
    w.(peers := w.peers[i := p])
  }

  // ----- Sending -----

  lemma SentMore(l: Limits, s: Socket, i: nat, r: Requests, done: map<Id, Outcome>, n: nat)
    requires SocketOk(l, s, i, r, done) && s.open && s.output != [] && s.sent + n <= |s.output[0].bytes|
    ensures SocketOk(l, s.(sent := s.sent + n), i, r, done)
  {
    hide NoDup, InSlot;
  }

  lemma PeerSentMore(l: Limits, s: Socket, p: Peer, i: nat, r: Requests, reply: map<Id, Bytes>, n: nat)
    requires PeerOk(l, s, p, i, r, reply)
    ensures PeerOk(l, s.(sent := n), p, i, r, reply)
  {
    hide NoDup, AnswerOk, Flatten;
  }

  lemma WireSent(s: Socket, p: Peer, submitted: map<Id, Bytes>, n: nat)
    requires WireOk(s, p, submitted) && s.open && s.output != [] && s.sent + n <= |s.output[0].bytes|
    ensures WireOk(s.(sent := s.sent + n), p.(wire := p.wire + s.output[0].bytes[s.sent..s.sent + n]), submitted)
  {
    hide Flatten, OutData, OutIds, Genuine;
    var b := s.output[0].bytes;
    assert b[..s.sent] + b[s.sent..s.sent + n] == b[..s.sent + n];
  }

  /** The stream invariant does not depend on the other fields of either side. */
  lemma WireOnly(s: Socket, p: Peer, t: Socket, q: Peer, submitted: map<Id, Bytes>)
    requires WireOk(s, p, submitted) && t.open == s.open && t.output == s.output && t.sent == s.sent
    requires q.wire == p.wire && q.whole == p.whole && q.given == p.given
    ensures WireOk(t, q, submitted)
  {
    hide Flatten, OutData, OutIds, Genuine;
  }

  /** What a peer owes does not depend on the record of what was sent. */
  lemma PeerWire(l: Limits, s: Socket, p: Peer, i: nat, r: Requests, reply: map<Id, Bytes>, q: Peer)
    requires PeerOk(l, s, p, i, r, reply) && s.open && q == p.(wire := q.wire, whole := q.whole, given := q.given)
    ensures PeerOk(l, s, q, i, r, reply)
  {
    hide NoDup, AnswerOk, Flatten;
  }

  function Popped(s: Socket): Socket
    requires s.output != []
  {
    s.(output := s.output[1..], sent := 0)
  }

  lemma WirePopped(s: Socket, p: Peer, submitted: map<Id, Bytes>)
    requires WireOk(s, p, submitted) && s.open && s.output != [] && s.sent == |s.output[0].bytes|
    ensures WireOk(Popped(s), p.(whole := p.whole + [s.output[0]]), submitted)
  {
    var o := s.output[0];
    assert OutData(p.whole + [o]) == OutData(p.whole) + [o.bytes];
    FlattenAppend(OutData(p.whole), [o.bytes]);
    assert Flatten([o.bytes]) == o.bytes + Flatten([]) == o.bytes && o.bytes[..s.sent] == o.bytes;
    assert s.output[1..] != [] ==> s.output[1..][0].bytes[..0] == [];
    hide Flatten, OutData;
    assert OutIds(p.whole + [o]) + OutIds(s.output[1..]) == OutIds(p.whole) + OutIds(s.output);
    hide OutIds;
    assert forall x :: x in p.whole + [o] <==> x in p.whole || x == o;
  }

  lemma OutIdsTail(output: seq<Out>)
    requires output != [] && NoDup(OutIds(output))
    ensures var ids, rest := OutIds(output), OutIds(output[1..]);
            ids[0] == output[0].id && output[0].id in ids && NoDup(rest) && output[0].id !in rest
            && forall x :: x in ids <==> x == output[0].id || x in rest
  {
    var ids, rest := OutIds(output), OutIds(output[1..]);
    assert forall k :: 0 <= k < |rest| ==> rest[k] == ids[k + 1];
    assert forall k :: 0 < k < |ids| ==> ids[k] == rest[k - 1];
  }

  /** The first queued request is on the wire completely. */
  lemma PoppedOk(l: Limits, s: Socket, i: nat, r: Requests, done: map<Id, Outcome>)
    requires SocketOk(l, s, i, r, done) && s.open && s.output != []
    ensures var id := s.output[0].id;
            && (id !in r ==> SocketOk(l, Popped(s), i, r, done))
            && (id in r ==> r[id].slot == Some(i) && !r[id].sent
                            && SocketOk(l, Popped(s), i, r[id := r[id].(sent := true)], done))
  {
    var id := s.output[0].id;
    OutIdsTail(s.output);
    if id in r { InSlotSame(r, id, r[id].(sent := true), i); }
    hide NoDup, InSlot, OutIds;
  }

  lemma PeerPopped(l: Limits, s: Socket, p: Peer, i: nat, r: Requests, done: map<Id, Outcome>, reply: map<Id, Bytes>)
    requires SocketOk(l, s, i, r, done) && PeerOk(l, s, p, i, r, reply) && s.open && s.output != []
    requires s.output[0].id !in s.retired
    ensures var id := s.output[0].id;
            id in r && PeerOk(l, Popped(s), p.(owed := p.owed + {id}), i, r[id := r[id].(sent := true)], reply)
  {
    OutIdsTail(s.output);
    hide NoDup, AnswerOk, Flatten, OutIds, LineIds;
  }

  // ----- Receiving -----

  lemma ReceivedOk(l: Limits, s: Socket, i: nat, r: Requests, done: map<Id, Outcome>, input: Bytes)
    requires SocketOk(l, s, i, r, done) && s.open
    ensures SocketOk(l, s.(input := input), i, r, done)
  {
    hide NoDup, InSlot;
  }

  lemma PeerReceived(l: Limits, s: Socket, p: Peer, i: nat, r: Requests, reply: map<Id, Bytes>, n: nat)
    requires PeerOk(l, s, p, i, r, reply) && s.open && n <= |p.net|
    ensures PeerOk(l, s.(input := s.input + p.net[..n]), p.(net := p.net[n..]), i, r, reply)
  {
    assert s.input + p.net[..n] + p.net[n..] == s.input + p.net;
    hide NoDup, AnswerOk, Flatten;
  }

  // ----- Matching -----

  lemma FramesTail(line: seq<Answer>)
    requires line != []
    ensures Flatten(Frames(line)) == line[0].frame + Flatten(Frames(line[1..]))
  {
    assert Frames(line)[1..] == Frames(line[1..]);
  }

  lemma LineTail(line: seq<Answer>)
    requires line != [] && NoDup(LineIds(line))
    ensures var ids, rest := LineIds(line), LineIds(line[1..]);
            line[0].id in ids && NoDup(rest) && line[0].id !in rest
            && forall x :: x in ids <==> x == line[0].id || x in rest
  {
    var ids, rest := LineIds(line), LineIds(line[1..]);
    assert ids[0] == line[0].id;
    assert forall k :: 0 <= k < |rest| ==> rest[k] == ids[k + 1];
    assert forall k :: 0 < k < |ids| ==> ids[k] == rest[k - 1];
  }

  /** The buffer of a connection to a conforming peer never breaks, and its first frame is the first answer. */
  lemma NextAnswer(l: Limits, s: Socket, p: Peer, i: nat, r: Requests, reply: map<Id, Bytes>)
    requires PeerOk(l, s, p, i, r, reply) && s.open
    ensures !Broken(l.protocol, FrameLimit(l), s.input)
    ensures Ready(l.protocol, FrameLimit(l), s.input) ==>
              var n := SizeOf(l.protocol, s.input).n;
              && p.line != [] && n <= |s.input| && s.input[..n] == p.line[0].frame && AnswerOk(l, p.line[0], reply)
              && s.input[n..] + p.net == Flatten(Frames(p.line[1..]))
  {
    hide Ready, Broken, SizeOf, WellFramed, Flatten, IdOf, Owes;
    var frames, b := Frames(p.line), s.input;
    forall f | f in frames ensures WellFramed(l.protocol, f) && |f| <= FrameLimit(l) {
      var k :| 0 <= k < |frames| && frames[k] == f;
      assert p.line[k] in p.line;
    }
    assert b <= Flatten(frames) by { assert Flatten(frames)[..|b|] == b; }
    HeadFrame(l.protocol, FrameLimit(l), frames, b);
    if Ready(l.protocol, FrameLimit(l), b) {
      ReadyBroken(l.protocol, FrameLimit(l), b);
      FramesTail(p.line);
      var n := |p.line[0].frame|;
      assert p.line[0] in p.line;
      assert b[n..] + p.net == (b + p.net)[n..];
    }
  }

  /** The next answer belongs to a request that was sent on this socket or retired from it. */
  lemma AnswerIsOurs(l: Limits, s: Socket, p: Peer, i: nat, r: Requests, reply: map<Id, Bytes>)
    requires PeerOk(l, s, p, i, r, reply) && s.open && p.line != []
    ensures var id := p.line[0].id; (id in r && r[id].slot == Some(i) && r[id].sent) || id in s.retired
  {
    LineTail(p.line);
    hide NoDup, LineIds, AnswerOk, Flatten;
  }

  /** Without identifiers the only request outstanding is the one the answer is for. */
  lemma AnswerInOrder(l: Limits, s: Socket, p: Peer, i: nat, r: Requests, done: map<Id, Outcome>, reply: map<Id, Bytes>)
    requires SocketOk(l, s, i, r, done) && PeerOk(l, s, p, i, r, reply) && s.open && p.line != [] && l.protocol.Kv?
    ensures s.order == [p.line[0].id] && s.retired == {}
  {
    AnswerIsOurs(l, s, p, i, r, reply);
    SlotMembers(r, i);
    hide NoDup, InSlot, Flatten, AnswerOk, OutIds, LineIds;
    assert p.line[0].id in s.order && |s.order| <= 1;
  }

  /** A late answer is dropped and frees the place its identifier held. */
  lemma LateAnswer(l: Limits, s: Socket, i: nat, r: Requests, done: map<Id, Outcome>, id: Id, input: Bytes)
    requires SocketOk(l, s, i, r, done) && s.open && id in s.retired
    ensures SocketOk(l, s.(input := input, retired := s.retired - {id}), i, r, done)
  {
    hide NoDup, InSlot;
  }

  lemma PeerLateAnswer(l: Limits, s: Socket, p: Peer, i: nat, r: Requests, reply: map<Id, Bytes>, n: nat)
    requires PeerOk(l, s, p, i, r, reply) && s.open && p.line != [] && p.line[0].id in s.retired && p.line[0].id !in r
    requires n <= |s.input| && s.input[n..] + p.net == Flatten(Frames(p.line[1..]))
    ensures PeerOk(l, s.(input := s.input[n..], retired := s.retired - {p.line[0].id}),
                   p.(line := p.line[1..]), i, r, reply)
  {
    LineTail(p.line);
    hide NoDup, LineIds, AnswerOk, Flatten, Frames;
  }

  function TailOrder(l: Limits, s: Socket): seq<Id>
  {
    if l.protocol.Rpc? || s.order == [] then s.order else s.order[1..]
  }

  /** A registered request of this socket leaves; `order` loses its head without identifiers. */
  lemma AnsweredOk(l: Limits, s: Socket, i: nat, r: Requests, done: map<Id, Outcome>, id: Id, input: Bytes, o: Outcome)
    requires SocketOk(l, s, i, r, done) && s.open && s.inflight == |InSlot(r, i)|
    requires id in r && r[id].slot == Some(i) && s.inflight > 0
    requires l.protocol.Kv? ==> s.order != [] && s.order[0] == id
    ensures SocketOk(l, s.(input := input, order := TailOrder(l, s), inflight := s.inflight - 1),
                     i, r - {id}, done[id := o])
  {
    InSlotRemove(r, id, i);
    SlotMembers(r, i);
    if l.protocol.Kv? { assert s.order == [id]; }
    hide NoDup, InSlot;
  }

  lemma PeerAnswered(l: Limits, s: Socket, p: Peer, i: nat, r: Requests, done: map<Id, Outcome>,
                     reply: map<Id, Bytes>, n: nat)
    requires SocketOk(l, s, i, r, done) && PeerOk(l, s, p, i, r, reply) && s.open && p.line != []
    requires p.line[0].id in r && r[p.line[0].id].slot == Some(i) && p.line[0].id !in s.retired && s.inflight > 0
    requires n <= |s.input| && s.input[n..] + p.net == Flatten(Frames(p.line[1..]))
    ensures PeerOk(l, s.(input := s.input[n..], order := TailOrder(l, s), inflight := s.inflight - 1),
                   p.(line := p.line[1..]), i, r - {p.line[0].id}, reply)
  {
    LineTail(p.line);
    assert p.line[0].id in LineIds(p.line);
    assert r[p.line[0].id].sent;
    hide NoDup, LineIds, AnswerOk, Flatten, Frames, OutIds, InSlot, OrderOk;
  }

  // ----- Deadlines -----

  /** A timed-out request that is on the wire keeps its place, under its retired identifier. */
  lemma RetiredOk(l: Limits, s: Socket, i: nat, r: Requests, done: map<Id, Outcome>, id: Id)
    requires SocketOk(l, s, i, r, done) && s.open && s.inflight == |InSlot(r, i)| && l.protocol.Rpc?
    requires id in r && r[id].slot == Some(i) && s.inflight > 0 && id !in done
    ensures SocketOk(l, s.(retired := s.retired + {id}, inflight := s.inflight - 1), i, r - {id}, done[id := Failed])
  {
    InSlotRemove(r, id, i);
    hide NoDup, InSlot;
    assert |s.retired + {id}| == |s.retired| + 1;
  }

  lemma PeerRetired(l: Limits, s: Socket, p: Peer, i: nat, r: Requests, done: map<Id, Outcome>, reply: map<Id, Bytes>,
                    id: Id)
    requires SocketOk(l, s, i, r, done) && PeerOk(l, s, p, i, r, reply) && s.open && s.inflight > 0
    requires id in r && r[id].slot == Some(i) && r[id].sent
    ensures PeerOk(l, s.(retired := s.retired + {id}, inflight := s.inflight - 1), p, i, r - {id}, reply)
  {
    hide NoDup, LineIds, AnswerOk, Flatten, Frames, OutIds, InSlot, OrderOk;
  }

  // ----- Assigning -----

  lemma OutIdsAppend(output: seq<Out>, o: Out)
    ensures OutIds(output + [o]) == OutIds(output) + [o.id]
  {}

  function Loaded(l: Limits, s: Socket, id: Id, data: Bytes): Socket
  {
    s.(inflight := s.inflight + 1, output := s.output + [Out(id, data)],
       order := if l.protocol.Kv? then s.order + [id] else s.order)
  }

  lemma LoadedOutput(l: Limits, s: Socket, i: nat, r: Requests, done: map<Id, Outcome>, id: Id)
    requires OutputOk(s, i, r, done) && id in r && r[id].slot.None? && !r[id].sent && id !in done
    ensures OutputOk(Loaded(l, s, id, r[id].bytes), i, r[id := r[id].(slot := Some(i))], done)
  {
    OutIdsAppend(s.output, Out(id, r[id].bytes));
    var ids := OutIds(s.output);
    assert id !in ids && NoDup(ids + [id]);
    assert forall x :: x in ids + [id] <==> x in ids || x == id;
    hide NoDup, OutIds;
  }

  lemma LoadedOrder(l: Limits, s: Socket, i: nat, r: Requests, id: Id)
    requires OrderOk(l, s, i, r) && id in r && r[id].slot.None?
    ensures OrderOk(l, Loaded(l, s, id, r[id].bytes), i, r[id := r[id].(slot := Some(i))])
  {
    InSlotAssign(r, id, i, i);
    assert forall x :: x in s.order + [id] <==> x in s.order || x == id;
    hide InSlot;
  }

  lemma LoadedOk(l: Limits, s: Socket, i: nat, r: Requests, done: map<Id, Outcome>, id: Id)
    requires SocketOk(l, s, i, r, done) && s.open && s.inflight + |s.retired| < Window(l)
    requires id in r && r[id].slot.None? && !r[id].sent && id !in done
    ensures SocketOk(l, Loaded(l, s, id, r[id].bytes), i, r[id := r[id].(slot := Some(i))], done)
  {
    hide OutputOk, OrderOk;
    LoadedOutput(l, s, i, r, done, id);
    LoadedOrder(l, s, i, r, id);
  }

  lemma PeerLoaded(l: Limits, s: Socket, p: Peer, i: nat, r: Requests, reply: map<Id, Bytes>, id: Id)
    requires PeerOk(l, s, p, i, r, reply) && s.open && id in r && r[id].slot.None? && !r[id].sent
    ensures PeerOk(l, Loaded(l, s, id, r[id].bytes), p, i, r[id := r[id].(slot := Some(i))], reply)
  {
    OutIdsAppend(s.output, Out(id, r[id].bytes));
    var ids := OutIds(s.output);
    assert forall x :: x in ids + [id] <==> x in ids || x == id;
    hide NoDup, LineIds, AnswerOk, Flatten, Frames, OutIds;
  }

  lemma WireLoaded(l: Limits, s: Socket, p: Peer, submitted: map<Id, Bytes>, id: Id, data: Bytes)
    requires WireOk(s, p, submitted) && s.open && (s.output == [] ==> s.sent == 0)
    requires id in submitted && submitted[id] == data
    ensures WireOk(Loaded(l, s, id, data), p.(given := p.given + [id]), submitted)
  {
    var o := Out(id, data);
    assert s.output == [] ==> data[..0] == [];
    assert s.output != [] ==> (s.output + [o])[0] == s.output[0];
    hide Flatten, OutData;
    OutIdsAppend(s.output, o);
    assert OutIds(p.whole) + (OutIds(s.output) + [id]) == OutIds(p.whole) + OutIds(s.output) + [id];
    hide OutIds;
    assert forall x :: x in s.output + [o] <==> x in s.output || x == o;
  }

  /** A fresh connection carries nothing. */
  lemma FreshOk(l: Limits, s: Socket, i: nat, r: Requests, done: map<Id, Outcome>, reply: map<Id, Bytes>)
    requires Closed(s) && InSlot(r, i) == {}
    ensures SocketOk(l, s.(open := true), i, r, done) && PeerOk(l, s.(open := true), FRESH_PEER, i, r, reply)
  {
    SlotMembers(r, i);
    assert OutIds([]) == [] && LineIds([]) == [] && Frames([]) == [];
  }

  /** Flags and timers of an open connection are not part of its stream. */
  lemma FlagsOk(l: Limits, s: Socket, t: Socket, p: Peer, i: nat, r: Requests, done: map<Id, Outcome>,
                reply: map<Id, Bytes>, submitted: map<Id, Bytes>)
    requires s.open && t == s.(connecting := t.connecting, scheduled := t.scheduled, connectTimer := t.connectTimer,
                               kernel := t.kernel)
    ensures SocketOk(l, s, i, r, done) ==> SocketOk(l, t, i, r, done)
    ensures PeerOk(l, s, p, i, r, reply) ==> PeerOk(l, t, p, i, r, reply)
    ensures WireOk(s, p, submitted) ==> WireOk(t, p, submitted)
  {
    hide Genuine, OutData;
    hide NoDup, LineIds, AnswerOk, Flatten, Frames, OutIds, InSlot;
  }

  /** The first request brings a closed socket up. */
  lemma FirstLoad(l: Limits, s: Socket, p: Peer, i: nat, r: Requests, done: map<Id, Outcome>, reply: map<Id, Bytes>,
                  submitted: map<Id, Bytes>, id: Id, connecting: bool, timer: nat)
    requires Closed(s) && InSlot(r, i) == {} && Window(l) > 0 && p.wire == [] && p.whole == [] && p.given == []
    requires id in r && r[id].slot.None? && !r[id].sent && id !in done
    requires id in submitted && submitted[id] == r[id].bytes
    ensures var t := Loaded(l, s, id, r[id].bytes).(open := true, connecting := connecting, connectTimer := timer,
                                                            kernel := Kernel(false, false, true));
            var r2 := r[id := r[id].(slot := Some(i))];
            && SocketOk(l, t, i, r2, done) && WireOk(t, p.(given := [id]), submitted)
            && PeerOk(l, t, FRESH_PEER.(given := [id]), i, r2, reply)
  {
    hide SocketOk, PeerOk, WireOk, InSlot;
    var raw := s.(open := true);
    FreshOk(l, s, i, r, done, reply);
    LoadedOk(l, raw, i, r, done, id);
    PeerLoaded(l, raw, FRESH_PEER, i, r, reply, id);
    var d, r2 := Loaded(l, raw, id, r[id].bytes), r[id := r[id].(slot := Some(i))];
    WireFresh(raw, p, submitted);
    WireLoaded(l, raw, p, submitted, id, r[id].bytes);
    assert p.given + [id] == [id];
    var q := FRESH_PEER.(given := [id]);
    PeerWire(l, d, FRESH_PEER, i, r2, reply, q) by { assert d.open; }
    var t := Loaded(l, s, id, r[id].bytes).(open := true, connecting := connecting, connectTimer := timer,
                                                            kernel := Kernel(false, false, true));
    FlagsOk(l, d, t, q, i, r2, done, reply, submitted);
    WireOnly(d, p.(given := [id]), t, p.(given := [id]), submitted);
  }

  lemma WireFresh(s: Socket, p: Peer, submitted: map<Id, Bytes>)
    requires s.open && s.output == [] && p.wire == [] && p.whole == [] && p.given == []
    ensures WireOk(s, p, submitted)
  {
    assert OutData([]) == [] && OutIds([]) == [];
  }
}
