/**
 The cache service: a batch of requests is parsed, its mutations are logged and synced, and only
 then is it applied and answered, in order.
 */
module Service {
  import opened Common
  import opened KvProtocol
  import opened CacheValueCodec
  import opened AofCodec
  import opened Lru
  import opened Sharded
  import opened Semantics
  import opened LogOps
  import opened Durability
  import opened Aof

  const MAX_TTL: nat := 315360000000

  /** Clock readings come from a signed 64-bit count of milliseconds. */
  const CLOCK_LIMIT: nat := 0x8000_0000_0000_0000

  datatype Request = Request(command: Command, key: Key, value: Bytes, expires: nat)

  datatype Parsed =
    | Partial                                                // wait for more bytes
    | Refused                                                  // close the connection
    | Good(request: Request, log: seq<Mutation>, total: nat)  // at most one mutation

  // ----- First loop: parse and validate -----

  /** The checks on a SET or SET_TTL value. */
  predicate Admitted(c: Config, key: Key, value: Bytes)
    requires Accepted(c)
  {
    |value| <= MAX_VALUE_SIZE && CanStore(c, key, value)
  }

  function ParseTtl(c: Config, key: Key, payload: Bytes, total: nat, now: nat): Parsed
    requires Accepted(c)
  {
    match Parse(payload)
    case None => Refused
    case Some(item) =>
      var expires := (now + item.ttl) % U64_LIMIT;
      if item.ttl == 0 || item.ttl > MAX_TTL || !Admitted(c, key, item.value) then Refused
      else Good(Request(SetTtl, key, item.value, expires),
                [Mutation(SetTtl, key, Serialize(item.(ttl := 0, expires := expires)))], total)
  }

  function ParseBody(c: Config, command: Command, key: Key, value: Bytes, total: nat, now: nat): Parsed
    requires Accepted(c)
  {
    match command
    case SetTtl => ParseTtl(c, key, value, total, now)
    case Set =>
      if Admitted(c, key, value) then Good(Request(Set, key, value, 0), [Mutation(Set, key, value)], total) else Refused
    case Del => Good(Request(Del, key, value, 0), [Mutation(Del, key, value)], total)
    case _ => Good(Request(command, key, value, 0), [], total)
  }

  function ParseRequest(c: Config, data: Bytes, now: nat): Parsed
    requires Accepted(c)
  {
    if |data| < HEADER_SIZE then Partial
    else
      var h := DecodeHeader(data);
      var command := FromCode(h.command);
      if !ValidHeader(h) then Refused
      else if (command != Set && command != SetTtl && h.valueLen != 0) || (command == Stats && h.keyLen != 0) then
        Refused
      else
        var total := HEADER_SIZE + h.keyLen + h.valueLen;
        if |data| < total then Partial
        else ParseBody(c, command, data[HEADER_SIZE..HEADER_SIZE + h.keyLen],
                       data[HEADER_SIZE + h.keyLen..total], total, now)
  }

  /** What a request does to the cache, if it mutates it. */
  function RequestOps(r: Request): seq<Op>
  {
    match r.command
    case Set => [Write(r.key, r.value, r.expires)]
    case SetTtl => [Write(r.key, r.value, r.expires)]
    case Del => [Erase(r.key)]
    case _ => []
  }

  lemma StampFits(item: CacheValue, expires: nat)
    requires |item.value| <= MAX_VALUE_SIZE && 0 < expires < U64_LIMIT
    ensures |Serialize(item.(ttl := 0, expires := expires))| <= MAX_WIRE_VALUE_SIZE
    ensures Parse(Serialize(item.(ttl := 0, expires := expires))) == Some(item.(ttl := 0, expires := expires))
  {
    StampedFits(item.value, expires);
    SerializeRoundTrip(item.(ttl := 0, expires := expires));
    SerializeSize(item.(ttl := 0, expires := expires));
    SerializeSize(CacheValue(false, item.value, expires, 0));
    VarintOne();
    hide PutVarint, ParseInto, ValueField, Serialize;
  }

  lemma BodyLogged(c: Config, command: Command, key: Key, value: Bytes, total: nat, now: nat)
    requires Accepted(c) && now < CLOCK_LIMIT && ParseBody(c, command, key, value, total, now).Good?
    requires |key| <= MAX_KEY_SIZE && |value| <= MAX_WIRE_VALUE_SIZE && (command == Del ==> value == [])
    requires total > 0
    ensures var p := ParseBody(c, command, key, value, total, now);
            var ops := RequestOps(p.request);
            && |p.log| == |ops| <= 1 && p.total == total && p.request.command == command && p.request.key == key
            && (p.log != [] ==> Loggable(p.log[0]) && Decode(p.log[0]) == Some(ops[0]) && Storable(c, ops[0]))
  {
    hide CanStore, Serialize, ParseInto;
    if command == SetTtl {
      var item := Parse(value).value;
      assert (now + item.ttl) % U64_LIMIT == now + item.ttl;
      StampFits(item, now + item.ttl);
    }
  }

  /**
   The logged mutation is the applied operation: it can be encoded, replay decodes it to exactly
   what is applied, and neither now nor on replay can the store exceed its shard's budget.
   */
  lemma LoggedIsApplied(c: Config, data: Bytes, now: nat)
    requires Accepted(c) && now < CLOCK_LIMIT && ParseRequest(c, data, now).Good?
    ensures var p := ParseRequest(c, data, now);
            var ops := RequestOps(p.request);
            && |p.log| == |ops| <= 1 && 0 < p.total <= |data|
            && (p.log != [] ==> Loggable(p.log[0]) && Decode(p.log[0]) == Some(ops[0]) && Storable(c, ops[0]))
  {
    hide ParseBody, Loggable, Decode, Storable, RequestOps, Code, FromCode, GetU32;
    var h := DecodeHeader(data);
    var total := HEADER_SIZE + h.keyLen + h.valueLen;
    var key, value := data[HEADER_SIZE..HEADER_SIZE + h.keyLen], data[HEADER_SIZE + h.keyLen..total];
    BodyLogged(c, FromCode(h.command), key, value, total, now);
  }

  function ParseAll(c: Config, inputs: seq<Bytes>, times: seq<nat>): (ps: seq<Parsed>)
    requires Accepted(c) && |times| == |inputs|
    ensures |ps| == |inputs| && forall i :: 0 <= i < |ps| ==> ps[i] == ParseRequest(c, inputs[i], times[i])
  {
    seq(|inputs|, i requires 0 <= i < |inputs| => ParseRequest(c, inputs[i], times[i]))
  }

  function LogOf(ps: seq<Parsed>): seq<Mutation>
  {
    if ps == [] then [] else (if ps[0].Good? then ps[0].log else []) + LogOf(ps[1..])
  }

  function OpsOf(ps: seq<Parsed>): seq<Op>
  {
    if ps == [] then [] else (if ps[0].Good? then RequestOps(ps[0].request) else []) + OpsOf(ps[1..])
  }

  lemma {:induction false} LogOfAppend(a: seq<Parsed>, b: seq<Parsed>)
    ensures LogOf(a + b) == LogOf(a) + LogOf(b)
  {
    if a == [] {
      assert a + b == b;
    } else {
      assert (a + b)[1..] == a[1..] + b;
      LogOfAppend(a[1..], b);
    }
  }

  lemma {:induction false} OpsOfAppend(a: seq<Parsed>, b: seq<Parsed>)
    ensures OpsOf(a + b) == OpsOf(a) + OpsOf(b)
  {
    hide RequestOps;
    if a == [] {
      assert a + b == b;
    } else {
      assert (a + b)[1..] == a[1..] + b;
      OpsOfAppend(a[1..], b);
    }
  }

  predicate AllBelow(times: seq<nat>, limit: nat) { forall t :: t in times ==> t < limit }

  /** The log of a whole batch decodes to the operations of the batch, in order. */
  lemma {:induction false} BatchLogged(c: Config, inputs: seq<Bytes>, times: seq<nat>)
    requires Accepted(c) && |times| == |inputs| && AllBelow(times, CLOCK_LIMIT)
    ensures var ps := ParseAll(c, inputs, times);
            Logs(c, LogOf(ps), OpsOf(ps))
    decreases |inputs|
  {
    if inputs != [] {
      assert times[0] in times && forall t :: t in times[1..] ==> t in times;
      hide ParseRequest, Loggable, Decode, Storable, RequestOps, Writable, Meaningful, AllStorable;
      var ps := ParseAll(c, inputs, times);
      assert ps[1..] == ParseAll(c, inputs[1..], times[1..]);
      BatchLogged(c, inputs[1..], times[1..]);
      if ps[0].Good? {
        OneLogged(c, inputs[0], times[0]);
        JoinLogged(c, ps[0].log, LogOf(ps[1..]), RequestOps(ps[0].request), OpsOf(ps[1..]));
      } else {
        assert [] + LogOf(ps[1..]) == LogOf(ps[1..]) && [] + OpsOf(ps[1..]) == OpsOf(ps[1..]);
      }
    } else {
      assert V2All([]) == [] && Ops([]) == [];
    }
  }

  /** The mutations decode to these operations. */
  predicate Logs(c: Config, ms: seq<Mutation>, ops: seq<Op>)
    requires Accepted(c)
  {
    Writable(ms) && Meaningful(V2All(ms)) && Ops(V2All(ms)) == ops && AllStorable(c, ops)
  }

  lemma OneLogged(c: Config, data: Bytes, now: nat)
    requires Accepted(c) && now < CLOCK_LIMIT && ParseRequest(c, data, now).Good?
    ensures Logs(c, ParseRequest(c, data, now).log, RequestOps(ParseRequest(c, data, now).request))
  {
    LoggedIsApplied(c, data, now);
    hide ParseRequest, Loggable, Decode, Storable, RequestOps;
  }

  lemma JoinLogged(c: Config, a: seq<Mutation>, b: seq<Mutation>, x: seq<Op>, y: seq<Op>)
    requires Accepted(c) && Logs(c, a, x) && Logs(c, b, y)
    ensures Logs(c, a + b, x + y)
  {
    hide Loggable, Decode, Storable;
    assert V2All(a + b) == V2All(a) + V2All(b);
    OpsAppend(V2All(a), V2All(b));
  }

  // ----- Second loop: apply and answer -----

  function LookupReply(value: Option<Bytes>): Bytes
  {
    Serialize(if value.Some? then CacheValue(true, value.value, 0, 0) else EMPTY)
  }

  function Response(c: Config, s: Cache, r: Request, now: nat, stats: Bytes): Bytes
    requires Accepted(c) && |s| == Count(c)
  {
    match r.command
    case Get => (match Peek(c, s, r.key, now) case Some(v) => v case None => [])
    case Lookup => LookupReply(Peek(c, s, r.key, now))
    case Stats => stats
    case _ => []
  }

  function Touched(c: Config, s: Cache, r: Request, now: nat): (t: Cache)
    requires Accepted(c) && |s| == Count(c)
    ensures |t| == Count(c)
  {
    match r.command
    case Set => AfterPut(c, s, r.key, r.value, r.expires, now)
    case SetTtl => AfterPut(c, s, r.key, r.value, r.expires, now)
    case Del => AfterRemove(c, s, r.key)
    case Stats => s
    case _ => AfterGet(c, s, r.key, now)
  }

  /** `ok` is false where building a reply raises; the service then stops. */
  datatype Execution = Execution(cache: Cache, replies: seq<Reply>, ok: bool)

  function Execute(c: Config, s: Cache, p: Parsed, now: nat, stats: Bytes): (r: Execution)
    requires Accepted(c) && |s| == Count(c)
    ensures |r.cache| == Count(c) && (r.ok ==> |r.replies| == 1)
  {
    match p
    case Partial => Execution(s, [Reply(0, [], false)], true)
    case Refused => Execution(s, [Reply(0, [], true)], true)
    case Good(q, _, total) =>
      var next := Touched(c, s, q, now);
      match KvProtocol.Encode(q.command, q.key, Response(c, s, q, now, stats))
      case Some(b) => Execution(next, [Reply(total, b, false)], true)
      case None => Execution(next, [], false)
  }

  function ExecuteAll(c: Config, s: Cache, ps: seq<Parsed>, times: seq<nat>, stats: Bytes): (r: Execution)
    requires Accepted(c) && |s| == Count(c) && |times| == |ps|
    ensures |r.cache| == Count(c) && (r.ok ==> |r.replies| == |ps|)
    decreases |ps|
  {
    if ps == [] then Execution(s, [], true)
    else
      var one := Execute(c, s, ps[0], times[0], stats);
      if !one.ok then one
      else
        var rest := ExecuteAll(c, one.cache, ps[1..], times[1..], stats);
        Execution(rest.cache, one.replies + rest.replies, rest.ok)
  }

  lemma {:induction false} ExecuteAppend(c: Config, s: Cache, a: seq<Parsed>, ta: seq<nat>, b: seq<Parsed>,
                                         tb: seq<nat>, stats: Bytes)
    requires Accepted(c) && |s| == Count(c) && |ta| == |a| && |tb| == |b|
    ensures var x := ExecuteAll(c, s, a, ta, stats);
            var y := ExecuteAll(c, x.cache, b, tb, stats);
            var both := if x.ok then Execution(y.cache, x.replies + y.replies, y.ok) else x;
            ExecuteAll(c, s, a + b, ta + tb, stats) == both
    decreases |a|
  {
    hide Execute;
    if a == [] {
      assert a + b == b && ta + tb == tb;
    } else {
      assert (a + b)[1..] == a[1..] + b && (ta + tb)[1..] == ta[1..] + tb;
      var one := Execute(c, s, a[0], ta[0], stats);
      if one.ok { ExecuteAppend(c, one.cache, a[1..], ta[1..], b, tb, stats); }
    }
  }

  // ----- The second loop as steps of the storage engine -----

  function RequestEvents(p: Parsed): seq<Event>
  {
    if !p.Good? || p.request.command == Stats then []
    else if RequestOps(p.request) != [] then [ApplyNext]
    else [Read(p.request.key)]
  }

  /** Each request first reads the clock. */
  function BatchEvents(ps: seq<Parsed>, times: seq<nat>): seq<Event>
    requires |times| == |ps|
  {
    if ps == [] then [] else [Tick(times[0])] + RequestEvents(ps[0]) + BatchEvents(ps[1..], times[1..])
  }

  ghost predicate Leads(c: Config, s: State, es: seq<Event>, t: State)
    requires Accepted(c)
    decreases |es|
  {
    if es == [] then s == t else Enabled(c, s, es[0]) && Leads(c, After(c, s, es[0]), es[1..], t)
  }

  lemma {:induction false} LeadsAppend(c: Config, s: State, a: seq<Event>, m: State, b: seq<Event>, t: State)
    requires Accepted(c) && Leads(c, s, a, m) && Leads(c, m, b, t)
    ensures Leads(c, s, a + b, t)
    decreases |a|
  {
    hide Enabled, After;
    if a == [] {
      assert a + b == b;
    } else {
      assert (a + b)[1..] == a[1..] + b;
      LeadsAppend(c, After(c, s, a[0]), a[1..], m, b, t);
    }
  }

  /** The batch is in the log and synced, or needs no log; these operations of it are still to be applied. */
  ghost predicate Awaits(s: State, ops: seq<Op>)
  {
    && (s.phase == Applying(|ops|) || (ops == [] && s.phase.Idle?))
    && |ops| <= |s.history| && s.history[|s.history| - |ops|..] == ops
  }

  /** Applying a batch does not touch the log, and does not leave the phase it started in. */
  predicate SameLog(s: State, t: State)
  {
    t.file == s.file && t.history == s.history && t.acked == s.acked && (t.phase.Idle? <==> s.phase.Idle?)
  }

  lemma LeadsOne(c: Config, s: State, e: Event)
    requires Accepted(c) && Enabled(c, s, e)
    ensures Leads(c, s, [e], After(c, s, e))
    ensures Leads(c, s, [], s)
  {
    hide Enabled, After;
    assert [e][1..] == [];
    assert Leads(c, After(c, s, e), [], After(c, s, e));
  }

  lemma TickStep(c: Config, s: State, now: nat)
    requires Accepted(c) && s.now <= now
    ensures Enabled(c, s, Tick(now)) && After(c, s, Tick(now)) == s.(now := now)
  {}

  lemma MutationStep(c: Config, s: State, op: Op, rest: seq<Op>)
    requires Accepted(c) && |s.cache| == Count(c) && Awaits(s, [op] + rest)
    ensures Enabled(c, s, ApplyNext)
    ensures var t := After(c, s, ApplyNext);
            Awaits(t, rest) && t.now == s.now && t.cache == Apply(c, s.cache, op, s.now) && SameLog(s, t)
  {
    hide Apply, Evicted;
    var h, n := s.history, |rest| + 1;
    assert h[|h| - n..][0] == op && h[|h| - n..][1..] == rest;
    assert h[|h| - n..][1..] == h[|h| - |rest|..];
  }

  lemma ReadStep(c: Config, s: State, k: Key, rest: seq<Op>)
    requires Accepted(c) && |s.cache| == Count(c) && Awaits(s, rest)
    ensures Enabled(c, s, Read(k))
    ensures var t := After(c, s, Read(k));
            Awaits(t, rest) && t.now == s.now && t.cache == AfterGet(c, s.cache, k, s.now) && SameLog(s, t)
  {
    hide AfterGet;
  }

  /** What a parsed request carries is one of the six commands. */
  predicate Known(p: Parsed)
  {
    p.Good? ==> p.request.command != Unknown
  }

  function PendingOps(p: Parsed): seq<Op> { if p.Good? then RequestOps(p.request) else [] }

  lemma RequestStep(c: Config, s: State, p: Parsed, rest: seq<Op>, stats: Bytes) returns (t: State)
    requires Accepted(c) && |s.cache| == Count(c) && Known(p) && Awaits(s, PendingOps(p) + rest)
    ensures Leads(c, s, RequestEvents(p), t) && Awaits(t, rest) && t.now == s.now && SameLog(s, t)
    ensures t.cache == Execute(c, s.cache, p, s.now, stats).cache
  {
    hide Response, Awaits, Enabled, After, AfterPut, AfterRemove, AfterGet;
    var es := RequestEvents(p);
    if es == [] {
      assert PendingOps(p) + rest == rest;
      t := s;
      assert Leads(c, s, [], s);
    } else if es[0].ApplyNext? {
      var op := RequestOps(p.request)[0];
      assert PendingOps(p) == [op];
      MutationStep(c, s, op, rest);
      LeadsOne(c, s, ApplyNext);
      t := After(c, s, ApplyNext);
    } else {
      assert PendingOps(p) + rest == rest;
      ReadStep(c, s, p.request.key, rest);
      LeadsOne(c, s, Read(p.request.key));
      t := After(c, s, Read(p.request.key));
    }
  }

  /** Parsing yields only the six commands. */
  lemma ParsedKnown(c: Config, inputs: seq<Bytes>, times: seq<nat>)
    requires Accepted(c) && |times| == |inputs|
    ensures forall p :: p in ParseAll(c, inputs, times) ==> Known(p)
  {
    forall p | p in ParseAll(c, inputs, times) ensures Known(p) {
      var i :| 0 <= i < |inputs| && p == ParseRequest(c, inputs[i], times[i]);
      CommandKnown(c, inputs[i], times[i]);
    }
  }

  lemma CommandKnown(c: Config, data: Bytes, now: nat)
    requires Accepted(c)
    ensures Known(ParseRequest(c, data, now))
  {
    hide CanStore, ParseInto, Serialize, GetU32;
  }

  /** The first request of a batch: the clock is read, then it is applied or answered. */
  lemma FirstRequest(c: Config, s: State, ps: seq<Parsed>, now: nat, stats: Bytes) returns (t: State)
    requires Accepted(c) && |s.cache| == Count(c) && ps != [] && Known(ps[0]) && Awaits(s, OpsOf(ps)) && s.now <= now
    ensures Leads(c, s, [Tick(now)] + RequestEvents(ps[0]), t) && Awaits(t, OpsOf(ps[1..])) && SameLog(s, t)
    ensures t.now == now
    ensures t.cache == Execute(c, s.cache, ps[0], now, stats).cache
  {
    hide Execute, Enabled, After, RequestEvents, RequestOps, Leads;
    var s1 := s.(now := now);
    assert OpsOf(ps) == PendingOps(ps[0]) + OpsOf(ps[1..]);
    TickStep(c, s, now);
    LeadsOne(c, s, Tick(now));
    t := RequestStep(c, s1, ps[0], OpsOf(ps[1..]), stats);
    LeadsAppend(c, s, [Tick(now)], s1, RequestEvents(ps[0]), t);
  }

  /**
   Once the batch is synced, the second loop is a sequence of steps of the storage engine: one
   clock reading per request, one application per mutation, one read per lookup, in batch order, up
   to the first request whose reply cannot be built.
   */
  lemma {:induction false} ExecutionIsSteps(c: Config, s: State, ps: seq<Parsed>, times: seq<nat>, until: nat,
                                            stats: Bytes)
      returns (t: State, n: nat)
    requires Accepted(c) && |s.cache| == Count(c) && |times| == |ps| && Ticking(times, s.now, until)
    requires (forall p :: p in ps ==> Known(p)) && Awaits(s, OpsOf(ps))
    ensures var run := ExecuteAll(c, s.cache, ps, times, stats);
            t.cache == run.cache && n <= |ps| && (run.ok ==> n == |ps|)
    ensures Leads(c, s, BatchEvents(ps[..n], times[..n]), t) && Awaits(t, OpsOf(ps[n..])) && SameLog(s, t)
    ensures t.now <= until
    decreases |ps|
  {
    hide ExecuteAll, Execute, Enabled, After, RequestEvents, OpsOf, BatchEvents, Leads, Awaits, Ticking, Known, SameLog;
    if ps == [] {
      t, n := s, 0;
      ExecuteNothing(c, s, ps, times, until, stats);
    } else {
      assert ps[0] in ps && forall p :: p in ps[1..] ==> p in ps;
      assert s.now <= times[0] <= until && Ticking(times[1..], times[0], until) by { FirstTick(times, s.now, until); }
      ExecuteFirst(c, s.cache, ps, times, stats);
      var m := FirstRequest(c, s, ps, times[0], stats);
      if Execute(c, s.cache, ps[0], times[0], stats).ok {
        t, n := ExecutionIsSteps(c, m, ps[1..], times[1..], until, stats);
      } else {
        t, n := m, 0;
        assert ps[1..][..0] == [] && times[1..][..0] == [] && ps[1..][0..] == ps[1..];
        NoEvents(c, m);
      }
      FirstThenRest(c, s, ps, times, m, n, t);
      n := n + 1;
    }
  }

  lemma FirstThenRest(c: Config, s: State, ps: seq<Parsed>, times: seq<nat>, m: State, n: nat, t: State)
    requires Accepted(c) && |times| == |ps| && n < |ps| && SameLog(s, m) && SameLog(m, t)
    requires Leads(c, s, [Tick(times[0])] + RequestEvents(ps[0]), m)
    requires Leads(c, m, BatchEvents(ps[1..][..n], times[1..][..n]), t) && Awaits(t, OpsOf(ps[1..][n..]))
    ensures Leads(c, s, BatchEvents(ps[..n + 1], times[..n + 1]), t) && Awaits(t, OpsOf(ps[n + 1..])) && SameLog(s, t)
  {
    hide RequestEvents, OpsOf, BatchEvents, Leads, Awaits;
    LeadsAppend(c, s, [Tick(times[0])] + RequestEvents(ps[0]), m, BatchEvents(ps[1..][..n], times[1..][..n]), t);
    FirstOfBatch(ps, times, n);
    assert ps[1..][n..] == ps[n + 1..];
  }

  lemma FirstTick(times: seq<nat>, from: nat, until: nat)
    requires Ticking(times, from, until) && times != []
    ensures from <= times[0] <= until && Ticking(times[1..], times[0], until)
  {
    TickingOrder(times[1..], times[0], until);
  }

  lemma ExecuteNothing(c: Config, s: State, ps: seq<Parsed>, times: seq<nat>, until: nat, stats: Bytes)
    requires Accepted(c) && |s.cache| == Count(c) && |times| == |ps| && Ticking(times, s.now, until) && ps == []
    ensures ExecuteAll(c, s.cache, ps, times, stats).cache == s.cache && ps[0..] == ps && s.now <= until
    ensures Leads(c, s, BatchEvents(ps[..0], times[..0]), s) && SameLog(s, s)
  {
    NoEvents(c, s);
  }

  lemma ExecuteFirst(c: Config, s: Cache, ps: seq<Parsed>, times: seq<nat>, stats: Bytes)
    requires Accepted(c) && |s| == Count(c) && |times| == |ps| && ps != []
    ensures var one := Execute(c, s, ps[0], times[0], stats);
            var rest := ExecuteAll(c, one.cache, ps[1..], times[1..], stats);
            var all := ExecuteAll(c, s, ps, times, stats);
            all.ok == (one.ok && rest.ok) && all.cache == if one.ok then rest.cache else one.cache
  {
    hide Execute;
  }

  lemma NoEvents(c: Config, s: State)
    requires Accepted(c)
    ensures Leads(c, s, BatchEvents([], []), s) && SameLog(s, s)
  {}

  lemma FirstOfBatch(ps: seq<Parsed>, times: seq<nat>, n: nat)
    requires |times| == |ps| && n < |ps|
    ensures BatchEvents(ps[..n + 1], times[..n + 1])
         == [Tick(times[0])] + RequestEvents(ps[0]) + BatchEvents(ps[1..][..n], times[1..][..n])
  {
    hide RequestEvents;
    assert ps[..n + 1][1..] == ps[1..][..n] && times[..n + 1][1..] == times[1..][..n];
  }
}
