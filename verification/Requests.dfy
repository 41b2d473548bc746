/**
 What the bytes of a client mean and what it is answered, in the client's terms: frames as it encodes
 them, commands, keys and values, and the value a key has.
 */
module Requests {
  import opened Common
  import opened KvProtocol
  import opened CacheValueCodec
  import opened AofCodec
  import opened Lru
  import opened Sharded
  import opened Semantics
  import opened Service

  /** The entry and the 80 bytes charged for it fit the key's shard. */
  predicate Fitting(c: Config, key: Key, value: Bytes)
    requires Accepted(c)
  {
    |value| <= 1048576 && |key| + |value| + 80 <= Budget(c, Home(c, key))
  }

  /** Only stores carry a value, and STATS carries nothing at all. */
  predicate BodyAllowed(command: Command, key: Bytes, value: Bytes)
  {
    match command
    case Set => true
    case SetTtl => true
    case Stats => key == [] && value == []
    case _ => value == []
  }

  /** A frame at the front of the input is read as its command, key and value, whatever follows. */
  lemma FrameIsRead(c: Config, command: Command, key: Key, value: Bytes, rest: Bytes, now: nat)
    requires Accepted(c) && Encodable(command, key, value)
    ensures var total := 12 + |key| + |value|;
            ParseRequest(c, Frame(command, key, value) + rest, now)
            == if BodyAllowed(command, key, value) then ParseBody(c, command, key, value, total, now) else Refused
  {
    FrameRoundTrip(command, key, value, rest);
    hide Frame, DecodeHeader, ParseBody;
  }

  /**
   What each command asks for. A store is refused exactly when it is too large; GET, LOOKUP and DEL
   exactly when they carry a value, STATS when it carries anything.
   */
  lemma CommandMeaning(c: Config, command: Command, key: Key, value: Bytes, rest: Bytes, now: nat)
    requires Accepted(c) && Encodable(command, key, value)
    ensures var p, total := ParseRequest(c, Frame(command, key, value) + rest, now), 12 + |key| + |value|;
            match command
            case Set =>
              p == if Fitting(c, key, value) then Good(Request(Set, key, value, 0), [Mutation(Set, key, value)], total)
                   else Refused
            case Del =>
              p == if value == [] then Good(Request(Del, key, [], 0), [Mutation(Del, key, [])], total) else Refused
            case Get => p == if value == [] then Good(Request(Get, key, [], 0), [], total) else Refused
            case Lookup => p == if value == [] then Good(Request(Lookup, key, [], 0), [], total) else Refused
            case Stats =>
              p == if key == [] && value == [] then Good(Request(Stats, [], [], 0), [], total) else Refused
            case _ => true
  {
    FrameIsRead(c, command, key, value, rest, now);
    hide ParseRequest, Frame, ParseTtl, Budget, Home;
  }

  /**
   SET_TTL carries a serialised value with a lifetime in milliseconds, at most ten years. It expires that
   long after it was parsed; the log gets the expiry instead of the lifetime.
   */
  lemma TtlMeaning(c: Config, key: Key, item: CacheValue, rest: Bytes, now: nat)
    requires Accepted(c) && WellFormed(item) && Encodable(SetTtl, key, Serialize(item)) && now < CLOCK_LIMIT
    ensures var payload := Serialize(item);
            ParseRequest(c, Frame(SetTtl, key, payload) + rest, now)
            == if 0 < item.ttl <= 315360000000 && Fitting(c, key, item.value) then
                 Good(Request(SetTtl, key, item.value, now + item.ttl),
                      [Mutation(SetTtl, key, Serialize(CacheValue(item.found, item.value, now + item.ttl, 0)))],
                      12 + |key| + |payload|)
               else Refused
  {
    hide ParseRequest, Frame, Serialize, Parse, ParseBody, Fitting;
    FrameIsRead(c, SetTtl, key, Serialize(item), rest, now);
    SerializeRoundTrip(item);
    TtlBody(c, key, Serialize(item), item, 12 + |key| + |Serialize(item)|, now);
  }

  lemma TtlBody(c: Config, key: Key, payload: Bytes, item: CacheValue, total: nat, now: nat)
    requires Accepted(c) && Parse(payload) == Some(item) && now < CLOCK_LIMIT
    ensures ParseBody(c, SetTtl, key, payload, total, now)
         == if 0 < item.ttl <= 315360000000 && Fitting(c, key, item.value) then
              Good(Request(SetTtl, key, item.value, now + item.ttl),
                   [Mutation(SetTtl, key, Serialize(CacheValue(item.found, item.value, now + item.ttl, 0)))], total)
            else Refused
  {
    hide Parse, Serialize, Budget, Home;
    if 0 < item.ttl <= 315360000000 {
      assert (now + item.ttl) % U64_LIMIT == now + item.ttl;
      assert item.(ttl := 0, expires := now + item.ttl) == CacheValue(item.found, item.value, now + item.ttl, 0);
    }
  }

  /** A frame that has not arrived completely is waited for, unless its header already condemns it. */
  lemma PartOfFrame(c: Config, command: Command, key: Key, value: Bytes, b: Bytes, now: nat)
    requires Accepted(c) && Encodable(command, key, value) && b <= Frame(command, key, value)
    requires |b| < 12 + |key| + |value|
    ensures ParseRequest(c, b, now) == if |b| < 12 || BodyAllowed(command, key, value) then Partial else Refused
  {
    if |b| >= 12 {
      var f := Frame(command, key, value);
      FrameRoundTrip(command, key, value, []);
      assert f + [] == f && b + f[|b|..] == f;
      DecodeHeaderLocal(b, f[|b|..]);
      hide Frame, DecodeHeader, ParseBody;
    }
  }

  /** Whatever is accepted is a frame with an admissible body; an invalid header is refused at once. */
  lemma OnlyFrames(c: Config, b: Bytes, now: nat)
    requires Accepted(c)
    ensures |b| >= 12 && !ValidHeader(DecodeHeader(b)) ==> ParseRequest(c, b, now).Refused?
    ensures var p := ParseRequest(c, b, now);
            p.Good? ==> exists value: Bytes ::
              && Encodable(p.request.command, p.request.key, value) && p.total <= |b|
              && BodyAllowed(p.request.command, p.request.key, value)
              && b[..p.total] == Frame(p.request.command, p.request.key, value)
  {
    hide DecodeHeader, ParseBody, FromCode, Frame;
    var p := ParseRequest(c, b, now);
    if p.Good? {
      var h := DecodeHeader(b);
      var key, value := b[12..12 + h.keyLen], b[12 + h.keyLen..12 + h.keyLen + h.valueLen];
      FrontFrame(b);
      BodyKeeps(c, FromCode(h.command), key, value, 12 + |key| + |value|, now);
      assert BodyAllowed(p.request.command, p.request.key, value);
    }
  }

  /** A valid header with enough bytes behind it starts a frame. */
  lemma FrontFrame(b: Bytes)
    requires |b| >= 12 && ValidHeader(DecodeHeader(b))
    requires |b| >= 12 + DecodeHeader(b).keyLen + DecodeHeader(b).valueLen
    ensures var h := DecodeHeader(b);
            var total := 12 + h.keyLen + h.valueLen;
            var command, key, value := FromCode(h.command), b[12..12 + h.keyLen], b[12 + h.keyLen..total];
            Encodable(command, key, value) && b[..total] == Frame(command, key, value)
  {
    hide DecodeHeader, FromCode, Frame;
    var h := DecodeHeader(b);
    var total := 12 + h.keyLen + h.valueLen;
    var f := b[..total];
    assert b == f + b[total..];
    DecodeHeaderLocal(f, b[total..]);
    FrameUnique(f);
    assert f[12..12 + h.keyLen] == b[12..12 + h.keyLen] && f[12 + h.keyLen..] == b[12 + h.keyLen..total];
  }

  lemma BodyKeeps(c: Config, command: Command, key: Key, value: Bytes, total: nat, now: nat)
    requires Accepted(c) && ParseBody(c, command, key, value, total, now).Good?
    ensures var p := ParseBody(c, command, key, value, total, now);
            p.request.command == command && p.request.key == key && p.total == total
  {
    hide Parse, Serialize, CanStore;
  }

  // ----- Answers -----

  /** The value a client is shown for a key: GET does not tell a miss from an empty value. */
  function Shown(v: Option<Bytes>): Bytes { if v.Some? then v.value else [] }

  /** What the client finds in its answer to `q`, when the key has value `v`. */
  ghost predicate Tells(b: Bytes, q: Request, v: Option<Bytes>, stats: Bytes)
  {
    match q.command
    case Get => Reads(b, Get, q.key, Shown(v))
    case Lookup =>
      exists payload :: Reads(b, Lookup, q.key, payload)
                        && Parse(payload) == Some(CacheValue(v.Some?, Shown(v), 0, 0))
    case Stats => Reads(b, Stats, q.key, stats)
    case command => Reads(b, command, q.key, [])
  }

  /**
   The answer to one request. Incomplete input consumes nothing and keeps the connection; a refused
   request closes it; any other consumes its frame and is answered with its own command and key, and
   with the value the key has in the cache where it asks for one.
   */
  lemma AnswerMeaning(c: Config, s: Cache, p: Parsed, now: nat, stats: Bytes)
    requires Accepted(c) && |s| == Count(c) && Execute(c, s, p, now, stats).ok
    ensures var run := Execute(c, s, p, now, stats);
            match p
            case Partial => run.replies == [Reply(0, [], false)] && run.cache == s
            case Refused => run.replies == [Reply(0, [], true)] && run.cache == s
            case Good(q, _, total) =>
              && run.replies[0].consumed == total && !run.replies[0].close
              && Tells(run.replies[0].bytes, q, Peek(c, s, q.key, now), stats)
  {
    if p.Good? {
      hide Peek, Parse, Serialize, Reads, Touched;
      var v := Peek(c, s, p.request.key, now);
      if p.request.command == Lookup { LookupPayload(v); }
    }
  }

  lemma LookupPayload(v: Option<Bytes>)
    requires |LookupReply(v)| <= MAX_WIRE_VALUE_SIZE
    ensures Parse(LookupReply(v)) == Some(CacheValue(v.Some?, Shown(v), 0, 0))
  {
    var item := CacheValue(v.Some?, Shown(v), 0, 0);
    SerializeSize(item);
    hide PutVarint, Serialize, NumberField, Parse;
    SerializeRoundTrip(item);
  }

  /** A request is always answered if the value it asks for is no larger than what a client may store. */
  lemma AlwaysAnswered(c: Config, s: Cache, b: Bytes, at: nat, now: nat, stats: Bytes)
    requires Accepted(c) && |s| == Count(c) && ParseRequest(c, b, at).Good? && |stats| <= 1048640
    requires var v := Peek(c, s, ParseRequest(c, b, at).request.key, now);
             v.Some? ==> |v.value| <= 1048576
    ensures Execute(c, s, ParseRequest(c, b, at), now, stats).ok
  {
    OnlyFrames(c, b, at);
    hide ParseRequest, Peek, Touched, Frame;
    var q := ParseRequest(c, b, at).request;
    LookupFits(Peek(c, s, q.key, now));
  }

  lemma LookupFits(v: Option<Bytes>)
    requires v.Some? ==> |v.value| <= 1048576
    ensures |LookupReply(v)| <= 1048640
  {
    var item := CacheValue(v.Some?, Shown(v), 0, 0);
    SerializeSize(item);
    VarintOne();
    assert Pow128(3) == 0x20_0000 by { assert Pow128(2) == 0x4000; }
    VarintWidth(|item.value|, 3);
    hide PutVarint, Serialize;
  }

  /** What one request does to the cache. */
  lemma EffectMeaning(c: Config, s: Cache, p: Parsed, now: nat, stats: Bytes)
    requires Accepted(c) && |s| == Count(c) && p.Good?
    ensures var q, t := p.request, Execute(c, s, p, now, stats).cache;
            match q.command
            case Set => t == Apply(c, s, Write(q.key, q.value, q.expires), now)
            case SetTtl => t == Apply(c, s, Write(q.key, q.value, q.expires), now)
            case Del => t == Apply(c, s, Erase(q.key), now)
            case Stats => t == s
            case _ => t == AfterGet(c, s, q.key, now)
  {
    hide AfterPut, AfterRemove, AfterGet, Response, KvProtocol.Encode;
  }
}
