/**
 Cutting a byte stream into frames. Both protocols announce a frame's length in its header; the
 reader takes complete frames off the front of its buffer as bytes arrive in arbitrary pieces.
 */
module Framing {
  import opened Common
  import opened KvProtocol
  import opened RpcProtocol

  datatype Protocol = Kv | Rpc

  datatype FrameSize = Malformed | Size(n: nat)

  function HeaderSize(p: Protocol): nat { if p.Kv? then HEADER_SIZE else RPC_HEADER }

  /** Zero while the header is incomplete, the announced length afterwards. */
  function SizeOf(p: Protocol, b: Bytes): (r: FrameSize)
    ensures r.Size? ==> (r.n == 0 <==> |b| < HeaderSize(p)) && (r.n != 0 ==> r.n >= HeaderSize(p))
    ensures r.Malformed? ==> |b| >= HeaderSize(p)
  {
    if |b| < HeaderSize(p) then Size(0)
    else if p.Kv? then
      var h := DecodeHeader(b);
      if ValidHeader(h) then Size(HEADER_SIZE + h.keyLen + h.valueLen) else Malformed
    else if b[..4] == RPC_TAG then Size(RPC_HEADER + GetU32(b[4..8]))
    else Malformed
  }

  /** The announced length does not depend on what follows the header. */
  lemma SizeStable(p: Protocol, b: Bytes, more: Bytes)
    requires |b| >= HeaderSize(p)
    ensures SizeOf(p, b + more) == SizeOf(p, b)
  {
    if p.Kv? {
      DecodeHeaderLocal(b, more);
    } else {
      assert (b + more)[..4] == b[..4] && (b + more)[4..8] == b[4..8];
    }
  }

  predicate WellFramed(p: Protocol, f: Bytes)
  {
    |f| > 0 && SizeOf(p, f) == Size(|f|)
  }

  lemma KvFrameWellFramed(c: Command, key: Bytes, value: Bytes)
    requires Encodable(c, key, value)
    ensures WellFramed(Kv, Frame(c, key, value))
  {
    FrameRoundTrip(c, key, value, []);
    assert Frame(c, key, value) + [] == Frame(c, key, value);
    hide DecodeHeader, Frame;
  }

  /** An encoded frame announces its own length if and only if the length fits its field. */
  lemma RpcFrameWellFramed(id: nat, payload: Bytes)
    ensures WellFramed(Rpc, RpcFrame(id, payload)) <==> |payload| < U32_LIMIT
  {
    var b := RpcFrame(id, payload);
    assert b[..4] == RPC_TAG && b[4..8] == PutU32(|payload| % U32_LIMIT);
    U32RoundTrip(|payload| % U32_LIMIT);
    hide PutU32, GetU32;
  }

  // ----- Greedy extraction -----

  datatype Extraction = Extraction(frames: seq<Bytes>, rest: Bytes, ok: bool)

  /** Can a frame be taken off the front of the buffer? */
  predicate Ready(p: Protocol, limit: nat, b: Bytes)
  {
    var s := SizeOf(p, b);
    s.Size? && 0 < s.n <= |b| && s.n <= limit
  }

  predicate Broken(p: Protocol, limit: nat, b: Bytes)
  {
    var s := SizeOf(p, b);
    s.Malformed? || s.n > limit
  }

  /** The tests of the receive loops, in terms of the announced size. */
  lemma SizeCases(p: Protocol, limit: nat, b: Bytes)
    ensures var s := SizeOf(p, b);
            && (s.Malformed? || s.n > limit <==> Broken(p, limit, b))
            && (Ready(p, limit, b) <==> s.Size? && s.n <= limit && 0 < s.n <= |b|)
            && (|b| >= HeaderSize(p) ==> s.Malformed? || s.n > 0) && (|b| < HeaderSize(p) ==> s == Size(0))
  {
    assert SizeOf(p, b).Malformed? || SizeOf(p, b).n >= 0;
    hide SizeOf;
  }

  function Extract(p: Protocol, limit: nat, b: Bytes): Extraction
    decreases |b|
  {
    if Broken(p, limit, b) then Extraction([], b, false)
    else if Ready(p, limit, b) then
      var n := SizeOf(p, b).n;
      var tail := Extract(p, limit, b[n..]);
      Extraction([b[..n]] + tail.frames, tail.rest, tail.ok)
    else Extraction([], b, true)
  }

  lemma ReadyStable(p: Protocol, limit: nat, b: Bytes, more: Bytes)
    ensures Ready(p, limit, b) ==> Ready(p, limit, b + more) && SizeOf(p, b + more) == SizeOf(p, b)
    ensures Broken(p, limit, b) ==> Broken(p, limit, b + more) && SizeOf(p, b + more) == SizeOf(p, b)
  {
    hide SizeOf;
    if |b| >= HeaderSize(p) { SizeStable(p, b, more); }
  }

  /** Bytes arriving later never change what was extracted earlier. */
  lemma {:induction false} ExtractSplit(p: Protocol, limit: nat, a: Bytes, b: Bytes)
    ensures var first := Extract(p, limit, a);
            var then_ := Extract(p, limit, first.rest + b);
            if first.ok then Extract(p, limit, a + b) == Extraction(first.frames + then_.frames, then_.rest, then_.ok)
            else Extract(p, limit, a + b) == Extraction(first.frames, first.rest + b, false)
    decreases |a|
  {
    hide SizeOf, Ready, Broken;
    ReadyStable(p, limit, a, b);
    ReadyBroken(p, limit, a);
    if Ready(p, limit, a) {
      ReadyBroken(p, limit, a + b);
      var n := SizeOf(p, a).n;
      assert (a + b)[..n] == a[..n] && (a + b)[n..] == a[n..] + b;
      ExtractSplit(p, limit, a[n..], b);
    } else if !Broken(p, limit, a) {
      assert Extract(p, limit, a) == Extraction([], a, true);
    }
  }

  lemma ReadyBroken(p: Protocol, limit: nat, b: Bytes)
    ensures Ready(p, limit, b) ==> !Broken(p, limit, b) && SizeOf(p, b).Size? && 0 < SizeOf(p, b).n <= |b|
  {
    hide SizeOf;
  }

  /** A reader fed piece by piece: the frames so far, the buffered rest, and whether it is still open. */
  function Feed(p: Protocol, limit: nat, state: Extraction, chunk: Bytes): Extraction
  {
    if !state.ok then state.(rest := state.rest + chunk)
    else
      var e := Extract(p, limit, state.rest + chunk);
      Extraction(state.frames + e.frames, e.rest, e.ok)
  }

  function FeedAll(p: Protocol, limit: nat, state: Extraction, chunks: seq<Bytes>): Extraction
    decreases |chunks|
  {
    if chunks == [] then state else FeedAll(p, limit, Feed(p, limit, state, chunks[0]), chunks[1..])
  }

  lemma {:induction false} FeedAllFrom(p: Protocol, limit: nat, before: Bytes, chunks: seq<Bytes>)
    ensures FeedAll(p, limit, Extract(p, limit, before), chunks) == Extract(p, limit, before + Flatten(chunks))
    decreases |chunks|
  {
    hide Extract;
    if chunks == [] {
      assert before + Flatten(chunks) == before;
    } else {
      ExtractSplit(p, limit, before, chunks[0]);
      assert Feed(p, limit, Extract(p, limit, before), chunks[0]) == Extract(p, limit, before + chunks[0]);
      FeedAllFrom(p, limit, before + chunks[0], chunks[1..]);
      assert before + chunks[0] + Flatten(chunks[1..]) == before + (chunks[0] + Flatten(chunks[1..]));
    }
  }

  /**
   Fragmentation independence: for any byte stream, well formed or not, and any way of cutting it
   into pieces, the frames, the leftover and the error are those of reading it in one piece.
   */
  lemma FragmentationIndependence(p: Protocol, limit: nat, chunks: seq<Bytes>)
    ensures FeedAll(p, limit, Extraction([], [], true), chunks) == Extract(p, limit, Flatten(chunks))
  {
    assert Extract(p, limit, []) == Extraction([], [], true);
    FeedAllFrom(p, limit, [], chunks);
    assert [] + Flatten(chunks) == Flatten(chunks);
  }

  lemma ExtractReady(p: Protocol, limit: nat, b: Bytes, n: nat)
    requires Ready(p, limit, b) && SizeOf(p, b) == Size(n) && n <= |b|
    ensures var tail := Extract(p, limit, b[n..]);
            Extract(p, limit, b) == Extraction([b[..n]] + tail.frames, tail.rest, tail.ok)
  {
    hide SizeOf, Ready, Broken;
    ReadyBroken(p, limit, b);
  }

  /** The first of a concatenation of frames is read first. */
  lemma ExtractFirst(p: Protocol, limit: nat, frames: seq<Bytes>)
    requires frames != [] && forall f :: f in frames ==> WellFramed(p, f) && |f| <= limit
    ensures var tail := Extract(p, limit, Flatten(frames[1..]));
            Extract(p, limit, Flatten(frames)) == Extraction([frames[0]] + tail.frames, tail.rest, tail.ok)
  {
    var f, rest, b := frames[0], Flatten(frames[1..]), Flatten(frames);
    assert f in frames && b == f + rest && |f| <= |b|;
    hide SizeOf, Ready, Broken, WellFramed, Flatten, Extract;
    HeadFrame(p, limit, frames, b);
    ReadyBroken(p, limit, b);
    assert b[..|f|] == f && b[|f|..] == rest;
    ExtractReady(p, limit, b, |f|);
  }

  lemma ExtractNothing(p: Protocol, limit: nat)
    ensures Extract(p, limit, Flatten([])) == Extraction([], [], true)
  {}

  /** Reading back a concatenation of frames gives exactly those frames. */
  lemma {:induction false} ExtractFrames(p: Protocol, limit: nat, frames: seq<Bytes>)
    requires forall f :: f in frames ==> WellFramed(p, f) && |f| <= limit
    ensures Extract(p, limit, Flatten(frames)) == Extraction(frames, [], true)
    decreases |frames|
  {
    hide WellFramed, Flatten, Extract;
    if frames == [] {
      ExtractNothing(p, limit);
    } else {
      ExtractFirst(p, limit, frames);
      ExtractFrames(p, limit, frames[1..]);
    }
  }

  /**
   A buffer that holds a prefix of a stream of frames is never broken, and a frame can be taken off
   exactly when the first frame is complete; the frame taken is that one.
   */
  lemma HeadFrame(p: Protocol, limit: nat, frames: seq<Bytes>, b: Bytes)
    requires forall f :: f in frames ==> WellFramed(p, f) && |f| <= limit
    requires b <= Flatten(frames)
    ensures !Broken(p, limit, b)
    ensures Ready(p, limit, b) <==> frames != [] && |frames[0]| <= |b|
    ensures Ready(p, limit, b) ==> SizeOf(p, b).n == |frames[0]| && b[..|frames[0]|] == frames[0]
  {
    if frames == [] {
      assert b == [];
    } else {
      var f, all := frames[0], Flatten(frames);
      assert f in frames && all == f + Flatten(frames[1..]);
      if |b| >= HeaderSize(p) {
        hide SizeOf;
        assert all == b + all[|b|..];
        SizeStable(p, b, all[|b|..]);
        SizeStable(p, f, Flatten(frames[1..]));
        if |b| >= |f| { assert b[..|f|] == all[..|f|] == f; }
      }
    }
  }

  /** Taking one ready frame now or later makes no difference to the frames of the stream. */
  lemma TakeOne(p: Protocol, limit: nat, b: Bytes, coming: Bytes)
    requires Ready(p, limit, b)
    ensures var n := SizeOf(p, b).n;
            n <= |b| && Extract(p, limit, b + coming).frames == [b[..n]] + Extract(p, limit, b[n..] + coming).frames
  {
    ReadyStable(p, limit, b, coming);
    hide SizeOf;
    var n := SizeOf(p, b).n;
    assert (b + coming)[..n] == b[..n] && (b + coming)[n..] == b[n..] + coming;
  }
}
