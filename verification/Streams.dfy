/** Incremental frame decoding: the Python decoder and the C stream with its feed and consume loop.
 *  However the bytes are cut into feeds, the frames come out whole and in order. */
module Streams {
  import opened Bytes
  import opened Frames

  // ----- the Python decoder -----

  /** What the decoding loop makes of a buffer: the complete frames, what is left, and whether it
   *  met no error. */
  datatype Drained = Drained(frames: seq<Frame>, rest: seq<byte>, ok: bool)

  function Drain(b: seq<byte>, limit: nat): Drained
    decreases |b|
  {
    if |b| < HEADER_SIZE then Drained([], b, true)
    else if U32(b, 20) > MAX_PAYLOAD || MIN_FRAME + U32(b, 20) > limit then Drained([], b, false)
    else
      var total := MIN_FRAME + U32(b, 20);
      if |b| < total then Drained([], b, true)
      else
        match Decoded(b[..total])
        case None => Drained([], b, false)
        case Some(f) =>
          var rest := Drain(b[total..], limit);
          Drained([f] + rest.frames, rest.rest, rest.ok)
  }

  /** One turn of the loop. */
  lemma {:induction false} DrainStep(b: seq<byte>, limit: nat)
    ensures Drain(b, limit) ==
            if |b| < HEADER_SIZE then Drained([], b, true)
            else if U32(b, 20) > MAX_PAYLOAD || MIN_FRAME + U32(b, 20) > limit then Drained([], b, false)
            else
              var total := MIN_FRAME + U32(b, 20);
              if |b| < total then Drained([], b, true)
              else if Decoded(b[..total]).None? then Drained([], b, false)
              else
                var rest := Drain(b[total..], limit);
                Drained([Decoded(b[..total]).value] + rest.frames, rest.rest, rest.ok)
  {
  }

  datatype State = State(buffer: seq<byte>, failed: bool)

  /** The outcome of one feed: the new state, and the frames or None where it raises. */
  function FeedState(st: State, data: seq<byte>, limit: nat): (State, Option<seq<Frame>>) {
    if st.failed then (st, None)
    else if |st.buffer| + |data| > limit then (st.(failed := true), None)
    else
      var d := Drain(st.buffer + data, limit);
      if d.ok then (State(d.rest, false), Some(d.frames)) else (State([], true), None)
  }

  class StreamDecoder {
    const maxFrameSize: nat
    var buffer: seq<byte>
    var failed: bool

    constructor (maxFrameSize: nat)
      ensures this.maxFrameSize == (if maxFrameSize < MAX_FRAME then maxFrameSize else MAX_FRAME)
      ensures Abstract() == State([], false)
    {
      this.maxFrameSize := if maxFrameSize < MAX_FRAME then maxFrameSize else MAX_FRAME;
      buffer, failed := [], false;
    }

    ghost function Abstract(): State
      reads this
    {
      State(buffer, failed)
    }

    /** `StreamDecoder.feed`. */
    method Feed(data: seq<byte>) returns (out: Option<seq<Frame>>)
      modifies this
      ensures (Abstract(), out) == FeedState(old(Abstract()), data, maxFrameSize)
    {
      hide Drain, Decoded, U32;
      if failed {
        return None;
      }
      if |buffer| + |data| > maxFrameSize {
        failed := true;
        return None;
      }
      buffer := buffer + data;
      ghost var all := buffer;
      var frames: seq<Frame> := [];
      while |buffer| >= HEADER_SIZE
        invariant !failed
        invariant var rest := Drain(buffer, maxFrameSize);
                  Drain(all, maxFrameSize) == Drained(frames + rest.frames, rest.rest, rest.ok)
        decreases |buffer|
      {
        DrainStep(buffer, maxFrameSize);
        var n := U32(buffer, 20);
        if n > MAX_PAYLOAD || HEADER_SIZE + n + 4 > maxFrameSize {
          failed, buffer := true, [];
          return None;
        }
        var total: int := HEADER_SIZE + n + 4;
        if |buffer| < total {
          break;
        }
        var f := DecodePython(buffer[..total]);
        if f.None? {
          failed, buffer := true, [];
          return None;
        }
        frames := frames + [f.value];
        buffer := buffer[total..];
      }
      DrainStep(buffer, maxFrameSize);
      assert frames + [] == frames;
      out := Some(frames);
    }

    /** `close`: false where it raises. */
    method Close() returns (ok: bool)
      modifies this
      ensures ok <==> old(buffer) == []
      ensures buffer == [] && failed == (old(failed) || !ok)
    {
      ok := buffer == [];
      if !ok {
        failed, buffer := true, [];
      }
    }

    /** `reset`. */
    method Reset()
      modifies this
      ensures Abstract() == State([], false)
    {
      buffer, failed := [], false;
    }
  }

  // ----- streams of valid frames -----

  /** A frame that both sides of the link accept, and that fits the limit. */
  predicate Sendable(f: Frame, limit: nat) {
    Encodable(f) && f.headerFlags <= 1 && AcceptedType(f) && MIN_FRAME + |f.payload| <= limit
  }

  predicate AllSendable(fs: seq<Frame>, limit: nat) {
    forall f | f in fs :: Sendable(f, limit)
  }

  function Encodings(fs: seq<Frame>, limit: nat): seq<byte>
    requires AllSendable(fs, limit)
  {
    if fs == [] then []
    else
      assert fs[0] in fs && Sendable(fs[0], limit);
      Encode(fs[0]) + Encodings(fs[1..], limit)
  }

  /** The start of an encoded frame announces its length. */
  lemma {:induction false} LengthField(f: Frame, b: seq<byte>)
    requires Encodable(f) && HEADER_SIZE <= |b| && (b <= Encode(f) || Encode(f) <= b)
    ensures U32(b, 20) == |f.payload|
  {
    var e := Encode(f);
    HeaderFields(f, e[HEADER_SIZE..]);
    assert e == Header(f) + e[HEADER_SIZE..];
    assert b[20] == e[20] && b[21] == e[21] && b[22] == e[22] && b[23] == e[23];
  }

  /** A buffer that holds part of a frame waits for the rest. */
  lemma {:induction false} PartWaits(f: Frame, b: seq<byte>, limit: nat)
    requires Sendable(f, limit) && b <= Encode(f) && |b| < |Encode(f)|
    ensures Drain(b, limit) == Drained([], b, true)
  {
    if |b| >= HEADER_SIZE {
      LengthField(f, b);
    }
  }

  /** A whole frame at the front of the buffer comes out. */
  lemma {:induction false} WholeComesOut(f: Frame, b: seq<byte>, limit: nat)
    requires Sendable(f, limit)
    ensures var rest := Drain(b, limit);
            Drain(Encode(f) + b, limit) == Drained([f] + rest.frames, rest.rest, rest.ok)
  {
    var all, total := Encode(f) + b, |Encode(f)|;
    LengthField(f, all);
    assert all[..total] == Encode(f) && all[total..] == b;
    PythonRoundTrip(f);
  }

  /** The buffer holds less than the next frame of those to come. */
  predicate HoldsPart(b: seq<byte>, fs: seq<Frame>) {
    b == [] || (fs != [] && Encodable(fs[0]) && |b| < |Encode(fs[0])|)
  }

  /** The frames wholly inside the first bytes of a stream come out; less than one frame is left. */
  lemma {:induction false} DrainPrefix(fs: seq<Frame>, b: seq<byte>, limit: nat) returns (n: nat)
    requires AllSendable(fs, limit) && b <= Encodings(fs, limit)
    ensures n <= |fs| && AllSendable(fs[n..], limit)
    ensures Drain(b, limit).ok && Drain(b, limit).frames == fs[..n]
    ensures b + Encodings(fs, limit)[|b|..] == Encodings(fs, limit)
    ensures var rest := Drain(b, limit).rest;
            && HoldsPart(rest, fs[n..])
            && rest + Encodings(fs, limit)[|b|..] == Encodings(fs[n..], limit)
    decreases |fs|
  {
    hide Encode, Sendable, Drain, Decoded;
    if fs == [] {
      n := 0;
      NothingWaits(limit);
    } else {
      assert fs[0] in fs && forall f | f in fs[1..] :: f in fs;
      SendableIsEncodable(fs[0], limit);
      var e, more := Encode(fs[0]), Encodings(fs[1..], limit);
      assert Encodings(fs, limit) == e + more;
      PrefixParts(e, more, b);
      if |b| < |e| {
        n := 0;
        PartWaits(fs[0], b, limit);
        assert fs[0..] == fs && fs[..0] == [];
      } else {
        var b1 := b[|e|..];
        var k := DrainPrefix(fs[1..], b1, limit);
        n := k + 1;
        WholeComesOut(fs[0], b1, limit);
        assert fs[..n] == [fs[0]] + fs[1..][..k] && fs[n..] == fs[1..][k..];
      }
    }
  }

  lemma {:induction false} PrefixParts(e: seq<byte>, more: seq<byte>, b: seq<byte>)
    requires b <= e + more
    ensures |b| < |e| ==> b <= e
    ensures |b| >= |e| ==> b == e + b[|e|..] && b[|e|..] <= more && (e + more)[|b|..] == more[|b| - |e|..]
    ensures b + (e + more)[|b|..] == e + more
  {
    var all := e + more;
    assert b == all[..|b|];
    if |b| >= |e| {
      assert b[|e|..] == more[..|b| - |e|];
    }
  }

  lemma {:induction false} NothingWaits(limit: nat)
    ensures Drain([], limit) == Drained([], [], true)
  {
  }

  lemma {:induction false} SendableIsEncodable(f: Frame, limit: nat)
    requires Sendable(f, limit)
    ensures Encodable(f)
  {
  }

  // ----- fragmentation -----

  function Concat(chunks: seq<seq<byte>>): seq<byte> {
    if chunks == [] then [] else chunks[0] + Concat(chunks[1..])
  }

  /** Every feed finds room in the buffer. */
  predicate Respects(st: State, chunks: seq<seq<byte>>, limit: nat)
    decreases |chunks|
  {
    chunks == [] || (|st.buffer| + |chunks[0]| <= limit
      && Respects(FeedState(st, chunks[0], limit).0, chunks[1..], limit))
  }

  /** Feeding chunk after chunk: the last state, the frames of all feeds, and whether none raised. */
  function FeedAll(st: State, chunks: seq<seq<byte>>, limit: nat): (State, seq<Frame>, bool)
    decreases |chunks|
  {
    if chunks == [] then (st, [], true)
    else
      var first := FeedState(st, chunks[0], limit);
      var rest := FeedAll(first.0, chunks[1..], limit);
      match first.1
      case None => (rest.0, rest.1, false)
      case Some(frames) => (rest.0, frames + rest.1, rest.2)
  }

  /** Fragmentation independence. Whatever the cut of the encoded frames into feeds, as long as the
   *  buffer takes each feed, all the frames come out in order and nothing stays behind; and a cut
   *  the buffer does not take makes a feed raise. */
  lemma {:induction false} FragmentationDoesNotMatter(fs: seq<Frame>, st: State, chunks: seq<seq<byte>>, limit: nat)
    requires AllSendable(fs, limit) && !st.failed && st.buffer + Concat(chunks) == Encodings(fs, limit)
    requires HoldsPart(st.buffer, fs)
    ensures var r := FeedAll(st, chunks, limit);
            && (r.2 <==> Respects(st, chunks, limit))
            && (r.2 ==> r.0 == State([], false) && r.1 == fs)
    decreases |chunks|
  {
    hide Drain, Encode, Sendable;
    if chunks == [] {
      NothingLeft(fs, st.buffer, limit);
    } else {
      var chunk := chunks[0];
      assert st.buffer + Concat(chunks) == st.buffer + chunk + Concat(chunks[1..]);
      if |st.buffer| + |chunk| <= limit {
        var b := st.buffer + chunk;
        assert b <= Encodings(fs, limit);
        var n := DrainPrefix(fs, b, limit);
        assert Encodings(fs, limit)[|b|..] == Concat(chunks[1..]);
        var next := FeedState(st, chunk, limit).0;
        FragmentationDoesNotMatter(fs[n..], next, chunks[1..], limit);
        assert fs[..n] + fs[n..] == fs;
      }
    }
  }

  /** A buffer that is both the whole of the frames to come and less than the next of them is empty. */
  lemma {:induction false} NothingLeft(fs: seq<Frame>, b: seq<byte>, limit: nat)
    requires AllSendable(fs, limit) && HoldsPart(b, fs) && b + [] == Encodings(fs, limit)
    ensures fs == [] && b == []
  {
    hide Encode, Sendable, Encodings;
    assert b + [] == b;
    EncodingsSize(fs, limit);
  }

  lemma {:induction false} EncodingsSize(fs: seq<Frame>, limit: nat)
    requires AllSendable(fs, limit)
    ensures fs != [] ==> Encodable(fs[0]) && |Encodings(fs, limit)| >= |Encode(fs[0])| >= MIN_FRAME
    ensures fs == [] ==> Encodings(fs, limit) == []
  {
    if fs != [] {
      assert fs[0] in fs && Sendable(fs[0], limit);
    }
  }

  /** Between feeds the decoder holds less than one frame. */
  lemma {:induction false} HoldsLessThanAFrame(fs: seq<Frame>, st: State, chunk: seq<byte>, limit: nat)
    requires AllSendable(fs, limit) && !st.failed && |st.buffer| + |chunk| <= limit
             && st.buffer + chunk <= Encodings(fs, limit)
    ensures var r := FeedState(st, chunk, limit);
            && !r.0.failed && r.1.Some?
            && (exists n :: 0 <= n <= |fs| && r.1.value == fs[..n] && HoldsPart(r.0.buffer, fs[n..]))
  {
    hide Drain, Encode, Sendable;
    var n := DrainPrefix(fs, st.buffer + chunk, limit);
  }

  // ----- the C stream -----

  /** `28u + u32(...)`: the sum of two 32-bit words. */
  function TotalC(b: seq<byte>): nat
    requires |b| >= HEADER_SIZE
  {
    (MIN_FRAME + U32(b, 20)) % 0x1_0000_0000
  }

  /** What `rsm_link_stream_feed` answers once the data are in the buffer. */
  predicate Answers(b: seq<byte>, capacity: nat, status: Status, f: Frame) {
    if |b| < HEADER_SIZE then status == INCOMPLETE
    else if TotalC(b) > capacity || TotalC(b) > MAX_FRAME then status == LIMIT
    else if |b| < TotalC(b) then status == INCOMPLETE
    else
      && (status == OK <==> FrameOk(b[..TotalC(b)]))
      && (status == OK ==> f == FieldsOf(b[..TotalC(b)]))
      && (status == INCOMPLETE <==> TotalC(b) < MIN_FRAME)
      && status != LIMIT
  }

  /** When the stream gives up on its buffer. */
  predicate GivesUp(b: seq<byte>, capacity: nat) {
    |b| >= HEADER_SIZE && (TotalC(b) > capacity || TotalC(b) > MAX_FRAME
      || (|b| >= TotalC(b) && !FrameOk(b[..TotalC(b)])))
  }

  class LinkStream {
    const storage: array<byte>
    var length: nat
    var failed: bool

    /** `rsm_link_stream_init`. */
    constructor (storage: array<byte>)
      ensures this.storage == storage && Valid() && Buffer() == [] && !failed
    {
      this.storage := storage;
      length, failed := 0, false;
    }

    ghost predicate Valid()
      reads this
    {
      length <= storage.Length
    }

    ghost function Buffer(): seq<byte>
      requires Valid()
      reads this, storage
    {
      storage[..length]
    }

    /** `rsm_link_stream_reset`. */
    method Reset()
      modifies this
      ensures Valid() && Buffer() == [] && !failed
    {
      length, failed := 0, false;
    }

    /** `rsm_link_stream_feed`. */
    method Feed(data: seq<byte>) returns (status: Status, f: Frame)
      requires Valid()
      modifies this, storage
      ensures Valid()
      ensures old(failed) ==> status == BAD_FRAME && failed && Buffer() == old(Buffer())
      ensures !old(failed) && |data| > storage.Length - old(length) ==>
                status == LIMIT && failed && Buffer() == old(Buffer())
      ensures !old(failed) && |data| <= storage.Length - old(length) ==>
                && Buffer() == old(Buffer()) + data
                && Answers(Buffer(), storage.Length, status, f)
                && failed == GivesUp(Buffer(), storage.Length)
    {
      f := Frame(0, [], 0, 0, 0, 0);
      if failed {
        return BAD_FRAME, f;
      }
      if |data| > storage.Length - length {
        failed := true;
        return LIMIT, f;
      }
      CopyInto(storage, length, data);
      assert storage[..length + |data|] == old(storage[..length]) + data;
      length := length + |data|;
      if length < HEADER_SIZE {
        return INCOMPLETE, f;
      }
      var total := TotalC(storage[..length]);
      if total > storage.Length || total > MAX_FRAME {
        failed := true;
        return LIMIT, f;
      }
      if length < total {
        return INCOMPLETE, f;
      }
      assert storage[..total] == storage[..length][..total];
      status, f := DecodeC(storage[..total]);
      if status != OK {
        failed := true;
      }
    }

    /** `rsm_link_stream_consume`. */
    method Consume(payloadLength: nat)
      requires Valid()
      modifies this, storage
      ensures Valid() && failed == old(failed)
      ensures MIN_FRAME + payloadLength <= old(length) ==> Buffer() == old(Buffer())[MIN_FRAME + payloadLength..]
      ensures MIN_FRAME + payloadLength > old(length) ==> Buffer() == old(Buffer())
    {
      var n := MIN_FRAME + payloadLength;
      if n <= length {
        MoveDown(n);
        length := length - n;
      }
    }

    /** `memmove` of the bytes from n on to the front. */
    method MoveDown(n: nat)
      requires Valid() && n <= length
      modifies storage
      ensures storage[..length - n] == old(storage[n..length])
    {
      ghost var before := storage[..];
      var k := 0;
      while k < length - n
        invariant 0 <= k <= length - n
        invariant forall j | 0 <= j < k :: storage[j] == before[n + j]
        invariant forall j | k <= j < storage.Length :: storage[j] == before[j]
      {
        storage[k] := storage[n + k];
        k := k + 1;
      }
    }

    /** The receive loop: feed the data, and for every frame consume it and feed nothing. */
    method Receive(data: seq<byte>) returns (frames: seq<Frame>, status: Status)
      requires Valid() && !failed && storage.Length <= MAX_FRAME
      modifies this, storage
      ensures Valid()
      ensures |data| > storage.Length - old(length) ==> status == LIMIT && failed && frames == []
      ensures |data| <= storage.Length - old(length) ==>
                var d := DrainC(old(Buffer()) + data, storage.Length);
                frames == d.frames && Buffer() == d.rest && failed == !d.ok
    {
      hide Drain, DrainC, FrameOk, GivesUp, Answers;
      frames := [];
      var f;
      ghost var all := Buffer() + data;
      var room := storage.Length - length;
      status, f := Feed(data);
      if |data| > room {
        return;
      }
      while status == OK
        invariant Valid() && |data| <= storage.Length - old(length)
        invariant Answers(Buffer(), storage.Length, status, f) && failed == GivesUp(Buffer(), storage.Length)
        invariant var rest := DrainC(Buffer(), storage.Length);
                  DrainC(all, storage.Length) == Drained(frames + rest.frames, rest.rest, rest.ok)
        decreases length
      {
        DrainTurn(Buffer(), storage.Length, status, f);
        frames := frames + [f];
        ghost var b := Buffer();
        Consume(|f.payload|);
        assert Buffer() + [] == Buffer();
        status, f := Feed([]);
      }
      DrainStops(Buffer(), storage.Length, status, f);
    }
  }

  /** What the receive loop makes of a buffer. */
  function DrainC(b: seq<byte>, capacity: nat): Drained
    decreases |b|
  {
    if |b| < HEADER_SIZE then Drained([], b, true)
    else
      var total := TotalC(b);
      if total > capacity || total > MAX_FRAME then Drained([], b, false)
      else if |b| < total then Drained([], b, true)
      else if !FrameOk(b[..total]) then Drained([], b, false)
      else
        var rest := DrainC(b[total..], capacity);
        Drained([FieldsOf(b[..total])] + rest.frames, rest.rest, rest.ok)
  }

  lemma {:induction false} DrainTurn(b: seq<byte>, capacity: nat, status: Status, f: Frame)
    requires status == OK && Answers(b, capacity, status, f)
    ensures MIN_FRAME + |f.payload| <= |b| && !GivesUp(b, capacity)
    ensures var rest := DrainC(b[MIN_FRAME + |f.payload|..], capacity);
            DrainC(b, capacity) == Drained([f] + rest.frames, rest.rest, rest.ok)
  {
    hide CrcMatches;
    LengthOfFrame(b[..TotalC(b)]);
  }

  lemma {:induction false} LengthOfFrame(x: seq<byte>)
    ensures FrameOk(x) ==> |x| == MIN_FRAME + |FieldsOf(x).payload|
  {
  }

  lemma {:induction false} DrainStops(b: seq<byte>, capacity: nat, status: Status, f: Frame)
    requires status != OK && Answers(b, capacity, status, f)
    ensures DrainC(b, capacity) == Drained([], b, !GivesUp(b, capacity))
  {
  }

  /** Whatever bytes the Python decoder takes without error, the C loop delivers the same frames of
   *  them and keeps the same rest. */
  lemma {:induction false} StreamsAgree(b: seq<byte>, limit: nat)
    requires limit <= MAX_FRAME && Drain(b, limit).ok
    ensures DrainC(b, limit) == Drain(b, limit)
    decreases |b|
  {
    if |b| >= HEADER_SIZE {
      var total := MIN_FRAME + U32(b, 20);
      assert total == TotalC(b);
      if |b| >= total {
        StreamsAgree(b[total..], limit);
      }
    }
  }

  /** One Receive of a stream that has not failed, as its contract gives it. */
  function ReceiveState(st: State, data: seq<byte>, capacity: nat): (State, seq<Frame>) {
    if st.failed then (st, [])
    else if |st.buffer| + |data| > capacity then (st.(failed := true), [])
    else
      var d := DrainC(st.buffer + data, capacity);
      (State(d.rest, !d.ok), d.frames)
  }

  function ReceiveAll(st: State, chunks: seq<seq<byte>>, capacity: nat): (State, seq<Frame>)
    decreases |chunks|
  {
    if chunks == [] then (st, [])
    else
      var first := ReceiveState(st, chunks[0], capacity);
      var rest := ReceiveAll(first.0, chunks[1..], capacity);
      (rest.0, first.1 + rest.1)
  }

  /** Over any feeds the Python decoder takes, the C loop delivers the same frames and ends in the
   *  same state; with FragmentationDoesNotMatter, the frames that were sent. */
  lemma {:induction false} SidesDeliverTheSame(st: State, chunks: seq<seq<byte>>, limit: nat)
    requires limit <= MAX_FRAME && FeedAll(st, chunks, limit).2
    ensures ReceiveAll(st, chunks, limit) == (FeedAll(st, chunks, limit).0, FeedAll(st, chunks, limit).1)
    decreases |chunks|
  {
    hide Drain, DrainC;
    if chunks != [] {
      StreamsAgree(st.buffer + chunks[0], limit);
      SidesDeliverTheSame(FeedState(st, chunks[0], limit).0, chunks[1..], limit);
    }
  }

  /** A length field in the last 28 values of its range wraps around: the C stream then answers
   *  INCOMPLETE, as if it waited for more, and has failed. This happens exactly when the wrapped
   *  length is already in the buffer and within its capacity. */
  lemma {:induction false} WrappedLength(b: seq<byte>, capacity: nat, status: Status, f: Frame)
    requires |b| >= HEADER_SIZE && Answers(b, capacity, status, f)
    ensures status == INCOMPLETE && GivesUp(b, capacity)
            <==> U32(b, 20) >= 0xffff_ffe4 && U32(b, 20) - 0xffff_ffe4 <= |b| && U32(b, 20) - 0xffff_ffe4 <= capacity
  {
  }
}
