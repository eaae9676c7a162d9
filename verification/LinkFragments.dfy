/** Fragmentation independence of the C stream, for every frame the C decoder accepts: unknown
 *  message types and newer minor versions included. */
module LinkFragments {
  import opened Bytes
  import opened Frames
  import opened Streams

  /** A well-formed frame that fits the storage. */
  predicate Receivable(x: seq<byte>, capacity: nat) {
    FrameOk(x) && |x| <= capacity
  }

  predicate AllReceivable(xs: seq<seq<byte>>, capacity: nat) {
    forall x | x in xs :: Receivable(x, capacity)
  }

  function FrameIn(x: seq<byte>): seq<Frame> {
    if |x| >= MIN_FRAME then [FieldsOf(x)] else []
  }

  /** What the frames say. */
  function Fields(xs: seq<seq<byte>>): seq<Frame> {
    if xs == [] then [] else FrameIn(xs[0]) + Fields(xs[1..])
  }

  lemma {:induction false} FieldsAppend(a: seq<seq<byte>>, b: seq<seq<byte>>)
    ensures Fields(a + b) == Fields(a) + Fields(b)
    decreases |a|
  {
    hide FrameIn;
    if a == [] {
      assert a + b == b;
    } else {
      assert (a + b)[0] == a[0] && (a + b)[1..] == a[1..] + b;
      FieldsAppend(a[1..], b);
    }
  }

  /** The start of a frame announces its length. */
  lemma {:induction false} Announced(x: seq<byte>, b: seq<byte>)
    requires FrameOk(x) && |b| >= HEADER_SIZE && (b <= x || x <= b)
    ensures TotalC(b) == |x| <= MAX_FRAME
  {
    hide CrcMatches;
    assert b[20] == x[20] && b[21] == x[21] && b[22] == x[22] && b[23] == x[23];
  }

  lemma {:induction false} PartStays(x: seq<byte>, b: seq<byte>, capacity: nat)
    requires Receivable(x, capacity) && b <= x && |b| < |x|
    ensures DrainC(b, capacity) == Drained([], b, true)
  {
    hide CrcMatches;
    if |b| >= HEADER_SIZE {
      Announced(x, b);
    }
  }

  lemma {:induction false} WholeIsDelivered(x: seq<byte>, b: seq<byte>, capacity: nat)
    requires Receivable(x, capacity)
    ensures var rest := DrainC(b, capacity);
            DrainC(x + b, capacity) == Drained(Fields([x]) + rest.frames, rest.rest, rest.ok)
  {
    var all := x + b;
    Announced(x, all);
    assert all[..|x|] == x && all[|x|..] == b;
    assert [x][1..] == [] && Fields([x]) == [FieldsOf(x)] + Fields([]) == [FieldsOf(x)];
    hide CrcMatches;
  }

  /** The buffer holds less than the next frame of those to come. */
  predicate HoldsStart(b: seq<byte>, xs: seq<seq<byte>>) {
    b == [] || (xs != [] && |b| < |xs[0]|)
  }

  /** The frames wholly inside the first bytes are delivered; less than one frame stays. */
  lemma {:induction false} PrefixDelivers(xs: seq<seq<byte>>, b: seq<byte>, capacity: nat) returns (n: nat)
    requires AllReceivable(xs, capacity) && b <= Concat(xs)
    ensures n <= |xs| && AllReceivable(xs[n..], capacity)
    ensures DrainC(b, capacity).ok && DrainC(b, capacity).frames == Fields(xs[..n])
    ensures b + Concat(xs)[|b|..] == Concat(xs)
    ensures var rest := DrainC(b, capacity).rest;
            HoldsStart(rest, xs[n..]) && rest + Concat(xs)[|b|..] == Concat(xs[n..])
    decreases |xs|
  {
    hide DrainC, FrameOk, Fields;
    NoFields();
    if xs == [] {
      n := 0;
      NothingDrains(capacity);
    } else {
      var x, more := xs[0], Concat(xs[1..]);
      assert x in xs && forall y | y in xs[1..] :: y in xs;
      PrefixParts(x, more, b);
      if |b| < |x| {
        n := 0;
        PartStays(x, b, capacity);
        assert xs[0..] == xs && xs[..0] == [];
      } else {
        var b1 := b[|x|..];
        var k := PrefixDelivers(xs[1..], b1, capacity);
        n := k + 1;
        WholeIsDelivered(x, b1, capacity);
        assert xs[n..] == xs[1..][k..];
        assert xs[..n] == [x] + xs[1..][..k];
        FieldsAppend([x], xs[1..][..k]);
      }
    }
  }

  lemma {:induction false} NoFields()
    ensures Fields([]) == []
  {
  }

  lemma {:induction false} NothingDrains(capacity: nat)
    ensures DrainC([], capacity) == Drained([], [], true)
  {
  }

  /** Every feed finds room in the storage. */
  predicate Takes(st: State, chunks: seq<seq<byte>>, capacity: nat)
    decreases |chunks|
  {
    chunks == []
    || (|st.buffer| + |chunks[0]| <= capacity && Takes(ReceiveState(st, chunks[0], capacity).0, chunks[1..], capacity))
  }

  lemma {:induction false} FailedStays(st: State, chunks: seq<seq<byte>>, capacity: nat)
    requires st.failed
    ensures ReceiveAll(st, chunks, capacity) == (st, [])
    decreases |chunks|
  {
    if chunks != [] {
      FailedStays(st, chunks[1..], capacity);
      var none: seq<Frame> := [];
      assert ReceiveState(st, chunks[0], capacity) == (st, none) && none + none == none;
    }
  }

  lemma {:induction false} NoFrameLeft(xs: seq<seq<byte>>, b: seq<byte>, capacity: nat)
    requires AllReceivable(xs, capacity) && HoldsStart(b, xs) && b + [] == Concat(xs)
    ensures xs == [] && b == []
  {
    hide FrameOk;
    assert b + [] == b;
    if xs != [] {
      assert xs[0] in xs && |Concat(xs)| >= |xs[0]|;
      NotEmpty(xs[0], capacity);
    }
  }

  lemma {:induction false} NotEmpty(x: seq<byte>, capacity: nat)
    requires Receivable(x, capacity)
    ensures |x| > 0
  {
  }

  /** Whatever the cut of well-formed frames into feeds: if the storage takes every feed, the receive
   *  loop delivers the fields of all frames in order and keeps nothing; if it does not, the stream
   *  fails. */
  lemma {:induction false} CutDoesNotMatter(xs: seq<seq<byte>>, st: State, chunks: seq<seq<byte>>, capacity: nat)
    requires AllReceivable(xs, capacity) && !st.failed && st.buffer + Concat(chunks) == Concat(xs)
    requires HoldsStart(st.buffer, xs)
    ensures var r := ReceiveAll(st, chunks, capacity);
            if Takes(st, chunks, capacity) then r == (State([], false), Fields(xs)) else r.0.failed
    decreases |chunks|
  {
    hide DrainC, FrameOk, Fields;
    NoFields();
    if chunks == [] {
      NoFrameLeft(xs, st.buffer, capacity);
    } else if |st.buffer| + |chunks[0]| > capacity {
      FailedStays(ReceiveState(st, chunks[0], capacity).0, chunks[1..], capacity);
    } else {
      var b := st.buffer + chunks[0];
      assert st.buffer + Concat(chunks) == b + Concat(chunks[1..]);
      assert b <= Concat(xs);
      var n := PrefixDelivers(xs, b, capacity);
      assert Concat(xs)[|b|..] == Concat(chunks[1..]);
      CutDoesNotMatter(xs[n..], ReceiveState(st, chunks[0], capacity).0, chunks[1..], capacity);
      assert xs[..n] + xs[n..] == xs;
      FieldsAppend(xs[..n], xs[n..]);
    }
  }
}
