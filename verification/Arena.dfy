/** The memory of a loaded program: how much is asked for, and how it is carved out of the arena.
 *
 *  The sizes of the C structures and the ranges of size_t and uintptr_t are parameters. */
module Arena {
  import opened Bytes

  /** sizeof of impl_t, tag_t, force_t, state_t and rsm_bool_t. */
  datatype Sizes = Sizes(impl: nat, tag: nat, force: nat, state: nat, flag: nat)

  /** How many tags, state records and rungs the image has. */
  datatype Counts = Counts(tags: nat, states: nat, rungs: nat)

  /** The largest value of an unsigned type at least a byte wide. */
  predicate Unsigned(max: nat) {
    max >= 0xff && (max + 1) % 8 == 0
  }

  // ----- checked arithmetic -----

  /** `size_add`. */
  function SizeAdd(max: nat, a: nat, b: nat): Option<nat>
    requires b <= max
  {
    if a > max - b then None else Some(a + b)
  }

  /** `size_mul`. */
  function SizeMul(max: nat, a: nat, b: nat): Option<nat> {
    if a != 0 && b > max / a then None else Some(a * b)
  }

  /** `q & ~7`. */
  function MaskLow(q: nat): nat {
    q - q % 8
  }

  /** `size_align8`. */
  function SizeAlign8(max: nat, a: nat): Option<nat>
    requires max >= 0xff
  {
    match SizeAdd(max, a, 7)
    case None => None
    case Some(q) => Some(MaskLow(q))
  }

  /** The next multiple of 8. */
  function Align8(q: nat): (r: nat)
    ensures r % 8 == 0 && q <= r < q + 8
  {
    MaskLow(q + 7)
  }

  lemma {:induction false} MulFits(max: nat, a: nat, b: nat)
    ensures SizeMul(max, a, b) == if a * b <= max then Some(a * b) else None
  {
    if a != 0 {
      var q := max / a;
      assert a * q <= max < a * q + a;
      if b <= q {
        MulMonotone(a, b, q);
      } else {
        MulMonotone(a, q + 1, b);
      }
    }
  }

  lemma {:induction false} MulMonotone(a: nat, b: nat, c: nat)
    requires b <= c
    ensures a * b <= a * c
  {
    assert a * c == a * b + a * (c - b);
  }

  lemma {:induction false} AlignFits(max: nat, a: nat)
    requires Unsigned(max)
    ensures SizeAlign8(max, a) == if Align8(a) <= max then Some(Align8(a)) else None
  {
  }

  // ----- the layout -----

  /** The bytes of an array. */
  function Room(count: nat, size: nat): nat {
    count * size
  }

  /** The bytes the regions need in order, each from a multiple of 8. */
  function Needs(sz: Sizes, n: Counts): seq<nat> {
    [sz.impl, Room(n.tags, sz.tag), Room(n.tags, sz.force), Room(n.states, sz.state), Room(n.rungs, sz.flag)]
  }

  /** Where the k-th region starts, relative to the first. */
  function Offset(needs: seq<nat>, k: nat): (r: nat)
    requires k <= |needs|
    ensures r % 8 == 0
  {
    if k == 0 then 0 else Align8(Offset(needs, k - 1) + needs[k - 1])
  }

  function Layout(sz: Sizes, n: Counts): nat {
    Offset(Needs(sz, n), 5)
  }

  /** Room for some bytes, then alignment. */
  method AddAligned(max: nat, q: nat, bytes: nat) returns (r: Option<nat>)
    requires Unsigned(max) && q <= max && bytes <= max
    ensures r == if Align8(q + bytes) <= max then Some(Align8(q + bytes)) else None
  {
    var sum := SizeAdd(max, q, bytes);
    if sum.None? {
      return None;
    }
    AlignFits(max, sum.value);
    r := SizeAlign8(max, sum.value);
  }

  /** One step of `required_layout`: room for some elements, then alignment. */
  method Extend(max: nat, q: nat, count: nat, size: nat) returns (r: Option<nat>)
    requires Unsigned(max) && q <= max
    ensures r == if Align8(q + Room(count, size)) <= max then Some(Align8(q + Room(count, size))) else None
  {
    MulFits(max, count, size);
    var product := SizeMul(max, count, size);
    if product.None? {
      return None;
    }
    r := AddAligned(max, q, product.value);
  }

  lemma {:induction false} OffsetGrows(needs: seq<nat>, k: nat)
    requires k < |needs|
    ensures Offset(needs, k) + needs[k] <= Offset(needs, k + 1) == Align8(Offset(needs, k) + needs[k])
  {
  }

  lemma {:induction false} OffsetZero(needs: seq<nat>)
    ensures Offset(needs, 0) == 0
  {
  }

  /** What one step of the layout does, as long as it fits. */
  lemma {:induction false} OffsetStep(max: nat, needs: seq<nat>, k: nat)
    requires k < |needs|
    ensures Offset(needs, k + 1) == Align8(Offset(needs, k) + needs[k])
    ensures Offset(needs, |needs|) <= max ==> Offset(needs, k + 1) <= max && needs[k] <= max
  {
    OffsetsFit(needs, k + 1);
  }

  /** `required_layout`: the exact layout, and an answer exactly when size_t can hold it. */
  method RequiredLayout(max: nat, sz: Sizes, n: Counts) returns (r: Option<nat>)
    requires Unsigned(max) && sz.impl <= max
    ensures r == if Layout(sz, n) <= max then Some(Layout(sz, n)) else None
  {
    hide Align8, Offset, Room, Unsigned;
    ghost var needs := Needs(sz, n);
    OffsetZero(needs);
    OffsetStep(max, needs, 0);
    OffsetStep(max, needs, 1);
    OffsetStep(max, needs, 2);
    OffsetStep(max, needs, 3);
    OffsetStep(max, needs, 4);
    r := AddAligned(max, 0, sz.impl);
    if r.None? {
      return None;
    }
    r := Extend(max, r.value, n.tags, sz.tag);
    if r.None? {
      return None;
    }
    r := Extend(max, r.value, n.tags, sz.force);
    if r.None? {
      return None;
    }
    r := Extend(max, r.value, n.states, sz.state);
    if r.None? {
      return None;
    }
    r := Extend(max, r.value, n.rungs, sz.flag);
  }

  /** `rsm_runtime_required_memory`, for an accepted image. */
  method RequiredMemory(max: nat, sz: Sizes, n: Counts) returns (r: Option<nat>)
    requires Unsigned(max) && sz.impl <= max
    ensures r == if Layout(sz, n) + 7 <= max then Some(Layout(sz, n) + 7) else None
  {
    var layout := RequiredLayout(max, sz, n);
    if layout.None? {
      return None;
    }
    r := SizeAdd(max, layout.value, 7);
  }

  // ----- carving -----

  datatype Region = Region(at: nat, size: nat)

  /** `(8u - (base & 7u)) & 7u`. */
  function Slack(base: nat): nat {
    (8 - base % 8) % 8
  }

  lemma {:induction false} SlackAligns(base: nat)
    ensures Slack(base) <= 7 && (base + Slack(base)) % 8 == 0
  {
  }

  /** Unsigned pointer arithmetic wraps. */
  function Wrap(max: nat, q: nat): nat {
    q % (max + 1)
  }

  /** The step from one region to the next: past its bytes, then up to a multiple of 8. */
  function Next(max: nat, q: nat, bytes: nat): nat {
    MaskLow(Wrap(max, Wrap(max, q + bytes) + 7))
  }

  lemma {:induction false} WrapNot(max: nat, q: nat)
    requires q <= max
    ensures Wrap(max, q) == q
  {
  }

  lemma {:induction false} NextAligned(max: nat, q: nat, bytes: nat)
    requires Unsigned(max) && Align8(q + bytes) <= max
    ensures Next(max, q, bytes) == Align8(q + bytes)
  {
    var sum := q + bytes;
    WrapNot(max, sum);
    TopIsOdd(max, sum);
    WrapNot(max, sum + 7);
  }

  lemma {:induction false} TopIsOdd(max: nat, sum: nat)
    requires Unsigned(max) && Align8(sum) <= max
    ensures sum + 7 <= max
  {
  }

  lemma {:induction false} AlignShift(origin: nat, q: nat)
    requires origin % 8 == 0
    ensures Align8(origin + q) == origin + Align8(q)
  {
  }

  /** The regions of a layout from an aligned origin on. */
  function RegionsFrom(needs: seq<nat>, origin: nat): (r: seq<Region>)
  {
    seq(|needs|, k requires 0 <= k < |needs| => Region(origin + Offset(needs, k), needs[k]))
  }

  lemma {:induction false} RoomIs(sz: Sizes, n: Counts)
    ensures Room(n.tags, sz.tag) == n.tags * sz.tag && Room(n.tags, sz.force) == n.tags * sz.force
    ensures Room(n.states, sz.state) == n.states * sz.state && Room(n.rungs, sz.flag) == n.rungs * sz.flag
  {
  }

  /** When an arena is carved rather than refused. */
  predicate Fits(top: nat, base: nat, size: nat, layout: nat) {
    Slack(base) + layout <= size && base + Slack(base) + layout <= top
  }

  /** The pointers of the regions, one after the other. */
  lemma {:induction false} NextRegion(top: nat, needs: seq<nat>, origin: nat, k: nat)
    requires Unsigned(top) && origin % 8 == 0 && k < |needs| && origin + Offset(needs, |needs|) <= top
    ensures Next(top, origin + Offset(needs, k), needs[k]) == origin + Offset(needs, k + 1)
  {
    hide Align8, Next;
    OffsetGrows(needs, k);
    OffsetsFit(needs, k + 1);
    AlignShift(origin, Offset(needs, k) + needs[k]);
    NextAligned(top, origin + Offset(needs, k), needs[k]);
  }

  /** The memory part of `rsm_runtime_load_image`: max is SIZE_MAX, top is UINTPTR_MAX. */
  method Carve(max: nat, top: nat, sz: Sizes, n: Counts, base: nat, size: nat) returns (r: Option<seq<Region>>)
    requires Unsigned(max) && Unsigned(top) && base <= top && size <= max <= top && sz.impl <= max
    ensures r.Some? <==> Layout(sz, n) <= max && Fits(top, base, size, Layout(sz, n))
    ensures r.Some? ==> r.value == RegionsFrom(Needs(sz, n), base + Slack(base))
    ensures r.Some? ==>
              && |r.value| == 5 && r.value[0].size == sz.impl && r.value[1].size == n.tags * sz.tag
              && r.value[2].size == n.tags * sz.force && r.value[3].size == n.states * sz.state
              && r.value[4].size == n.rungs * sz.flag
  {
    hide Next, Offset, Slack, Unsigned;
    RoomIs(sz, n);
    hide Room;
    var layout := RequiredLayout(max, sz, n);
    if layout.None? {
      return None;
    }
    var slack := Slack(base);
    SlackAligns(base);
    if slack > size || layout.value > size - slack || base > top - slack {
      return None;
    }
    var q := base + slack;
    if q > top - layout.value {
      return None;
    }
    ghost var needs := Needs(sz, n);
    OffsetZero(needs);
    NextRegion(top, needs, q, 0);
    NextRegion(top, needs, q, 1);
    NextRegion(top, needs, q, 2);
    NextRegion(top, needs, q, 3);
    var impl := Region(q, sz.impl);
    q := Next(top, q, sz.impl);
    var tags := Region(q, Room(n.tags, sz.tag));
    q := Next(top, q, Room(n.tags, sz.tag));
    var forces := Region(q, Room(n.tags, sz.force));
    q := Next(top, q, Room(n.tags, sz.force));
    var states := Region(q, Room(n.states, sz.state));
    q := Next(top, q, Room(n.states, sz.state));
    var power := Region(q, Room(n.rungs, sz.flag));
    r := Some([impl, tags, forces, states, power]);
  }

  lemma {:induction false} OffsetsFit(needs: seq<nat>, k: nat)
    requires k <= |needs|
    ensures Offset(needs, k) <= Offset(needs, |needs|)
    decreases |needs| - k
  {
    if k < |needs| {
      OffsetGrows(needs, k);
      OffsetsFit(needs, k + 1);
    }
  }

  lemma {:induction false} OffsetsOrdered(needs: seq<nat>, j: nat, k: nat)
    requires j < k <= |needs|
    ensures Offset(needs, j) + needs[j] <= Offset(needs, k)
    decreases k
  {
    OffsetGrows(needs, k - 1);
    if j < k - 1 {
      OffsetsOrdered(needs, j, k - 1);
    }
  }

  /** The carved regions start at multiples of 8, do not overlap, and lie inside the arena. */
  lemma {:induction false} RegionsAreApart(needs: seq<nat>, base: nat, size: nat)
    requires Slack(base) + Offset(needs, |needs|) <= size
    ensures var r := RegionsFrom(needs, base + Slack(base));
            && |r| == |needs|
            && (forall k | 0 <= k < |r| ::
                  r[k].at % 8 == 0 && r[k].size == needs[k] && base <= r[k].at && r[k].at + r[k].size <= base + size)
            && forall j, k | 0 <= j < k < |r| :: r[j].at + r[j].size <= r[k].at
  {
    hide Slack, Offset;
    SlackAligns(base);
    var r := RegionsFrom(needs, base + Slack(base));
    forall k | 0 <= k < |r|
      ensures r[k].at % 8 == 0 && r[k].size == needs[k] && base <= r[k].at && r[k].at + r[k].size <= base + size
    {
      OffsetGrows(needs, k);
      OffsetsFit(needs, k + 1);
    }
    forall j, k | 0 <= j < k < |r|
      ensures r[j].at + r[j].size <= r[k].at
    {
      OffsetsOrdered(needs, j, k);
    }
  }

  /** An arena of the required memory is never refused, wherever it lies: C objects end at or
   *  below the top of the address space. */
  lemma {:induction false} RequiredMemorySuffices(top: nat, base: nat, size: nat, layout: nat)
    requires size >= layout + 7 && base + size <= top
    ensures Fits(top, base, size, layout)
  {
    SlackAligns(base);
  }

  /** Without that bound the last byte decides: an arena of exactly the required memory is refused
   *  exactly when its slack and layout reach past the top. */
  lemma {:induction false} RefusedOnlyAtTheTop(top: nat, base: nat, layout: nat)
    ensures Fits(top, base, layout + 7, layout) <==> base + Slack(base) + layout <= top
    ensures base + layout + 7 == top + 1 && Slack(base) == 7 ==> !Fits(top, base, layout + 7, layout)
  {
    SlackAligns(base);
  }

  /** Nothing less than the required memory does for every base. */
  lemma {:induction false} RequiredMemoryIsNeeded(top: nat, base: nat, size: nat, layout: nat)
    requires base % 8 == 1 && size < layout + 7
    ensures !Fits(top, base, size, layout)
  {
  }
}
