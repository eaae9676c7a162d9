/** The message codec: dictionaries as typed fields in the order of their keys.
 *
 *  Keys and texts are the bytes of their UTF-8 encodings, whose order is that of the strings; what
 *  is well-formed UTF-8 is a parameter. */
module Messages {
  import opened Bytes

  /** Doubles are their eight bytes. */
  datatype Value =
    | Nothing | Bool(b: bool) | Int(n: int)
    | Double(bits: seq<byte>) | Text(text: seq<byte>) | Data(data: seq<byte>)

  datatype Entry = Entry(key: seq<byte>, value: Value)

  const INT64_MIN := -0x8000_0000_0000_0000
  const INT64_MAX := 0x7fff_ffff_ffff_ffff

  // ----- dictionaries -----

  /** The dictionary of a list of entries; later entries win. */
  function ToMap(es: seq<Entry>): map<seq<byte>, Value> {
    if es == [] then map[] else ToMap(es[..|es| - 1])[es[|es| - 1].key := es[|es| - 1].value]
  }

  predicate DistinctKeys(es: seq<Entry>) {
    forall j, k | 0 <= j < k < |es| :: es[j].key != es[k].key
  }

  /** Lexicographic order. */
  predicate Less(a: seq<byte>, b: seq<byte>) {
    b != [] && (a == [] || a[0] < b[0] || (a[0] == b[0] && Less(a[1..], b[1..])))
  }

  lemma {:induction false} LessIsTotal(a: seq<byte>, b: seq<byte>)
    ensures Less(a, b) || a == b || Less(b, a)
    ensures !(Less(a, b) && Less(b, a)) && !Less(a, a)
    decreases |a|
  {
    if a != [] && b != [] {
      LessIsTotal(a[1..], b[1..]);
      assert a == [a[0]] + a[1..] && b == [b[0]] + b[1..];
    }
    if a != [] {
      LessIsTotal(a[1..], a[1..]);
    }
  }

  lemma {:induction false} LessIsTransitive(a: seq<byte>, b: seq<byte>, c: seq<byte>)
    requires Less(a, b) && Less(b, c)
    ensures Less(a, c)
    decreases |a|
  {
    if a != [] && a[0] == b[0] == c[0] {
      LessIsTransitive(a[1..], b[1..], c[1..]);
    }
  }

  // ----- sorting -----

  function Insert(e: Entry, es: seq<Entry>): seq<Entry> {
    if es == [] || Less(e.key, es[0].key) then [e] + es else [es[0]] + Insert(e, es[1..])
  }

  /** `sorted(value.items())`. */
  function Sort(es: seq<Entry>): seq<Entry> {
    if es == [] then [] else Insert(es[|es| - 1], Sort(es[..|es| - 1]))
  }

  /** Strictly ascending keys. */
  predicate Ascending(es: seq<Entry>) {
    |es| < 2 || (Less(es[0].key, es[1].key) && Ascending(es[1..]))
  }

  /** The value of a key in a list of distinct keys. */
  function Lookup(es: seq<Entry>, key: seq<byte>): Option<Value> {
    if es == [] then None else if es[0].key == key then Some(es[0].value) else Lookup(es[1..], key)
  }

  function Get(m: map<seq<byte>, Value>, key: seq<byte>): Option<Value> {
    if key in m then Some(m[key]) else None
  }

  lemma {:induction false} LookupSnoc(es: seq<Entry>, e: Entry, key: seq<byte>)
    ensures Lookup(es + [e], key)
            == if Lookup(es, key).Some? then Lookup(es, key) else if e.key == key then Some(e.value) else None
    decreases |es|
  {
    if es == [] {
      assert es + [e] == [e] && [e][1..] == [];
    } else {
      assert (es + [e])[0] == es[0] && (es + [e])[1..] == es[1..] + [e];
      LookupSnoc(es[1..], e, key);
    }
  }

  lemma {:induction false} LookupFinds(es: seq<Entry>, key: seq<byte>)
    ensures Lookup(es, key).Some? <==> exists k :: 0 <= k < |es| && es[k].key == key
    decreases |es|
  {
    if es != [] && es[0].key != key {
      LookupFinds(es[1..], key);
      assert forall k | 1 <= k < |es| :: es[k] == es[1..][k - 1];
      assert forall k | 0 <= k < |es[1..]| :: es[1..][k] == es[k + 1];
    }
  }

  /** With distinct keys the dictionary is the lookup. */
  lemma {:induction false} MapIsLookup(es: seq<Entry>, key: seq<byte>)
    requires DistinctKeys(es)
    ensures Get(ToMap(es), key) == Lookup(es, key)
    decreases |es|
  {
    if es != [] {
      var front, e := es[..|es| - 1], es[|es| - 1];
      assert es == front + [e];
      MapIsLookup(front, key);
      LookupSnoc(front, e, key);
      LookupFinds(front, key);
    }
  }

  lemma {:induction false} InsertLooksUp(e: Entry, es: seq<Entry>, key: seq<byte>)
    requires Lookup(es, e.key).None?
    ensures Lookup(Insert(e, es), key) == if key == e.key then Some(e.value) else Lookup(es, key)
    decreases |es|
  {
    if es != [] && !Less(e.key, es[0].key) {
      InsertLooksUp(e, es[1..], key);
    } else {
      assert ([e] + es)[1..] == es;
    }
  }

  lemma {:induction false} InsertAscends(e: Entry, es: seq<Entry>)
    requires Ascending(es) && Lookup(es, e.key).None?
    ensures Ascending(Insert(e, es)) && |Insert(e, es)| == |es| + 1
    decreases |es|
  {
    if es == [] || Less(e.key, es[0].key) {
      assert ([e] + es)[1..] == es;
    } else {
      LessIsTotal(e.key, es[0].key);
      InsertAscends(e, es[1..]);
      var rest := Insert(e, es[1..]);
      assert ([es[0]] + rest)[1..] == rest;
      if |es| > 1 && !Less(e.key, es[1].key) {
        assert rest[0] == es[1];
      }
    }
  }

  /** Sorting keeps the dictionary and makes the keys ascend. */
  lemma {:induction false} SortSorts(es: seq<Entry>, key: seq<byte>)
    requires DistinctKeys(es)
    ensures Ascending(Sort(es)) && |Sort(es)| == |es| && Lookup(Sort(es), key) == Lookup(es, key)
    decreases |es|
  {
    hide Insert, Less;
    if es != [] {
      var front, e := es[..|es| - 1], es[|es| - 1];
      assert es == front + [e];
      SortSorts(front, key);
      SortSorts(front, e.key);
      LookupFinds(front, e.key);
      LookupSnoc(front, e, key);
      InsertLooksUp(e, Sort(front), key);
      InsertAscends(e, Sort(front));
    }
  }

  lemma {:induction false} AboveHead(es: seq<Entry>, key: seq<byte>)
    requires Ascending(es) && es != [] && Lookup(es, key).Some?
    ensures key == es[0].key || Less(es[0].key, key)
    decreases |es|
  {
    if key != es[0].key {
      AboveHead(es[1..], key);
      if key != es[1].key {
        LessIsTransitive(es[0].key, es[1].key, key);
      }
    }
  }

  ghost predicate SameLookups(a: seq<Entry>, b: seq<Entry>) {
    forall key :: Lookup(a, key) == Lookup(b, key)
  }

  /** Ascending lists with the same contents are the same list. */
  lemma {:induction false} AscendingUnique(a: seq<Entry>, b: seq<Entry>)
    requires Ascending(a) && Ascending(b) && SameLookups(a, b)
    ensures a == b
    decreases |a|
  {
    if a == [] {
      assert b != [] ==> Lookup(a, b[0].key) == Lookup(b, b[0].key);
    } else {
      var x := a[0].key;
      assert Lookup(b, x) == Lookup(a, x);
      var y := b[0].key;
      assert Lookup(a, y) == Lookup(b, y);
      AboveHead(a, y);
      AboveHead(b, x);
      LessIsTotal(x, y);
      assert a[0] == b[0];
      forall key
        ensures Lookup(a[1..], key) == Lookup(b[1..], key)
      {
        assert Lookup(a, key) == Lookup(b, key);
        NotInTail(a);
        NotInTail(b);
      }
      AscendingUnique(a[1..], b[1..]);
      assert a == [a[0]] + a[1..] && b == [b[0]] + b[1..];
    }
  }

  lemma {:induction false} NotInTail(es: seq<Entry>)
    requires Ascending(es) && es != []
    ensures Lookup(es[1..], es[0].key).None?
  {
    if Lookup(es[1..], es[0].key).Some? {
      AboveHead(es[1..], es[0].key);
      LessIsTotal(es[0].key, es[1].key);
    }
  }

  // ----- encoding -----

  predicate ValuePacks(v: Value) {
    match v
    case Int(n) => INT64_MIN <= n <= INT64_MAX
    case Double(bits) => |bits| == 8
    case Text(t) => |t| < 0x1_0000
    case Data(d) => |d| <= UINT32_MAX
    case _ => true
  }

  predicate EntryPacks(e: Entry) {
    |e.key| < 0x100 && ValuePacks(e.value)
  }

  predicate AllPack(es: seq<Entry>) {
    forall e | e in es :: EntryPacks(e)
  }

  /** The two's complement of a 64-bit number. */
  function Word64(n: int): uint64
    requires INT64_MIN <= n <= INT64_MAX
  {
    if n < 0 then n + 0x1_0000_0000_0000_0000 else n
  }

  function Signed64(w: uint64): int {
    if w > INT64_MAX then w - 0x1_0000_0000_0000_0000 else w
  }

  function EncodeValue(v: Value): seq<byte>
    requires ValuePacks(v)
  {
    match v
    case Nothing => [0]
    case Bool(b) => [1, if b then 1 else 0]
    case Int(n) => [2] + Le64(Word64(n))
    case Double(bits) => [3] + bits
    case Text(t) => [4] + Le16(|t|) + t
    case Data(d) => [5] + Le32(|d|) + d
  }

  function EncodeEntry(e: Entry): seq<byte>
    requires EntryPacks(e)
  {
    [|e.key|] + e.key + EncodeValue(e.value)
  }

  function EncodeEntries(es: seq<Entry>): seq<byte>
    requires AllPack(es)
  {
    if es == [] then [] else EncodeEntry(es[0]) + EncodeEntries(es[1..])
  }

  lemma {:induction false} SortKeeps(es: seq<Entry>)
    ensures forall e :: e in Sort(es) <==> e in es
    decreases |es|
  {
    if es != [] {
      var front, last := es[..|es| - 1], es[|es| - 1];
      assert es == front + [last];
      SortKeeps(front);
      InsertKeeps(last, Sort(front));
    }
  }

  lemma {:induction false} InsertKeeps(x: Entry, es: seq<Entry>)
    ensures forall e :: e in Insert(x, es) <==> e == x || e in es
    decreases |es|
  {
    if es != [] && !Less(x.key, es[0].key) {
      InsertKeeps(x, es[1..]);
      assert es == [es[0]] + es[1..];
    }
  }

  /** What packs into the wire format. */
  predicate Encodable(es: seq<Entry>) {
    |es| < 0x1_0000 && AllPack(es)
  }

  function Encode(es: seq<Entry>): seq<byte>
    requires Encodable(es)
  {
    SortKeeps(es);
    Le16(|es|) + EncodeEntries(Sort(es))
  }

  lemma {:induction false} EncodeSnoc(es: seq<Entry>, e: Entry)
    requires AllPack(es) && EntryPacks(e)
    ensures AllPack(es + [e]) && EncodeEntries(es + [e]) == EncodeEntries(es) + EncodeEntry(e)
    decreases |es|
  {
    hide EntryPacks, EncodeEntry;
    if es == [] {
      assert es + [e] == [e] && [e][1..] == [];
      assert EncodeEntry(e) + [] == [] + EncodeEntry(e);
    } else {
      assert (es + [e])[0] == es[0] && (es + [e])[1..] == es[1..] + [e];
      EncodeSnoc(es[1..], e);
    }
  }

  /** `encode_message`; None where packing raises. */
  method EncodeMessage(es: seq<Entry>) returns (r: Option<seq<byte>>)
    requires DistinctKeys(es)
    ensures r.Some? <==> Encodable(es)
    ensures r.Some? ==> r.value == Encode(es)
  {
    hide EntryPacks, EncodeEntry, Sort, Lookup, Ascending, Le16;
    if |es| >= 0x1_0000 {
      return None;
    }
    SortKeeps(es);
    var sorted := Sort(es);
    SortSorts(es, []);
    var out := Le16(|sorted|);
    var n := 0;
    while n < |sorted|
      invariant 0 <= n <= |sorted| && AllPack(sorted[..n]) && out == Le16(|es|) + EncodeEntries(sorted[..n])
    {
      var e := sorted[n];
      if !EntryPacks(e) {
        assert e in sorted && e in es;
        return None;
      }
      EncodeSnoc(sorted[..n], e);
      assert sorted[..n + 1] == sorted[..n] + [e];
      assert out + EncodeEntry(e) == Le16(|es|) + (EncodeEntries(sorted[..n]) + EncodeEntry(e));
      out := out + EncodeEntry(e);
      n := n + 1;
    }
    assert sorted[..n] == sorted;
    r := Some(out);
  }

  // ----- decoding -----

  /** A value read from the front of a string, and the rest; or a raise. */
  datatype Read<+T> = Got(value: T, rest: seq<byte>) | Raised

  /** `take`. */
  function Take(s: seq<byte>, n: nat): Read<seq<byte>> {
    if |s| < n then Raised else Got(s[..n], s[n..])
  }

  function ReadValue(utf8: seq<byte> -> bool, s: seq<byte>): Read<Value> {
    if s == [] then Raised
    else
      var kind, s1 := s[0], s[1..];
      if kind == 0 then Got(Nothing, s1)
      else if kind == 1 then
        (if s1 == [] || s1[0] > 1 then Raised else Got(Bool(s1[0] == 1), s1[1..]))
      else if kind == 2 then
        (if |s1| < 8 then Raised else Got(Int(Signed64(U64(s1, 0))), s1[8..]))
      else if kind == 3 then
        (if |s1| < 8 then Raised else Got(Double(s1[..8]), s1[8..]))
      else if kind == 4 then
        (if |s1| < 2 then Raised
         else
           match Take(s1[2..], U16(s1, 0))
           case Raised => Raised
           case Got(t, rest) => if utf8(t) then Got(Text(t), rest) else Raised)
      else if kind == 5 then
        (if |s1| < 4 then Raised
         else
           match Take(s1[4..], U32(s1, 0))
           case Raised => Raised
           case Got(d, rest) => Got(Data(d), rest))
      else Raised
  }

  function ReadKey(utf8: seq<byte> -> bool, s: seq<byte>): Read<seq<byte>> {
    if s == [] then Raised
    else
      match Take(s[1..], s[0])
      case Raised => Raised
      case Got(key, rest) => if utf8(key) then Got(key, rest) else Raised
  }

  function ReadEntry(utf8: seq<byte> -> bool, s: seq<byte>): Read<Entry> {
    match ReadKey(utf8, s)
    case Raised => Raised
    case Got(key, s1) =>
      match ReadValue(utf8, s1)
      case Raised => Raised
      case Got(v, rest) => Got(Entry(key, v), rest)
  }

  function ReadEntries(utf8: seq<byte> -> bool, s: seq<byte>, count: nat): Read<seq<Entry>> {
    if count == 0 then Got([], s)
    else
      match ReadEntry(utf8, s)
      case Raised => Raised
      case Got(e, s1) =>
        match ReadEntries(utf8, s1, count - 1)
        case Raised => Raised
        case Got(es, rest) => Got([e] + es, rest)
  }

  /** The entries of a message, in wire order; None where decoding raises. */
  function Entries(utf8: seq<byte> -> bool, s: seq<byte>): Option<seq<Entry>> {
    if |s| < 2 then None
    else
      match ReadEntries(utf8, s[2..], U16(s, 0))
      case Raised => None
      case Got(es, rest) => if rest == [] then Some(es) else None
  }

  /** `decode_message`; None where it raises. */
  method DecodeMessage(utf8: seq<byte> -> bool, payload: seq<byte>) returns (r: Option<map<seq<byte>, Value>>)
    ensures Entries(utf8, payload).None? <==> r.None?
    ensures r.Some? ==> r.value == ToMap(Entries(utf8, payload).value)
  {
    hide ReadEntry;
    if |payload| < 2 {
      return None;
    }
    var count: int := U16(payload, 0);
    var s := payload[2..];
    var result: map<seq<byte>, Value> := map[];
    ghost var done: seq<Entry> := [];
    PrependNothing(ReadEntries(utf8, s, count));
    var n: int := 0;
    while n < count
      invariant 0 <= n <= count && |done| == n && result == ToMap(done)
      invariant ReadEntries(utf8, payload[2..], count) == Prepend(done, ReadEntries(utf8, s, count - n))
    {
      match ReadEntry(utf8, s) {
        case Raised =>
          return None;
        case Got(e, rest) =>
          result := result[e.key := e.value];
          assert (done + [e])[..|done|] == done;
          PrependOne(done, e, ReadEntries(utf8, rest, count - n - 1));
          done := done + [e];
          s := rest;
      }
      n := n + 1;
    }
    assert done + [] == done;
    r := if s == [] then Some(result) else None;
  }

  function Prepend(es: seq<Entry>, r: Read<seq<Entry>>): Read<seq<Entry>> {
    match r
    case Raised => Raised
    case Got(more, rest) => Got(es + more, rest)
  }

  lemma {:induction false} PrependNothing(r: Read<seq<Entry>>)
    ensures Prepend([], r) == r
  {
    if r.Got? {
      assert [] + r.value == r.value;
    }
  }

  lemma {:induction false} PrependOne(es: seq<Entry>, e: Entry, r: Read<seq<Entry>>)
    ensures Prepend(es, Prepend([e], r)) == Prepend(es + [e], r)
  {
    if r.Got? {
      assert es + ([e] + r.value) == es + [e] + r.value;
    }
  }

  // ----- round trips -----

  /** Keys and texts are texts. */
  predicate Textual(utf8: seq<byte> -> bool, e: Entry) {
    utf8(e.key) && (e.value.Text? ==> utf8(e.value.text))
  }

  lemma {:induction false} SignedWord(n: int)
    requires INT64_MIN <= n <= INT64_MAX
    ensures Signed64(Word64(n)) == n
  {
  }

  lemma {:induction false} ValueRoundTrip(utf8: seq<byte> -> bool, v: Value, rest: seq<byte>)
    requires ValuePacks(v) && (v.Text? ==> utf8(v.text))
    ensures ReadValue(utf8, EncodeValue(v) + rest) == Got(v, rest)
  {
    match v
    case Nothing => assert (EncodeValue(v) + rest)[1..] == rest;
    case Bool(b) => assert (EncodeValue(v) + rest)[1..][1..] == rest;
    case Int(n) => IntRoundTrip(utf8, n, rest);
    case Double(bits) => DoubleRoundTrip(utf8, bits, rest);
    case Text(t) => TextRoundTrip(utf8, t, rest);
    case Data(d) => DataRoundTrip(utf8, d, rest);
  }

  lemma {:induction false} IntRoundTrip(utf8: seq<byte> -> bool, n: int, rest: seq<byte>)
    requires INT64_MIN <= n <= INT64_MAX
    ensures ReadValue(utf8, EncodeValue(Int(n)) + rest) == Got(Int(n), rest)
  {
    hide U64, Le64;
    var s := EncodeValue(Int(n)) + rest;
    SignedWord(n);
    Word64First(Word64(n), rest);
    assert s[1..] == Le64(Word64(n)) + rest && s[1..][8..] == rest;
  }

  lemma {:induction false} DoubleRoundTrip(utf8: seq<byte> -> bool, bits: seq<byte>, rest: seq<byte>)
    requires |bits| == 8
    ensures ReadValue(utf8, EncodeValue(Double(bits)) + rest) == Got(Double(bits), rest)
  {
    var s := EncodeValue(Double(bits)) + rest;
    assert s[1..] == bits + rest && s[1..][..8] == bits && s[1..][8..] == rest;
  }

  lemma {:induction false} TextRoundTrip(utf8: seq<byte> -> bool, t: seq<byte>, rest: seq<byte>)
    requires |t| < 0x1_0000 && utf8(t)
    ensures ReadValue(utf8, EncodeValue(Text(t)) + rest) == Got(Text(t), rest)
  {
    hide U16, Le16;
    var s1 := (EncodeValue(Text(t)) + rest)[1..];
    assert s1 == [] + Le16(|t|) + (t + rest);
    FieldOf([], Le16(|t|), t + rest);
    assert s1[2..] == t + rest && s1[2..][..|t|] == t && s1[2..][|t|..] == rest;
  }

  lemma {:induction false} DataRoundTrip(utf8: seq<byte> -> bool, d: seq<byte>, rest: seq<byte>)
    requires |d| <= UINT32_MAX
    ensures ReadValue(utf8, EncodeValue(Data(d)) + rest) == Got(Data(d), rest)
  {
    hide U32, Le32;
    var s1 := (EncodeValue(Data(d)) + rest)[1..];
    assert s1 == [] + Le32(|d|) + (d + rest);
    FieldOf([], Le32(|d|), d + rest);
    assert s1[4..] == d + rest && s1[4..][..|d|] == d && s1[4..][|d|..] == rest;
  }

  lemma {:induction false} Word64First(w: uint64, rest: seq<byte>)
    ensures U64(Le64(w) + rest, 0) == w
  {
    var s := Le64(w);
    assert forall k | 0 <= k < 8 :: (s + rest)[k] == s[k];
  }

  lemma {:induction false} EntryRoundTrip(utf8: seq<byte> -> bool, e: Entry, rest: seq<byte>)
    requires EntryPacks(e) && Textual(utf8, e)
    ensures ReadEntry(utf8, EncodeEntry(e) + rest) == Got(e, rest)
  {
    hide EncodeValue, ReadValue;
    var tail := EncodeValue(e.value) + rest;
    var s := EncodeEntry(e) + rest;
    assert s[1..] == e.key + tail && s[1..][..|e.key|] == e.key && s[1..][|e.key|..] == tail;
    ValueRoundTrip(utf8, e.value, rest);
  }

  lemma {:induction false} EntriesRoundTrip(utf8: seq<byte> -> bool, es: seq<Entry>, rest: seq<byte>)
    requires AllPack(es) && forall e | e in es :: Textual(utf8, e)
    ensures ReadEntries(utf8, EncodeEntries(es) + rest, |es|) == Got(es, rest)
    decreases |es|
  {
    hide EncodeEntry, ReadEntry, EntryPacks, Textual, EncodeValue, ReadValue, ReadKey, Take;
    if es == [] {
      assert EncodeEntries(es) + rest == rest;
    } else {
      assert es[0] in es && forall e | e in es[1..] :: e in es;
      var more := EncodeEntries(es[1..]) + rest;
      assert EncodeEntries(es) + rest == EncodeEntry(es[0]) + more;
      EntryRoundTrip(utf8, es[0], more);
      EntriesRoundTrip(utf8, es[1..], rest);
      assert [es[0]] + es[1..] == es;
    }
  }

  /** Decoding inverts encoding: every byte is consumed and the dictionary comes back. */
  lemma {:induction false} MessageRoundTrip(utf8: seq<byte> -> bool, es: seq<Entry>)
    requires Encodable(es) && DistinctKeys(es) && forall e | e in es :: Textual(utf8, e)
    ensures Entries(utf8, Encode(es)) == Some(Sort(es)) && ToMap(Sort(es)) == ToMap(es)
  {
    hide EncodeEntries, ReadEntries, EntryPacks, Textual;
    SortKeeps(es);
    SortSorts(es, []);
    var sorted := Sort(es);
    EntriesRoundTrip(utf8, sorted, []);
    var s := Encode(es);
    assert s == [] + Le16(|es|) + EncodeEntries(sorted);
    FieldOf([], Le16(|es|), EncodeEntries(sorted));
    assert s[2..] == EncodeEntries(sorted) && EncodeEntries(sorted) + [] == EncodeEntries(sorted);
    SortedMap(es);
  }

  lemma {:induction false} AscendingIsDistinct(es: seq<Entry>)
    requires Ascending(es)
    ensures DistinctKeys(es)
    decreases |es|
  {
    if es != [] {
      AscendingIsDistinct(es[1..]);
      NotInTail(es);
      LookupFinds(es[1..], es[0].key);
      forall j, k | 0 <= j < k < |es|
        ensures es[j].key != es[k].key
      {
        assert es[k] == es[1..][k - 1];
        if j > 0 {
          assert es[j] == es[1..][j - 1];
        }
      }
    }
  }

  lemma {:induction false} SortedMap(es: seq<Entry>)
    requires DistinctKeys(es)
    ensures ToMap(Sort(es)) == ToMap(es)
  {
    SortSorts(es, []);
    AscendingIsDistinct(Sort(es));
    var a, b := ToMap(Sort(es)), ToMap(es);
    forall key
      ensures Get(a, key) == Get(b, key)
    {
      SortSorts(es, key);
      MapIsLookup(Sort(es), key);
      MapIsLookup(es, key);
    }
    SameMap(a, b);
  }

  lemma {:induction false} SameMap(a: map<seq<byte>, Value>, b: map<seq<byte>, Value>)
    requires forall key :: Get(a, key) == Get(b, key)
    ensures a == b
  {
    forall key
      ensures key in a <==> key in b
      ensures key in a && key in b ==> a[key] == b[key]
    {
      assert Get(a, key) == Get(b, key);
    }
    assert a.Keys == b.Keys;
  }

  /** The wire format identifies dictionaries exactly: two encodings are equal if and only if the
   *  dictionaries are, whatever the order of their entries. */
  lemma {:induction false} EncodingIdentifies(utf8: seq<byte> -> bool, a: seq<Entry>, b: seq<Entry>)
    requires Encodable(a) && DistinctKeys(a) && forall e | e in a :: Textual(utf8, e)
    requires Encodable(b) && DistinctKeys(b) && forall e | e in b :: Textual(utf8, e)
    ensures Encode(a) == Encode(b) <==> ToMap(a) == ToMap(b)
  {
    hide Encodable, Textual, Encode;
    if Encode(a) == Encode(b) {
      MessageRoundTrip(utf8, a);
      MessageRoundTrip(utf8, b);
    }
    if ToMap(a) == ToMap(b) {
      forall key
        ensures Lookup(Sort(a), key) == Lookup(Sort(b), key)
      {
        SortSorts(a, key);
        SortSorts(b, key);
        MapIsLookup(a, key);
        MapIsLookup(b, key);
      }
      SortSorts(a, []);
      SortSorts(b, []);
      AscendingUnique(Sort(a), Sort(b));
      SameEncoding(a, b);
    }
  }

  lemma {:induction false} SameEncoding(a: seq<Entry>, b: seq<Entry>)
    requires Encodable(a) && Encodable(b) && Sort(a) == Sort(b) && |Sort(a)| == |a| && |Sort(b)| == |b|
    ensures Encode(a) == Encode(b)
  {
  }
}
