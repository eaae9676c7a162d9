/** The bytes of a message, one by one: what is written, and that nothing else is read. */
module MessageFormat {
  import opened Bytes
  import opened Messages

  /** A byte for the kind of the value, then the value: nothing; 0 or 1; eight bytes, the low one first;
   *  the eight bytes of a double; or a length, of two bytes for a text and four for data, and the bytes. */
  predicate IsValue(s: seq<byte>, v: Value) {
    match v
    case Nothing => s == [0]
    case Bool(b) => s == [1, if b then 1 else 0]
    case Int(n) =>
      var w := if n < 0 then n + 18_446_744_073_709_551_616 else n;
      && -9_223_372_036_854_775_808 <= n <= 9_223_372_036_854_775_807
      && |s| == 9 && s[0] == 2 && Word(s, 1, w % 4_294_967_296) && Word(s, 5, w / 4_294_967_296)
    case Double(bits) => |bits| == 8 && s == [3] + bits
    case Text(t) => |s| == 3 + |t| && s[0] == 4 && Half(s, 1, |t|) && s[3..] == t
    case Data(d) => |s| == 5 + |d| && s[0] == 5 && Word(s, 1, |d|) && s[5..] == d
  }

  function ValueSize(v: Value): nat {
    match v
    case Nothing => 1
    case Bool(_) => 2
    case Int(_) => 9
    case Double(_) => 9
    case Text(t) => 3 + |t|
    case Data(d) => 5 + |d|
  }

  /** The length of the key, the key and the value. */
  predicate IsEntry(s: seq<byte>, e: Entry) {
    && |s| > |e.key| && s[0] == |e.key| && s[1..|e.key| + 1] == e.key
    && IsValue(s[|e.key| + 1..], e.value)
  }

  predicate AreEntries(s: seq<byte>, es: seq<Entry>) {
    if es == [] then s == []
    else
      var n := |es[0].key| + 1 + ValueSize(es[0].value);
      n <= |s| && IsEntry(s[..n], es[0]) && AreEntries(s[n..], es[1..])
  }

  /** The number of entries, and the entries one behind the other. */
  predicate IsMessage(s: seq<byte>, es: seq<Entry>) {
    |s| >= 2 && Half(s, 0, |es|) && AreEntries(s[2..], es)
  }

  // ----- writing -----

  lemma {:induction false} ValueIsWritten(v: Value)
    requires ValuePacks(v)
    ensures IsValue(EncodeValue(v), v) && |EncodeValue(v)| == ValueSize(v)
  {
    match v
    case Int(n) => IntIsWritten(n);
    case Text(t) =>
      assert EncodeValue(v) == [4] + Le16(|t|) + t;
      FieldOf([4], Le16(|t|), t);
    case Data(d) =>
      assert EncodeValue(v) == [5] + Le32(|d|) + d;
      FieldOf([5], Le32(|d|), d);
    case _ =>
  }

  lemma {:induction false} IntIsWritten(n: int)
    requires INT64_MIN <= n <= INT64_MAX
    ensures IsValue(EncodeValue(Int(n)), Int(n))
  {
    var w := Word64(n);
    var low, high := Le32(w % 0x1_0000_0000), Le32(w / 0x1_0000_0000);
    var s := EncodeValue(Int(n));
    assert Le64(w) == low + high;
    hide Le32, Le64, U32, Word;
    assert s == [2] + low + high && s == ([2] + low) + high + [];
    FieldOf([2], low, high);
    FieldOf([2] + low, high, []);
    WordIs(s, 1, w % 0x1_0000_0000);
    WordIs(s, 5, w / 0x1_0000_0000);
  }

  lemma {:induction false} EntryIsWritten(e: Entry)
    requires EntryPacks(e)
    ensures IsEntry(EncodeEntry(e), e) && |EncodeEntry(e)| == |e.key| + 1 + ValueSize(e.value)
  {
    ValueIsWritten(e.value);
    hide IsValue, EncodeValue;
    assert EncodeEntry(e)[|e.key| + 1..] == EncodeValue(e.value);
  }

  lemma {:induction false} EntriesAreWritten(es: seq<Entry>)
    requires AllPack(es)
    ensures AreEntries(EncodeEntries(es), es)
  {
    hide IsEntry, EntryPacks, EncodeEntry;
    if es != [] {
      EntryIsWritten(es[0]);
      EntriesAreWritten(es[1..]);
      var n := |es[0].key| + 1 + ValueSize(es[0].value);
      assert EncodeEntries(es)[..n] == EncodeEntry(es[0]) && EncodeEntries(es)[n..] == EncodeEntries(es[1..]);
    }
  }

  /** Encoding writes that message, with the entries in the order of their keys. */
  lemma {:induction false} MessageIsWritten(es: seq<Entry>)
    requires Encodable(es) && DistinctKeys(es)
    ensures IsMessage(Encode(es), Sort(es)) && Ascending(Sort(es))
  {
    SortKeeps(es);
    SortSorts(es, []);
    EntriesAreWritten(Sort(es));
    hide Sort, EncodeEntries, AreEntries, Ascending;
    var s := Encode(es);
    assert s == [] + Le16(|es|) + EncodeEntries(Sort(es)) && s[2..] == EncodeEntries(Sort(es));
    FieldOf([], Le16(|es|), EncodeEntries(Sort(es)));
  }

  /** Both strings agree up to k, and there the first one ends or has the smaller byte. */
  predicate LessAt(a: seq<byte>, b: seq<byte>, k: nat) {
    k <= |a| && k < |b| && a[..k] == b[..k] && (k == |a| || a[k] < b[k])
  }

  lemma {:induction false} LessHasPlace(a: seq<byte>, b: seq<byte>) returns (k: nat)
    requires Less(a, b)
    ensures LessAt(a, b, k)
    decreases |a|
  {
    k := 0;
    if a != [] && a[0] == b[0] {
      var n := LessHasPlace(a[1..], b[1..]);
      k := n + 1;
      assert a[..k] == [a[0]] + a[1..][..n] && b[..k] == [b[0]] + b[1..][..n];
    }
  }

  lemma {:induction false} PlaceIsLess(a: seq<byte>, b: seq<byte>, k: nat)
    requires LessAt(a, b, k)
    ensures Less(a, b)
    decreases k
  {
    if k > 0 {
      assert a[0] == a[..k][0] == b[..k][0] == b[0];
      assert a[1..][..k - 1] == a[..k][1..] && b[1..][..k - 1] == b[..k][1..];
      PlaceIsLess(a[1..], b[1..], k - 1);
    }
  }

  /** The order of keys is lexicographic. */
  lemma {:induction false} LessIsLexicographic(a: seq<byte>, b: seq<byte>)
    ensures Less(a, b) <==> exists k: nat :: LessAt(a, b, k)
  {
    hide Less, LessAt;
    if Less(a, b) {
      var k := LessHasPlace(a, b);
    }
    forall k: nat | LessAt(a, b, k)
      ensures Less(a, b)
    {
      PlaceIsLess(a, b, k);
    }
  }

  // ----- reading -----

  predicate Readable(utf8: seq<byte> -> bool, v: Value) {
    v.Text? ==> utf8(v.text)
  }

  /** A value is read exactly where its bytes stand. */
  lemma {:induction false} ValueIsRead(utf8: seq<byte> -> bool, s: seq<byte>, v: Value, rest: seq<byte>)
    ensures ReadValue(utf8, s) == Got(v, rest) <==>
            && |s| == ValueSize(v) + |rest| && s[ValueSize(v)..] == rest && IsValue(s[..ValueSize(v)], v)
            && Readable(utf8, v)
  {
    if s != [] {
      match s[0]
      case 0 => NothingIsRead(utf8, s, v, rest);
      case 1 => BoolIsRead(utf8, s, v, rest);
      case 2 => IntIsRead(utf8, s, v, rest);
      case 3 => DoubleIsRead(utf8, s, v, rest);
      case 4 => TextIsRead(utf8, s, v, rest);
      case 5 => DataIsRead(utf8, s, v, rest);
      case _ =>
    }
  }

  predicate Stands(utf8: seq<byte> -> bool, s: seq<byte>, v: Value, rest: seq<byte>) {
    && |s| == ValueSize(v) + |rest| && s[ValueSize(v)..] == rest && IsValue(s[..ValueSize(v)], v) && Readable(utf8, v)
  }

  lemma {:induction false} NothingIsRead(utf8: seq<byte> -> bool, s: seq<byte>, v: Value, rest: seq<byte>)
    requires s != [] && s[0] == 0
    ensures ReadValue(utf8, s) == Got(v, rest) <==> Stands(utf8, s, v, rest)
  {
  }

  lemma {:induction false} BoolIsRead(utf8: seq<byte> -> bool, s: seq<byte>, v: Value, rest: seq<byte>)
    requires s != [] && s[0] == 1
    ensures ReadValue(utf8, s) == Got(v, rest) <==> Stands(utf8, s, v, rest)
  {
  }

  /** A number of 64 bits is the one whose two words stand there. */
  lemma {:induction false} Halves(n: int, low: uint32, high: uint32)
    ensures n == Signed64(low + 0x1_0000_0000 * high) <==>
            && INT64_MIN <= n <= INT64_MAX
            && Word64(n) % 0x1_0000_0000 == low && Word64(n) / 0x1_0000_0000 == high
  {
  }

  lemma {:induction false} IntIsRead(utf8: seq<byte> -> bool, s: seq<byte>, v: Value, rest: seq<byte>)
    requires s != [] && s[0] == 2
    ensures ReadValue(utf8, s) == Got(v, rest) <==> Stands(utf8, s, v, rest)
  {
    if |s| >= 9 {
      var t, low, high := s[..9], U32(s[..9], 1), U32(s[..9], 5);
      assert low == U32(s[1..], 0) && high == U32(s[1..], 4);
      assert s[9..] == s[1..][8..];
      if v.Int? {
        Halves(v.n, low, high);
        if INT64_MIN <= v.n <= INT64_MAX {
          WordIs(t, 1, Word64(v.n) % 0x1_0000_0000);
          WordIs(t, 5, Word64(v.n) / 0x1_0000_0000);
        }
      }
      hide U32, Word, Word64, Signed64;
    }
  }

  lemma {:induction false} DoubleIsRead(utf8: seq<byte> -> bool, s: seq<byte>, v: Value, rest: seq<byte>)
    requires s != [] && s[0] == 3
    ensures ReadValue(utf8, s) == Got(v, rest) <==> Stands(utf8, s, v, rest)
  {
    if |s| >= 9 {
      var bits := s[1..][..8];
      assert s[..9] == [s[0]] + bits && s[9..] == s[1..][8..];
      if v.Double? && |v.bits| == 8 && s[..9] == [3] + v.bits {
        assert v.bits == ([3] + v.bits)[1..] == ([s[0]] + bits)[1..] == bits;
      }
    }
  }

  lemma {:induction false} TextIsRead(utf8: seq<byte> -> bool, s: seq<byte>, v: Value, rest: seq<byte>)
    requires s != [] && s[0] == 4
    ensures ReadValue(utf8, s) == Got(v, rest) <==> Stands(utf8, s, v, rest)
  {
    if |s| >= 3 {
      var n: nat := U16(s[1..], 0);
      assert U16(s[1..], 0) == U16(s, 1);
      if |s| >= 3 + n {
        assert s[..3 + n][3..] == s[1..][2..][..n] && s[3 + n..] == s[1..][2..][n..];
      }
    }
  }

  lemma {:induction false} DataIsRead(utf8: seq<byte> -> bool, s: seq<byte>, v: Value, rest: seq<byte>)
    requires s != [] && s[0] == 5
    ensures ReadValue(utf8, s) == Got(v, rest) <==> Stands(utf8, s, v, rest)
  {
    if |s| >= 5 {
      var n: nat := U32(s[1..], 0);
      assert U32(s[1..], 0) == U32(s, 1);
      if |s| >= 5 + n {
        assert s[..5 + n][5..] == s[1..][4..][..n] && s[5 + n..] == s[1..][4..][n..];
      }
    }
  }

  /** An entry is read exactly where its bytes stand. */
  lemma {:induction false} EntryIsRead(utf8: seq<byte> -> bool, s: seq<byte>, e: Entry, rest: seq<byte>)
    ensures ReadEntry(utf8, s) == Got(e, rest) <==> EntryStands(utf8, s, e, rest)
  {
    hide ReadValue, IsValue, ValueSize;
    if s != [] && |s| > s[0] as int && s[0] as int == |e.key| {
      var n := |e.key| + 1;
      ValueIsRead(utf8, s[n..], e.value, rest);
      assert s[1..][..|e.key|] == s[1..n] && s[1..][|e.key|..] == s[n..];
      var m := n + ValueSize(e.value);
      if m <= |s| {
        assert s[..m][1..n] == s[1..n] && s[..m][n..] == s[n..][..ValueSize(e.value)]
               && s[m..] == s[n..][ValueSize(e.value)..];
      }
    }
  }

  function EntrySize(e: Entry): nat {
    |e.key| + 1 + ValueSize(e.value)
  }

  predicate EntryStands(utf8: seq<byte> -> bool, s: seq<byte>, e: Entry, rest: seq<byte>) {
    && |s| == EntrySize(e) + |rest| && s[EntrySize(e)..] == rest && IsEntry(s[..EntrySize(e)], e)
    && Textual(utf8, e)
  }

  lemma {:induction false} EntriesAreRead(utf8: seq<byte> -> bool, s: seq<byte>, es: seq<Entry>)
    ensures ReadEntries(utf8, s, |es|) == Got(es, []) <==> AreEntries(s, es) && forall e | e in es :: Textual(utf8, e)
    decreases |es|
  {
    hide ReadEntry, IsEntry, Textual, ValueSize;
    if es != [] {
      var n, r := EntrySize(es[0]), ReadEntry(utf8, s);
      assert es == [es[0]] + es[1..];
      if n <= |s| {
        EntryIsRead(utf8, s, es[0], s[n..]);
        EntriesAreRead(utf8, s[n..], es[1..]);
      }
      if r.Got? {
        EntryIsRead(utf8, s, r.value, r.rest);
        FirstEntry(r.value, es, ReadEntries(utf8, r.rest, |es| - 1));
      }
    }
  }

  lemma {:induction false} FirstEntry(e: Entry, es: seq<Entry>, r: Read<seq<Entry>>)
    requires es != []
    ensures r.Got? && [e] + r.value == es <==> r.Got? && e == es[0] && r.value == es[1..]
  {
    if r.Got? && [e] + r.value == es {
      assert r.value == ([e] + r.value)[1..];
    }
  }

  /** Decoding gives the entries of exactly the messages that are written so, with texts that are texts. */
  lemma {:induction false} MessageIsRead(utf8: seq<byte> -> bool, s: seq<byte>, es: seq<Entry>)
    ensures Entries(utf8, s) == Some(es) <==> IsMessage(s, es) && forall e | e in es :: Textual(utf8, e)
  {
    hide ReadEntry, AreEntries, Textual, U16, Half;
    if |s| >= 2 {
      var n: nat := U16(s, 0);
      HalfIs(s, 0, |es|);
      EntriesAreRead(utf8, s[2..], es);
      CountIsRead(utf8, s[2..], n);
    }
  }

  lemma {:induction false} CountIsRead(utf8: seq<byte> -> bool, s: seq<byte>, count: nat)
    ensures ReadEntries(utf8, s, count).Got? ==> |ReadEntries(utf8, s, count).value| == count
    decreases count
  {
    hide ReadEntry;
    if count > 0 && ReadEntry(utf8, s).Got? {
      CountIsRead(utf8, ReadEntry(utf8, s).rest, count - 1);
    }
  }
}
