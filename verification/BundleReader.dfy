/**
 * Reading one segment of a modem bundle as it streams (packages/decode-mediatek/src/bundle.ts): what is read does not
 * depend on how the stream is cut into pieces.
 */
module BundleReader {
  import opened Bits
  import opened Options
  import opened Sequences

  /** The bytes of a stream from `offset` on, at most `length`. */
  function Window(stream: seq<byte>, offset: nat, length: nat): (r: seq<byte>)
    ensures |r| <= length
    ensures |r| == length <==> length == 0 || offset + length <= |stream|
  {
    if offset >= |stream| then []
    else if offset + length <= |stream| then stream[offset..offset + length]
    else stream[offset..]
  }

  class Reader {
    var left: seq<seq<byte>>
    var pending: seq<byte>
    /** Stream offset of pending[0]. */
    var at: nat
    ghost const stream: seq<byte>

    ghost predicate Valid()
      reads this
    {
      at + |pending| <= |stream| && stream[at..] == pending + Flat(left)
    }

    constructor (pieces: seq<seq<byte>>)
      ensures Valid() && at == 0 && stream == Flat(pieces)
    {
      left, pending, at, stream := pieces, [], 0, Flat(pieces);
      new;
      assert stream[0..] == stream && [] + Flat(pieces) == Flat(pieces);
    }

    /**
     * `length` bytes from `offset`, which is no earlier than what the last read ended with; short when the stream ends.
     * After a short read the last piece is taken for what follows the stream, so that what is read further is of no use.
     */
    method Read(offset: nat, length: nat) returns (r: seq<byte>)
      modifies this
      ensures |r| <= length
      ensures old(Valid()) && old(at) <= offset ==>
        r == Window(stream, offset, length) && (|r| == length ==> Valid() && at <= offset + length)
    {
      hide Window, Flat;
      var out := new byte[length](_ => 0);
      var filled: nat := 0;
      ghost var inOrder := Valid() && at <= offset;
      while filled < length
        invariant filled <= length
        invariant inOrder ==> Valid() && at <= offset + filled && out[..filled] == Window(stream, offset, filled)
        invariant inOrder ==> offset + filled <= |stream| || filled == 0
        decreases |left|, length - filled
      {
        var from := if at <= offset + filled then offset + filled - at else 0;
        if from < |pending| {
          var to := if from + length - filled <= |pending| then from + length - filled else |pending|;
          ghost var done := filled;
          ghost var before := out[..filled];
          forall k | 0 <= k < to - from {
            out[filled + k] := pending[from + k];
          }
          filled := filled + (to - from);
          assert out[..filled] == before + pending[from..to];
          if inOrder {
            Taken(offset, done, from, to);
          }
          continue;
        }
        if inOrder {
          if left == [] {
            Ended(offset, filled, length);
          } else {
            NextPiece();
          }
        }
        at := at + |pending|;
        if left == [] {
          return out[..filled];
        }
        pending, left := left[0], left[1..];
      }
      return out[..];
    }

    lemma Taken(offset: nat, filled: nat, from: nat, to: nat)
      requires Valid() && at <= offset + filled && from == offset + filled - at && from < to <= |pending|
      requires offset + filled <= |stream| || filled == 0
      ensures offset + filled + to - from <= |stream|
      ensures Window(stream, offset, filled) + pending[from..to] == Window(stream, offset, filled + to - from)
    {
      assert stream[at..][from..to] == stream[offset + filled..offset + filled + to - from];
      assert pending[from..to] == stream[at..][from..to];
      assert stream[offset..offset + filled] + stream[offset + filled..offset + filled + to - from]
        == stream[offset..offset + filled + to - from];
    }

    lemma Ended(offset: nat, filled: nat, length: nat)
      requires Valid() && left == [] && at + |pending| <= offset + filled && filled < length
      requires offset + filled <= |stream| || filled == 0
      ensures Window(stream, offset, filled) == Window(stream, offset, length)
      ensures |Window(stream, offset, length)| < length
    {
      assert pending + [] == pending;
      assert |stream[at..]| == |pending|;
    }

    lemma NextPiece()
      requires Valid() && left != []
      ensures at + |pending| + |left[0]| <= |stream|
      ensures stream[at + |pending|..] == left[0] + Flat(left[1..])
    {
      assert stream[at..] == pending + (left[0] + Flat(left[1..]));
      assert stream[at..][|pending|..] == stream[at + |pending|..];
    }
  }

  // The segment table.

  const COUNT_AT: nat := 0x30
  const TABLE_AT: nat := 0x40
  const ENTRY: nat := 0x30
  const NAME_LENGTH: nat := 32

  /** A segment's name is its bytes, latin-1. */
  datatype Segment = Segment(name: seq<byte>, offset: nat, length: nat)

  function Bytes(b: seq<byte>, at: nat, length: nat): (r: Option<seq<byte>>) {
    if at + length <= |b| then Some(b[at..at + length]) else None
  }

  function U32(b: seq<byte>, at: nat): (r: Option<nat>) {
    if at + 4 <= |b| then Some(LittleEndian(b[at..at + 4])) else None
  }

  /** A name without the zeros it is padded with. */
  function Trimmed(name: seq<byte>): seq<byte> {
    if name != [] && name[|name| - 1] == 0 then Trimmed(name[..|name| - 1]) else name
  }

  const HBLR: seq<byte> := [0x48, 0x42, 0x4C, 0x52]
  const SEGM: seq<byte> := [0x53, 0x45, 0x47, 0x4D]

  /** One entry of the table. None is an error. */
  function Entry(head: seq<byte>, at: nat): (r: Option<Segment>) {
    var name, offset := Bytes(head, at + 4, NAME_LENGTH), U32(head, at + 4 + NAME_LENGTH);
    var length, again := U32(head, at + 8 + NAME_LENGTH), U32(head, at + 12 + NAME_LENGTH);
    if Bytes(head, at, 4) != Some(SEGM) || name == None || offset == None || length == None || again != length then None
    else Some(Segment(Trimmed(name.value), offset.value, length.value))
  }

  function Entries(head: seq<byte>, at: nat, count: nat): (r: Option<seq<Segment>>)
    decreases count
  {
    if count == 0 then Some([])
    else
      var first, others := Entry(head, at), Entries(head, at + ENTRY, count - 1);
      if first == None || others == None then None else Some([first.value] + others.value)
  }

  /** The segment table of a header. None is an error. */
  function Segments(head: seq<byte>): (r: Option<seq<Segment>>) {
    if Bytes(head, 0, 4) != Some(HBLR) || U32(head, COUNT_AT) == None then None
    else Entries(head, TABLE_AT, U32(head, COUNT_AT).value)
  }

  /** The first segment of a name. */
  function Find(segments: seq<Segment>, name: seq<byte>): (r: Option<Segment>) {
    if segments == [] then None else if segments[0].name == name then Some(segments[0]) else Find(segments[1..], name)
  }

  /** A table cut short is an error. */
  lemma {:induction false} CutTable(head: seq<byte>, at: nat, count: nat)
    requires count > 0 && |head| < at + ENTRY * count
    ensures Entries(head, at, count) == None
    decreases count
  {
    if count > 1 && |head| >= at + ENTRY {
      CutTable(head, at + ENTRY, count - 1);
    }
  }

  /** A bundle's segment, from the whole of its bytes. None is an error. */
  function SegmentOf(bundle: seq<byte>, name: seq<byte>): (r: Option<seq<byte>>)
    requires |bundle| >= TABLE_AT
  {
    var table := TABLE_AT + U32(bundle, COUNT_AT).value * ENTRY;
    if table > |bundle| || Segments(bundle[..table]) == None then None
    else
      match Find(Segments(bundle[..table]).value, name)
      case None => None
      case Some(s) =>
        var bytes := Window(bundle, s.offset, s.length);
        if s.offset < table || |bytes| < s.length then None else Some(bytes)
  }

  // Writing a bundle.

  /** A segment as the table says it: its length is written twice. */
  datatype Stored = Stored(name: seq<byte>, offset: nat, length: nat, again: nat)

  /** A name fits its field and does not end in zeros; numbers fit four bytes. */
  predicate StoredOk(e: Stored) {
    && |e.name| <= NAME_LENGTH && (e.name != [] ==> e.name[|e.name| - 1] != 0)
    && e.offset < Room(4) && e.length < Room(4) && e.again < Room(4)
  }

  function ZeroBytes(n: nat): (r: seq<byte>)
    ensures |r| == n
  {
    seq(n, _ => 0)
  }

  function WriteEntry(e: Stored): (r: seq<byte>)
    requires StoredOk(e)
    ensures |r| == ENTRY
  {
    SEGM + (e.name + ZeroBytes(NAME_LENGTH - |e.name|)) + Little(e.offset, 4) + Little(e.length, 4) + Little(e.again, 4)
  }

  function WriteEntries(es: seq<Stored>): (r: seq<byte>)
    requires forall e :: e in es ==> StoredOk(e)
    ensures |r| == ENTRY * |es|
  {
    if es == [] then [] else WriteEntry(es[0]) + WriteEntries(es[1..])
  }

  /** A bundle: its header's other bytes, its table, and what is behind it. */
  datatype Bundle = Bundle(rest: seq<byte>, pad: seq<byte>, es: seq<Stored>, body: seq<byte>) {
    predicate Ok() {
      |rest| == 44 && |pad| == 12 && |es| < Room(4) && forall e :: e in es ==> StoredOk(e)
    }

    function Top(): (r: seq<byte>)
      requires Ok()
      ensures |r| == TABLE_AT
    {
      HBLR + rest + Little(|es|, 4) + pad
    }

    function Write(): seq<byte>
      requires Ok()
    {
      Top() + WriteEntries(es) + body
    }
  }

  lemma PartAt(before: seq<byte>, part: seq<byte>, after: seq<byte>)
    ensures var b := before + part + after; |before| + |part| <= |b| && b[|before|..|before| + |part|] == part
  {
  }

  lemma NumberAt(before: seq<byte>, n: nat, after: seq<byte>)
    requires n < Room(4)
    ensures U32(before + Little(n, 4) + after, |before|) == Some(n)
  {
    hide Little, LittleEndian;
    PartAt(before, Little(n, 4), after);
    LittleRead(n, 4);
  }

  lemma {:induction false} TrimmedPadded(name: seq<byte>, n: nat)
    requires name != [] ==> name[|name| - 1] != 0
    ensures Trimmed(name + ZeroBytes(n)) == name
  {
    if n == 0 {
      assert name + ZeroBytes(0) == name;
    } else {
      var padded := name + ZeroBytes(n);
      assert padded[..|padded| - 1] == name + ZeroBytes(n - 1);
      TrimmedPadded(name, n - 1);
    }
  }

  /** An entry written reads as its segment, wherever it is; one whose lengths differ is an error. */
  lemma EntryAt(before: seq<byte>, e: Stored, after: seq<byte>)
    requires StoredOk(e)
    ensures Entry(before + WriteEntry(e) + after, |before|)
      == if e.again == e.length then Some(Segment(e.name, e.offset, e.length)) else None
  {
    hide Little, LittleEndian, Trimmed, U32;
    var name := e.name + ZeroBytes(NAME_LENGTH - |e.name|);
    var o, l, g := Little(e.offset, 4), Little(e.length, 4), Little(e.again, 4);
    var b := before + WriteEntry(e) + after;
    assert b == before + SEGM + (name + o + l + g + after);
    PartAt(before, SEGM, name + o + l + g + after);
    assert b == before + SEGM + name + (o + l + g + after);
    PartAt(before + SEGM, name, o + l + g + after);
    assert b == before + SEGM + name + o + (l + g + after);
    NumberAt(before + SEGM + name, e.offset, l + g + after);
    assert b == before + SEGM + name + o + l + (g + after);
    NumberAt(before + SEGM + name + o, e.length, g + after);
    assert b == before + SEGM + name + o + l + g + after;
    NumberAt(before + SEGM + name + o + l, e.again, after);
    TrimmedPadded(e.name, NAME_LENGTH - |e.name|);
  }

  function Whole(es: seq<Stored>): (r: seq<Segment>)
    ensures |r| == |es| && forall i :: 0 <= i < |es| ==> r[i] == Segment(es[i].name, es[i].offset, es[i].length)
  {
    seq(|es|, i requires 0 <= i < |es| => Segment(es[i].name, es[i].offset, es[i].length))
  }

  ghost predicate AllWhole(es: seq<Stored>) {
    forall e :: e in es ==> e.again == e.length
  }

  lemma FirstApart(before: seq<byte>, es: seq<Stored>, after: seq<byte>)
    requires es != [] && forall e :: e in es ==> StoredOk(e)
    ensures var b := before + WriteEntries(es) + after;
      && b == before + WriteEntry(es[0]) + (WriteEntries(es[1..]) + after)
      && b == before + WriteEntry(es[0]) + WriteEntries(es[1..]) + after
  {
    hide StoredOk, WriteEntry;
  }

  lemma WholeApart(es: seq<Stored>)
    ensures es == [] ==> Whole(es) == [] && AllWhole(es)
    ensures es != [] ==> Whole(es) == [Segment(es[0].name, es[0].offset, es[0].length)] + Whole(es[1..])
    ensures es != [] ==> AllWhole(es) == (es[0].again == es[0].length && AllWhole(es[1..]))
  {
    if es != [] {
      assert es == [es[0]] + es[1..];
    }
  }

  lemma {:induction false} EntriesAt(before: seq<byte>, es: seq<Stored>, after: seq<byte>)
    requires forall e :: e in es ==> StoredOk(e)
    ensures Entries(before + WriteEntries(es) + after, |before|, |es|) == if AllWhole(es) then Some(Whole(es)) else None
    decreases |es|
  {
    hide Entry, WriteEntry, WriteEntries, StoredOk, Whole, AllWhole;
    WholeApart(es);
    if es == [] {
    } else {
      FirstApart(before, es, after);
      EntryAt(before, es[0], WriteEntries(es[1..]) + after);
      EntriesAt(before + WriteEntry(es[0]), es[1..], after);
    }
  }

  lemma {:induction false} FindIsFirst(segments: seq<Segment>, i: nat)
    requires i < |segments| && forall j :: 0 <= j < i ==> segments[j].name != segments[i].name
    ensures Find(segments, segments[i].name) == Some(segments[i])
  {
    if i == 0 {
    } else {
      assert forall j :: 0 <= j < i - 1 ==> segments[1..][j] == segments[j + 1];
      FindIsFirst(segments[1..], i - 1);
    }
  }

  lemma {:induction false} FindNone(segments: seq<Segment>, name: seq<byte>)
    requires forall i :: 0 <= i < |segments| ==> segments[i].name != name
    ensures Find(segments, name) == None
  {
    if segments == [] {
    } else {
      FindNone(segments[1..], name);
    }
  }

  /** The i-th segment is the first of its name. */
  ghost predicate IsFirst(es: seq<Stored>, i: nat) {
    i < |es| && forall j :: 0 <= j < i ==> es[j].name != es[i].name
  }

  lemma TableReadBack(h: Bundle)
    requires h.Ok()
    ensures var b, table := h.Write(), TABLE_AT + |h.es| * ENTRY;
      && TABLE_AT <= table <= |b| && U32(b, COUNT_AT) == Some(|h.es|)
      && Segments(b[..table]) == if AllWhole(h.es) then Some(Whole(h.es)) else None
  {
    hide Little, LittleEndian, Entries, WriteEntries, StoredOk, U32;
    var b, table := h.Write(), TABLE_AT + |h.es| * ENTRY;
    TopSays(h, WriteEntries(h.es) + h.body);
    assert b == h.Top() + (WriteEntries(h.es) + h.body);
    TopSays(h, WriteEntries(h.es));
    assert b[..table] == h.Top() + WriteEntries(h.es);
    assert b[..table] == h.Top() + WriteEntries(h.es) + [];
    EntriesAt(h.Top(), h.es, []);
  }

  /**
   * A bundle written gives, of a name, the bytes at the offset and of the length that the first segment of that name is
   * said to have; an error if it begins in the table or ends past the bundle.
   */
  lemma SegmentReadBack(h: Bundle, i: nat)
    requires h.Ok() && IsFirst(h.es, i) && AllWhole(h.es)
    ensures var b, e := h.Write(), h.es[i];
      |b| >= TABLE_AT
      && SegmentOf(b, e.name)
         == if e.offset < TABLE_AT + |h.es| * ENTRY || (e.length > 0 && e.offset + e.length > |b|) then None
            else Some(if e.length > 0 then b[e.offset..e.offset + e.length] else [])
  {
    hide Segments, Find, U32, StoredOk;
    TableReadBack(h);
    FindIsFirst(Whole(h.es), i);
  }

  /** There is no segment of another name, and none at all if any segment's two lengths differ. */
  lemma NoSegment(h: Bundle, name: seq<byte>)
    requires h.Ok() && ((forall i :: 0 <= i < |h.es| ==> h.es[i].name != name) || !AllWhole(h.es))
    ensures |h.Write()| >= TABLE_AT && SegmentOf(h.Write(), name) == None
  {
    hide Segments, Find, U32, StoredOk;
    TableReadBack(h);
    if AllWhole(h.es) {
      FindNone(Whole(h.es), name);
    }
  }

  lemma {:induction false} NoEntry(head: seq<byte>, at: nat, count: nat, i: nat)
    requires i < count && Entry(head, at + i * ENTRY) == None
    ensures Entries(head, at, count) == None
    decreases count
  {
    hide Entry;
    if i == 0 {
    } else {
      assert at + ENTRY + (i - 1) * ENTRY == at + i * ENTRY;
      NoEntry(head, at + ENTRY, count - 1, i - 1);
    }
  }

  /** What does not begin as a bundle, or has an entry that does not begin as one or is not all there, has no segment. */
  lemma NotBundle(b: seq<byte>, i: nat, name: seq<byte>)
    requires |b| >= TABLE_AT
    requires
      var at := TABLE_AT + i * ENTRY;
      b[..4] != HBLR || (i < U32(b, COUNT_AT).value && (|b| < at + ENTRY || b[at..at + 4] != SEGM))
    ensures SegmentOf(b, name) == None
  {
    hide Find, Entries;
    var table := TABLE_AT + U32(b, COUNT_AT).value * ENTRY;
    if table <= |b| {
      var head := b[..table];
      assert head[0..4] == b[..4];
      HeadCount(b, table);
      if b[..4] == HBLR {
        var at := TABLE_AT + i * ENTRY;
        assert head[at..at + 4] == b[at..at + 4];
        NoEntry(head, TABLE_AT, U32(b, COUNT_AT).value, i);
      }
    }
  }

  lemma HeadCount(b: seq<byte>, table: nat)
    requires TABLE_AT <= table <= |b|
    ensures U32(b[..table], COUNT_AT) == U32(b, COUNT_AT)
  {
    assert b[..table][COUNT_AT..COUNT_AT + 4] == b[COUNT_AT..COUNT_AT + 4];
  }

  lemma TopSays(h: Bundle, more: seq<byte>)
    requires h.Ok()
    ensures var b := h.Top() + more; Bytes(b, 0, 4) == Some(HBLR) && U32(b, COUNT_AT) == Some(|h.es|)
  {
    hide Little, LittleEndian, U32;
    var b := h.Top() + more;
    assert b[0..4] == HBLR;
    assert b == HBLR + h.rest + Little(|h.es|, 4) + (h.pad + more);
    NumberAt(HBLR + h.rest, |h.es|, h.pad + more);
  }

  /** What a stream's first bytes and its table's say of its header. */
  lemma HeadIs(bundle: seq<byte>, count: nat)
    requires |bundle| >= TABLE_AT && U32(Window(bundle, 0, TABLE_AT), COUNT_AT) == Some(count)
    ensures var head := Window(bundle, 0, TABLE_AT) + Window(bundle, TABLE_AT, count * ENTRY);
      && U32(bundle, COUNT_AT) == Some(count)
      && (if TABLE_AT + count * ENTRY <= |bundle| then head == bundle[..TABLE_AT + count * ENTRY]
          else Segments(head) == None)
  {
    var head := Window(bundle, 0, TABLE_AT) + Window(bundle, TABLE_AT, count * ENTRY);
    assert head[COUNT_AT..COUNT_AT + 4] == bundle[COUNT_AT..COUNT_AT + 4];
    assert bundle[..TABLE_AT][COUNT_AT..COUNT_AT + 4] == bundle[COUNT_AT..COUNT_AT + 4];
    if TABLE_AT + count * ENTRY > |bundle| {
      CutTable(head, TABLE_AT, count);
    }
  }

  /** Whatever is read for the table behind a header cut short, the two are too short for its segments. */
  lemma CutHead(top: seq<byte>, more: seq<byte>, count: nat, name: seq<byte>)
    requires |top| < TABLE_AT && U32(top, COUNT_AT) == Some(count) && |more| <= count * ENTRY
    ensures Segments(top + more) == None || Find(Segments(top + more).value, name) == None
  {
    var head := top + more;
    assert head[COUNT_AT..COUNT_AT + 4] == top[COUNT_AT..COUNT_AT + 4];
    if count > 0 {
      CutTable(head, TABLE_AT, count);
    }
  }

  /** One named segment of a bundle as it streams. None is an error. */
  method BundleSegment(pieces: seq<seq<byte>>, name: seq<byte>) returns (r: Option<seq<byte>>)
    ensures r == if |Flat(pieces)| >= TABLE_AT then SegmentOf(Flat(pieces), name) else None
  {
    hide Entries, Entry, Find, LittleEndian, Flat, Segments;
    var reader := new Reader(pieces);
    ghost var bundle := reader.stream;
    var top := reader.Read(0, TABLE_AT);
    var count := U32(top, COUNT_AT);
    if count == None {
      return None;
    }
    var more := reader.Read(TABLE_AT, count.value * ENTRY);
    var head := top + more;
    if |bundle| < TABLE_AT {
      CutHead(top, more, count.value, name);
    } else {
      HeadIs(bundle, count.value);
    }
    var segments := Segments(head);
    if segments == None {
      return None;
    }
    var segment := Find(segments.value, name);
    if segment == None || segment.value.offset < |head| {
      return None;
    }
    var bytes := reader.Read(segment.value.offset, segment.value.length);
    if |bytes| != segment.value.length {
      return None;
    }
    return Some(bytes);
  }

  /** Two cuts of one stream give the same segment. */
  method CutTwice(pieces: seq<seq<byte>>, pieces': seq<seq<byte>>, name: seq<byte>)
    returns (r: Option<seq<byte>>, r': Option<seq<byte>>)
    requires Flat(pieces) == Flat(pieces')
    ensures r == r'
  {
    r := BundleSegment(pieces, name);
    r' := BundleSegment(pieces', name);
  }
}
