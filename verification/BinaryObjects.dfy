/**
 * Where a binary property list's objects are and what their bytes say (packages/decode-ios/src/plist.ts): a trailer, a
 * table of offsets, and objects that begin with a marker. A table of objects written is read back.
 */
module BinaryObjects {
  import opened Bits
  import opened Options
  import opened Sequences

  datatype Node<L> = Leaf(l: L) | Arr(refs: seq<nat>) | Dict(keys: seq<nat>, values: seq<nat>)

  /** A scalar: its marker's kind and low half, and its bytes. A blob's low half counts for nothing. */
  datatype Raw = Raw(kind: nat, low: nat, bytes: seq<byte>)

  const TRAILER: nat := 32
  /** No array is longer. */
  const MAX_ARRAY: nat := 0xFFFF_FFFF

  /** Bytes that are there; none are read when none are asked for. */
  function Fixed(b: seq<byte>, off: nat, size: nat): (r: Option<seq<byte>>)
    ensures r.Some? ==> |r.value| == size
  {
    if size == 0 then Some([]) else if off + size <= |b| then Some(b[off..off + size]) else None
  }

  function UInt(b: seq<byte>, off: nat, size: nat): Option<nat> {
    match Fixed(b, off, size)
    case None => None
    case Some(bytes) => Some(BigEndian(bytes))
  }

  /** Bytes as far as there are any. */
  function Clipped(b: seq<byte>, off: nat, size: nat): seq<byte> {
    if off >= |b| then [] else if off + size <= |b| then b[off..off + size] else b[off..]
  }

  /** Numbers of `size` bytes each. */
  function UInts(b: seq<byte>, off: nat, size: nat, count: nat): (r: Option<seq<nat>>)
    ensures r.Some? ==> |r.value| == count
    decreases count
  {
    if count == 0 then Some([])
    else
      match UInt(b, off, size)
      case None => None
      case Some(first) => Before([first], UInts(b, off + size, size, count - 1))
  }

  /** A count behind a marker, and where what it counts begins. */
  function Counted(b: seq<byte>, off: nat, low: nat): Option<(nat, nat)> {
    if low != 15 then Some((low, off))
    else if off >= |b| then None
    else
      var size := Pow2(b[off] % 16);
      match UInt(b, off + 1, size)
      case None => None
      case Some(n) => Some((n, off + 1 + size))
  }

  function FixedLeaf(b: seq<byte>, off: nat, size: nat, kind: nat, low: nat): Option<Node<Raw>> {
    match Fixed(b, off, size)
    case None => None
    case Some(bytes) => Some(Leaf(Raw(kind, low, bytes)))
  }

  function BlobLeaf(b: seq<byte>, off: nat, kind: nat, low: nat): Option<Node<Raw>> {
    match Counted(b, off, low)
    case None => None
    case Some((n, at)) => Some(Leaf(Raw(kind, 0, Clipped(b, at, if kind == 6 then 2 * n else n))))
  }

  /** The object at an offset. None is an error. */
  function NodeAt(b: seq<byte>, off: nat, refSize: nat): Option<Node<Raw>> {
    if off >= |b| then None
    else
      var kind, low, at := b[off] / 16, b[off] % 16, off + 1;
      match kind
      case 0 => Some(Leaf(Raw(0, low, [])))
      case 1 => FixedLeaf(b, at, Pow2(low), 1, low)
      case 2 => FixedLeaf(b, at, if low == 2 then 4 else 8, 2, low)
      case 3 => FixedLeaf(b, at, 8, 3, low)
      case 4 => BlobLeaf(b, at, 4, low)
      case 5 => BlobLeaf(b, at, 5, low)
      case 6 => BlobLeaf(b, at, 6, low)
      case 7 => BlobLeaf(b, at, 7, low)
      case 8 => FixedLeaf(b, at, low + 1, 8, low)
      case 10 => ArrayAt(b, at, low, refSize)
      case 12 => ArrayAt(b, at, low, refSize)
      case 13 => DictAt(b, at, low, refSize)
      case _ => None
  }

  function ArrayAt(b: seq<byte>, off: nat, low: nat, refSize: nat): Option<Node<Raw>> {
    match Counted(b, off, low)
    case None => None
    case Some((n, at)) =>
      match UInts(b, at, refSize, n)
      case None => None
      case Some(refs) => Some(Arr(refs))
  }

  /** A dictionary's keys, then its values. */
  function DictAt(b: seq<byte>, off: nat, low: nat, refSize: nat): Option<Node<Raw>> {
    match Counted(b, off, low)
    case None => None
    case Some((n, at)) =>
      match UInts(b, at, refSize, n + n)
      case None => None
      case Some(refs) => Some(Dict(refs[..n], refs[n..]))
  }

  /** A dictionary read has as many keys as values. */
  lemma NodeEven(b: seq<byte>, off: nat, refSize: nat)
    ensures var n := NodeAt(b, off, refSize); n.Some? && n.value.Dict? ==> |n.value.keys| == |n.value.values|
  {
    hide Counted, UInts, FixedLeaf, BlobLeaf;
    if off < |b| {
      OnlyLeaves(b, off + 1, b[off] % 16);
    }
  }

  lemma OnlyLeaves(b: seq<byte>, off: nat, low: nat)
    ensures forall kind, size :: FixedLeaf(b, off, size, kind, low).Some? ==> FixedLeaf(b, off, size, kind, low).value.Leaf?
    ensures forall kind :: BlobLeaf(b, off, kind, low).Some? ==> BlobLeaf(b, off, kind, low).value.Leaf?
  {
    hide Counted, Clipped, Fixed;
  }

  /** A file's offsets, how wide its references are, and its top object. */
  datatype Table = Table(offsets: seq<nat>, refSize: nat, top: nat)

  function TableOf(b: seq<byte>): Option<Table> {
    if |b| < TRAILER + 8 then None
    else
      var t := |b| - TRAILER;
      var count, top, at := UInt(b, t + 8, 8).value, UInt(b, t + 16, 8).value, UInt(b, t + 24, 8).value;
      if count > MAX_ARRAY then None
      else
        match UInts(b, at, b[t + 6], count)
        case None => None
        case Some(offsets) => Some(Table(offsets, b[t + 7], top))
  }

  function Nodes(b: seq<byte>, t: Table): (r: seq<Option<Node<Raw>>>)
    ensures |r| == |t.offsets|
  {
    seq(|t.offsets|, i requires 0 <= i < |t.offsets| => NodeAt(b, t.offsets[i], t.refSize))
  }

  // Writing objects.

  /** How a count is written: in the marker, or behind it in 2^w bytes. */
  datatype Form = Short | Long(w: nat)

  datatype Object =
    | Single(raw: Raw)
    | Blob(kind: nat, form: Form, bytes: seq<byte>)
    | Listing(kind: nat, form: Form, refs: seq<nat>)
    | Pairs(form: Form, keys: seq<nat>, values: seq<nat>)

  function CountLow(n: nat, form: Form): nat {
    if form == Short then n else 15
  }

  function CountBytes(n: nat, form: Form): seq<byte>
    requires form.Long? ==> form.w < 16
  {
    match form
    case Short => []
    case Long(w) => [16 + w] + Big(n, Pow2(w))
  }

  predicate CountOk(n: nat, form: Form) {
    match form
    case Short => n < 15
    case Long(w) => w < 16 && n < Room(Pow2(w))
  }

  function BigAll(refs: seq<nat>, size: nat): seq<byte> {
    if refs == [] then [] else Big(refs[0], size) + BigAll(refs[1..], size)
  }

  predicate RefsOk(refs: seq<nat>, size: nat) {
    forall r :: r in refs ==> r < Room(size)
  }

  /** How many bytes a scalar has. */
  function ScalarSize(kind: nat, low: nat): nat {
    if kind == 0 then 0
    else if kind == 1 then Pow2(low)
    else if kind == 2 then if low == 2 then 4 else 8
    else if kind == 3 then 8
    else low + 1
  }

  predicate ObjectOk(o: Object, refSize: nat) {
    match o
    case Single(raw) => (raw.kind < 4 || raw.kind == 8) && raw.low < 16 && |raw.bytes| == ScalarSize(raw.kind, raw.low)
    case Blob(kind, form, bytes) =>
      4 <= kind < 8 && (kind == 6 ==> |bytes| % 2 == 0) && CountOk(Units(kind, bytes), form)
    case Listing(kind, form, refs) => (kind == 10 || kind == 12) && CountOk(|refs|, form) && RefsOk(refs, refSize)
    case Pairs(form, keys, values) =>
      |keys| == |values| && CountOk(|keys|, form) && RefsOk(keys, refSize) && RefsOk(values, refSize)
  }

  /** What a blob's count counts: two bytes each of kind 6. */
  function Units(kind: nat, bytes: seq<byte>): nat {
    if kind == 6 then |bytes| / 2 else |bytes|
  }

  function Marker(kind: nat, low: nat): byte
    requires kind < 16 && low < 16
  {
    16 * kind + low
  }

  function WriteObject(o: Object, refSize: nat): (r: seq<byte>)
    requires ObjectOk(o, refSize)
    ensures r != []
  {
    match o
    case Single(raw) => [Marker(raw.kind, raw.low)] + raw.bytes
    case Blob(kind, form, bytes) =>
      [Marker(kind, CountLow(Units(kind, bytes), form))] + CountBytes(Units(kind, bytes), form) + bytes
    case Listing(kind, form, refs) =>
      [Marker(kind, CountLow(|refs|, form))] + CountBytes(|refs|, form) + BigAll(refs, refSize)
    case Pairs(form, keys, values) =>
      [Marker(13, CountLow(|keys|, form))] + CountBytes(|keys|, form) + BigAll(keys + values, refSize)
  }

  function NodeOf(o: Object): Node<Raw> {
    match o
    case Single(raw) => Leaf(raw)
    case Blob(kind, _, bytes) => Leaf(Raw(kind, 0, bytes))
    case Listing(_, _, refs) => Arr(refs)
    case Pairs(_, keys, values) => Dict(keys, values)
  }

  lemma FixedAt(before: seq<byte>, part: seq<byte>, after: seq<byte>)
    ensures Fixed(before + part + after, |before|, |part|) == Some(part)
    ensures Clipped(before + part + after, |before|, |part|) == part
  {
  }

  lemma UIntAt(before: seq<byte>, n: nat, size: nat, after: seq<byte>)
    requires n < Room(size)
    ensures UInt(before + Big(n, size) + after, |before|, size) == Some(n)
  {
    hide Fixed, Big;
    FixedAt(before, Big(n, size), after);
    BigRead(n, size);
  }

  lemma UIntsParts(b: seq<byte>, off: nat, size: nat, count: nat)
    ensures count == 0 ==> UInts(b, off, size, count) == Some([])
    ensures count > 0 ==>
      var first, others := UInt(b, off, size), UInts(b, off + size, size, count - 1);
      UInts(b, off, size, count) == if first == None then None else Before([first.value], others)
  {
    hide UInt;
  }

  lemma BigFirst(refs: seq<nat>, size: nat)
    requires refs != []
    ensures BigAll(refs, size) == Big(refs[0], size) + BigAll(refs[1..], size)
  {
  }

  lemma {:induction false} UIntsAt(before: seq<byte>, refs: seq<nat>, size: nat, after: seq<byte>)
    requires RefsOk(refs, size)
    ensures UInts(before + BigAll(refs, size) + after, |before|, size, |refs|) == Some(refs)
    decreases |refs|
  {
    hide UInt, UInts, Big, BigAll;
    var all := before + BigAll(refs, size) + after;
    UIntsParts(all, |before|, size, |refs|);
    if refs == [] {
    } else {
      var first, others := Big(refs[0], size), BigAll(refs[1..], size);
      assert refs[0] in refs && forall r :: r in refs[1..] ==> r in refs;
      BigFirst(refs, size);
      Associate(before, first, others);
      Associate(before + first, others, after);
      UIntAt(before, refs[0], size, others + after);
      UIntsAt(before + first, refs[1..], size, after);
      assert refs == [refs[0]] + refs[1..];
    }
  }

  lemma CountedAt(before: seq<byte>, n: nat, form: Form, after: seq<byte>)
    requires CountOk(n, form)
    ensures Counted(before + CountBytes(n, form) + after, |before|, CountLow(n, form))
      == Some((n, |before| + |CountBytes(n, form)|))
  {
    hide UInt, Big, Room;
    match form
    case Short =>
    case Long(w) =>
      var b := before + CountBytes(n, form) + after;
      assert b == before + [16 + w] + Big(n, Pow2(w)) + after;
      assert b[|before|] == 16 + w && (16 + w) % 16 == w;
      UIntAt(before + [16 + w], n, Pow2(w), after);
  }

  lemma MarkerParts(kind: nat, low: nat)
    requires kind < 16 && low < 16
    ensures Marker(kind, low) / 16 == kind && Marker(kind, low) % 16 == low
  {
  }

  /** An object written is read back, whatever is before and behind it. */
  lemma ObjectReadBack(before: seq<byte>, o: Object, refSize: nat, after: seq<byte>)
    requires ObjectOk(o, refSize)
    ensures NodeAt(before + WriteObject(o, refSize) + after, |before|, refSize) == Some(NodeOf(o))
  {
    match o
    case Single(raw) => ScalarReadBack(before, raw, refSize, after);
    case Blob(kind, form, bytes) => BlobReadBack(before, kind, form, bytes, refSize, after);
    case Listing(kind, form, refs) => RefsReadBack(before, kind, form, refs, refSize, after);
    case Pairs(form, keys, values) => PairsReadBack(before, form, keys, values, refSize, after);
  }

  lemma ScalarReadBack(before: seq<byte>, raw: Raw, refSize: nat, after: seq<byte>)
    requires ObjectOk(Single(raw), refSize)
    ensures NodeAt(before + WriteObject(Single(raw), refSize) + after, |before|, refSize) == Some(Leaf(raw))
  {
    hide Fixed, Pow2;
    var marker := [Marker(raw.kind, raw.low)];
    var b := before + WriteObject(Single(raw), refSize) + after;
    assert b == before + marker + raw.bytes + after;
    assert b[|before|] == marker[0];
    MarkerParts(raw.kind, raw.low);
    FixedAt(before + marker, raw.bytes, after);
  }

  /** Where a marker, a count and what it counts are. */
  lemma MarkerAt(before: seq<byte>, marker: seq<byte>, count: seq<byte>, bytes: seq<byte>, after: seq<byte>)
    requires |marker| == 1
    ensures var b := before + (marker + count + bytes) + after;
      && b == before + marker + count + (bytes + after) && b == before + marker + count + bytes + after
      && b[|before|] == marker[0]
  {
  }

  lemma BlobReadBack(before: seq<byte>, kind: nat, form: Form, bytes: seq<byte>, refSize: nat, after: seq<byte>)
    requires ObjectOk(Blob(kind, form, bytes), refSize)
    ensures NodeAt(before + WriteObject(Blob(kind, form, bytes), refSize) + after, |before|, refSize)
      == Some(Leaf(Raw(kind, 0, bytes)))
  {
    hide Counted, Clipped, CountBytes;
    var n := Units(kind, bytes);
    var marker, count := [Marker(kind, CountLow(n, form))], CountBytes(n, form);
    var b := before + WriteObject(Blob(kind, form, bytes), refSize) + after;
    MarkerAt(before, marker, count, bytes, after);
    MarkerParts(kind, CountLow(n, form));
    CountedAt(before + marker, n, form, bytes + after);
    FixedAt(before + marker + count, bytes, after);
  }

  /** A blob said to be longer than the bytes there are is the bytes there are. */
  lemma BlobCut(before: seq<byte>, kind: nat, form: Form, n: nat, bytes: seq<byte>, refSize: nat)
    requires 4 <= kind < 8 && CountOk(n, form) && |bytes| <= if kind == 6 then 2 * n else n
    ensures NodeAt(before + ([Marker(kind, CountLow(n, form))] + CountBytes(n, form) + bytes), |before|, refSize)
      == Some(Leaf(Raw(kind, 0, bytes)))
  {
    hide Counted, CountBytes;
    var marker, count := [Marker(kind, CountLow(n, form))], CountBytes(n, form);
    var b := before + (marker + count + bytes);
    MarkerAt(before, marker, count, bytes, []);
    assert b + [] == b;
    MarkerParts(kind, CountLow(n, form));
    assert b == before + marker + count + bytes;
    CountedAt(before + marker, n, form, bytes);
    assert b[|before + marker + count|..] == bytes;
  }

  /** Any other marker is an error, and so is an offset past the end. */
  lemma NoObject(b: seq<byte>, off: nat, refSize: nat)
    requires off >= |b| || b[off] / 16 in [9, 11, 14, 15]
    ensures NodeAt(b, off, refSize) == None
  {
  }

  lemma RefsReadBack(before: seq<byte>, kind: nat, form: Form, refs: seq<nat>, refSize: nat, after: seq<byte>)
    requires ObjectOk(Listing(kind, form, refs), refSize)
    ensures NodeAt(before + WriteObject(Listing(kind, form, refs), refSize) + after, |before|, refSize) == Some(Arr(refs))
  {
    hide Counted, UInts, CountBytes, BigAll;
    var marker, count, all := [Marker(kind, CountLow(|refs|, form))], CountBytes(|refs|, form), BigAll(refs, refSize);
    var b := before + WriteObject(Listing(kind, form, refs), refSize) + after;
    MarkerAt(before, marker, count, all, after);
    MarkerParts(kind, CountLow(|refs|, form));
    CountedAt(before + marker, |refs|, form, all + after);
    UIntsAt(before + marker + count, refs, refSize, after);
  }

  lemma PairsReadBack(before: seq<byte>, form: Form, keys: seq<nat>, values: seq<nat>, refSize: nat, after: seq<byte>)
    requires ObjectOk(Pairs(form, keys, values), refSize)
    ensures NodeAt(before + WriteObject(Pairs(form, keys, values), refSize) + after, |before|, refSize)
      == Some(Dict(keys, values))
  {
    hide Counted, UInts, CountBytes, BigAll;
    var refs := keys + values;
    var marker, count, all := [Marker(13, CountLow(|keys|, form))], CountBytes(|keys|, form), BigAll(refs, refSize);
    var b := before + WriteObject(Pairs(form, keys, values), refSize) + after;
    MarkerAt(before, marker, count, all, after);
    MarkerParts(13, CountLow(|keys|, form));
    CountedAt(before + marker, |keys|, form, all + after);
    UIntsAt(before + marker + count, refs, refSize, after);
    Halves(keys, values);
  }

  lemma CountCut(before: seq<byte>, n: nat, form: Form, size: nat)
    requires CountOk(n, form) && size < |CountBytes(n, form)|
    ensures Counted(before + CountBytes(n, form)[..size], |before|, CountLow(n, form)) == None
  {
    hide Big, Room, Pow2;
    assert (16 + form.w) % 16 == form.w;
  }

  lemma {:induction false} UIntsCut(b: seq<byte>, off: nat, refs: seq<nat>, size: nat)
    requires off <= |b| < off + |BigAll(refs, size)|
    ensures UInts(b, off, size, |refs|) == None
    decreases |refs|
  {
    hide Big;
    BigFirst(refs, size);
    if off + size <= |b| {
      UIntsCut(b, off + size, refs[1..], size);
    }
  }

  lemma RefsCut(before: seq<byte>, kind: nat, form: Form, n: nat, refs: seq<nat>, refSize: nat, size: nat)
    requires kind in [10, 12, 13] && CountOk(n, form) && |refs| == if kind == 13 then 2 * n else n
    requires size < 1 + |CountBytes(n, form)| + |BigAll(refs, refSize)|
    ensures NodeAt(before + ([Marker(kind, CountLow(n, form))] + CountBytes(n, form) + BigAll(refs, refSize))[..size],
                   |before|, refSize) == None
  {
    hide Counted, UInts, CountBytes, BigAll;
    var marker, count, all := [Marker(kind, CountLow(n, form))], CountBytes(n, form), BigAll(refs, refSize);
    var cut := (marker + count + all)[..size];
    var b := before + cut;
    MarkerParts(kind, CountLow(n, form));
    if size == 0 {
    } else if size < 1 + |count| {
      assert cut == marker + count[..size - 1];
      assert b == before + marker + count[..size - 1];
      CountCut(before + marker, n, form, size - 1);
    } else {
      var part := all[..size - 1 - |count|];
      assert cut == marker + count + part;
      assert b == before + marker + count + part;
      CountedAt(before + marker, n, form, part);
      UIntsCut(b, |before + marker + count|, refs, refSize);
    }
  }

  /** An object of a fixed size or of references that the bytes end within is an error. */
  lemma ObjectCut(before: seq<byte>, o: Object, refSize: nat, size: nat)
    requires ObjectOk(o, refSize) && !o.Blob? && size < |WriteObject(o, refSize)|
    ensures NodeAt(before + WriteObject(o, refSize)[..size], |before|, refSize) == None
  {
    hide Counted, UInts, CountBytes, BigAll, NodeAt;
    match o
    case Single(raw) => ScalarCut(before, raw, refSize, size);
    case Listing(kind, form, refs) => RefsCut(before, kind, form, |refs|, refs, refSize, size);
    case Pairs(form, keys, values) => RefsCut(before, 13, form, |keys|, keys + values, refSize, size);
  }

  lemma ScalarCut(before: seq<byte>, raw: Raw, refSize: nat, size: nat)
    requires ObjectOk(Single(raw), refSize) && size < 1 + |raw.bytes|
    ensures NodeAt(before + ([Marker(raw.kind, raw.low)] + raw.bytes)[..size], |before|, refSize) == None
  {
    hide Pow2;
    MarkerParts(raw.kind, raw.low);
  }

  // Writing a file.

  /** A file to write: what precedes its objects, the objects, how wide offsets and references are, and the trailer's rest. */
  datatype Layout = Layout(head: seq<byte>, objects: seq<Object>, offsetSize: byte, refSize: byte, top: nat, pad: seq<byte>)
  {
    predicate Ok() {
      && |head| >= 8 && |pad| == 6 && top < Room(8) && |objects| <= MAX_ARRAY
      && forall o :: o in objects ==> ObjectOk(o, refSize)
    }
  }

  function WriteObjects(objects: seq<Object>, refSize: nat): seq<byte>
    requires forall o :: o in objects ==> ObjectOk(o, refSize)
  {
    if objects == [] then [] else WriteObjects(objects[..|objects| - 1], refSize) + WriteObject(objects[|objects| - 1], refSize)
  }

  /** Where each object begins, the first at `from`. */
  function Offsets(objects: seq<Object>, refSize: nat, from: nat): (r: seq<nat>)
    requires forall o :: o in objects ==> ObjectOk(o, refSize)
    ensures |r| == |objects|
  {
    if objects == [] then []
    else Offsets(objects[..|objects| - 1], refSize, from) + [from + |WriteObjects(objects[..|objects| - 1], refSize)|]
  }

  function WriteFile(l: Layout): seq<byte>
    requires l.Ok()
  {
    var objects := WriteObjects(l.objects, l.refSize);
    var at := |l.head| + |objects|;
    l.head + objects + BigAll(Offsets(l.objects, l.refSize, |l.head|), l.offsetSize)
    + (l.pad + [l.offsetSize, l.refSize] + Big(|l.objects|, 8) + Big(l.top, 8) + Big(at, 8))
  }

  lemma {:induction false} ObjectsReadBack(head: seq<byte>, objects: seq<Object>, refSize: nat, i: nat, after: seq<byte>)
    requires (forall o :: o in objects ==> ObjectOk(o, refSize)) && i < |objects|
    ensures NodeAt(head + WriteObjects(objects, refSize) + after, Offsets(objects, refSize, |head|)[i], refSize)
      == Some(NodeOf(objects[i]))
    decreases |objects|
  {
    hide NodeAt, NodeOf, WriteObject, ObjectOk;
    var init, last := objects[..|objects| - 1], objects[|objects| - 1];
    var earlier, own := WriteObjects(init, refSize), WriteObject(last, refSize);
    assert last in objects && forall o :: o in init ==> o in objects;
    assert head + WriteObjects(objects, refSize) + after == head + earlier + (own + after);
    assert head + WriteObjects(objects, refSize) + after == (head + earlier) + own + after;
    if i == |objects| - 1 {
      ObjectReadBack(head + earlier, last, refSize, after);
    } else {
      ObjectsReadBack(head, init, refSize, i, own + after);
    }
  }

  /** A file's trailer. */
  lemma TrailerReadBack(body: seq<byte>, pad: seq<byte>, offsetSize: byte, refSize: byte, count: nat, top: nat, at: nat)
    requires |pad| == 6 && count < Room(8) && top < Room(8) && at < Room(8)
    ensures var b := body + (pad + [offsetSize, refSize] + Big(count, 8) + Big(top, 8) + Big(at, 8));
      && |b| == |body| + TRAILER && b[|body| + 6] == offsetSize && b[|body| + 7] == refSize
      && UInt(b, |body| + 8, 8) == Some(count) && UInt(b, |body| + 16, 8) == Some(top) && UInt(b, |body| + 24, 8) == Some(at)
  {
    hide Big, Room, UInt;
    var sizes := [offsetSize, refSize];
    var b := body + (pad + sizes + Big(count, 8) + Big(top, 8) + Big(at, 8));
    assert b == body + pad + sizes + Big(count, 8) + (Big(top, 8) + Big(at, 8));
    assert b == body + pad + sizes + Big(count, 8) + Big(top, 8) + Big(at, 8);
    assert b == body + pad + sizes + Big(count, 8) + Big(top, 8) + Big(at, 8) + [];
    UIntAt(body + pad + sizes, count, 8, Big(top, 8) + Big(at, 8));
    UIntAt(body + pad + sizes + Big(count, 8), top, 8, Big(at, 8));
    UIntAt(body + pad + sizes + Big(count, 8) + Big(top, 8), at, 8, []);
  }

  lemma {:induction false} UIntsPast(b: seq<byte>, off: nat, size: nat, count: nat)
    requires size > 0 && count > 0 && off + count * size > |b|
    ensures UInts(b, off, size, count) == None
    decreases count
  {
    if off + size <= |b| {
      assert count * size == size + (count - 1) * size;
      assert count > 1;
      UIntsPast(b, off + size, size, count - 1);
    }
  }

  /** A file too short for a trailer, more objects than there can be, or a table that runs past the end, is an error. */
  lemma NoTable(body: seq<byte>, pad: seq<byte>, offsetSize: byte, refSize: byte, count: nat, top: nat, at: nat)
    requires |pad| == 6 && count < Room(8) && top < Room(8) && at < Room(8)
    requires |body| < 8 || count > MAX_ARRAY || (offsetSize > 0 && count > 0 && at + count * offsetSize > |body| + TRAILER)
    ensures TableOf(body + (pad + [offsetSize, refSize] + Big(count, 8) + Big(top, 8) + Big(at, 8))) == None
  {
    hide Big, Room, UInt, UInts;
    var b := body + (pad + [offsetSize, refSize] + Big(count, 8) + Big(top, 8) + Big(at, 8));
    TrailerReadBack(body, pad, offsetSize, refSize, count, top, at);
    if |body| >= 8 && count <= MAX_ARRAY {
      UIntsPast(b, at, offsetSize, count);
    }
  }

  lemma ArrayCounts()
    ensures MAX_ARRAY < Room(8)
  {
    assert Room(4) == 256 * Room(3) == 0x1_0000_0000;
    assert Room(8) == 256 * (256 * (256 * (256 * Room(4))));
  }

  /** A file's table and objects are read back: any objects, in the order written, counts and widths however they fit. */
  lemma FileReadBack(l: Layout)
    requires l.Ok() && |l.head| + |WriteObjects(l.objects, l.refSize)| < Room(8)
    requires RefsOk(Offsets(l.objects, l.refSize, |l.head|), l.offsetSize)
    ensures var t := Table(Offsets(l.objects, l.refSize, |l.head|), l.refSize, l.top);
      && TableOf(WriteFile(l)) == Some(t)
      && forall i :: 0 <= i < |l.objects| ==> Nodes(WriteFile(l), t)[i] == Some(NodeOf(l.objects[i]))
  {
    hide UInts, UInt, Room, Big, BigAll, WriteObjects, Offsets, NodeAt, NodeOf, ObjectOk;
    var objects, offsets := WriteObjects(l.objects, l.refSize), Offsets(l.objects, l.refSize, |l.head|);
    var at, table := |l.head| + |objects|, BigAll(offsets, l.offsetSize);
    var body, b := l.head + objects + table, WriteFile(l);
    var trailer := l.pad + [l.offsetSize, l.refSize] + Big(|l.objects|, 8) + Big(l.top, 8) + Big(at, 8);
    ArrayCounts();
    TrailerReadBack(body, l.pad, l.offsetSize, l.refSize, |l.objects|, l.top, at);
    assert b == body + trailer;
    UIntsAt(l.head + objects, offsets, l.offsetSize, trailer);
    forall i | 0 <= i < |l.objects|
      ensures NodeAt(b, offsets[i], l.refSize) == Some(NodeOf(l.objects[i]))
    {
      Associate(l.head + objects, table, trailer);
      ObjectsReadBack(l.head, l.objects, l.refSize, i, table + trailer);
    }
  }

  // The code.

  method ReadUInt(b: seq<byte>, off: nat, size: nat) returns (r: Option<nat>)
    ensures r == UInt(b, off, size)
  {
    var v: nat := 0;
    for i := 0 to size
      invariant i > 0 ==> off + i <= |b|
      invariant v == if i == 0 then 0 else BigEndian(b[off..off + i])
    {
      if off + i >= |b| {
        return None;
      }
      BigNext(b, off, i);
      v := v * 256 + b[off + i];
    }
    return Some(v);
  }

  lemma BigNext(b: seq<byte>, off: nat, i: nat)
    requires off + i < |b|
    ensures BigEndian(b[off..off + i + 1]) == BigEndian(b[off..off + i]) * 256 + b[off + i]
    ensures BigEndian(b[off..off]) == 0
  {
    assert b[off..off + i + 1][..i] == b[off..off + i];
  }

  /** Numbers of `size` bytes each, from `off`. */
  method ReadUInts(b: seq<byte>, off: nat, size: nat, count: nat) returns (r: Option<seq<nat>>)
    ensures r == UInts(b, off, size, count)
  {
    hide UInt;
    var out: seq<nat> := [];
    ghost var all := UInts(b, off, size, count);
    NoneBefore(all);
    for i := 0 to count
      invariant |out| == i && all == Before(out, UInts(b, off + i * size, size, count - i))
    {
      assert (i + 1) * size == i * size + size;
      var v := ReadUInt(b, off + i * size, size);
      if v == None {
        return None;
      }
      TwoBefore(out, [v.value], UInts(b, off + (i + 1) * size, size, count - i - 1));
      out := out + [v.value];
    }
    NoneBefore(Some(out));
    return Some(out);
  }

  method ReadCount(b: seq<byte>, off: nat, low: nat) returns (r: Option<(nat, nat)>)
    ensures r == Counted(b, off, low)
  {
    if low != 15 {
      return Some((low, off));
    }
    if off >= |b| {
      return None;
    }
    var size := Pow2(b[off] % 16);
    var n := ReadUInt(b, off + 1, size);
    return if n == None then None else Some((n.value, off + 1 + size));
  }

  /** The object at an offset: a scalar, or the numbers of the objects it holds. */
  method ReadNode(b: seq<byte>, off: nat, refSize: nat) returns (r: Option<Node<Raw>>)
    ensures r == NodeAt(b, off, refSize)
  {
    hide Fixed, Counted, UInts, Clipped;
    if off >= |b| {
      return None;
    }
    var kind, low, at := b[off] / 16, b[off] % 16, off + 1;
    match kind
    case 0 => return Some(Leaf(Raw(0, low, [])));
    case 1 => return FixedLeaf(b, at, Pow2(low), 1, low);
    case 2 => return FixedLeaf(b, at, if low == 2 then 4 else 8, 2, low);
    case 3 => return FixedLeaf(b, at, 8, 3, low);
    case 8 => return FixedLeaf(b, at, low + 1, 8, low);
    case _ =>
      if 4 <= kind <= 7 {
        var c := ReadCount(b, at, low);
        return if c == None then None
          else Some(Leaf(Raw(kind, 0, Clipped(b, c.value.1, if kind == 6 then 2 * c.value.0 else c.value.0))));
      }
      if kind != 10 && kind != 12 && kind != 13 {
        return None;
      }
      var c := ReadCount(b, at, low);
      if c == None {
        return None;
      }
      var n := c.value.0;
      var refs := ReadUInts(b, c.value.1, refSize, if kind == 13 then n + n else n);
      return if refs == None then None
        else if kind == 13 then Some(Dict(refs.value[..n], refs.value[n..])) else Some(Arr(refs.value));
  }

  method ReadTable(b: seq<byte>) returns (r: Option<Table>)
    ensures r == TableOf(b)
  {
    hide UInts;
    if |b| < TRAILER + 8 {
      return None;
    }
    var t := |b| - TRAILER;
    var count := ReadUInt(b, t + 8, 8);
    var top := ReadUInt(b, t + 16, 8);
    var at := ReadUInt(b, t + 24, 8);
    if count.value > MAX_ARRAY {
      return None;
    }
    var offsets := ReadUInts(b, at.value, b[t + 6], count.value);
    return if offsets == None then None else Some(Table(offsets.value, b[t + 7], top.value));
  }
}
