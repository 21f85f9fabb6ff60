/**
 * Reading BER elements (packages/decode-ios/src/der.ts; section 8.1 of ITU-T X.690): what an element is does not depend
 * on how far its reader may look, so the children of an indefinite-length element are the elements its end was found
 * behind; and any encoding of a tree of elements reads as that tree.
 */
module Der {
  import opened Bits
  import opened Options

  const MAX_DEPTH: nat := 64

  /** What an element is: its tag's class and number, and whether it has parts. */
  datatype Kind = Kind(cls: nat, constructed: bool, num: nat)

  /** An element's first octet, its kind and its places, from where it starts. */
  datatype Tlv = Tlv(tag: byte, kind: Kind, start: nat, tagEnd: nat, contentStart: nat, contentEnd: nat, end: nat)

  predicate Constructed(tag: byte) {
    tag / 32 % 2 == 1
  }

  function KindOf(tag: byte, num: nat): Kind {
    Kind(tag / 64, Constructed(tag), num)
  }

  function Moved(t: Tlv, shift: nat): Tlv {
    Tlv(t.tag, t.kind, t.start + shift, t.tagEnd + shift, t.contentStart + shift, t.contentEnd + shift, t.end + shift)
  }

  function MovedBy(t: Option<Tlv>, shift: nat): Option<Tlv> {
    match t
    case None => None
    case Some(t) => Some(Moved(t, shift))
  }

  // What the bytes from an element's start to the reader's limit say. None is an error.

  /** A tag number in 7-bit digits, after those that gave `num`; and how many there are. */
  function ReadDigits(w: seq<byte>, num: nat): (r: Option<(nat, nat)>)
    ensures r.Some? ==> 0 < r.value.1 <= |w|
  {
    if w == [] then None
    else
      var n := num * 128 + w[0] % 128;
      if w[0] < 128 then Some((n, 1))
      else
        match ReadDigits(w[1..], n)
        case None => None
        case Some((m, size)) => Some((m, size + 1))
  }

  /** A tag number, and where the identifier octets end. */
  function ReadTag(w: seq<byte>): (r: Option<(nat, nat)>)
    requires w != []
    ensures r.Some? ==> 0 < r.value.1 <= |w|
  {
    if w[0] % 32 != 31 then Some((w[0] % 32, 1))
    else
      match ReadDigits(w[1..], 0)
      case None => None
      case Some((num, size)) => Some((num, size + 1))
  }

  /** A definite length, and how many octets say it. */
  function ReadLength(w: seq<byte>): (r: Option<(nat, nat)>)
    requires w != []
    ensures r.Some? ==> 0 < r.value.1 <= |w|
  {
    if w[0] < 128 then Some((w[0], 1))
    else
      var n := w[0] - 128;
      if n > 4 || 1 + n > |w| then None else Some((BigEndian(w[1..1 + n]), 1 + n))
  }

  function Read(w: seq<byte>, depth: nat): (r: Option<Tlv>)
    ensures r.Some? ==>
      && 0 == r.value.start < r.value.tagEnd < r.value.contentStart <= r.value.contentEnd <= r.value.end <= |w|
      && r.value.tag == w[0]
    decreases |w|, 1
  {
    if depth > MAX_DEPTH || |w| < 2 || ReadTag(w) == None then None
    else
      var (num, tagEnd) := ReadTag(w).value;
      if tagEnd >= |w| then None
      else if w[tagEnd] == 0x80 then
        var p := tagEnd + 1;
        if !Constructed(w[0]) then None
        else
          match Scan(w[p..], depth + 1)
          case None => None
          case Some(n) => Some(Tlv(w[0], KindOf(w[0], num), 0, tagEnd, p, p + n, p + n + 2))
      else
        match ReadLength(w[tagEnd..])
        case None => None
        case Some((length, size)) =>
          var p := tagEnd + size;
          if p + length > |w| then None else Some(Tlv(w[0], KindOf(w[0], num), 0, tagEnd, p, p + length, p + length))
  }

  /** How far it is to the 00 00 behind an indefinite-length element's children. */
  function Scan(w: seq<byte>, depth: nat): (r: Option<nat>)
    ensures r.Some? ==> r.value + 2 <= |w|
    decreases |w|, 2
  {
    if |w| < 2 then None
    else if w[0] == 0 && w[1] == 0 then Some(0)
    else
      match Read(w, depth)
      case None => None
      case Some(t) =>
        match Scan(w[t.end..], depth)
        case None => None
        case Some(n) => Some(t.end + n)
  }

  // The limit does not matter, so long as the element is within it.

  lemma {:induction false} DigitsFurther(w: seq<byte>, more: seq<byte>, num: nat)
    requires ReadDigits(w, num).Some?
    ensures ReadDigits(w + more, num) == ReadDigits(w, num)
  {
    if w[0] < 128 {
    } else {
      assert (w + more)[1..] == w[1..] + more;
      DigitsFurther(w[1..], more, num * 128 + w[0] % 128);
    }
  }

  lemma TagFurther(w: seq<byte>, more: seq<byte>)
    requires w != [] && ReadTag(w).Some?
    ensures ReadTag(w + more) == ReadTag(w)
  {
    if w[0] % 32 == 31 {
      assert (w + more)[1..] == w[1..] + more;
      DigitsFurther(w[1..], more, 0);
    }
  }

  lemma LengthFurther(w: seq<byte>, more: seq<byte>)
    requires w != [] && ReadLength(w).Some?
    ensures ReadLength(w + more) == ReadLength(w)
  {
    if w[0] >= 128 {
      assert (w + more)[1..1 + (w[0] - 128)] == w[1..1 + (w[0] - 128)];
    }
  }

  /** An element reads the same with more bytes behind it, and in fewer levels. */
  lemma {:induction false} ReadFurther(w: seq<byte>, more: seq<byte>, depth: nat, less: nat)
    requires Read(w, depth).Some? && less <= depth
    ensures Read(w + more, less) == Read(w, depth)
    decreases |w|, 1
  {
    hide ReadTag, ReadLength, Scan, Constructed;
    TagFurther(w, more);
    var (num, tagEnd) := ReadTag(w).value;
    if w[tagEnd] == 0x80 {
      assert (w + more)[tagEnd + 1..] == w[tagEnd + 1..] + more;
      ScanFurther(w[tagEnd + 1..], more, depth + 1, less + 1);
    } else {
      assert (w + more)[tagEnd..] == w[tagEnd..] + more;
      LengthFurther(w[tagEnd..], more);
    }
  }

  lemma {:induction false} ScanFurther(w: seq<byte>, more: seq<byte>, depth: nat, less: nat)
    requires Scan(w, depth).Some? && less <= depth
    ensures Scan(w + more, less) == Scan(w, depth)
    decreases |w|, 2
  {
    hide Read;
    if w[0] == 0 && w[1] == 0 {
    } else {
      ReadFurther(w, more, depth, less);
      var t := Read(w, depth).value;
      assert (w + more)[t.end..] == w[t.end..] + more;
      ScanFurther(w[t.end..], more, depth, less);
    }
  }

  lemma {:induction false} DigitsWithin(w: seq<byte>, limit: nat, num: nat)
    requires ReadDigits(w, num).Some? && ReadDigits(w, num).value.1 <= limit <= |w|
    ensures ReadDigits(w[..limit], num) == ReadDigits(w, num)
  {
    if w[0] < 128 {
    } else {
      assert w[..limit][1..] == w[1..][..limit - 1];
      DigitsWithin(w[1..], limit - 1, num * 128 + w[0] % 128);
    }
  }

  lemma TagWithin(w: seq<byte>, limit: nat)
    requires w != [] && ReadTag(w).Some? && ReadTag(w).value.1 <= limit <= |w|
    ensures ReadTag(w[..limit]) == ReadTag(w)
  {
    if w[0] % 32 == 31 {
      assert w[..limit][1..] == w[1..][..limit - 1];
      DigitsWithin(w[1..], limit - 1, 0);
    }
  }

  lemma LengthWithin(w: seq<byte>, limit: nat)
    requires w != [] && ReadLength(w).Some? && ReadLength(w).value.1 <= limit <= |w|
    ensures ReadLength(w[..limit]) == ReadLength(w)
  {
    if w[0] >= 128 {
      assert w[..limit][1..1 + (w[0] - 128)] == w[1..1 + (w[0] - 128)];
    }
  }

  /** An element reads the same up to any limit at or past its end. */
  lemma {:induction false} ReadWithin(w: seq<byte>, limit: nat, depth: nat)
    requires Read(w, depth).Some? && Read(w, depth).value.end <= limit <= |w|
    ensures Read(w[..limit], depth) == Read(w, depth)
    decreases |w|, 1
  {
    hide ReadTag, ReadLength, Scan, Constructed;
    var (num, tagEnd) := ReadTag(w).value;
    TagWithin(w, limit);
    if w[tagEnd] == 0x80 {
      assert w[..limit][tagEnd + 1..] == w[tagEnd + 1..][..limit - (tagEnd + 1)];
      ScanWithin(w[tagEnd + 1..], limit - (tagEnd + 1), depth + 1);
    } else {
      assert w[..limit][tagEnd..] == w[tagEnd..][..limit - tagEnd];
      LengthWithin(w[tagEnd..], limit - tagEnd);
    }
  }

  lemma {:induction false} ScanWithin(w: seq<byte>, limit: nat, depth: nat)
    requires Scan(w, depth).Some? && Scan(w, depth).value + 2 <= limit <= |w|
    ensures Scan(w[..limit], depth) == Scan(w, depth)
    decreases |w|, 2
  {
    hide Read;
    if w[0] == 0 && w[1] == 0 {
    } else {
      var t := Read(w, depth).value;
      ReadWithin(w, limit, depth);
      assert w[..limit][t.end..] == w[t.end..][..limit - t.end];
      ScanWithin(w[t.end..], limit - t.end, depth);
    }
  }

  /** Any limit at or past an element's end gives the same element; a limit before it, none that ends there. */
  lemma LimitIndependent(b: seq<byte>, off: nat, limit: nat, limit': nat, depth: nat)
    requires off <= limit <= |b| && off <= limit' <= |b| && Read(b[off..limit], depth).Some?
    ensures Read(b[off..limit'], depth) == Read(b[off..limit], depth)
      <==> off + Read(b[off..limit], depth).value.end <= limit'
  {
    var t := Read(b[off..limit], depth).value;
    if off + t.end <= limit' {
      if limit <= limit' {
        assert b[off..limit'] == b[off..limit] + b[limit..limit'];
        ReadFurther(b[off..limit], b[limit..limit'], depth, depth);
      } else {
        assert b[off..limit'] == b[off..limit][..limit' - off];
        ReadWithin(b[off..limit], limit' - off, depth);
      }
    }
  }

  // Children.

  /** A constructed element's children from its content, each read afresh. */
  function ReadAll(w: seq<byte>, at: nat): (r: Option<seq<Tlv>>)
    decreases |w|
  {
    if w == [] then Some([])
    else
      match Read(w, 0)
      case None => None
      case Some(t) =>
        match ReadAll(w[t.end..], at + t.end)
        case None => None
        case Some(others) => Some([Moved(t, at)] + others)
  }

  /** The elements a scan passes. */
  function Passed(w: seq<byte>, depth: nat, at: nat): (r: seq<Tlv>)
    requires Scan(w, depth).Some?
    decreases |w|
  {
    if w[0] == 0 && w[1] == 0 then []
    else
      var t := Read(w, depth).value;
      [Moved(t, at)] + Passed(w[t.end..], depth, at + t.end)
  }

  /** Elements one behind the other. */
  predicate Tiles(ts: seq<Tlv>, from: nat, to: nat) {
    if ts == [] then from == to else ts[0].start == from && ts[0].end <= to && Tiles(ts[1..], ts[0].end, to)
  }

  lemma {:induction false} ReadAllTiles(w: seq<byte>, at: nat)
    requires ReadAll(w, at).Some?
    ensures Tiles(ReadAll(w, at).value, at, at + |w|)
    decreases |w|
  {
    hide Read;
    if w == [] {
    } else {
      var t := Read(w, 0).value;
      ReadAllTiles(w[t.end..], at + t.end);
      var all := ReadAll(w, at).value;
      assert all[1..] == ReadAll(w[t.end..], at + t.end).value;
    }
  }

  /** The children of an indefinite-length element are the elements the scan for its end passed. */
  lemma {:induction false} ChildrenArePassed(w: seq<byte>, depth: nat, at: nat)
    requires Scan(w, depth).Some?
    ensures ReadAll(w[..Scan(w, depth).value], at) == Some(Passed(w, depth, at))
    decreases |w|
  {
    hide Read;
    if w[0] == 0 && w[1] == 0 {
    } else {
      var n, t := Scan(w, depth).value, Read(w, depth).value;
      ReadWithin(w, n, depth);
      ReadFurther(w[..n], [], depth, 0);
      assert w[..n] + [] == w[..n];
      assert w[..n][t.end..] == w[t.end..][..n - t.end];
      ChildrenArePassed(w[t.end..], depth, at + t.end);
    }
  }

  // Trees of elements, and the bytes that say them.

  /** An identifier to be written. A number under 31 is in the first octet, unless it is written the long way behind it. */
  datatype Id = Id(kind: Kind, long: bool)

  predicate IdOk(id: Id) {
    id.kind.cls < 4 && (id.long || id.kind.num < 31)
  }

  function FirstOctet(id: Id): byte
    requires IdOk(id)
  {
    64 * id.kind.cls + (if id.kind.constructed then 32 else 0) + if id.long then 31 else id.kind.num
  }

  datatype Tree = Leaf(kind: Kind, content: seq<byte>) | Node(kind: Kind, parts: seq<Tree>)

  /** How many octets follow the first of a definite length; 0 is the short form. */
  type Form = n: nat | n <= 4

  /** An encoding of a tree: each element with its length, or, if constructed, without one. */
  datatype Ber =
    | Primitive(id: Id, form: Form, content: seq<byte>)
    | Definite(id: Id, form: Form, parts: seq<Ber>)
    | Indefinite(id: Id, parts: seq<Ber>)

  function Digits(num: nat): (r: seq<byte>)
    ensures r != []
  {
    if num < 128 then [num] else Leading(num / 128) + [num % 128]
  }

  /** The digits before the last, each with its top bit set. */
  function Leading(num: nat): seq<byte> {
    if num < 128 then [128 + num] else Leading(num / 128) + [128 + num % 128]
  }

  function IdOctets(id: Id): (r: seq<byte>)
    requires IdOk(id)
    ensures r != [] && r[0] == FirstOctet(id)
  {
    [FirstOctet(id)] + if id.long then Digits(id.kind.num) else []
  }

  predicate Fits(n: nat, form: Form) {
    if form == 0 then n < 128 else n < Room(form)
  }

  function LengthOctets(n: nat, form: Form): (r: seq<byte>)
    requires Fits(n, form)
    ensures |r| == 1 + form && r[0] != 0x80
  {
    if form == 0 then [n] else [128 + form] + Big(n, form)
  }

  function Encode(e: Ber): (r: seq<byte>)
    requires Ok(e)
    ensures |r| >= 2
    decreases e, 1
  {
    match e
    case Primitive(id, form, content) => IdOctets(id) + LengthOctets(|content|, form) + content
    case Definite(id, form, parts) => IdOctets(id) + LengthOctets(|EncodeAll(parts)|, form) + EncodeAll(parts)
    case Indefinite(id, parts) => IdOctets(id) + [0x80] + EncodeAll(parts) + [0, 0]
  }

  function EncodeAll(parts: seq<Ber>): seq<byte>
    requires forall i :: 0 <= i < |parts| ==> Ok(parts[i])
    decreases parts, 0
  {
    if parts == [] then [] else Encode(parts[0]) + EncodeAll(parts[1..])
  }

  /** What can be written: lengths fit their octets, and no child of an indefinite-length element reads as its end. */
  predicate Ok(e: Ber)
    decreases e, 0
  {
    && IdOk(e.id)
    && e.id.kind.constructed == !e.Primitive?
    && match e
       case Primitive(_, form, content) => Fits(|content|, form)
       case Definite(_, form, parts) => (forall i :: 0 <= i < |parts| ==> Ok(parts[i])) && Fits(|EncodeAll(parts)|, form)
       case Indefinite(_, parts) => forall i :: 0 <= i < |parts| ==> Ok(parts[i]) && !IsEnd(parts[i])
  }

  predicate IsEnd(e: Ber) {
    e.Primitive? && e.id == Id(Kind(0, false, 0), false) && e.form == 0 && e.content == []
  }

  /** How many indefinite-length elements lie directly within one another, an empty innermost one aside. */
  function Deep(e: Ber): nat
    decreases e, 1
  {
    if e.Indefinite? && e.parts != [] then 1 + DeepAll(e.parts) else 0
  }

  function DeepAll(parts: seq<Ber>): nat
    decreases parts, 0
  {
    if parts == [] then 0
    else if Deep(parts[0]) >= DeepAll(parts[1..]) then Deep(parts[0])
    else DeepAll(parts[1..])
  }

  function Counted(r: Option<(nat, nat)>, size: nat): Option<(nat, nat)> {
    match r
    case None => None
    case Some((n, s)) => Some((n, s + size))
  }

  /** A number is its digits before the last, and its last. */
  lemma LastDigit(num: nat)
    ensures num / 128 * 128 + num % 128 == num && (128 + num % 128) % 128 == num % 128
  {
  }

  lemma ReadDigit(d: byte, rest: seq<byte>, num: nat)
    ensures ReadDigits([d] + rest, num)
      == if d < 128 then Some((num * 128 + d % 128, 1)) else Counted(ReadDigits(rest, num * 128 + d % 128), 1)
  {
    assert ([d] + rest)[1..] == rest;
  }

  lemma LeadingSplit(num: nat, rest: seq<byte>)
    ensures num < 128 ==> Leading(num) == [128 + num]
    ensures num >= 128 ==> Leading(num) + rest == Leading(num / 128) + ([128 + num % 128] + rest)
    ensures num >= 128 ==> |Leading(num)| == |Leading(num / 128)| + 1
  {
  }

  lemma {:induction false} LeadingRead(num: nat, rest: seq<byte>)
    ensures ReadDigits(Leading(num) + rest, 0) == Counted(ReadDigits(rest, num), |Leading(num)|)
  {
    hide ReadDigits, Leading;
    LastDigit(num);
    LeadingSplit(num, rest);
    if num < 128 {
      ReadDigit(128 + num, rest, 0);
    } else {
      LeadingRead(num / 128, [128 + num % 128] + rest);
      ReadDigit(128 + num % 128, rest, num / 128);
    }
  }

  lemma DigitsRead(num: nat, rest: seq<byte>)
    ensures ReadDigits(Digits(num) + rest, 0) == Some((num, |Digits(num)|))
  {
    if num >= 128 {
      LeadingRead(num / 128, [num % 128] + rest);
      assert Digits(num) + rest == Leading(num / 128) + ([num % 128] + rest);
    }
  }

  lemma IdRead(id: Id, rest: seq<byte>)
    requires IdOk(id)
    ensures ReadTag(IdOctets(id) + rest) == Some((id.kind.num, |IdOctets(id)|))
    ensures KindOf(FirstOctet(id), id.kind.num) == id.kind
  {
    OctetSays(id);
    if id.long {
      assert (IdOctets(id) + rest)[1..] == Digits(id.kind.num) + rest;
      DigitsRead(id.kind.num, rest);
    }
  }

  /** The first octet's two top bits are the class, the next says whether there are parts, the others the number. */
  lemma OctetSays(id: Id)
    requires IdOk(id)
    ensures var tag := FirstOctet(id);
      tag / 64 == id.kind.cls && (Constructed(tag) <==> id.kind.constructed) && tag % 32 == if id.long then 31 else id.kind.num
  {
  }

  lemma LengthRead(n: nat, form: Form, rest: seq<byte>)
    requires Fits(n, form)
    ensures ReadLength(LengthOctets(n, form) + rest) == Some((n, 1 + form))
  {
    if form > 0 {
      BigRead(n, form);
      assert (LengthOctets(n, form) + rest)[1..1 + form] == Big(n, form);
    }
  }

  function Content(e: Ber): seq<byte>
    requires Ok(e)
  {
    if e.Primitive? then e.content else EncodeAll(e.parts)
  }

  /** Where an element's encoding has its parts. */
  function TlvOf(e: Ber): Tlv
    requires Ok(e)
  {
    var tagEnd := |IdOctets(e.id)|;
    var start := tagEnd + 1 + if e.Indefinite? then 0 else e.form;
    var end := start + |Content(e)|;
    Tlv(FirstOctet(e.id), e.id.kind, 0, tagEnd, start, end, end + if e.Indefinite? then 2 else 0)
  }

  /** An element of a definite length reads back whatever follows it. */
  lemma DefiniteRead(id: Id, form: Form, content: seq<byte>, rest: seq<byte>, depth: nat)
    requires IdOk(id) && Fits(|content|, form) && depth <= MAX_DEPTH
    ensures var w, tagEnd := IdOctets(id) + LengthOctets(|content|, form) + content + rest, |IdOctets(id)|;
      && Read(w, depth) == Some(Tlv(FirstOctet(id), id.kind, 0, tagEnd, tagEnd + 1 + form, tagEnd + 1 + form + |content|,
                                    tagEnd + 1 + form + |content|))
      && w[tagEnd + 1 + form..tagEnd + 1 + form + |content|] == content
  {
    hide ReadTag, ReadLength, IdOctets, LengthOctets, FirstOctet, Constructed;
    var w, tail := IdOctets(id) + LengthOctets(|content|, form) + content + rest, content + rest;
    assert w == IdOctets(id) + (LengthOctets(|content|, form) + tail);
    IdRead(id, LengthOctets(|content|, form) + tail);
    assert w[|IdOctets(id)|..] == LengthOctets(|content|, form) + tail;
    LengthRead(|content|, form, tail);
  }

  /** An element of an indefinite length reads as far as a scan of what follows its header; one without parts is an error. */
  lemma IndefiniteRead(id: Id, rest: seq<byte>, depth: nat)
    requires IdOk(id) && depth <= MAX_DEPTH
    ensures var tagEnd := |IdOctets(id)|;
      Read(IdOctets(id) + [0x80] + rest, depth)
      == if !id.kind.constructed || Scan(rest, depth + 1) == None then None
         else
           var n := Scan(rest, depth + 1).value;
           Some(Tlv(FirstOctet(id), id.kind, 0, tagEnd, tagEnd + 1, tagEnd + 1 + n, tagEnd + 1 + n + 2))
  {
    hide ReadTag, ReadLength, IdOctets, Scan, FirstOctet, Constructed;
    var w := IdOctets(id) + [0x80] + rest;
    assert w == IdOctets(id) + ([0x80] + rest);
    IdRead(id, [0x80] + rest);
    assert w[|IdOctets(id)| + 1..] == rest;
  }

  /** Only an end mark begins like one. */
  lemma FirstTwo(e: Ber, rest: seq<byte>)
    requires Ok(e) && !IsEnd(e)
    ensures var w := Encode(e) + rest; !(w[0] == 0 && w[1] == 0)
  {
    OctetSays(e.id);
    if FirstOctet(e.id) == 0 {
      assert e.Primitive? && !e.id.long;
      assert Encode(e)[1] == LengthOctets(|e.content|, e.form)[0];
    }
  }

  lemma OfDefinite(e: Ber)
    requires Ok(e) && !e.Indefinite?
    ensures IdOk(e.id) && Fits(|Content(e)|, e.form) && Deep(e) == 0
    ensures Encode(e) == IdOctets(e.id) + LengthOctets(|Content(e)|, e.form) + Content(e)
    ensures var tagEnd := |IdOctets(e.id)|;
      TlvOf(e) == Tlv(FirstOctet(e.id), e.id.kind, 0, tagEnd, tagEnd + 1 + e.form, tagEnd + 1 + e.form + |Content(e)|,
                      tagEnd + 1 + e.form + |Content(e)|)
  {
  }

  lemma OfIndefinite(e: Ber)
    requires Ok(e) && e.Indefinite?
    ensures IdOk(e.id) && e.id.kind.constructed && forall i :: 0 <= i < |e.parts| ==> Ok(e.parts[i]) && !IsEnd(e.parts[i])
    ensures Deep(e) == if e.parts == [] then 0 else 1 + DeepAll(e.parts)
    ensures Content(e) == EncodeAll(e.parts) && Encode(e) == IdOctets(e.id) + [0x80] + Content(e) + [0, 0]
    ensures var tagEnd := |IdOctets(e.id)|;
      TlvOf(e) == Tlv(FirstOctet(e.id), e.id.kind, 0, tagEnd, tagEnd + 1, tagEnd + 1 + |Content(e)|, tagEnd + 1 + |Content(e)| + 2)
  {
  }

  lemma TooDeep(w: seq<byte>, depth: nat)
    requires depth > MAX_DEPTH
    ensures Read(w, depth) == None
  {
  }

  /** Any encoded element, whatever follows it, reads as itself unless its indefinite lengths nest too deep. */
  lemma {:induction false} ReadEncoded(e: Ber, rest: seq<byte>, depth: nat)
    requires Ok(e)
    ensures Read(Encode(e) + rest, depth) == if depth + Deep(e) <= MAX_DEPTH then Some(TlvOf(e)) else None
    ensures TlvOf(e).contentEnd <= |Encode(e)|
    ensures (Encode(e) + rest)[TlvOf(e).contentStart..TlvOf(e).contentEnd] == Content(e)
    decreases e, 1
  {
    hide *;
    var content := Content(e);
    if e.Indefinite? {
      OfIndefinite(e);
      var tail := content + [0, 0] + rest;
      assert Encode(e) + rest == IdOctets(e.id) + [0x80] + tail;
      assert tail[..|content|] == content;
      ScanEncoded(e.parts, rest, depth + 1);
      if depth <= MAX_DEPTH {
        IndefiniteRead(e.id, tail, depth);
      } else {
        TooDeep(Encode(e) + rest, depth);
      }
    } else {
      OfDefinite(e);
      assert Encode(e) + rest == IdOctets(e.id) + LengthOctets(|content|, e.form) + content + rest;
      if depth <= MAX_DEPTH {
        DefiniteRead(e.id, e.form, content, rest, depth);
      } else {
        DefiniteRead(e.id, e.form, content, rest, 0);
        TooDeep(Encode(e) + rest, depth);
      }
    }
  }

  lemma {:induction false} ScanEncoded(parts: seq<Ber>, rest: seq<byte>, depth: nat)
    requires forall i :: 0 <= i < |parts| ==> Ok(parts[i]) && !IsEnd(parts[i])
    ensures Scan(EncodeAll(parts) + [0, 0] + rest, depth)
      == if parts == [] || depth + DeepAll(parts) <= MAX_DEPTH then Some(|EncodeAll(parts)|) else None
    decreases parts, 0
  {
    hide Read, Scan, Encode, Ok, IsEnd, TlvOf, Deep;
    var w := EncodeAll(parts) + [0, 0] + rest;
    ScanStep(w, depth);
    if parts == [] {
    } else {
      var e, tail := parts[0], EncodeAll(parts[1..]) + [0, 0] + rest;
      assert w == Encode(e) + tail;
      FirstTwo(e, tail);
      ReadEncoded(e, tail, depth);
      ScanEncoded(parts[1..], rest, depth);
      assert w[|Encode(e)|..] == tail;
      EndOfTlv(e);
    }
  }

  lemma EndOfTlv(e: Ber)
    requires Ok(e)
    ensures TlvOf(e).end == |Encode(e)|
  {
  }

  // Reading a tree: an element, its children, theirs.

  function TreeOf(kind: Kind, content: seq<byte>): (r: Option<Tree>)
    decreases |content|, 1
  {
    if !kind.constructed then Some(Leaf(kind, content))
    else
      match TreesIn(content)
      case None => None
      case Some(parts) => Some(Node(kind, parts))
  }

  function TreesIn(content: seq<byte>): (r: Option<seq<Tree>>)
    decreases |content|, 0
  {
    if content == [] then Some([])
    else
      match Read(content, 0)
      case None => None
      case Some(t) =>
        var first := TreeOf(t.kind, content[t.contentStart..t.contentEnd]);
        var others := TreesIn(content[t.end..]);
        if first == None || others == None then None else Some([first.value] + others.value)
  }

  function ReadTree(w: seq<byte>): (r: Option<Tree>) {
    match Read(w, 0)
    case None => None
    case Some(t) => TreeOf(t.kind, w[t.contentStart..t.contentEnd])
  }

  /** The tree an encoding says, whatever forms its lengths take. */
  function Meaning(e: Ber): (t: Tree)
    decreases e, 1
  {
    if e.Primitive? then Leaf(e.id.kind, e.content) else Node(e.id.kind, MeaningAll(e.parts))
  }

  function MeaningAll(parts: seq<Ber>): (ts: seq<Tree>)
    decreases parts, 0
  {
    if parts == [] then [] else [Meaning(parts[0])] + MeaningAll(parts[1..])
  }

  /** No more than 64 indefinite-length elements directly within one another, anywhere. */
  predicate Shallow(e: Ber)
    decreases e, 1
  {
    Deep(e) <= MAX_DEPTH && (e.Primitive? || ShallowAll(e.parts))
  }

  predicate ShallowAll(parts: seq<Ber>)
    decreases parts, 0
  {
    parts != [] ==> Shallow(parts[0]) && ShallowAll(parts[1..])
  }

  lemma {:induction false} TreeOfContent(e: Ber)
    requires Ok(e)
    ensures TreeOf(e.id.kind, Content(e)) == if e.Primitive? || ShallowAll(e.parts) then Some(Meaning(e)) else None
    decreases e, 1
  {
    if !e.Primitive? {
      TreesEncoded(e.parts);
    }
  }

  lemma {:induction false} TreesEncoded(parts: seq<Ber>)
    requires forall i :: 0 <= i < |parts| ==> Ok(parts[i])
    ensures TreesIn(EncodeAll(parts)) == if ShallowAll(parts) then Some(MeaningAll(parts)) else None
    decreases parts, 0
  {
    if parts == [] {
    } else {
      var e, rest := parts[0], EncodeAll(parts[1..]);
      ReadEncoded(e, rest, 0);
      EndOfTlv(e);
      TreeOfContent(e);
      TreesEncoded(parts[1..]);
      FirstTree(e, parts[1..]);
    }
  }

  lemma FirstTree(e: Ber, others: seq<Ber>)
    requires Ok(e) && forall i :: 0 <= i < |others| ==> Ok(others[i])
    requires TlvOf(e).contentEnd <= TlvOf(e).end == |Encode(e)|
    requires var w := Encode(e) + EncodeAll(others);
      && Read(w, 0) == (if Deep(e) <= MAX_DEPTH then Some(TlvOf(e)) else None)
      && w[TlvOf(e).contentStart..TlvOf(e).contentEnd] == Content(e)
    ensures var w, first, rest := Encode(e) + EncodeAll(others), TreeOf(e.id.kind, Content(e)), TreesIn(EncodeAll(others));
      TreesIn(w) == if Deep(e) > MAX_DEPTH || first == None || rest == None then None else Some([first.value] + rest.value)
  {
    hide Read, Encode, EncodeAll, Ok, Content, TreeOf, Deep;
    var w := Encode(e) + EncodeAll(others);
    assert w[|Encode(e)|..] == EncodeAll(others);
  }

  /**
   * Reading an encoding of a tree gives the tree, in whatever mix of definite and indefinite lengths; unless more than 64
   * indefinite ones nest directly, when reading fails.
   */
  lemma TreeReadBack(e: Ber, rest: seq<byte>)
    requires Ok(e)
    ensures ReadTree(Encode(e) + rest) == if Shallow(e) then Some(Meaning(e)) else None
  {
    ReadEncoded(e, rest, 0);
    TreeOfContent(e);
  }

  /** A length of more than four octets, or one that runs past what there is to read, is an error. */
  lemma LongLength(id: Id, n: nat, rest: seq<byte>, depth: nat)
    requires IdOk(id) && n < 128 && (n > 4 || n > |rest| || (n > 0 && BigEndian(rest[..n]) > |rest| - n))
    requires n > 0
    ensures Read(IdOctets(id) + [128 + n] + rest, depth) == None
  {
    hide ReadTag, IdOctets, FirstOctet, Constructed, BigEndian;
    var w := IdOctets(id) + [128 + n] + rest;
    assert w == IdOctets(id) + ([128 + n] + rest);
    IdRead(id, [128 + n] + rest);
    var tail := w[|IdOctets(id)|..];
    assert tail == [128 + n] + rest;
    if n <= 4 && n <= |rest| {
      assert tail[1..1 + n] == rest[..n];
    }
  }

  /** The trees in a definite-length element's content are its parts if the identifier says it has any. */
  lemma KindDecides(id: Id, form: Form, content: seq<byte>, rest: seq<byte>)
    requires IdOk(id) && Fits(|content|, form)
    ensures var r := ReadTree(IdOctets(id) + LengthOctets(|content|, form) + content + rest);
      && (!id.kind.constructed ==> r == Some(Leaf(id.kind, content)))
      && (r.Some? ==> (r.value.Node? <==> id.kind.constructed) && r.value.kind == id.kind)
      && (id.kind.constructed ==> (r.Some? <==> TreesIn(content).Some?)
                                  && (r.Some? ==> r.value.parts == TreesIn(content).value))
  {
    hide Read, IdOctets, LengthOctets, TreesIn;
    DefiniteRead(id, form, content, rest, 0);
  }

  // Chunked strings.

  /** A string's octets: a primitive element's content, or its parts' one after another. */
  function OctetsOf(constructed: bool, content: seq<byte>): (r: Option<seq<byte>>)
    decreases |content|, 1
  {
    if constructed then OctetsIn(content) else Some(content)
  }

  function OctetsIn(content: seq<byte>): (r: Option<seq<byte>>)
    decreases |content|, 0
  {
    if content == [] then Some([])
    else
      match Read(content, 0)
      case None => None
      case Some(t) =>
        var first := OctetsOf(t.kind.constructed, content[t.contentStart..t.contentEnd]);
        var others := OctetsIn(content[t.end..]);
        if first == None || others == None then None else Some(first.value + others.value)
  }

  function Leaves(t: Tree): seq<byte>
    decreases t, 1
  {
    if t.Leaf? then t.content else AllLeaves(t.parts)
  }

  function AllLeaves(ts: seq<Tree>): seq<byte>
    decreases ts, 0
  {
    if ts == [] then [] else Leaves(ts[0]) + AllLeaves(ts[1..])
  }

  /** A string's octets are its tree's leaves in order. */
  lemma {:induction false} OctetsAreLeaves(kind: Kind, content: seq<byte>)
    ensures TreeOf(kind, content) == None <==> OctetsOf(kind.constructed, content) == None
    ensures TreeOf(kind, content).Some? ==>
      OctetsOf(kind.constructed, content) == Some(Leaves(TreeOf(kind, content).value))
    decreases |content|, 1
  {
    if kind.constructed {
      OctetsInAreLeaves(content);
    }
  }

  lemma {:induction false} OctetsInAreLeaves(content: seq<byte>)
    ensures TreesIn(content) == None <==> OctetsIn(content) == None
    ensures TreesIn(content).Some? ==> OctetsIn(content) == Some(AllLeaves(TreesIn(content).value))
    decreases |content|, 0
  {
    hide Read, TreeOf, OctetsOf, Leaves;
    if content == [] || Read(content, 0) == None {
    } else {
      var t := Read(content, 0).value;
      OctetsAreLeaves(t.kind, content[t.contentStart..t.contentEnd]);
      OctetsInAreLeaves(content[t.end..]);
    }
  }

  /** A chunked string's octets, however it is encoded, are those of its chunks. */
  lemma ChunksJoined(e: Ber)
    requires Ok(e) && Shallow(e)
    ensures OctetsOf(e.id.kind.constructed, Content(e)) == Some(Leaves(Meaning(e)))
  {
    TreeOfContent(e);
    OctetsAreLeaves(e.id.kind, Content(e));
    hide *;
  }

  // The code.

  /** A tag number, and where its length starts. */
  method FindTag(b: seq<byte>, off: nat, limit: nat) returns (r: Option<(nat, nat)>)
    requires off < limit <= |b|
    ensures r == Counted(ReadTag(b[off..limit]), off)
  {
    ghost var w := b[off..limit];
    var num, p := b[off] as nat % 32, off + 1;
    if num == 31 {
      assert w[1..] == b[p..limit];
      num := 0;
      var c: byte := 128;
      while c >= 128
        invariant off + 1 <= p <= limit && num >= 0
        invariant c >= 128 ==> ReadDigits(w[1..], 0) == Counted(ReadDigits(b[p..limit], num), p - (off + 1))
        invariant c < 128 ==> ReadDigits(w[1..], 0) == Some((num, p - (off + 1)))
        decreases if c >= 128 then 1 else 0, limit - p
      {
        if p >= limit {
          return None;
        }
        assert b[p..limit][1..] == b[p + 1..limit];
        c := b[p];
        p := p + 1;
        num := num * 128 + c % 128;
      }
    }
    return Some((num, p));
  }

  lemma Window(b: seq<byte>, at: nat, limit: nat, from: nat, to: nat)
    requires at <= limit <= |b| && from <= to && at + to <= limit
    ensures b[at..limit][from..to] == b[at + from..at + to]
  {
    var l, r := b[at..limit][from..to], b[at + from..at + to];
    assert |l| == |r|;
    forall i | 0 <= i < |l|
      ensures l[i] == r[i]
    {
      assert l[i] == b[at..limit][from + i];
    }
  }

  /** A definite length, and where its content starts. */
  method FindLength(b: seq<byte>, at: nat, limit: nat) returns (r: Option<(nat, nat)>)
    requires at < limit <= |b|
    ensures r == Counted(ReadLength(b[at..limit]), at)
  {
    var len: nat, p: nat := b[at], at + 1;
    if b[at] >= 128 {
      var n: nat := b[at] - 128;
      if n > 4 || p + n > limit {
        return None;
      }
      len := 0;
      Window(b, at, limit, 1, 1 + n);
      for i := 0 to n
        invariant 0 <= len == BigEndian(b[p..p + i])
      {
        assert b[p..p + i + 1][..i] == b[p..p + i];
        len := len * 256 + b[p + i];
      }
      p := p + n;
    }
    return Some((len, p));
  }

  lemma ScanStep(w: seq<byte>, depth: nat)
    ensures Scan(w, depth)
      == if |w| < 2 then None else if w[0] == 0 && w[1] == 0 then Some(0)
         else if Read(w, depth) == None then None
         else Ahead(Scan(w[Read(w, depth).value.end..], depth), Read(w, depth).value.end)
  {
    hide Read;
  }

  /** Where the 00 00 behind an indefinite-length element's children is. */
  method FindEnd(b: seq<byte>, p: nat, limit: nat, depth: nat) returns (r: Option<nat>)
    requires p <= limit <= |b|
    ensures r == Ahead(Scan(b[p..limit], depth), p)
    decreases limit - p, 2
  {
    hide Read, Scan;
    var q := p;
    while true
      invariant p <= q <= limit
      invariant Ahead(Scan(b[p..limit], depth), p) == Ahead(Scan(b[q..limit], depth), q)
      decreases limit - q
    {
      ScanStep(b[q..limit], depth);
      if q + 2 > limit {
        return None;
      }
      if b[q] == 0 && b[q + 1] == 0 {
        return Some(q);
      }
      var child := ReadTlv(b, q, limit, depth);
      if child == None {
        return None;
      }
      assert b[q..limit][child.value.end - q..] == b[child.value.end..limit];
      q := child.value.end;
    }
  }

  function Ahead(r: Option<nat>, n: nat): Option<nat> {
    match r
    case None => None
    case Some(m) => Some(n + m)
  }

  /** An element from `off`, not beyond `limit`. None is an error. */
  method ReadTlv(b: seq<byte>, off: nat, limit: nat, depth: nat) returns (r: Option<Tlv>)
    requires off <= limit <= |b|
    ensures r == MovedBy(Read(b[off..limit], depth), off)
    decreases limit - off, 1
  {
    hide ReadTag, ReadLength, Scan;
    if depth > MAX_DEPTH || off + 2 > limit {
      return None;
    }
    var tag := b[off];
    var named := FindTag(b, off, limit);
    if named == None {
      return None;
    }
    var (num, tagEnd) := named.value;
    if tagEnd >= limit {
      return None;
    }
    if b[tagEnd] == 0x80 {
      if !Constructed(tag) {
        return None;
      }
      var p := tagEnd + 1;
      assert b[off..limit][p - off..] == b[p..limit];
      var q := FindEnd(b, p, limit, depth + 1);
      if q == None {
        return None;
      }
      return Some(Tlv(tag, KindOf(tag, num), off, tagEnd, p, q.value, q.value + 2));
    }
    assert b[off..limit][tagEnd - off..] == b[tagEnd..limit];
    var sized := FindLength(b, tagEnd, limit);
    if sized == None || sized.value.1 + sized.value.0 > limit {
      return None;
    }
    var (len, p) := sized.value;
    return Some(Tlv(tag, KindOf(tag, num), off, tagEnd, p, p + len, p + len));
  }

  /** An element's children. None is an error. */
  method Children(b: seq<byte>, from: nat, to: nat) returns (r: Option<seq<Tlv>>)
    requires from <= to <= |b|
    ensures r == ReadAll(b[from..to], from)
  {
    hide Read;
    var out: seq<Tlv>, p := [], from;
    NoneBefore(ReadAll(b[from..to], from));
    assert Before(out, ReadAll(b[p..to], p)) == ReadAll(b[from..to], from);
    while p < to
      invariant from <= p <= to
      invariant Before(out, ReadAll(b[p..to], p)) == ReadAll(b[from..to], from)
    {
      var child := ReadTlv(b, p, to, 0);
      if child == None {
        return None;
      }
      assert b[p..to][child.value.end - p..] == b[child.value.end..to];
      TwoBefore(out, [child.value], ReadAll(b[child.value.end..to], child.value.end));
      out, p := out + [child.value], child.value.end;
    }
    assert b[p..to] == [] && out + [] == out;
    return Some(out);
  }

  // Object identifiers, whose arcs are digits like a tag number's, the first two arcs in one number.

  function ArcsOf(n: nat, first: bool): (arcs: seq<nat>)
    ensures arcs != []
  {
    if !first then [n] else if n < 80 then [n / 40, n - n / 40 * 40] else [2, n - 80]
  }

  /** The arcs an identifier's octets say after `arcs`, `n` being what the digits of an unfinished arc give. */
  function Arcs(v: seq<byte>, arcs: seq<nat>, n: nat): seq<nat> {
    if v == [] then arcs
    else
      var m := n * 128 + v[0] % 128;
      if v[0] >= 128 then Arcs(v[1..], arcs, m) else Arcs(v[1..], arcs + ArcsOf(m, arcs == []), 0)
  }

  predicate OidOk(arcs: seq<nat>) {
    |arcs| >= 2 && arcs[0] <= 2 && (arcs[0] < 2 ==> arcs[1] < 40)
  }

  function EncodeArcs(arcs: seq<nat>): seq<byte> {
    if arcs == [] then [] else Digits(arcs[0]) + EncodeArcs(arcs[1..])
  }

  function EncodeOid(arcs: seq<nat>): seq<byte>
    requires OidOk(arcs)
  {
    Digits(40 * arcs[0] + arcs[1]) + EncodeArcs(arcs[2..])
  }

  lemma {:induction false} LeadingArcs(num: nat, rest: seq<byte>, arcs: seq<nat>)
    ensures Arcs(Leading(num) + rest, arcs, 0) == Arcs(rest, arcs, num)
  {
    hide Arcs, ArcsOf, Leading;
    LastDigit(num);
    LeadingSplit(num, rest);
    if num < 128 {
      ArcsDigit(128 + num, rest, arcs, 0);
    } else {
      LeadingArcs(num / 128, [128 + num % 128] + rest, arcs);
      ArcsDigit(128 + num % 128, rest, arcs, num / 128);
    }
  }

  lemma ArcsDigit(d: byte, rest: seq<byte>, arcs: seq<nat>, n: nat)
    ensures Arcs([d] + rest, arcs, n)
      == if d >= 128 then Arcs(rest, arcs, n * 128 + d % 128)
         else Arcs(rest, arcs + ArcsOf(n * 128 + d % 128, arcs == []), 0)
  {
    hide ArcsOf;
    assert ([d] + rest)[1..] == rest;
  }

  lemma DigitsSplit(num: nat, rest: seq<byte>)
    ensures num < 128 ==> Digits(num) == [num]
    ensures num >= 128 ==> Digits(num) + rest == Leading(num / 128) + ([num % 128] + rest)
  {
    hide Leading;
  }

  lemma DigitsArcs(num: nat, rest: seq<byte>, arcs: seq<nat>)
    ensures Arcs(Digits(num) + rest, arcs, 0) == Arcs(rest, arcs + ArcsOf(num, arcs == []), 0)
  {
    hide Arcs, ArcsOf, Digits, Leading;
    LastDigit(num);
    DigitsSplit(num, rest);
    if num < 128 {
      ArcsDigit(num, rest, arcs, 0);
    } else {
      LeadingArcs(num / 128, [num % 128] + rest, arcs);
      ArcsDigit(num % 128, rest, arcs, num / 128);
    }
  }

  lemma {:induction false} LaterArcs(arcs: seq<nat>, before: seq<nat>)
    requires before != []
    ensures Arcs(EncodeArcs(arcs), before, 0) == before + arcs
  {
    if arcs == [] {
      assert before + [] == before;
    } else {
      DigitsArcs(arcs[0], EncodeArcs(arcs[1..]), before);
      LaterArcs(arcs[1..], before + [arcs[0]]);
      assert before + [arcs[0]] + arcs[1..] == before + arcs;
    }
  }

  lemma OidReadBack(arcs: seq<nat>)
    requires OidOk(arcs)
    ensures Arcs(EncodeOid(arcs), [], 0) == arcs
  {
    var both := ArcsOf(40 * arcs[0] + arcs[1], true);
    DigitsArcs(40 * arcs[0] + arcs[1], EncodeArcs(arcs[2..]), []);
    assert both == arcs[..2] && [] + both == both;
    LaterArcs(arcs[2..], both);
  }

  method OidArcs(v: seq<byte>) returns (arcs: seq<nat>)
    ensures arcs == Arcs(v, [], 0)
  {
    arcs := [];
    var n: nat := 0;
    for i := 0 to |v|
      invariant Arcs(v, [], 0) == Arcs(v[i..], arcs, n)
    {
      assert v[i..][1..] == v[i + 1..];
      n := n * 128 + v[i] % 128;
      if v[i] < 128 {
        if arcs == [] {
          var first := if n < 80 then n / 40 else 2;
          arcs := arcs + [first, n - first * 40];
        } else {
          arcs := arcs + [n];
        }
        n := 0;
      }
    }
  }
}
