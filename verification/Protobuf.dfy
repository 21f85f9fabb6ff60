/**
 * The protobuf wire format (packages/binary/src/protobuf.ts): a message is a run of fields, so the fields of two messages
 * one after the other are the fields of each.
 */
module Protobuf {
  import opened Bits
  import opened Options
  import Varint

  const MAX_FIELD: nat := 0x1FFF_FFFF
  /** Lengths past 2^53 - 1 are an error. */
  const MAX_SAFE: nat := 0x1F_FFFF_FFFF_FFFF

  datatype Value = Varint(n: nat) | Fixed64(bytes: seq<byte>) | Bytes(bytes: seq<byte>) | Fixed32(bytes: seq<byte>)

  datatype WireField = WireField(field: nat, value: Value)

  /** A field and where it ends. */
  datatype Sized = Sized(f: WireField, size: nat)

  function Fixed(w: seq<byte>, tagSize: nat, width: nat): (r: Option<seq<byte>>)
    ensures r.Some? ==> tagSize + width <= |w| && |r.value| == width
  {
    if tagSize + width > |w| then None else Some(w[tagSize..tagSize + width])
  }

  /** The value of a wire type after a tag, and where it ends. None is an error. */
  function ReadValue(w: seq<byte>, tagSize: nat, wire: nat): (r: Option<(Value, nat)>)
    requires tagSize <= |w|
    ensures r.Some? ==> tagSize <= r.value.1 <= |w|
  {
    if wire == 0 then
      match Varint.Read(w[tagSize..])
      case None => None
      case Some((n, size)) => Some((Varint(n), tagSize + size))
    else if wire == 1 then
      match Fixed(w, tagSize, 8)
      case None => None
      case Some(b) => Some((Fixed64(b), tagSize + 8))
    else if wire == 2 then
      match Varint.Read(w[tagSize..])
      case None => None
      case Some((length, size)) =>
        if length > MAX_SAFE then None
        else
          match Fixed(w, tagSize + size, length)
          case None => None
          case Some(b) => Some((Bytes(b), tagSize + size + length))
    else if wire == 5 then
      match Fixed(w, tagSize, 4)
      case None => None
      case Some(b) => Some((Fixed32(b), tagSize + 4))
    else None
  }

  /** The field a message starts with. None is an error. */
  function ReadField(w: seq<byte>): (r: Option<Sized>)
    ensures r.Some? ==> 0 < r.value.size <= |w|
  {
    match Varint.Read(w)
    case None => None
    case Some((tag, tagSize)) =>
      if tag / 8 < 1 || tag / 8 > MAX_FIELD then None
      else
        match ReadValue(w, tagSize, tag % 8)
        case None => None
        case Some((value, size)) => Some(Sized(WireField(tag / 8, value), size))
  }

  /** A message's fields. None is an error. */
  function Fields(w: seq<byte>): (r: Option<seq<WireField>>)
    decreases |w|
  {
    if w == [] then Some([])
    else
      match ReadField(w)
      case None => None
      case Some(s) =>
        match Fields(w[s.size..])
        case None => None
        case Some(others) => Some([s.f] + others)
  }

  lemma FixedFurther(w: seq<byte>, more: seq<byte>, tagSize: nat, width: nat)
    requires Fixed(w, tagSize, width).Some?
    ensures Fixed(w + more, tagSize, width) == Fixed(w, tagSize, width)
  {
    assert (w + more)[tagSize..tagSize + width] == w[tagSize..tagSize + width];
  }

  lemma ValueFurther(w: seq<byte>, more: seq<byte>, tagSize: nat, wire: nat)
    requires tagSize <= |w| && ReadValue(w, tagSize, wire).Some?
    ensures ReadValue(w + more, tagSize, wire) == ReadValue(w, tagSize, wire)
  {
    hide Fixed, Varint.Read;
    assert (w + more)[tagSize..] == w[tagSize..] + more;
    if wire == 0 {
      Varint.ReadFurther(w[tagSize..], more);
    } else if wire == 1 {
      FixedFurther(w, more, tagSize, 8);
    } else if wire == 2 {
      Varint.ReadFurther(w[tagSize..], more);
      var (length, size) := Varint.Read(w[tagSize..]).value;
      FixedFurther(w, more, tagSize + size, length);
    } else {
      FixedFurther(w, more, tagSize, 4);
    }
  }

  lemma FieldFurther(w: seq<byte>, more: seq<byte>)
    requires ReadField(w).Some?
    ensures ReadField(w + more) == ReadField(w)
  {
    hide ReadValue, Varint.Read;
    Varint.ReadFurther(w, more);
    var (tag, tagSize) := Varint.Read(w).value;
    ValueFurther(w, more, tagSize, tag % 8);
  }

  /** The fields of a message that reads, with another behind it, are its own and then the other's. */
  lemma {:induction false} FieldsOfBoth(a: seq<byte>, b: seq<byte>)
    requires Fields(a).Some?
    ensures Fields(a + b) == Before(Fields(a).value, Fields(b))
    decreases |a|
  {
    hide ReadField;
    if a == [] {
      assert a + b == b;
      NoneBefore(Fields(b));
    } else {
      var s := ReadField(a).value;
      FieldFurther(a, b);
      assert (a + b)[s.size..] == a[s.size..] + b;
      FieldsOfBoth(a[s.size..], b);
      TwoBefore([s.f], Fields(a[s.size..]).value, Fields(b));
    }
  }

  // Writing fields.

  function WireType(v: Value): nat {
    match v
    case Varint(_) => 0
    case Fixed64(_) => 1
    case Bytes(_) => 2
    case Fixed32(_) => 5
  }

  predicate FieldOk(f: WireField) {
    && 1 <= f.field <= MAX_FIELD
    && match f.value
       case Varint(n) => n < Varint.TWO_TO_64
       case Fixed64(b) => |b| == 8
       case Bytes(b) => |b| <= MAX_SAFE
       case Fixed32(b) => |b| == 4
  }

  function EncodeValue(v: Value): seq<byte> {
    match v
    case Varint(n) => Varint.Encode(n)
    case Fixed64(b) => b
    case Bytes(b) => Varint.Encode(|b|) + b
    case Fixed32(b) => b
  }

  function EncodeField(f: WireField): (r: seq<byte>)
    ensures r != []
  {
    Varint.Encode(8 * f.field + WireType(f.value)) + EncodeValue(f.value)
  }

  function EncodeFields(fs: seq<WireField>): seq<byte> {
    if fs == [] then [] else EncodeField(fs[0]) + EncodeFields(fs[1..])
  }

  lemma ValueReadBack(tag: seq<byte>, f: WireField, rest: seq<byte>)
    requires FieldOk(f)
    ensures ReadValue(tag + EncodeValue(f.value) + rest, |tag|, WireType(f.value))
      == Some((f.value, |tag| + |EncodeValue(f.value)|))
  {
    hide Varint.Read, Varint.Encode;
    var w := tag + EncodeValue(f.value) + rest;
    assert w[|tag|..] == EncodeValue(f.value) + rest;
    match f.value
    case Varint(n) => Varint.ReadBack(n, rest);
    case Fixed64(b) => assert w[|tag|..|tag| + 8] == b;
    case Bytes(b) =>
      Varint.ReadBack(|b|, b + rest);
      var size := |Varint.Encode(|b|)|;
      assert EncodeValue(f.value) + rest == Varint.Encode(|b|) + (b + rest);
      assert w[|tag| + size..|tag| + size + |b|] == b;
    case Fixed32(b) => assert w[|tag|..|tag| + 4] == b;
  }

  lemma FieldReadBack(f: WireField, rest: seq<byte>)
    requires FieldOk(f)
    ensures ReadField(EncodeField(f) + rest) == Some(Sized(f, |EncodeField(f)|))
  {
    hide Varint.Read, Varint.Encode, ReadValue, EncodeValue;
    var tag := 8 * f.field + WireType(f.value);
    Varint.ReadBack(tag, EncodeValue(f.value) + rest);
    assert EncodeField(f) + rest == Varint.Encode(tag) + (EncodeValue(f.value) + rest);
    assert EncodeField(f) + rest == Varint.Encode(tag) + EncodeValue(f.value) + rest;
    ValueReadBack(Varint.Encode(tag), f, rest);
    assert tag / 8 == f.field && tag % 8 == WireType(f.value);
  }

  /** The fields written read back. */
  lemma {:induction false} FieldsReadBack(fs: seq<WireField>)
    requires forall i :: 0 <= i < |fs| ==> FieldOk(fs[i])
    ensures Fields(EncodeFields(fs)) == Some(fs)
  {
    hide ReadField, EncodeField;
    if fs == [] {
    } else {
      FieldReadBack(fs[0], EncodeFields(fs[1..]));
      FieldsReadBack(fs[1..]);
      var w := EncodeFields(fs);
      assert w[|EncodeField(fs[0])|..] == EncodeFields(fs[1..]);
      assert fs == [fs[0]] + fs[1..];
    }
  }

  /** A field of no number there is, or of a wire type other than the four, is an error. */
  lemma BadField(number: nat, wire: nat, rest: seq<byte>)
    requires wire < 8 && 8 * number + wire < Varint.TWO_TO_64
    requires number < 1 || number > 0x1FFF_FFFF || wire == 3 || wire == 4 || wire > 5
    ensures Fields(Varint.Encode(8 * number + wire) + rest) == None
  {
    hide Varint.Read, Varint.Encode;
    var tag := 8 * number + wire;
    Varint.ReadBack(tag, rest);
    assert tag / 8 == number && tag % 8 == wire;
    assert Varint.Encode(tag) != [];
  }

  lemma FieldCutOff(f: WireField, n: nat)
    requires FieldOk(f) && n < |EncodeField(f)|
    ensures ReadField(EncodeField(f)[..n]) == None
  {
    hide ReadField, EncodeField;
    var cut, more := EncodeField(f)[..n], EncodeField(f)[n..];
    assert cut + more == EncodeField(f) == EncodeField(f) + [];
    FieldReadBack(f, []);
    if ReadField(cut).Some? {
      FieldFurther(cut, more);
    }
  }

  /** A message that ends within a field is an error. */
  lemma MessageCutOff(fs: seq<WireField>, f: WireField, n: nat)
    requires (forall i :: 0 <= i < |fs| ==> FieldOk(fs[i])) && FieldOk(f) && 0 < n < |EncodeField(f)|
    ensures Fields(EncodeFields(fs) + EncodeField(f)[..n]) == None
  {
    hide ReadField, EncodeField;
    FieldsReadBack(fs);
    FieldCutOff(f, n);
    FieldsOfBoth(EncodeFields(fs), EncodeField(f)[..n]);
  }

  // The code.

  /** The bytes of a fixed width or length at `p`. */
  method Slice(b: seq<byte>, p: nat, size: nat) returns (r: Option<seq<byte>>)
    ensures r == if p + size <= |b| then Some(b[p..p + size]) else None
  {
    if p + size > |b| {
      return None;
    }
    return Some(b[p..p + size]);
  }

  /** A field's value at `p`, and where it ends. */
  method ReadValueAt(b: seq<byte>, p: nat, wire: nat) returns (r: Option<(Value, nat)>)
    requires p <= |b|
    ensures r == ReadValue(b, p, wire)
  {
    hide Varint.Read;
    if wire == 0 {
      var v := Varint.ReadVarint(b, p);
      if v == None {
        return None;
      }
      return Some((Varint(v.value.0), v.value.1));
    } else if wire == 1 {
      var v := Slice(b, p, 8);
      if v == None {
        return None;
      }
      return Some((Fixed64(v.value), p + 8));
    } else if wire == 2 {
      var len := Varint.ReadVarint(b, p);
      if len == None || len.value.0 > MAX_SAFE {
        return None;
      }
      var (size, next) := len.value;
      var v := Slice(b, next, size);
      if v == None {
        return None;
      }
      return Some((Bytes(v.value), next + size));
    } else if wire == 5 {
      var v := Slice(b, p, 4);
      if v == None {
        return None;
      }
      return Some((Fixed32(v.value), p + 4));
    }
    return None;
  }

  /** The fields of one message, in wire order; None is an error behind some of them. */
  method WireFields(b: seq<byte>) returns (r: Option<seq<WireField>>)
    ensures r == Fields(b)
  {
    hide Varint.Read, ReadValue;
    var out: seq<WireField>, at := [], 0;
    NoneBefore(Fields(b));
    assert b[0..] == b;
    while at < |b|
      invariant 0 <= at <= |b|
      invariant Fields(b) == Before(out, Fields(b[at..]))
    {
      var tag := Varint.ReadVarint(b, at);
      if tag == None {
        return None;
      }
      var (n, p) := tag.value;
      if n / 8 < 1 || n / 8 > MAX_FIELD {
        return None;
      }
      var read := ReadValueAt(b, p, n % 8);
      ValueFrom(b, at, p, n % 8);
      if read == None {
        return None;
      }
      var (value, next) := read.value;
      var f := WireField(n / 8, value);
      assert b[at..][next - at..] == b[next..];
      TwoBefore(out, [f], Fields(b[next..]));
      out, at := out + [f], next;
    }
    assert b[at..] == [] && out + [] == out;
    return Some(out);
  }

  /** A value reads the same from any start at or before it. */
  lemma ValueFrom(b: seq<byte>, at: nat, p: nat, wire: nat)
    requires at <= p <= |b|
    ensures ReadValue(b, p, wire)
      == match ReadValue(b[at..], p - at, wire) case None => None case Some((v, end)) => Some((v, end + at))
  {
    hide Varint.Read;
    assert b[at..][p - at..] == b[p..];
    FixedFrom(b, at, p, 4);
    FixedFrom(b, at, p, 8);
    if Varint.Read(b[p..]).Some? {
      var (n, size) := Varint.Read(b[p..]).value;
      FixedFrom(b, at, p + size, n);
    }
  }

  lemma FixedFrom(b: seq<byte>, at: nat, p: nat, width: nat)
    requires at <= p <= |b|
    ensures Fixed(b[at..], p - at, width) == Fixed(b, p, width)
  {
    if p + width <= |b| {
      assert b[at..][p - at..p - at + width] == b[p..p + width];
    }
  }
}
