/** LEB128 unsigned varints (packages/binary/src/varint.ts). */
module Varint {
  import opened Bits
  import opened Options

  const MAX_BYTES: nat := 10
  const TWO_TO_64: nat := 0x1_0000_0000_0000_0000

  /** `v` shifted up by `digits` 7-bit digits. */
  function Times128(v: nat, digits: nat): nat {
    if digits == 0 then v else 128 * Times128(v, digits - 1)
  }

  /**
   * The number a varint's 7-bit digits say, lowest first, and how many there are, `i` of its ten bytes being read already.
   * None is a varint that ends past the bytes or past its tenth.
   */
  function ReadDigits(w: seq<byte>, i: nat): (r: Option<(nat, nat)>)
    ensures r.Some? ==> 0 < r.value.1 <= |w|
    decreases |w|
  {
    if i >= MAX_BYTES || w == [] then None
    else if w[0] < 0x80 then Some((w[0], 1))
    else
      match ReadDigits(w[1..], i + 1)
      case None => None
      case Some((v, size)) => Some((w[0] % 128 + 128 * v, size + 1))
  }

  /** A varint's value, bits past 64 dropped, and its size. */
  function Read(w: seq<byte>): (r: Option<(nat, nat)>)
    ensures r.Some? ==> r.value.0 < TWO_TO_64 && 0 < r.value.1 <= |w|
  {
    match ReadDigits(w, 0)
    case None => None
    case Some((v, size)) => Some((v % TWO_TO_64, size))
  }

  function Encode(n: nat): (r: seq<byte>)
    ensures r != []
  {
    if n < 128 then [n] else [128 + n % 128] + Encode(n / 128)
  }

  lemma {:induction false} DigitsFurther(w: seq<byte>, more: seq<byte>, i: nat)
    requires ReadDigits(w, i).Some?
    ensures ReadDigits(w + more, i) == ReadDigits(w, i)
    decreases |w|
  {
    if w[0] < 0x80 {
    } else {
      assert (w + more)[1..] == w[1..] + more;
      DigitsFurther(w[1..], more, i + 1);
    }
  }

  /** A varint reads the same whatever follows it. */
  lemma ReadFurther(w: seq<byte>, more: seq<byte>)
    requires Read(w).Some?
    ensures Read(w + more) == Read(w)
  {
    DigitsFurther(w, more, 0);
  }

  lemma {:induction false} DigitsOfEncoding(n: nat, rest: seq<byte>, i: nat)
    requires i < MAX_BYTES && n < Times128(1, MAX_BYTES - i)
    ensures ReadDigits(Encode(n) + rest, i) == Some((n, |Encode(n)|))
    decreases n
  {
    if n < 128 {
    } else {
      assert (Encode(n) + rest)[1..] == Encode(n / 128) + rest;
      assert Times128(1, MAX_BYTES - i) == 128 * Times128(1, MAX_BYTES - i - 1);
      assert i + 1 < MAX_BYTES;
      DigitsOfEncoding(n / 128, rest, i + 1);
    }
  }

  lemma TenDigits()
    ensures Times128(1, MAX_BYTES) == 64 * TWO_TO_64
  {
    assert Times128(1, 3) == 0x200000;
    assert Times128(1, 6) == 0x200000 * 0x200000;
    assert Times128(1, 9) == 0x200000 * 0x200000 * 0x200000;
  }

  /** Every 64-bit number reads back, whatever follows it. */
  lemma ReadBack(n: nat, rest: seq<byte>)
    requires n < TWO_TO_64
    ensures Read(Encode(n) + rest) == Some((n, |Encode(n)|))
  {
    TenDigits();
    DigitsOfEncoding(n, rest, 0);
  }

  // Any digits, however many.

  /** Seven bits a byte, the least significant first, each byte but the last marked. */
  function WriteDigits(ds: seq<nat>): (r: seq<byte>)
    requires ds != [] && forall i :: 0 <= i < |ds| ==> ds[i] < 128
    ensures |r| == |ds|
  {
    if |ds| == 1 then [ds[0]] else [128 + ds[0]] + WriteDigits(ds[1..])
  }

  function ValueOfDigits(ds: seq<nat>): nat {
    if ds == [] then 0 else ds[0] + 128 * ValueOfDigits(ds[1..])
  }

  lemma {:induction false} DigitsAnyRead(ds: seq<nat>, rest: seq<byte>, i: nat)
    requires ds != [] && forall k :: 0 <= k < |ds| ==> ds[k] < 128
    ensures ReadDigits(WriteDigits(ds) + rest, i)
      == if i + |ds| <= MAX_BYTES then Some((ValueOfDigits(ds), |ds|)) else None
    decreases |ds|
  {
    if |ds| == 1 {
      assert ds[1..] == [];
    } else {
      assert (WriteDigits(ds) + rest)[1..] == WriteDigits(ds[1..]) + rest;
      DigitsAnyRead(ds[1..], rest, i + 1);
    }
  }

  /** Up to ten digits read as their number modulo 2^64; more are an error. */
  lemma DigitsRead(ds: seq<nat>, rest: seq<byte>)
    requires ds != [] && forall k :: 0 <= k < |ds| ==> ds[k] < 128
    ensures Read(WriteDigits(ds) + rest)
      == if |ds| <= 10 then Some((ValueOfDigits(ds) % 0x1_0000_0000_0000_0000, |ds|)) else None
  {
    hide ReadDigits, WriteDigits, ValueOfDigits;
    DigitsAnyRead(ds, rest, 0);
  }

  /** Digits that do not end are an error. */
  lemma {:induction false} DigitsCutOff(w: seq<byte>, i: nat)
    requires forall k :: 0 <= k < |w| ==> w[k] >= 128
    ensures ReadDigits(w, i) == None && (i == 0 ==> Read(w) == None)
    decreases |w|
  {
    if w != [] {
      DigitsCutOff(w[1..], i + 1);
    }
  }

  /** A varint's first bytes read, the rest still to be. */
  function Begun(value: nat, i: nat, r: Option<(nat, nat)>): Option<(nat, nat)> {
    match r
    case None => None
    case Some((v, size)) => Some((value + Times128(v, i), size + i))
  }

  lemma {:induction false} Times128Sum(low: nat, v: nat, i: nat)
    ensures Times128(low + 128 * v, i) == Times128(low, i) + Times128(v, i + 1)
  {
    if i == 0 {
    } else {
      Times128Sum(low, v, i - 1);
    }
  }

  lemma OneDigit(value: nat, i: nat, x: byte, r: Option<(nat, nat)>)
    ensures Begun(value + Times128(x % 128, i), i + 1, r)
      == Begun(value, i, match r case None => None case Some((v, size)) => Some((x % 128 + 128 * v, size + 1)))
  {
    if r.Some? {
      Times128Sum(x % 128, r.value.0, i);
    }
  }

  /** The varint at `offset`: its value and the first byte after it. None is an error. */
  method ReadVarint(b: seq<byte>, offset: nat) returns (r: Option<(nat, nat)>)
    requires offset <= |b|
    ensures r.Some? <==> Read(b[offset..]).Some?
    ensures r.Some? ==> offset < r.value.1 <= |b| && Read(b[offset..]) == Some((r.value.0, r.value.1 - offset))
  {
    var value: nat := 0;
    for i := 0 to MAX_BYTES
      invariant offset + i <= |b|
      invariant ReadDigits(b[offset..], 0) == Begun(value, i, ReadDigits(b[offset + i..], i))
    {
      if offset + i >= |b| {
        return None;
      }
      var x := b[offset + i];
      assert b[offset + i..][1..] == b[offset + i + 1..];
      if x < 0x80 {
        return Some(((value + Times128(x, i)) % TWO_TO_64, offset + i + 1));
      }
      OneDigit(value, i, x, ReadDigits(b[offset + i + 1..], i + 1));
      value := value + Times128(x % 128, i);
    }
    return None;
  }
}
