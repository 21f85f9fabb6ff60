/**
 * The prefix code an LZFSE block's header lists its symbol frequencies in (tools/ftab/lzfse.py): bits least significant
 * first, taken from an accumulator of at most 32 bits.
 */
module FreqCode {
  import opened Bits
  import opened Options

  const FREQ_NBITS: seq<nat> :=
    [2, 3, 2, 5, 2, 3, 2, 8, 2, 3, 2, 5, 2, 3, 2, 14] + [2, 3, 2, 5, 2, 3, 2, 8, 2, 3, 2, 5, 2, 3, 2, 14]
  const FREQ_VAL: seq<int> :=
    [0, 2, 1, 4, 0, 3, 1, -1, 0, 2, 1, 5, 0, 3, 1, -1] + [0, 2, 1, 6, 0, 3, 1, -1, 0, 2, 1, 7, 0, 3, 1, -1]
  /** 20 L, 20 M, 64 D and 256 literal symbols. */
  const SYMBOLS: nat := 360

  /** The low n bits of v, least significant first. */
  function LowBits(v: nat, n: nat): (s: seq<bool>)
    ensures |s| == n
  {
    if n == 0 then [] else [v % 2 == 1] + LowBits(v / 2, n - 1)
  }

  /** The bits of bytes read forwards. */
  function ForwardBits(b: seq<byte>): (s: seq<bool>)
    ensures |s| == 8 * |b|
  {
    if b == [] then [] else LowBits(b[0], 8) + ForwardBits(b[1..])
  }

  function LsbValue(s: seq<bool>): nat {
    if s == [] then 0 else (if s[0] then 1 else 0) + 2 * LsbValue(s[1..])
  }

  /** The number in the first k bits, zeros standing for missing ones. */
  function Peek(s: seq<bool>, k: nat): nat {
    if k >= |s| then LsbValue(s) else LsbValue(s[..k])
  }

  /** The code of a frequency up to 1047. */
  function Code(v: nat): (s: seq<bool>)
    requires v < 1048
  {
    if v == 0 then [false, false]
    else if v == 1 then [false, true]
    else if v == 2 then [true, false, false]
    else if v == 3 then [true, false, true]
    else if v < 8 then [true, true, false] + LowBits(v - 4, 2)
    else if v < 24 then [true, true, true, false] + LowBits(v - 8, 4)
    else [true, true, true, true] + LowBits(v - 24, 10)
  }

  function Codes(vs: seq<nat>): seq<bool>
    requires forall i :: 0 <= i < |vs| ==> vs[i] < 1048
  {
    if vs == [] then [] else Code(vs[0]) + Codes(vs[1..])
  }

  datatype Parsed = Parsed(value: nat, rest: seq<bool>)

  /** One frequency of a bit string; None when its code is cut off. */
  function ParseOne(s: seq<bool>): Option<Parsed> {
    PeekBound(s, 5);
    var b := Peek(s, 5);
    var n := FREQ_NBITS[b];
    if n > |s| then None
    else if n == 8 then Some(Parsed(8 + Peek(s[4..], 4), s[8..]))
    else if n == 14 then Some(Parsed(24 + Peek(s[4..], 10), s[14..]))
    else Some(Parsed(FREQ_VAL[b], s[n..]))
  }

  /** The first `count` frequencies. */
  function Parse(s: seq<bool>, count: nat): Option<seq<nat>> {
    if count == 0 then Some([])
    else
      match ParseOne(s)
      case None => None
      case Some(p) =>
        match Parse(p.rest, count - 1)
        case None => None
        case Some(vs) => Some([p.value] + vs)
  }

  lemma {:induction false} LsbValueBound(s: seq<bool>)
    ensures LsbValue(s) < Pow2(|s|)
  {
    if s == [] {
    } else {
      LsbValueBound(s[1..]);
    }
  }

  lemma PeekBound(s: seq<bool>, k: nat)
    ensures Peek(s, k) < Pow2(k)
    ensures k == 5 ==> Peek(s, k) < 32
  {
    if k >= |s| {
      LsbValueBound(s);
      Pow2Monotone(|s|, k);
    } else {
      LsbValueBound(s[..k]);
    }
    assert Pow2(2) == 4;
    assert Pow2(4) == 16;
  }

  lemma {:induction false} LsbValueOfLowBits(v: nat, n: nat)
    requires v < Pow2(n)
    ensures LsbValue(LowBits(v, n)) == v
  {
    if n == 0 {
    } else {
      LsbValueOfLowBits(v / 2, n - 1);
    }
  }

  /** A code followed by anything is read as its frequency. */
  lemma ParseInvertsCode(v: nat, rest: seq<bool>)
    requires v < 1048
    ensures ParseOne(Code(v) + rest) == Some(Parsed(v, rest))
  {
    var c, s := Code(v), Code(v) + rest;
    assert s[|c|..] == rest;
    PeekBits(s);
    if v >= 24 {
      LongPeek(s, [true, true, true, true], v - 24, 10, rest);
    } else if v >= 8 {
      LongPeek(s, [true, true, true, false], v - 8, 4, rest);
    } else {
      ShortPeek(v, rest);
    }
  }

  /** No part of a code is read as a code. */
  lemma CodeCutOff(v: nat, n: nat)
    requires v < 1048 && n < |Code(v)|
    ensures ParseOne(Code(v)[..n]) == None
  {
    PeekBits(Code(v)[..n]);
  }

  /** After a code's first four bits comes the rest of its value. */
  lemma LongPeek(s: seq<bool>, start: seq<bool>, w: nat, n: nat, rest: seq<bool>)
    requires |start| == 4 && s == start + LowBits(w, n) + rest && w < Pow2(n)
    ensures Peek(s[4..], n) == w
  {
    assert s[4..] == LowBits(w, n) + rest;
    assert (LowBits(w, n) + rest)[..n] == LowBits(w, n);
    if rest == [] {
      assert LowBits(w, n) + rest == LowBits(w, n);
    }
    LsbValueOfLowBits(w, n);
  }

  lemma ShortPeek(v: nat, rest: seq<bool>)
    requires v < 8
    ensures var b := Peek(Code(v) + rest, 5);
      b < 32 && FREQ_NBITS[b] == |Code(v)| && FREQ_VAL[b] == v && FREQ_NBITS[b] != 8 && FREQ_NBITS[b] != 14
  {
    PeekBits(Code(v) + rest);
  }

  /** The first five bits one by one. */
  lemma PeekBits(s: seq<bool>)
    ensures Peek(s, 5) == BitAt(s, 0) + 2 * BitAt(s, 1) + 4 * BitAt(s, 2) + 8 * BitAt(s, 3) + 16 * BitAt(s, 4)
  {
    var t := if 5 >= |s| then s else s[..5];
    PeekFrom(t, 0);
    PeekFrom(t, 1);
    PeekFrom(t, 2);
    PeekFrom(t, 3);
    PeekFrom(t, 4);
    PeekFrom(t, 5);
    assert Rest(t, 0) == t;
  }

  function BitAt(s: seq<bool>, i: nat): nat {
    if i < |s| && s[i] then 1 else 0
  }

  function Rest(s: seq<bool>, i: nat): seq<bool> {
    if i < |s| then s[i..] else []
  }

  lemma PeekFrom(s: seq<bool>, i: nat)
    ensures LsbValue(Rest(s, i)) == BitAt(s, i) + 2 * LsbValue(Rest(s, i + 1))
  {
    if i < |s| {
      assert Rest(s, i)[1..] == Rest(s, i + 1);
    }
  }

  /** Parsing a list's codes gives the list back, whatever follows them. */
  lemma {:induction false} ParseInvertsCodes(vs: seq<nat>, rest: seq<bool>)
    requires forall i :: 0 <= i < |vs| ==> vs[i] < 1048
    ensures Parse(Codes(vs) + rest, |vs|) == Some(vs)
  {
    if vs == [] {
      assert Codes(vs) + rest == rest;
    } else {
      assert vs == [vs[0]] + vs[1..];
      assert Codes(vs) + rest == Code(vs[0]) + (Codes(vs[1..]) + rest);
      ParseInvertsCode(vs[0], Codes(vs[1..]) + rest);
      ParseInvertsCodes(vs[1..], rest);
    }
  }

  // The decoder's accumulator.

  /** Below its nb bits the accumulator's next bits are those still in the buffer. */
  lemma {:induction false} LowIsPeek(accum: nat, nb: nat, rest: seq<bool>, k: nat)
    requires accum < Pow2(nb) && (nb >= k || rest == [])
    ensures Low(accum, k) == Peek(LowBits(accum, nb) + rest, k)
  {
    var s := LowBits(accum, nb) + rest;
    if k == 0 {
    } else if nb == 0 {
      LowOfZero(k);
      assert s == [];
    } else {
      LowIsPeek(accum / 2, nb - 1, rest, k - 1);
      assert s[1..] == LowBits(accum / 2, nb - 1) + rest;
      if k < |s| {
        assert s[..k][1..] == s[1..][..k - 1];
      }
    }
  }

  lemma {:induction false} LowOfZero(k: nat)
    ensures Low(0, k) == 0
  {
    if k == 0 {
    } else {
      LowOfZero(k - 1);
    }
  }

  /** A byte put above the accumulator's bits comes after them. */
  lemma {:induction false} AppendByte(accum: nat, nb: nat, b: nat, n: nat)
    requires accum < Pow2(nb) && b < Pow2(n)
    ensures accum + Shl(b, nb) < Pow2(nb + n)
    ensures LowBits(accum + Shl(b, nb), nb + n) == LowBits(accum, nb) + LowBits(b, n)
  {
    if nb == 0 {
    } else {
      AppendByte(accum / 2, nb - 1, b, n);
      var v := accum + Shl(b, nb);
      assert v / 2 == accum / 2 + Shl(b, nb - 1) && v % 2 == accum % 2;
    }
  }

  lemma DropBit(accum: nat, nb: nat, n: nat)
    requires accum < Pow2(nb) && 0 < n <= nb
    ensures accum / 2 < Pow2(nb - 1) && Shr(accum, n) == Shr(accum / 2, n - 1)
    ensures LowBits(accum, nb)[1..] == LowBits(accum / 2, nb - 1)
  {
  }

  /** Dropping the low n bits of the accumulator. */
  lemma {:induction false} DropBits(accum: nat, nb: nat, n: nat)
    requires accum < Pow2(nb) && n <= nb
    ensures Shr(accum, n) < Pow2(nb - n)
    ensures LowBits(Shr(accum, n), nb - n) == LowBits(accum, nb)[n..]
  {
    hide LowBits, Pow2;
    if n == 0 {
    } else {
      DropBit(accum, nb, n);
      DropBits(accum / 2, nb - 1, n - 1);
      assert LowBits(accum, nb)[n..] == LowBits(accum, nb)[1..][n - 1..];
    }
  }

  /** The bits still to be read: the accumulator's, then the buffer's. */
  ghost function Ahead(accum: nat, nb: nat, src: seq<byte>, q: int, end: int): seq<bool>
    requires 0 <= q && end <= |src|
  {
    LowBits(accum, nb) + if q < end then ForwardBits(src[q..end]) else []
  }

  /** What the decoder reads of one code from an accumulator that holds 14 bits or all there are. */
  lemma CodeAhead(accum: nat, nb: nat, rest: seq<bool>)
    requires accum < Pow2(nb) && (nb >= 14 || rest == [])
    ensures var s := LowBits(accum, nb) + rest;
      && Low(accum, 5) == Peek(s, 5) < 32
      && (nb >= 8 ==> Low(Shr(accum, 4), 4) == Peek(s[4..], 4))
      && (nb >= 14 ==> Low(Shr(accum, 4), 10) == Peek(s[4..], 10))
  {
    hide LowBits, Peek, Low, Shr, Pow2;
    var s := LowBits(accum, nb) + rest;
    LowIsPeek(accum, nb, rest, 5);
    PeekBound(s, 5);
    if nb >= 8 {
      DropBits(accum, nb, 4);
      assert s[4..] == LowBits(Shr(accum, 4), nb - 4) + rest;
      LowIsPeek(Shr(accum, 4), nb - 4, rest, 4);
    }
    if nb >= 14 {
      LowIsPeek(Shr(accum, 4), nb - 4, rest, 10);
    }
  }

  /** Refills the accumulator up to 32 bits. */
  method Fill(src: seq<byte>, q0: int, end: int, accum0: nat, nb0: nat) returns (q: int, accum: nat, nb: nat)
    requires 0 <= q0 && end <= |src| && accum0 < Pow2(nb0)
    ensures q0 <= q && accum < Pow2(nb) && (q < end ==> nb >= 25)
    ensures Ahead(accum, nb, src, q, end) == Ahead(accum0, nb0, src, q0, end)
  {
    hide Ahead, Shl;
    q, accum, nb := q0, accum0, nb0;
    while q < end && nb + 8 <= 32
      invariant q0 <= q && accum < Pow2(nb)
      invariant Ahead(accum, nb, src, q, end) == Ahead(accum0, nb0, src, q0, end)
    {
      TakeByte(accum, nb, src, q, end);
      accum, nb, q := accum + Shl(src[q], nb), nb + 8, q + 1;
    }
  }

  lemma TakeByte(accum: nat, nb: nat, src: seq<byte>, q: nat, end: nat)
    requires q < end <= |src| && accum < Pow2(nb)
    ensures accum + Shl(src[q], nb) < Pow2(nb + 8)
    ensures Ahead(accum + Shl(src[q], nb), nb + 8, src, q + 1, end) == Ahead(accum, nb, src, q, end)
  {
    hide LowBits, Shl, Pow2;
    Pow2Is256();
    AppendByte(accum, nb, src[q], 8);
    var bytes := src[q..end];
    assert bytes[1..] == src[q + 1..end] && bytes[0] == src[q];
    assert LowBits(accum, nb) + LowBits(src[q], 8) + ForwardBits(bytes[1..])
      == LowBits(accum, nb) + (LowBits(src[q], 8) + ForwardBits(bytes[1..]));
  }

  /** The frequencies src[q..end] lists, none of them for an empty list. None is a code cut off. */
  method ReadFreqs(src: seq<byte>, start: nat, end: int) returns (r: Option<seq<nat>>)
    requires end <= |src|
    ensures r == if start == end then Some(seq(SYMBOLS, _ => 0)) else Parse(Ahead(0, 0, src, start, end), SYMBOLS)
  {
    hide Low, Shr, Shl, LowBits, ForwardBits, Parse, ParseOne, Continued;
    if start == end {
      return Some(seq(SYMBOLS, _ => 0));
    }
    var q: int, accum: nat, nb: nat, freqs: seq<nat> := start, 0, 0, [];
    ghost var bits := Ahead(0, 0, src, start, end);
    ContinuedStart(Parse(bits, SYMBOLS));
    for i := 0 to SYMBOLS
      invariant 0 <= q && accum < Pow2(nb) && |freqs| == i
      invariant Parse(bits, SYMBOLS) == Continued(freqs, Parse(Ahead(accum, nb, src, q, end), SYMBOLS - i))
    {
      q, accum, nb := Fill(src, q, end, accum, nb);
      ParseNext(freqs, Ahead(accum, nb, src, q, end), SYMBOLS - i);
      var code := DecodeOne(accum, nb, if q < end then ForwardBits(src[q..end]) else []);
      if code == None {
        return None;
      }
      var (v, n) := code.value;
      freqs, accum, nb := freqs + [v], Shr(accum, n), nb - n;
    }
    ContinuedEnd(freqs, Ahead(accum, nb, src, q, end));
    return Some(freqs);
  }

  /** A list's codes written to bytes, the last byte filled with zeros, are read back. */
  lemma ReadInvertsCodes(src: seq<byte>, start: nat, end: nat, vs: seq<nat>)
    requires start < end <= |src| && |vs| == SYMBOLS && forall i :: 0 <= i < |vs| ==> vs[i] < 1048
    requires Codes(vs) <= ForwardBits(src[start..end])
    ensures Parse(Ahead(0, 0, src, start, end), SYMBOLS) == Some(vs)
  {
    var bits := ForwardBits(src[start..end]);
    ParseInvertsCodes(vs, bits[|Codes(vs)|..]);
    assert Codes(vs) + bits[|Codes(vs)|..] == bits;
    assert LowBits(0, 0) + bits == bits;
  }

  lemma ParseNext(vs: seq<nat>, s: seq<bool>, count: nat)
    requires count > 0
    ensures ParseOne(s) == None ==> Continued(vs, Parse(s, count)) == None
    ensures ParseOne(s).Some? ==>
      var p := ParseOne(s).value;
      Continued(vs, Parse(s, count)) == Continued(vs + [p.value], Parse(p.rest, count - 1))
  {
    if ParseOne(s).Some? {
      var p := ParseOne(s).value;
      ContinuedNext(vs, p.value, Parse(p.rest, count - 1));
    }
  }

  /** One code: its frequency and its length. None is a code longer than what is left. */
  method DecodeOne(accum: nat, nb: nat, ghost rest: seq<bool>) returns (r: Option<(nat, nat)>)
    requires accum < Pow2(nb) && (nb >= 14 || rest == [])
    ensures r == None ==> ParseOne(LowBits(accum, nb) + rest) == None
    ensures r.Some? ==> r.value.1 <= nb && Shr(accum, r.value.1) < Pow2(nb - r.value.1)
    ensures r.Some? ==>
      var (v, n) := r.value;
      ParseOne(LowBits(accum, nb) + rest) == Some(Parsed(v, LowBits(Shr(accum, n), nb - n) + rest))
  {
    hide LowBits, Peek, Low, Shr, Pow2;
    CodeAhead(accum, nb, rest);
    var b := Low(accum, 5);
    var n := FREQ_NBITS[b];
    var v;
    if n == 8 {
      v := 8 + Low(Shr(accum, 4), 4);
    } else if n == 14 {
      v := 24 + Low(Shr(accum, 4), 10);
    } else {
      v := FREQ_VAL[b];
    }
    if n > nb {
      return None;
    }
    DropBits(accum, nb, n);
    assert (LowBits(accum, nb) + rest)[n..] == LowBits(accum, nb)[n..] + rest;
    return Some((v, n));
  }

  function Continued(vs: seq<nat>, more: Option<seq<nat>>): Option<seq<nat>> {
    match more
    case None => None
    case Some(ws) => Some(vs + ws)
  }

  lemma ContinuedStart(more: Option<seq<nat>>)
    ensures Continued([], more) == more
  {
    if more.Some? {
      assert [] + more.value == more.value;
    }
  }

  lemma ContinuedNext(vs: seq<nat>, v: nat, more: Option<seq<nat>>)
    ensures Continued(vs + [v], more) == Continued(vs, Continued([v], more))
  {
    if more.Some? {
      assert vs + [v] + more.value == vs + ([v] + more.value);
    }
  }

  lemma ContinuedEnd(vs: seq<nat>, s: seq<bool>)
    ensures Continued(vs, Parse(s, 0)) == Some(vs)
  {
    assert vs + [] == vs;
  }
}
