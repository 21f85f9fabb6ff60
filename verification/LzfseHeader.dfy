/**
 * A compressed block's header (tools/ftab/lzfse.py): numbers of fixed widths packed into three 64-bit words, then the
 * symbols' frequencies. A header written is read back.
 */
module LzfseHeader {
  import opened Bits
  import opened FreqCode
  import opened LzfseBlock
  import opened Options
  import opened Sequences

  const COMPRESSED: seq<byte> := [0x62, 0x76, 0x78, 0x32]
  /** The magic, the raw size and the words. */
  const FIXED: nat := 32

  /** The `width` bits of a word from `offset` on. */
  function Bitfield(v: nat, offset: nat, width: nat): (r: nat)
    ensures r < Pow2(width)
  {
    Low(Shr(v, offset), width)
  }

  /** The frequencies, in the order they are listed. */
  function Frequencies(h: Header): seq<nat> {
    h.lFreq + h.mFreq + h.dFreq + h.literalFreq
  }

  /** What the words and frequencies say. */
  function HeaderOf(raw: nat, v0: nat, v1: nat, v2: nat, freqs: seq<nat>): Header
    requires |freqs| == SYMBOLS
  {
    Header(raw, Bitfield(v2, 0, 32),
           Bitfield(v0, 0, 20), Bitfield(v0, 20, 20), Bitfield(v0, 60, 3) - 7,
           [Bitfield(v1, 0, 10), Bitfield(v1, 10, 10), Bitfield(v1, 20, 10), Bitfield(v1, 30, 10)],
           Bitfield(v0, 40, 20), Bitfield(v1, 40, 20), Bitfield(v1, 60, 3) - 7,
           Bitfield(v2, 32, 10), Bitfield(v2, 42, 10), Bitfield(v2, 52, 10),
           freqs[..20], freqs[20..40], freqs[40..104], freqs[104..])
  }

  /** The header at p. None is one cut short. */
  ghost function HeaderAt(src: seq<byte>, p: nat): Option<Header> {
    if p + FIXED > |src| then None
    else
      var v2 := LittleEndian(src[p + 24..p + 32]);
      var end := p + Bitfield(v2, 0, 32);
      if end > |src| then None
      else
        match FreqsAt(src, p + FIXED, end)
        case None => None
        case Some(freqs) =>
          Some(HeaderOf(LittleEndian(src[p + 4..p + 8]), LittleEndian(src[p + 8..p + 16]), LittleEndian(src[p + 16..p + 24]),
                        v2, freqs))
  }

  /** The frequencies listed between two places, none of them if the places are one. */
  ghost function FreqsAt(src: seq<byte>, start: nat, end: int): (r: Option<seq<nat>>)
    requires end <= |src|
    ensures r.Some? ==> |r.value| == SYMBOLS
  {
    if start == end then Some(seq(SYMBOLS, _ => 0))
    else
      ParseLength(Ahead(0, 0, src, start, end), SYMBOLS);
      Parse(Ahead(0, 0, src, start, end), SYMBOLS)
  }

  lemma {:induction false} ParseLength(s: seq<bool>, count: nat)
    ensures Parse(s, count).Some? ==> |Parse(s, count).value| == count
    decreases count
  {
    hide ParseOne;
    if count == 0 {
    } else if ParseOne(s).Some? {
      ParseLength(ParseOne(s).value.rest, count - 1);
    }
  }

  method ReadHeader(src: seq<byte>, p: nat) returns (r: Option<Header>)
    ensures r == HeaderAt(src, p)
  {
    hide HeaderOf, LittleEndian, Bitfield, Ahead, Parse;
    if p + FIXED > |src| {
      return None;
    }
    var v2 := LittleEndian(src[p + 24..p + 32]);
    var end := p + Bitfield(v2, 0, 32);
    if end > |src| {
      return None;
    }
    var freqs := ReadFreqs(src, p + FIXED, end);
    assert freqs == FreqsAt(src, p + FIXED, end);
    if freqs == None {
      return None;
    }
    return Some(HeaderOf(LittleEndian(src[p + 4..p + 8]), LittleEndian(src[p + 8..p + 16]), LittleEndian(src[p + 16..p + 24]),
                         v2, freqs.value));
  }

  // Writing words.

  /** A number and how many bits it has in a word. */
  datatype Field = Field(value: nat, width: nat)

  /** Numbers one above the other, the first one lowest. */
  function Pack(fields: seq<Field>): nat {
    if fields == [] then 0 else Shl(Pack(fields[1..]), fields[0].width) + fields[0].value
  }

  predicate PackOk(fields: seq<Field>) {
    forall i :: 0 <= i < |fields| ==> fields[i].value < Pow2(fields[i].width)
  }

  function TotalWidth(fields: seq<Field>): nat {
    if fields == [] then 0 else fields[0].width + TotalWidth(fields[1..])
  }

  lemma {:induction false} ShrTwice(v: nat, m: nat, n: nat)
    ensures Shr(Shr(v, m), n) == Shr(v, m + n)
  {
    if m == 0 {
    } else {
      ShrTwice(v / 2, m - 1, n);
    }
  }

  /** Each number is where those below it end. */
  lemma {:induction false} PackedField(fields: seq<Field>, i: nat)
    requires PackOk(fields) && i < |fields|
    ensures Bitfield(Pack(fields), TotalWidth(fields[..i]), fields[i].width) == fields[i].value
  {
    hide Shl, Shr, Low, Pow2;
    var first, rest := fields[0], fields[1..];
    assert first.value < Pow2(first.width);
    ShrOfShl(Pack(rest), first.value, first.width);
    if i == 0 {
      ShrNone(Pack(fields));
    } else {
      PackedField(rest, i - 1);
      assert fields[..i][1..] == rest[..i - 1];
      ShrTwice(Pack(fields), first.width, TotalWidth(rest[..i - 1]));
    }
  }

  lemma ShrNone(v: nat)
    ensures Shr(v, 0) == v
  {
  }

  lemma {:induction false} PackFits(fields: seq<Field>)
    requires PackOk(fields)
    ensures Pack(fields) < Pow2(TotalWidth(fields))
  {
    if fields == [] {
    } else {
      PackFits(fields[1..]);
      hide Pow2, Shl;
      ShlBits(Pack(fields[1..]), TotalWidth(fields[1..]), fields[0].value, fields[0].width);
    }
  }

  lemma {:induction false} RoomIsPow2(octets: nat)
    ensures Room(octets) == Pow2(8 * octets)
  {
    if octets == 0 {
    } else {
      RoomIsPow2(octets - 1);
      Pow2Is256();
      Pow2Add(8, 8 * (octets - 1));
    }
  }

  lemma WordRead(fields: seq<Field>)
    requires PackOk(fields) && TotalWidth(fields) <= 64
    ensures LittleEndian(Little(Pack(fields), 8)) == Pack(fields)
  {
    hide Pow2, Pack, Room;
    PackFits(fields);
    Pow2Monotone(TotalWidth(fields), 64);
    RoomIsPow2(8);
    LittleRead(Pack(fields), 8);
  }

  // Writing frequencies.

  /** Bits as bytes, the first bit lowest, the last byte filled with zeros. */
  function BytesOf(bits: seq<bool>): seq<byte> {
    if bits == [] then []
    else if |bits| <= 8 then [ByteOf(bits)] else [ByteOf(bits[..8])] + BytesOf(bits[8..])
  }

  function ByteOf(bits: seq<bool>): byte
    requires |bits| <= 8
  {
    LsbValueBound(bits);
    Pow2Is256();
    Pow2Monotone(|bits|, 8);
    LsbValue(bits)
  }

  lemma {:induction false} LowBitsOfValue(bits: seq<bool>, n: nat)
    requires |bits| <= n
    ensures bits <= LowBits(LsbValue(bits), n)
  {
    if bits == [] {
    } else {
      LowBitsOfValue(bits[1..], n - 1);
      var v := LsbValue(bits);
      assert v / 2 == LsbValue(bits[1..]) && (v % 2 == 1 <==> bits[0]);
      assert bits == [bits[0]] + bits[1..];
    }
  }

  lemma {:induction false} BytesHold(bits: seq<bool>)
    ensures bits <= ForwardBits(BytesOf(bits)) && (bits != [] ==> BytesOf(bits) != [])
  {
    hide LowBits, ByteOf, LsbValue;
    if bits == [] {
    } else if |bits| <= 8 {
      ByteHolds(bits);
      assert BytesOf(bits)[1..] == [];
    } else {
      var first, rest := bits[..8], bits[8..];
      ByteHolds(first);
      BytesHold(rest);
      assert BytesOf(bits)[1..] == BytesOf(rest);
      assert LowBits(ByteOf(first), 8) == first;
      assert bits == first + rest;
    }
  }

  lemma ByteHolds(bits: seq<bool>)
    requires |bits| <= 8
    ensures bits <= LowBits(ByteOf(bits), 8)
  {
    LowBitsOfValue(bits, 8);
  }

  // Writing a header.

  function Word0(h: Header): seq<Field>
    requires h.literalBits >= -7
  {
    [Field(h.literals, 20), Field(h.literalPayload, 20), Field(h.matches, 20), Field(h.literalBits + 7, 3)]
  }

  function Word1(h: Header): seq<Field>
    requires |h.literalState| == 4 && h.matchBits >= -7
  {
    [Field(h.literalState[0], 10), Field(h.literalState[1], 10), Field(h.literalState[2], 10),
     Field(h.literalState[3], 10), Field(h.matchPayload, 20), Field(h.matchBits + 7, 3)]
  }

  function Word2(h: Header): seq<Field> {
    [Field(h.headerSize, 32), Field(h.lState, 10), Field(h.mState, 10), Field(h.dState, 10)]
  }

  /** Frequencies that have codes. */
  predicate FreqsOk(h: Header) {
    && |h.lFreq| == |h.mFreq| == 20 && |h.dFreq| == 64 && |h.literalFreq| == 256
    && forall i :: 0 <= i < SYMBOLS ==> Frequencies(h)[i] < 1048
  }

  function FreqBytes(h: Header): seq<byte>
    requires FreqsOk(h)
  {
    BytesOf(Codes(Frequencies(h)))
  }

  /** Numbers that fit their fields, and a size that is the header's. */
  predicate HeaderOk(h: Header) {
    && h.rawBytes < Room(4) && |h.literalState| == 4 && h.literalBits >= -7 && h.matchBits >= -7
    && PackOk(Word0(h)) && PackOk(Word1(h)) && PackOk(Word2(h))
    && FreqsOk(h) && h.headerSize == FIXED + |FreqBytes(h)|
  }

  function WriteHeader(h: Header): (r: seq<byte>)
    requires HeaderOk(h)
    ensures |r| == h.headerSize
  {
    COMPRESSED + Little(h.rawBytes, 4) + Little(Pack(Word0(h)), 8) + Little(Pack(Word1(h)), 8) + Little(Pack(Word2(h)), 8)
    + FreqBytes(h)
  }

  lemma Word0Read(h: Header)
    requires h.literalBits >= -7 && PackOk(Word0(h))
    ensures var v := LittleEndian(Little(Pack(Word0(h)), 8));
      && Bitfield(v, 0, 20) == h.literals && Bitfield(v, 20, 20) == h.literalPayload && Bitfield(v, 40, 20) == h.matches
      && Bitfield(v, 60, 3) == h.literalBits + 7
  {
    var fields := Word0(h);
    Widths(fields);
    hide Bitfield, Pack, PackOk, TotalWidth;
    WordRead(fields);
    PackedField(fields, 0);
    PackedField(fields, 1);
    PackedField(fields, 2);
    PackedField(fields, 3);
  }

  lemma Word1Read(h: Header)
    requires |h.literalState| == 4 && h.matchBits >= -7 && PackOk(Word1(h))
    ensures var v := LittleEndian(Little(Pack(Word1(h)), 8));
      && Bitfield(v, 0, 10) == h.literalState[0] && Bitfield(v, 10, 10) == h.literalState[1]
      && Bitfield(v, 20, 10) == h.literalState[2] && Bitfield(v, 30, 10) == h.literalState[3]
      && Bitfield(v, 40, 20) == h.matchPayload && Bitfield(v, 60, 3) == h.matchBits + 7
  {
    var fields := Word1(h);
    Widths(fields);
    hide Bitfield, Pack, PackOk, TotalWidth;
    WordRead(fields);
    PackedField(fields, 0);
    PackedField(fields, 1);
    PackedField(fields, 2);
    PackedField(fields, 3);
    PackedField(fields, 4);
    PackedField(fields, 5);
  }

  lemma Word2Read(h: Header)
    requires PackOk(Word2(h))
    ensures var v := LittleEndian(Little(Pack(Word2(h)), 8));
      && Bitfield(v, 0, 32) == h.headerSize && Bitfield(v, 32, 10) == h.lState && Bitfield(v, 42, 10) == h.mState
      && Bitfield(v, 52, 10) == h.dState
  {
    var fields := Word2(h);
    Widths(fields);
    hide Bitfield, Pack, PackOk, TotalWidth;
    WordRead(fields);
    PackedField(fields, 0);
    PackedField(fields, 1);
    PackedField(fields, 2);
    PackedField(fields, 3);
  }

  /** The widths of a word's first fields, one by one. */
  lemma Widths(fields: seq<Field>)
    requires 4 <= |fields| <= 6
    ensures TotalWidth(fields[..0]) == 0
    ensures TotalWidth(fields[..1]) == fields[0].width
    ensures TotalWidth(fields[..2]) == fields[0].width + fields[1].width
    ensures TotalWidth(fields[..3]) == fields[0].width + fields[1].width + fields[2].width
    ensures TotalWidth(fields[..4]) == fields[0].width + fields[1].width + fields[2].width + fields[3].width
    ensures |fields| >= 5 ==> TotalWidth(fields[..5]) == TotalWidth(fields[..4]) + fields[4].width
    ensures |fields| == 4 ==> TotalWidth(fields) == TotalWidth(fields[..4])
    ensures |fields| == 6 ==> TotalWidth(fields) == TotalWidth(fields[..5]) + fields[5].width
  {
    hide TotalWidth;
    WidthNext(fields, 0);
    WidthNext(fields, 1);
    WidthNext(fields, 2);
    WidthNext(fields, 3);
    if |fields| >= 5 {
      WidthNext(fields, 4);
    }
    if |fields| == 6 {
      WidthNext(fields, 5);
    }
    assert fields[..|fields|] == fields;
  }

  lemma {:induction false} WidthNext(fields: seq<Field>, i: nat)
    requires i < |fields|
    ensures TotalWidth(fields[..i + 1]) == TotalWidth(fields[..i]) + fields[i].width && TotalWidth(fields[..0]) == 0
  {
    if i == 0 {
      assert fields[..1][1..] == [];
    } else {
      WidthNext(fields[1..], i - 1);
      assert fields[..i + 1][1..] == fields[1..][..i] && fields[..i][1..] == fields[1..][..i - 1];
    }
  }

  /** Where a header's parts are. */
  lemma HeaderParts(before: seq<byte>, h: Header, after: seq<byte>)
    requires HeaderOk(h)
    ensures var src, p := before + WriteHeader(h) + after, |before|;
      && p + h.headerSize <= |src|
      && src[p + 4..p + 8] == Little(h.rawBytes, 4) && src[p + 8..p + 16] == Little(Pack(Word0(h)), 8)
      && src[p + 16..p + 24] == Little(Pack(Word1(h)), 8) && src[p + 24..p + 32] == Little(Pack(Word2(h)), 8)
      && src[p + FIXED..p + h.headerSize] == FreqBytes(h)
  {
    hide Little, Pack, FreqBytes, Word0, Word1, Word2, PackOk, FreqsOk, Room;
  }

  /** The frequencies written are read back. */
  lemma FreqsReadBack(src: seq<byte>, start: nat, h: Header)
    requires FreqsOk(h) && start + |FreqBytes(h)| <= |src| && src[start..start + |FreqBytes(h)|] == FreqBytes(h)
    ensures FreqsAt(src, start, start + |FreqBytes(h)|) == Some(Frequencies(h))
  {
    var vs := Frequencies(h);
    hide Parse, Ahead, ForwardBits;
    CodesNone(vs);
    BytesHold(Codes(vs));
    ReadInvertsCodes(src, start, start + |FreqBytes(h)|, vs);
  }

  lemma CodesNone(vs: seq<nat>)
    requires vs != [] && forall i :: 0 <= i < |vs| ==> vs[i] < 1048
    ensures Codes(vs) != []
  {
  }

  /** Any header that fits its fields is read back, whatever is before and behind it. */
  lemma HeaderReadBack(before: seq<byte>, h: Header, after: seq<byte>)
    requires HeaderOk(h)
    ensures HeaderAt(before + WriteHeader(h) + after, |before|) == Some(h)
  {
    hide WriteHeader, LittleEndian, Little, Bitfield, Pack, PackOk, FreqBytes, FreqsAt, Room, Word0, Word1, Word2, FreqsOk;
    HeaderParts(before, h, after);
    Word0Read(h);
    Word1Read(h);
    Word2Read(h);
    LittleRead(h.rawBytes, 4);
    FreqsReadBack(before + WriteHeader(h) + after, |before| + FIXED, h);
    FreqsCut(h);
    assert h.literalState == [h.literalState[0], h.literalState[1], h.literalState[2], h.literalState[3]];
  }

  lemma FreqsCut(h: Header)
    requires FreqsOk(h)
    ensures var vs := Frequencies(h);
      vs[..20] == h.lFreq && vs[20..40] == h.mFreq && vs[40..104] == h.dFreq && vs[104..] == h.literalFreq
  {
  }
}
