/**
 * A whole LZFSE stream (tools/ftab/lzfse.py): compressed and stored blocks, read on from where the one before ended, to
 * the end mark. Decoding gives back what was written.
 */
module LzfseStream {
  import opened Bits
  import opened FreqCode
  import opened FseCoding
  import opened LmdValues
  import opened LzfseBlock
  import opened LzfseEncoding
  import opened LzfseHeader
  import opened LzParse
  import opened Options
  import opened Sequences

  const STORED: seq<byte> := [0x62, 0x76, 0x78, 0x2d]
  const END: seq<byte> := [0x62, 0x76, 0x78, 0x24]

  /** A block to be written: bytes as they are, with their count's four bytes, or a plan with its frequencies. */
  datatype Part =
    | Stored(count: seq<byte>, bytes: seq<byte>)
    | Compressed(f: Header, plan: Plan)

  ghost predicate PartOk(part: Part) {
    match part
    case Stored(count, bytes) => |count| == 4 && LittleEndian(count) == |bytes|
    case Compressed(f, plan) => Encodable(f, plan) && Fitting(f, plan)
  }

  /** Frequencies that fit their tables have codes. */
  lemma FreqsHaveCodes(f: Header, plan: Plan)
    requires Encodable(f, plan)
    ensures FreqsOk(f)
  {
    hide CanEncode, Ready;
    SmallPowers();
    var l, m := f.LiteralChannels(), f.MatchChannels();
    assert Fits(l[0]) && Fits(m[0]) && Fits(m[1]) && Fits(m[2]);
    assert l[0].freq == f.literalFreq && m[0].freq == f.lFreq && m[1].freq == f.mFreq && m[2].freq == f.dFreq;
  }

  /** Counts and sizes within their fields, and a header size that is the header's. */
  ghost predicate Fitting(f: Header, plan: Plan)
    requires Encodable(f, plan)
  {
    && f.rawBytes < Room(4) && |plan.literals| < Pow2(20) && |plan.matches| / 3 < Pow2(20)
    && |LiteralStream(f, plan).bytes| < Pow2(20) && |MatchStream(f, plan).bytes| < Pow2(20)
    && (FreqsHaveCodes(f, plan); f.headerSize == FIXED + |FreqBytes(f)|)
  }

  lemma {:induction false} CodesShort(vs: seq<nat>)
    requires forall i :: 0 <= i < |vs| ==> vs[i] < 1048
    ensures |Codes(vs)| <= 14 * |vs|
  {
    if vs == [] {
    } else {
      CodesShort(vs[1..]);
    }
  }

  lemma {:induction false} BytesShort(bits: seq<bool>)
    ensures |BytesOf(bits)| <= |bits|
  {
    if |bits| <= 8 {
    } else {
      BytesShort(bits[8..]);
    }
  }

  lemma HeaderSizeFits(f: Header)
    requires FreqsOk(f)
    ensures FIXED + |FreqBytes(f)| < Pow2(32)
  {
    hide Codes, BytesOf;
    CodesShort(Frequencies(f));
    BytesShort(Codes(Frequencies(f)));
    Pow2Is256();
    Pow2Add(8, 8);
    Pow2Monotone(16, 32);
  }

  /** A written block's numbers fit their fields. */
  lemma WrittenFits(f: Header, plan: Plan)
    requires Encodable(f, plan) && Fitting(f, plan)
    ensures var h := WrittenHeader(f, plan);
      && h.literalBits >= -7 && h.matchBits >= -7 && |h.literalState| == 4
      && PackOk(Word0(h)) && PackOk(Word1(h)) && PackOk(Word2(h))
  {
    hide Encodable, FreqBytes, FreqsOk, LiteralStream, MatchStream, Pow2, Fits;
    var h := WrittenHeader(f, plan);
    WrittenHeaderValid(f, plan);
    FreqsHaveCodes(f, plan);
    StreamPadding(f, plan);
    HeaderSizeFits(f);
    SmallPowers();
    StatesBelow(h);
    assert Pow2(3) == 8;
  }

  lemma StatesBelow(h: Header)
    requires h.Valid()
    ensures |h.literalState| == 4 && forall i :: 0 <= i < 4 ==> h.literalState[i] < Pow2(10)
    ensures h.lState < Pow2(10) && h.mState < Pow2(10) && h.dState < Pow2(10)
  {
    hide Fits, Pow2;
    Pow2Monotone(L_LOG, 10);
    Pow2Monotone(M_LOG, 10);
    Pow2Monotone(D_LOG, 10);
  }

  lemma StreamPadding(f: Header, plan: Plan)
    requires Encodable(f, plan)
    ensures -7 <= LiteralStream(f, plan).n <= 0 && -7 <= MatchStream(f, plan).n <= 0
  {
    hide CanEncodeAll, Ready;
  }

  /** A written block's header can be written. */
  lemma WrittenHeaderOk(f: Header, plan: Plan)
    requires Encodable(f, plan) && Fitting(f, plan)
    ensures HeaderOk(WrittenHeader(f, plan)) && WrittenHeader(f, plan).headerSize == f.headerSize
  {
    hide Encodable, LiteralStream, MatchStream, PackOk, Word0, Word1, Word2, Room, Codes, BytesOf;
    WrittenFits(f, plan);
    FreqsHaveCodes(f, plan);
    assert Frequencies(WrittenHeader(f, plan)) == Frequencies(f);
  }

  ghost predicate AllOk(parts: seq<Part>) {
    forall part :: part in parts ==> PartOk(part)
  }

  /** A compressed block's header. */
  ghost function BlockHeader(f: Header, plan: Plan): (r: seq<byte>)
    requires Encodable(f, plan) && Fitting(f, plan)
    ensures |r| == f.headerSize >= FIXED
  {
    WrittenHeaderOk(f, plan);
    WriteHeader(WrittenHeader(f, plan))
  }

  ghost function WritePart(part: Part): seq<byte>
    requires PartOk(part)
  {
    match part
    case Stored(count, bytes) => STORED + count + bytes
    case Compressed(f, plan) => BlockHeader(f, plan) + Payload(f, plan)
  }

  ghost function WriteParts(parts: seq<Part>): seq<byte>
    requires AllOk(parts)
  {
    if parts == [] then END else WritePart(parts[0]) + WriteParts(parts[1..])
  }

  /**
   * `more` is `out` and what a part adds to it: stored bytes, or the text of the block's raw size that its literals and
   * triples parse. A match may reach back into earlier blocks' output, but no distance is kept.
   */
  ghost predicate Adds(part: Part, out: seq<byte>, more: seq<byte>)
    requires PartOk(part)
  {
    match part
    case Stored(_, bytes) => more == out + bytes
    case Compressed(f, plan) =>
      LiteralsAreValues(f, plan);
      && |more| == |out| + f.rawBytes
      && Parses(more, out, Literals(plan), TokenValues(f.MatchChannels(), plan.matches), |plan.matches| / 3, 0)
  }

  /** `all` is `out` and what the parts add, one after another. */
  ghost predicate Outputs(parts: seq<Part>, out: seq<byte>, all: seq<byte>)
    requires AllOk(parts)
    decreases |parts|
  {
    if parts == [] then all == out
    else exists more :: Adds(parts[0], out, more) && Outputs(parts[1..], more, all)
  }

  lemma OutputsNone(out: seq<byte>)
    ensures forall all :: Outputs([], out, all) <==> all == out
  {
  }

  /** Outputs of parts, once what the first adds is known. */
  lemma OutputsNext(parts: seq<Part>, out: seq<byte>, more: Option<seq<byte>>)
    requires AllOk(parts) && parts != []
    requires forall text :: Adds(parts[0], out, text) <==> more == Some(text)
    ensures more == None ==> forall all :: !Outputs(parts, out, all)
    ensures more.Some? ==> forall all :: Outputs(parts, out, all) <==> Outputs(parts[1..], more.value, all)
  {
    hide Adds;
    if more.Some? {
      assert Adds(parts[0], out, more.value);
    }
  }

  lemma PartBegins(part: Part, rest: seq<byte>)
    requires PartOk(part)
    ensures 4 <= |WritePart(part) + rest| && (WritePart(part) + rest)[..4] == if part.Stored? then STORED else COMPRESSED
  {
    hide Payload, Encodable, Fitting, BlockHeader;
    match part
    case Stored(count, bytes) =>
      MarkFirst(STORED, count + bytes, rest);
      Associate(STORED, count, bytes);
    case Compressed(f, plan) =>
      var header := BlockHeader(f, plan);
      HeaderMarked(f, plan);
      MarkFirst(COMPRESSED, header[4..] + Payload(f, plan), rest);
      Associate(COMPRESSED, header[4..], Payload(f, plan));
      assert header == COMPRESSED + header[4..];
  }

  lemma HeaderMarked(f: Header, plan: Plan)
    requires Encodable(f, plan) && Fitting(f, plan)
    ensures BlockHeader(f, plan)[..4] == COMPRESSED
  {
    hide Encodable, Fitting, WrittenHeader, HeaderOk, FreqBytes, Little, Pack;
    WrittenHeaderOk(f, plan);
  }

  lemma MarkFirst(mark: seq<byte>, part: seq<byte>, rest: seq<byte>)
    ensures |mark| <= |mark + part + rest| && (mark + part + rest)[..|mark|] == mark
  {
  }

  lemma MarksDiffer()
    ensures END != STORED && END != COMPRESSED && STORED != COMPRESSED
  {
    assert END[3] != STORED[3] && END[3] != COMPRESSED[3] && STORED[3] != COMPRESSED[3];
  }

  /** What a stream's bytes begin with, by its first part. */
  lemma Begins(src: seq<byte>, p: nat, parts: seq<Part>, after: seq<byte>)
    requires p <= |src| && AllOk(parts) && src[p..] == WriteParts(parts) + after
    ensures p + 4 <= |src| && (src[p..p + 4] == END <==> parts == [])
    ensures parts != [] ==> AllOk(parts[1..]) && PartOk(parts[0])
    ensures parts != [] ==> (src[p..p + 4] == STORED <==> parts[0].Stored?)
    ensures parts != [] ==> src[p..] == WritePart(parts[0]) + (WriteParts(parts[1..]) + after)
  {
    hide WritePart, PartOk;
    MarksDiffer();
    if parts == [] {
      assert src[p..][..4] == END;
      assert src[p..p + 4] == src[p..][..4];
    } else {
      assert parts[0] in parts;
      var rest := WriteParts(parts[1..]) + after;
      Associate(WritePart(parts[0]), WriteParts(parts[1..]), after);
      PartBegins(parts[0], rest);
      assert src[p..p + 4] == src[p..][..4];
    }
  }

  /** Where a stored block's count and bytes are. */
  lemma StoredAt(src: seq<byte>, p: nat, count: seq<byte>, bytes: seq<byte>, after: seq<byte>)
    requires p <= |src| && |count| == 4 && LittleEndian(count) == |bytes| && src[p..] == STORED + count + bytes + after
    ensures p + 8 + |bytes| <= |src| && LittleEndian(src[p + 4..p + 8]) == |bytes|
    ensures src[p + 8..p + 8 + |bytes|] == bytes && src[p + 8 + |bytes|..] == after
  {
    hide LittleEndian;
    assert src[p + 4..p + 8] == src[p..][4..8] == count;
    assert src[p + 8..p + 8 + |bytes|] == src[p..][8..8 + |bytes|];
    assert src[p + 8 + |bytes|..] == src[p..][8 + |bytes|..];
  }

  /** A stored block: its bytes, and where it ends. */
  method CopyStored(src: seq<byte>, p: nat, out: seq<byte>, ghost part: Part, ghost after: seq<byte>)
    returns (more: seq<byte>, end: nat)
    requires part.Stored? && PartOk(part)
    requires p <= |src| && src[p..] == WritePart(part) + after
    ensures (forall text :: Adds(part, out, text) <==> text == more) && end <= |src| && src[end..] == after
  {
    hide LittleEndian;
    StoredAt(src, p, part.count, part.bytes, after);
    var n := LittleEndian(src[p + 4..p + 8]);
    return out + src[p + 8..p + 8 + n], p + 8 + n;
  }

  /** A block's header is read where the block begins. */
  lemma HeaderIsRead(src: seq<byte>, p: nat, part: Part, after: seq<byte>)
    requires part.Compressed? && PartOk(part) && p <= |src| && src[p..] == WritePart(part) + after
    ensures HeaderAt(src, p) == Some(WrittenHeader(part.f, part.plan))
    ensures src == src[..p] + BlockHeader(part.f, part.plan) + Payload(part.f, part.plan) + after
  {
    hide Encodable, Fitting, Payload, WrittenHeader, HeaderOk, HeaderAt, WriteHeader;
    var f, plan := part.f, part.plan;
    WrittenHeaderOk(f, plan);
    assert src == src[..p] + src[p..];
    var header, payload := BlockHeader(f, plan), Payload(f, plan);
    Associate(header, payload, after);
    Associate(src[..p], header, payload + after);
    HeaderReadBack(src[..p], WrittenHeader(f, plan), payload + after);
    Associate(src[..p] + header, payload, after);
  }

  /**
   * A block written for a plan decodes to the text that its literals and triples parse, wherever it is and whatever was
   * output before it; it fails exactly if there is none of the block's raw size.
   */
  method DecodeWritten(src: seq<byte>, p: nat, out: seq<byte>, ghost part: Part, ghost after: seq<byte>)
    returns (r: Option<Block>)
    requires part.Compressed? && PartOk(part) && p <= |src| && src[p..] == WritePart(part) + after
    ensures forall text :: Adds(part, out, text) <==> r.Some? && r.value.out == text
    ensures r.Some? ==> p <= r.value.end <= |src| && src[r.value.end..] == after
  {
    hide CanEncodeAll, Ready, Header.Valid, WriteStream, BlockHolds, IsWritten, Parses, TokenValues, Literals, Fitting;
    hide HeaderAt, BlockHeader;
    ghost var f, plan := part.f, part.plan;
    HeaderIsRead(src, p, part, after);
    var h := ReadHeader(src, p);
    WrittenHeaderValid(f, plan);
    LiteralsAreValues(f, plan);
    BlockIsWritten(src[..p], BlockHeader(f, plan), f, plan, after);
    WrittenBlockHolds(src, p, h.value, plan, Literals(plan));
    r := DecodeFseBlock(src, p, h.value, out, 0, Literals(plan), TokenValues(f.MatchChannels(), plan.matches));
  }

  /** A stream of written blocks decodes to their output, one after another; what follows the end mark is not read. */
  method Decompress(src: seq<byte>, ghost parts: seq<Part>, ghost after: seq<byte>) returns (r: Option<seq<byte>>)
    requires AllOk(parts)
    requires src == WriteParts(parts) + after
    ensures forall all :: Outputs(parts, [], all) <==> r == Some(all)
  {
    hide WriteParts, WritePart, AllOk, PartOk, Adds, Outputs, Encodable;
    var out: seq<byte> := [];
    var p: nat := 0;
    ghost var left := parts;
    assert src[0..] == src;
    Begins(src, 0, parts, after);
    while src[p..p + 4] != END
      invariant p + 4 <= |src| && AllOk(left) && src[p..] == WriteParts(left) + after
      invariant src[p..p + 4] == END <==> left == []
      invariant forall all :: Outputs(parts, [], all) <==> Outputs(left, out, all)
      decreases |left|
    {
      Begins(src, p, left, after);
      ghost var rest := WriteParts(left[1..]) + after;
      if src[p..p + 4] == STORED {
        ghost var before := out;
        out, p := CopyStored(src, p, out, left[0], rest);
        OutputsNext(left, before, Some(out));
      } else {
        var b := DecodeWritten(src, p, out, left[0], rest);
        OutputsNext(left, out, if b == None then None else Some(b.value.out));
        if b == None {
          return None;
        }
        out, p := b.value.out, b.value.end;
      }
      left := left[1..];
      Begins(src, p, left, after);
    }
    OutputsNone(out);
    return Some(out);
  }
}
