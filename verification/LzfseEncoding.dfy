/**
 * The reference encoder's side of an LZFSE block: symbols coded in reverse onto a stack of bits, the stack written out
 * as bytes behind whatever precedes them. Decoding what it writes gives back the literals and triples.
 */
module LzfseEncoding {
  import opened BackwardReader
  import opened Bits
  import opened FseCoding
  import opened FseTables
  import opened LmdValues
  import opened LzfseBlock
  import opened Sequences

  /** A stack of bits as bytes: its last eight bits are the first byte, its first bits the last one, under zeros. */
  function Packed(bits: seq<bool>): seq<byte> {
    if bits == [] then []
    else if |bits| <= 8 then [AsByte(bits)]
    else [AsByte(bits[|bits| - 8..])] + Packed(bits[..|bits| - 8])
  }

  function AsByte(bits: seq<bool>): byte
    requires |bits| <= 8
  {
    Pow2Is256();
    Pow2Monotone(|bits|, 8);
    ValueOf(bits)
  }

  /** How many of the top byte's bits are padding. */
  function Padding(bits: seq<bool>): (n: int)
    ensures 0 <= n < 8
  {
    if bits == [] then 0 else if |bits| <= 8 then 8 - |bits| else Padding(bits[..|bits| - 8])
  }

  lemma {:induction false} PackedBits(bits: seq<bool>)
    ensures BackwardBits(Packed(bits)) == Zeros(Padding(bits)) + bits
  {
    hide AsByte, BackwardBits, BitsOf;
    if bits == [] {
    } else if |bits| <= 8 {
      ByteBits(bits);
      BackwardBitsCons(AsByte(bits), []);
      assert [AsByte(bits)] + [] == Packed(bits);
    } else {
      var low, high := bits[|bits| - 8..], bits[..|bits| - 8];
      PackedBits(high);
      ByteBits(low);
      BackwardBitsCons(AsByte(low), Packed(high));
      assert Zeros(0) + low == low;
      assert Zeros(Padding(bits)) + high + low == Zeros(Padding(bits)) + bits;
    }
  }

  lemma BackwardBitsCons(b: byte, rest: seq<byte>)
    ensures BackwardBits([b] + rest) == BackwardBits(rest) + BitsOf(b, 8)
  {
    assert ([b] + rest)[1..] == rest;
  }

  lemma ByteBits(bits: seq<bool>)
    requires |bits| <= 8
    ensures BitsOf(AsByte(bits), 8) == Zeros(8 - |bits|) + bits
  {
    var v, pad, n := ValueOf(bits), 8 - |bits|, |bits|;
    ShrBits(v, pad, n);
    ShrZero(v, n);
    BitsOfZero(pad);
    BitsOfValueOf(bits);
    assert BitsOf(v, pad + n) == BitsOf(Shr(v, n), pad) + BitsOf(Low(v, n), n);
  }

  /** Bytes packed behind `head` open as a stream of those bits above the bits of `head`. */
  lemma PackedOpens(head: seq<byte>, bits: seq<bool>)
    requires |head| >= 8
    ensures Opens(head + Packed(bits), -Padding(bits))
    ensures StreamBits(head + Packed(bits), -Padding(bits)) == bits + BackwardBits(head)
  {
    hide BackwardBits, Packed, Padding;
    BackwardBitsConcat(head, Packed(bits));
    PackedBits(bits);
    var pad := Padding(bits);
    Associate(Zeros(pad), bits, BackwardBits(head));
    Halves(Zeros(pad), bits + BackwardBits(head));
  }

  lemma EncodeNone(chs: seq<Channel>, toks: seq<Token>, final: seq<nat>, rest: seq<bool>)
    requires CanEncodeAll(chs, toks) && Ready(chs, final)
    ensures Encode(chs, toks, |toks|, final, rest) == Encoded(final, rest)
  {
  }

  /** A symbol's bits depend on the states alone. */
  lemma EncodeNext(chs: seq<Channel>, toks: seq<Token>, k: nat, final: seq<nat>, rest: seq<bool>, rest': seq<bool>)
    returns (bits: seq<bool>)
    requires CanEncodeAll(chs, toks) && Ready(chs, final) && k < |toks|
    requires Encode(chs, toks, k + 1, final, rest).states == Encode(chs, toks, k + 1, final, rest').states
    ensures Encode(chs, toks, k, final, rest).bits == bits + Encode(chs, toks, k + 1, final, rest).bits
    ensures Encode(chs, toks, k, final, rest').bits == bits + Encode(chs, toks, k + 1, final, rest').bits
    ensures Encode(chs, toks, k, final, rest).states == Encode(chs, toks, k, final, rest').states
  {
    hide EncodeState, EncodeBits;
    var c := Turn(k, |chs|);
    bits := EncodeBits(chs[c], toks[k], Encode(chs, toks, k + 1, final, rest).states[c]);
  }

  /** What symbols are encoded as does not depend on what lies below. */
  lemma {:induction false} EncodeAbove(chs: seq<Channel>, toks: seq<Token>, k: nat, final: seq<nat>, rest: seq<bool>)
    requires CanEncodeAll(chs, toks) && Ready(chs, final) && k <= |toks|
    ensures var bare, e := Encode(chs, toks, k, final, []), Encode(chs, toks, k, final, rest);
      e.states == bare.states && e.bits == bare.bits + rest
    decreases |toks| - k
  {
    hide *;
    if k == |toks| {
      EncodeNone(chs, toks, final, []);
      EncodeNone(chs, toks, final, rest);
      assert [] + rest == rest;
    } else {
      EncodeAbove(chs, toks, k + 1, final, rest);
      var bits := EncodeNext(chs, toks, k, final, [], rest);
      Associate(bits, Encode(chs, toks, k + 1, final, []).bits, rest);
    }
  }

  /** Symbols encoded to states to start from, and bytes whose last -n bits are padding. */
  datatype Written = Written(states: seq<nat>, bytes: seq<byte>, n: int)

  ghost function WriteStream(chs: seq<Channel>, toks: seq<Token>, final: seq<nat>): Written
    requires CanEncodeAll(chs, toks) && Ready(chs, final)
  {
    var e := Encode(chs, toks, 0, final, []);
    Written(e.states, Packed(e.bits), -Padding(e.bits))
  }

  /** A written stream, behind any eight bytes or more, holds the symbols' values. */
  lemma WrittenStreamHolds(chs: seq<Channel>, toks: seq<Token>, final: seq<nat>, head: seq<byte>)
    requires CanEncodeAll(chs, toks) && Ready(chs, final) && |head| >= 8
    ensures var w := WriteStream(chs, toks, final);
      StreamHolds(chs, w.states, |toks|, head + w.bytes, w.n, TokenValues(chs, toks))
  {
    hide Ready, CanEncodeAll, Fits, CanEncode, Opens, StreamBits, BackwardBits, Packed, Padding, Encode, Decode, TokenValues;
    var bare, below := Encode(chs, toks, 0, final, []), BackwardBits(head);
    PackedOpens(head, bare.bits);
    EncodeAbove(chs, toks, 0, final, below);
    DecodeInvertsEncode(chs, toks, final, below);
  }

  /** What a block is written from: its literals and triples as symbols, and the states decoding is to end in. */
  datatype Plan = Plan(literals: seq<Token>, matches: seq<Token>, literalFinal: seq<nat>, matchFinal: seq<nat>)

  /** A header that fits a plan, both payloads where it says. */
  ghost predicate IsWritten(src: seq<byte>, p: nat, h: Header, plan: Plan) {
    && h.Valid() && h.headerSize >= 32 && MatchEnd(p, h) <= |src|
    && CanEncodeAll(h.LiteralChannels(), plan.literals) && Ready(h.LiteralChannels(), plan.literalFinal)
    && CanEncodeAll(h.MatchChannels(), plan.matches) && Ready(h.MatchChannels(), plan.matchFinal)
    && var l, m := WriteStream(h.LiteralChannels(), plan.literals, plan.literalFinal),
                   WriteStream(h.MatchChannels(), plan.matches, plan.matchFinal);
       var payload, lmd := p + h.headerSize, LiteralEnd(p, h);
       && h.literals == |plan.literals| && h.literals % 4 == 0 && 3 * h.matches == |plan.matches|
       && h.literalState == l.states && h.literalBits == l.n && src[payload..lmd] == l.bytes
       && h.MatchStates() == m.states && h.matchBits == m.n && src[lmd..MatchEnd(p, h)] == m.bytes
  }

  /**
   * The decoder inverts the encoder: a written block holds exactly the plan's literals and triples, so decoding it
   * replays them.
   */
  lemma WrittenBlockHolds(src: seq<byte>, p: nat, h: Header, plan: Plan, lits: seq<byte>)
    requires IsWritten(src, p, h, plan) && lits == TokenValues(h.LiteralChannels(), plan.literals)
    ensures BlockHolds(src, p, h, lits, TokenValues(h.MatchChannels(), plan.matches))
  {
    hide Ready, CanEncodeAll, Fits, CanEncode, StreamHolds, WriteStream, TokenValues;
    var payload, lmd, end := p + h.headerSize, LiteralEnd(p, h), MatchEnd(p, h);
    WrittenStreamHolds(h.LiteralChannels(), plan.literals, plan.literalFinal, src[..payload]);
    WrittenStreamHolds(h.MatchChannels(), plan.matches, plan.matchFinal, src[..lmd]);
    assert src[..payload] + src[payload..lmd] == src[..lmd];
    assert src[..lmd] + src[lmd..end] == src[..end];
  }

  // Writing a block.

  /** Frequencies that fill their tables at most, and a plan whose symbols all occur in them. */
  ghost predicate Encodable(f: Header, plan: Plan) {
    && f.headerSize >= 32
    && |f.lFreq| == |f.mFreq| == 20 && |f.dFreq| == 64 && |f.literalFreq| == 256
    && CanEncodeAll(f.LiteralChannels(), plan.literals) && Ready(f.LiteralChannels(), plan.literalFinal)
    && CanEncodeAll(f.MatchChannels(), plan.matches) && Ready(f.MatchChannels(), plan.matchFinal)
    && |plan.literals| % 4 == 0 && |plan.matches| % 3 == 0
  }

  ghost function LiteralStream(f: Header, plan: Plan): Written
    requires Encodable(f, plan)
  {
    WriteStream(f.LiteralChannels(), plan.literals, plan.literalFinal)
  }

  ghost function MatchStream(f: Header, plan: Plan): Written
    requires Encodable(f, plan)
  {
    WriteStream(f.MatchChannels(), plan.matches, plan.matchFinal)
  }

  lemma StreamStates(chs: seq<Channel>, toks: seq<Token>, final: seq<nat>)
    requires CanEncodeAll(chs, toks) && Ready(chs, final)
    ensures Ready(chs, WriteStream(chs, toks, final).states)
  {
  }

  /** The header of a plan written with the frequencies, size and raw size of `f`. */
  ghost function WrittenHeader(f: Header, plan: Plan): (h: Header)
    requires Encodable(f, plan)
    ensures h.LiteralChannels() == f.LiteralChannels() && h.MatchChannels() == f.MatchChannels()
  {
    var l, m := LiteralStream(f, plan), MatchStream(f, plan);
    StreamStates(f.LiteralChannels(), plan.literals, plan.literalFinal);
    StreamStates(f.MatchChannels(), plan.matches, plan.matchFinal);
    f.(literals := |plan.literals|, literalPayload := |l.bytes|, literalBits := l.n, literalState := l.states,
       matches := |plan.matches| / 3, matchPayload := |m.bytes|, matchBits := m.n,
       lState := m.states[0], mState := m.states[1], dState := m.states[2])
  }

  ghost function Payload(f: Header, plan: Plan): seq<byte>
    requires Encodable(f, plan)
  {
    LiteralStream(f, plan).bytes + MatchStream(f, plan).bytes
  }

  lemma WrittenHeaderValid(f: Header, plan: Plan)
    requires Encodable(f, plan)
    ensures WrittenHeader(f, plan).Valid() && WrittenHeader(f, plan).MatchStates() == MatchStream(f, plan).states
  {
    hide WriteStream, CanEncode;
    var h, l, m := WrittenHeader(f, plan), f.LiteralChannels(), f.MatchChannels();
    StreamStates(l, plan.literals, plan.literalFinal);
    StreamStates(m, plan.matches, plan.matchFinal);
    assert Fits(l[0]);
    assert h.MatchStates() == MatchStream(f, plan).states;
    assert h.mState == MatchStream(f, plan).states[1] && h.dState == MatchStream(f, plan).states[2];
    assert m[0].n == L_LOG && m[1].n == M_LOG && m[2].n == D_LOG && forall i :: 0 <= i < 4 ==> l[i].n == LIT_LOG;
  }

  /** Every encodable plan can be written, behind and before anything. */
  lemma BlockIsWritten(before: seq<byte>, header: seq<byte>, f: Header, plan: Plan, after: seq<byte>)
    requires Encodable(f, plan) && |header| == f.headerSize
    ensures IsWritten(before + header + Payload(f, plan) + after, |before|, WrittenHeader(f, plan), plan)
  {
    hide Ready, CanEncodeAll, WriteStream;
    WrittenHeaderValid(f, plan);
    var src, l, m := before + header + Payload(f, plan) + after, LiteralStream(f, plan).bytes, MatchStream(f, plan).bytes;
    var at := |before + header|;
    assert src[at..at + |l|] == l && src[at + |l|..at + |l| + |m|] == m;
  }

  /** A block's literals: their symbols. */
  function Literals(plan: Plan): seq<byte>
    requires forall i :: 0 <= i < |plan.literals| ==> plan.literals[i].sym < 256
  {
    seq(|plan.literals|, i requires 0 <= i < |plan.literals| => plan.literals[i].sym)
  }

  lemma LiteralsAreValues(f: Header, plan: Plan)
    requires Encodable(f, plan)
    ensures forall i :: 0 <= i < |plan.literals| ==> plan.literals[i].sym < 256
    ensures Literals(plan) == TokenValues(f.LiteralChannels(), plan.literals)
  {
    var chs := f.LiteralChannels();
    assert forall i :: 0 <= i < |plan.literals| ==> CanEncode(chs[Turn(i, 4)], plan.literals[i]);
  }
}
