/**
 * A compressed block of an LZFSE stream (tools/ftab/lzfse.py): literals from four interleaved tANS states, then
 * length, length and distance triples from three, replayed as LZ matches.
 */
module LzfseBlock {
  import opened BackwardReader
  import opened Bits
  import opened FseCoding
  import opened FseTables
  import opened LmdValues
  import opened LzCopy
  import opened LzParse
  import opened Options

  const LIT_LOG: nat := 10
  const L_LOG: nat := 6
  const M_LOG: nat := 6
  const D_LOG: nat := 8

  /** What a block's header says, its frequencies read. */
  datatype Header = Header(
    rawBytes: nat, headerSize: nat,
    literals: nat, literalPayload: nat, literalBits: int, literalState: seq<nat>,
    matches: nat, matchPayload: nat, matchBits: int, lState: nat, mState: nat, dState: nat,
    lFreq: seq<nat>, mFreq: seq<nat>, dFreq: seq<nat>, literalFreq: seq<nat>)
  {
    /** Table sizes and state ranges; frequencies that fill their tables at most. */
    ghost predicate Valid() {
      && |lFreq| == |mFreq| == 20 && |dFreq| == 64 && |literalFreq| == 256
      && Fits(LitChannel(LIT_LOG, literalFreq))
      && (forall c :: 0 <= c < 3 ==> Fits(MatchChannels()[c]))
      && |literalState| == 4 && (forall i :: 0 <= i < 4 ==> literalState[i] < Pow2(LIT_LOG))
      && lState < Pow2(L_LOG) && mState < Pow2(M_LOG) && dState < Pow2(D_LOG)
    }

    ghost function LiteralChannels(): seq<Channel> {
      var c := LitChannel(LIT_LOG, literalFreq);
      [c, c, c, c]
    }

    ghost function MatchChannels(): seq<Channel> {
      [Channel(L_LOG, lFreq, L_EXTRA, L_BASE), Channel(M_LOG, mFreq, M_EXTRA, M_BASE),
       Channel(D_LOG, dFreq, D_EXTRA, D_BASE)]
    }

    function MatchStates(): seq<nat> {
      [lState, mState, dState]
    }
  }

  // Reading a block's two bit streams.

  /** A bit stream's bits, the last of its bytes first, without its padding. */
  ghost function StreamBits(bytes: seq<byte>, n: int): seq<bool>
    requires |bytes| >= 8 && Opens(bytes, n)
  {
    BackwardBits(bytes)[-n..]
  }

  /** A stream to decode: its channels, the states it starts from, and its bits. */
  datatype Stream = Stream(chs: seq<Channel>, initial: seq<nat>, bits: seq<bool>) {
    ghost predicate Valid() {
      Ready(chs, initial)
    }

    /** Its first `count` symbols are `values`. */
    ghost predicate DecodesTo(count: nat, values: seq<nat>) {
      Valid() && Decode(chs, initial, count, bits).Some? && Decode(chs, initial, count, bits).value.values == values
    }

    /** Reading `count` symbols never runs dry: at least 64 bits lie below what they pop. */
    ghost predicate Ample(count: nat) {
      Valid() && Decode(chs, initial, count, bits).Some? && |Decode(chs, initial, count, bits).value.rest| >= 64
    }

    /** What reading them gives. */
    ghost function Symbols(count: nat): (values: seq<nat>)
      requires Ample(count)
      ensures |values| == count && DecodesTo(count, values)
    {
      Decode(chs, initial, count, bits).value.values
    }

    /** i symbols were read, `values`, leaving `states` and `rest`, when `zeros` are read below the stream's own bits. */
    ghost predicate Reading(i: nat, zeros: nat, values: seq<nat>, states: seq<nat>, rest: seq<bool>) {
      && Valid() && Ready(chs, states)
      && Decode(chs, initial, i, bits + Zeros(zeros)) == Some(Decoded(values, states, rest))
    }

    ghost predicate ReadingBytes(i: nat, zeros: nat, values: seq<byte>, states: seq<nat>, rest: seq<bool>) {
      Reading(i, zeros, values, states, rest)
    }

    ghost function Below(zeros: nat): Stream {
      Stream(chs, initial, bits + Zeros(zeros))
    }
  }

  lemma ReadingStarts(s: Stream)
    requires s.Valid()
    ensures s.Reading(0, 0, [], s.initial, s.bits)
  {
    assert s.bits + Zeros(0) == s.bits;
  }

  lemma ReadingEnds(s: Stream, i: nat, zeros: nat, values: seq<nat>, states: seq<nat>, rest: seq<bool>)
    requires s.Reading(i, zeros, values, states, rest)
    ensures s.Below(zeros).DecodesTo(i, values)
    ensures s.Ample(i) ==> s.DecodesTo(i, values)
  {
    if s.Ample(i) {
      DecodeAbove(s.chs, s.initial, i, s.bits, Zeros(zeros));
    }
  }

  lemma ReadingBelow(s: Stream, i: nat, zeros: nat, values: seq<nat>, states: seq<nat>, rest: seq<bool>, more: nat)
    requires s.Reading(i, zeros, values, states, rest)
    ensures s.Reading(i, zeros + more, values, states, rest + Zeros(more))
  {
    DecodeAbove(s.chs, s.initial, i, s.bits + Zeros(zeros), Zeros(more));
    assert s.bits + Zeros(zeros) + Zeros(more) == s.bits + Zeros(zeros + more);
  }

  /** While reading an ample stream at least 64 bits are left. */
  lemma ReadingAmple(s: Stream, i: nat, count: nat, zeros: nat, values: seq<nat>, states: seq<nat>, rest: seq<bool>)
    requires s.Reading(i, zeros, values, states, rest) && s.Ample(count) && i <= count
    ensures |rest| >= 64
  {
    DecodePops(s.chs, s.initial, i, count, s.bits);
    DecodeAbove(s.chs, s.initial, i, s.bits, Zeros(zeros));
  }

  /** A refill goes on reading the same stream; it fails only on one that is not ample. */
  method Refill(bs: BackBits, ghost s: Stream, ghost i: nat, ghost count: nat, ghost zeros: nat,
                ghost values: seq<nat>, ghost states: seq<nat>)
    returns (ok: bool, ghost below: nat)
    requires bs.Valid() && i <= count && s.Reading(i, zeros, values, states, bs.Stack())
    modifies bs
    ensures bs.Valid() && (ok ==> bs.nbits >= 56 && s.Reading(i, below, values, states, bs.Stack()))
    ensures s.Ample(count) ==> ok
  {
    hide *;
    if s.Ample(count) {
      ReadingAmple(s, i, count, zeros, values, states, bs.Stack());
    }
    ghost var rest := bs.Stack();
    ghost var pad;
    ok, pad := bs.Flush();
    ReadingBelow(s, i, zeros, values, states, rest, pad);
    below := zeros + pad;
  }

  /** Pulls one symbol: its channel's next state, and the value with its own bits. */
  method PullValue(bs: BackBits, e: ValSlot, ghost s: Stream, ghost i: nat, ghost zeros: nat,
                   ghost values: seq<nat>, ghost states: seq<nat>, c: nat)
    returns (state: nat, value: nat)
    requires bs.Valid() && s.Reading(i, zeros, values, states, bs.Stack())
    requires c == Turn(i, |s.chs|) && e == s.chs[c].Table()[states[c]] && e.total <= bs.nbits
    modifies bs
    ensures bs.Valid() && bs.nbits == old(bs.nbits) - e.total
    ensures s.Reading(i + 1, zeros, values + [value], states[c := state], bs.Stack())
    ensures e.extra == 0 ==> value == e.base
  {
    hide *;
    ghost var rest := bs.Stack();
    var x := bs.Pull(e.total);
    ReadingPulled(s, i, zeros, values, states, rest, c, x);
    state := e.delta + Shr(x, e.extra);
    value := e.base + Low(x, e.extra);
  }

  lemma ReadingPulled(s: Stream, i: nat, zeros: nat, values: seq<nat>, states: seq<nat>, rest: seq<bool>, c: nat, x: nat)
    requires s.Reading(i, zeros, values, states, rest) && c == Turn(i, |s.chs|)
    requires var e := s.chs[c].Table()[states[c]];
      e.total <= |rest| && x < Pow2(e.total) && BitsOf(x, e.total) == rest[..e.total]
    ensures var e := s.chs[c].Table()[states[c]];
      && 0 <= e.delta
      && s.Reading(i + 1, zeros, values + [e.base + Low(x, e.extra)],
                   states[c := e.delta + Shr(x, e.extra)], rest[e.total..])
      && (e.extra == 0 ==> Low(x, e.extra) == 0)
  {
    hide *;
    ReadingIs(s, i, zeros, values, states, rest);
    PullIsStep(s.chs[c], states[c], rest, x);
    var e := s.chs[c].Table()[states[c]];
    ReadingNext(s, i, zeros, values, states, rest, c,
                Stepped(e.base + Low(x, e.extra), e.delta + Shr(x, e.extra), rest[e.total..]));
  }

  lemma ReadingIs(s: Stream, i: nat, zeros: nat, values: seq<nat>, states: seq<nat>, rest: seq<bool>)
    requires s.Reading(i, zeros, values, states, rest)
    ensures s.Valid() && Ready(s.chs, states) && |s.chs| == |states|
    ensures forall c :: 0 <= c < |states| ==> s.chs[c].Valid() && states[c] < Pow2(s.chs[c].n)
  {
  }

  lemma ReadingNext(s: Stream, i: nat, zeros: nat, values: seq<nat>, states: seq<nat>, rest: seq<bool>, c: nat, next: Stepped)
    requires s.Reading(i, zeros, values, states, rest) && c == Turn(i, |s.chs|)
    requires Step(s.chs[c], states[c], rest) == Some(next)
    ensures s.Reading(i + 1, zeros, values + [next.value], states[c := next.state], next.rest)
  {
    hide Step, Turn;
  }

  lemma PullIsStep(ch: Channel, s: nat, rest: seq<bool>, x: nat)
    requires ch.Valid() && s < Pow2(ch.n)
    requires var e := ch.Table()[s];
      e.total <= |rest| && x < Pow2(e.total) && BitsOf(x, e.total) == rest[..e.total]
    ensures var e := ch.Table()[s];
      && 0 <= e.delta
      && Step(ch, s, rest) == Some(Stepped(e.base + Low(x, e.extra), e.delta + Shr(x, e.extra), rest[e.total..]))
      && (e.extra == 0 ==> Low(x, e.extra) == 0)
  {
    ValueOfBitsOf(x, ch.Table()[s].total);
    NextStateInRange(ch, s, x);
  }

  ghost predicate IsLiteralTable(t: seq<LitSlot>, ch: Channel) {
    && ch.Valid() && ch.n == LIT_LOG && AsValSlots(t) == ch.Table()
    && forall i :: 0 <= i < |ch.freq| ==> ch.extra[i] == 0 && ch.base[i] < 256
  }

  lemma LiteralSlot(t: seq<LitSlot>, ch: Channel, s: nat)
    requires IsLiteralTable(t, ch) && s < Pow2(ch.n)
    ensures s < |t| && AsValSlot(t[s]) == ch.Table()[s] && t[s].bits <= 10 && t[s].sym < 256
  {
    NextStateInRange(ch, s, 0);
    SlotBounds(ch, s, 0, 255);
    assert AsValSlots(t)[s] == AsValSlot(t[s]);
  }

  /** No slot has more bits of its own, or a greater base, than any symbol does. */
  lemma SlotBounds(ch: Channel, s: nat, extra: nat, base: nat)
    requires ch.Valid() && s < |ch.Table()|
    requires forall i :: 0 <= i < |ch.freq| ==> ch.extra[i] <= extra && ch.base[i] <= base
    ensures ch.Table()[s].extra <= extra && ch.Table()[s].base <= base
  {
    if s < Sum(ch.freq, |ch.freq|) {
      var sym, j := SlotOwner(ch, |ch.freq|, s);
    }
  }

  lemma {:induction false} TurnOf(group: nat, m: nat, k: nat)
    requires k < m
    ensures Turn(m * group + k, m) == k
  {
    if group == 0 {
    } else {
      TurnOf(group - 1, m, k);
      assert m * group + k - m == m * (group - 1) + k;
    }
  }

  /** The four literal states are read with one table. */
  ghost predicate IsLiteralStream(s: Stream, t: seq<LitSlot>) {
    s.Valid() && |s.chs| == 4 && forall k :: 0 <= k < 4 ==> IsLiteralTable(t, s.chs[k])
  }

  /** One literal of a group, the k-th. */
  method PullLiteral(bs: BackBits, t: seq<LitSlot>, st: seq<nat>, k: nat,
                     ghost s: Stream, ghost group: nat, ghost i: nat, ghost zeros: nat, ghost values: seq<byte>)
    returns (sym: byte, after: seq<nat>)
    requires bs.Valid() && bs.nbits >= 10 && k < 4 && i == 4 * group + k
    requires IsLiteralStream(s, t) && s.ReadingBytes(i, zeros, values, st, bs.Stack())
    modifies bs
    ensures bs.Valid() && bs.nbits >= old(bs.nbits) - 10
    ensures s.ReadingBytes(i + 1, zeros, values + [sym], after, bs.Stack())
  {
    LiteralSlot(t, s.chs[k], st[k]);
    TurnOf(group, 4, k);
    var e := t[st[k]];
    var state, value := PullValue(bs, AsValSlot(e), s, i, zeros, values, st, k);
    return e.sym, st[k := state];
  }

  /** A group of four literals; false once they run past the buffer. */
  method DecodeGroup(bs: BackBits, t: seq<LitSlot>, lits: array<byte>, i: nat, states: seq<nat>,
                     ghost s: Stream, ghost group: nat, ghost zeros: nat)
    returns (ok: bool, st: seq<nat>)
    requires bs.Valid() && bs.nbits >= 56 && i == 4 * group && i < lits.Length
    requires IsLiteralStream(s, t) && s.ReadingBytes(i, zeros, lits[..i], states, bs.Stack())
    modifies bs, lits
    ensures bs.Valid()
    ensures ok <==> i + 4 <= lits.Length
    ensures ok ==> s.ReadingBytes(i + 4, zeros, lits[..i + 4], st, bs.Stack())
  {
    hide *;
    st := states;
    for k := 0 to 4
      invariant bs.Valid() && bs.nbits >= 56 - 10 * k && i + k <= lits.Length
      invariant s.ReadingBytes(i + k, zeros, lits[..i + k], st, bs.Stack())
    {
      ghost var read := lits[..i + k];
      var sym, after := PullLiteral(bs, t, st, k, s, group, i + k, zeros, read);
      if i + k >= lits.Length {
        return false, st;
      }
      lits[i + k] := sym;
      assert lits[..i + k + 1] == read + [sym];
      st := after;
    }
    return true, st;
  }

  /** The literals, four for each refill. None is a stream that cannot be opened or refilled, or an incomplete group. */
  method DecodeLiterals(src: seq<byte>, end: nat, n: int, initial: seq<nat>, t: seq<LitSlot>, count: nat, ghost s: Stream)
    returns (r: Option<seq<byte>>, ghost zeros: nat)
    requires 8 <= end <= |src| && IsLiteralStream(s, t) && s.initial == initial
    requires Opens(src[..end], n) ==> s.bits == StreamBits(src[..end], n)
    ensures r.Some? ==> Opens(src[..end], n) && count % 4 == 0 && s.Below(zeros).DecodesTo(count, r.value)
    ensures Opens(src[..end], n) && count % 4 == 0 && s.Ample(count) ==> r.Some? && s.DecodesTo(count, r.value)
  {
    zeros := 0;
    var bs := BackBits.Open(src, end, n);
    if bs == null {
      return None, 0;
    }
    ReadingStarts(s);
    var st := initial;
    var lits := new byte[count];
    var i := 0;
    ghost var group := 0;
    while i < count
      invariant i == 4 * group && i <= count && bs.Valid() && fresh(bs) && fresh(lits) && lits.Length == count
      invariant s.ReadingBytes(i, zeros, lits[..i], st, bs.Stack())
    {
      var ok;
      ok, zeros := Refill(bs, s, i, count, zeros, lits[..i], st);
      if !ok {
        return None, zeros;
      }
      ok, st := DecodeGroup(bs, t, lits, i, st, s, group, zeros);
      if !ok {
        Groups(group, count - i, count);
        return None, zeros;
      }
      i := i + 4;
      group := group + 1;
    }
    Groups(group, 0, count);
    ReadingEnds(s, i, zeros, lits[..i], st, bs.Stack());
    assert lits[..] == lits[..i];
    return Some(lits[..]), zeros;
  }

  lemma Groups(group: nat, k: nat, count: nat)
    requires count == 4 * group + k && k < 4
    ensures count % 4 == 0 <==> k == 0
  {
  }

  // Replaying matches.

  /** Python's s[lo:hi]: as much of it as there is. */
  function Clip<T>(s: seq<T>, lo: nat, hi: nat): seq<T>
    requires lo <= hi
  {
    if lo >= |s| then [] else if hi > |s| then s[lo..] else s[lo..hi]
  }

  /** The output, how many literals it has used, and the last distance. */
  datatype Replayed = Replayed(out: seq<byte>, used: nat, distance: nat)

  /** One triple: `l` literals, then `m` bytes from `d` back, a d of 0 being the distance before. None is a bad distance. */
  function Match(lits: seq<byte>, z: Replayed, l: nat, m: nat, d: nat): Option<Replayed> {
    var distance := if d != 0 then d else z.distance;
    var out := z.out + Clip(lits, z.used, z.used + l);
    if m == 0 then Some(Replayed(out, z.used + l, distance))
    else if 0 < distance <= |out| then Some(Replayed(Copied(out, distance, m), z.used + l, distance))
    else None
  }

  /** The first `count` triples of `values`, three numbers each. */
  function Replay(lits: seq<byte>, values: seq<nat>, count: nat, start: Replayed): Option<Replayed>
    requires |values| >= 3 * count
  {
    if count == 0 then Some(start)
    else
      match Replay(lits, values, count - 1, start)
      case None => None
      case Some(z) => Match(lits, z, values[3 * count - 3], values[3 * count - 2], values[3 * count - 1])
  }

  lemma {:induction false} ReplayPrefix(lits: seq<byte>, values: seq<nat>, all: seq<nat>, count: nat, start: Replayed)
    requires |values| >= 3 * count && values <= all
    ensures Replay(lits, all, count, start) == Replay(lits, values, count, start)
  {
    if count == 0 {
    } else {
      ReplayPrefix(lits, values, all, count - 1, start);
    }
  }

  lemma {:induction false} ReplayStuck(lits: seq<byte>, values: seq<nat>, count: nat, more: nat, start: Replayed)
    requires |values| >= 3 * more && count <= more && Replay(lits, values, count, start) == None
    ensures Replay(lits, values, more, start) == None
  {
    if count == more {
    } else {
      ReplayStuck(lits, values, count, more - 1, start);
    }
  }

  method ApplyMatch(lits: seq<byte>, z: Replayed, l: nat, m: nat, d: nat) returns (r: Option<Replayed>)
    ensures r == Match(lits, z, l, m, d)
  {
    var out, used, distance := z.out, z.used, z.distance;
    assert out + [] == out;
    if d != 0 {
      distance := d;
    }
    if l != 0 {
      out := out + Clip(lits, used, used + l);
      used := used + l;
    }
    if m != 0 {
      var copied := CopyMatch(out, distance, m);
      if copied == None {
        return None;
      }
      out := copied.value;
    }
    return Some(Replayed(out, used, distance));
  }

  /** How far a replay of the first `count` triples is. */
  ghost predicate HasReplayed(lits: seq<byte>, values: seq<nat>, count: nat, out: seq<byte>, start: nat, z: Replayed)
    requires |values| >= 3 * count
  {
    && |z.out| == EndOf(|out|, lits, values, count) && z.used == Asked(values, count)
    && IsLastDistance(values, count, start, z.distance)
  }

  /** A triple's match writes what holds of the triple, if anything does. */
  lemma MatchHolds(text: seq<byte>, lits: seq<byte>, values: seq<nat>, count: nat, out: seq<byte>, start: nat, z: Replayed)
    requires |values| >= 3 * (count + 1) && HasReplayed(lits, values, count, out, start, z)
    ensures var r := Match(lits, z, LiteralCount(values, count), MatchLength(values, count), Distance(values, count));
      && (r.Some? ==> HasReplayed(lits, values, count + 1, out, start, r.value))
      && (r.Some? && r.value.out == text
          <==> |text| == EndOf(|out|, lits, values, count + 1) && text[..|z.out|] == z.out
               && TripleHolds(text, |out|, lits, values, count, start))
  {
    hide Copied, Echoes, IsLastDistance, Asked, Given, EndOf, Clip;
    var l, m := LiteralCount(values, count), MatchLength(values, count);
    var distance := if Distance(values, count) != 0 then Distance(values, count) else z.distance;
    var a, b := Given(lits, values, count), Given(lits, values, count + 1);
    TripleCounts(lits, values, count, |out|);
    LastDistanceNext(values, count, start, z.distance, distance);
    NextLiterals(lits, values, count);
    var with := z.out + lits[a..b];
    if |text| == |with| + m {
      assert text[..|with|] == with <==> text[..|z.out|] == z.out && text[|z.out|..|with|] == lits[a..b] by {
        PrefixParts(text, z.out, lits[a..b]);
      }
      assert text[..|text|] == text;
      if 0 < distance <= |with| {
        CopiedIsEcho(with, distance, m, text);
      }
      if m > 0 && TripleHolds(text, |out|, lits, values, count, start) {
        var d: nat :| IsLastDistance(values, count + 1, start, d) && 0 < d <= |with| && Echoes(text[..|text|], |with|, d);
        LastDistanceNext(values, count, start, z.distance, d);
      }
    }
  }

  /** Python's clipping gives a triple the literals there are. */
  lemma NextLiterals(lits: seq<byte>, values: seq<nat>, count: nat)
    requires |values| >= 3 * (count + 1)
    ensures var used, a, b := Asked(values, count), Given(lits, values, count), Given(lits, values, count + 1);
      a <= b && Clip(lits, used, used + LiteralCount(values, count)) == lits[a..b]
  {
  }

  lemma PrefixParts(text: seq<byte>, a: seq<byte>, b: seq<byte>)
    requires |a| + |b| <= |text|
    ensures text[..|a + b|] == a + b <==> text[..|a|] == a && text[|a|..|a + b|] == b
  {
    var first := text[..|a + b|];
    assert first == first[..|a|] + first[|a|..];
    assert first[..|a|] == text[..|a|] && first[|a|..] == text[|a|..|a + b|];
    if first == a + b {
      assert (a + b)[..|a|] == a && (a + b)[|a|..] == b;
    }
  }

  lemma TripleCounts(lits: seq<byte>, values: seq<nat>, count: nat, from: nat)
    requires |values| >= 3 * (count + 1)
    ensures Asked(values, count + 1) == Asked(values, count) + LiteralCount(values, count)
    ensures Given(lits, values, count) <= Given(lits, values, count + 1)
    ensures EndOf(from, lits, values, count + 1)
      == EndOf(from, lits, values, count) + (Given(lits, values, count + 1) - Given(lits, values, count))
         + MatchLength(values, count)
  {
  }

  /** A replay writes the one text the literals and triples parse, if there is one. */
  lemma {:induction false} ReplayParses(text: seq<byte>, lits: seq<byte>, values: seq<nat>, count: nat, out: seq<byte>,
                                        start: nat)
    requires |values| >= 3 * count
    ensures var r := Replay(lits, values, count, Replayed(out, 0, start));
      && (r.Some? ==> HasReplayed(lits, values, count, out, start, r.value))
      && (r.Some? && r.value.out == text <==> Parses(text, out, lits, values, count, start))
    decreases count
  {
    hide TripleHolds, Parses, Match, HasReplayed;
    if count == 0 {
      ReplayNone(lits, values, out, start);
      ParsesNone(text, out, lits, values, start);
      return;
    }
    var size := EndOf(|out|, lits, values, count - 1);
    var before := Replay(lits, values, count - 1, Replayed(out, 0, start));
    var short := if size <= |text| then text[..size] else text;
    ReplayParses(short, lits, values, count - 1, out, start);
    if before.Some? {
      ReplayedSize(lits, values, count - 1, out, start, before.value);
      MatchHolds(text, lits, values, count - 1, out, start, before.value);
    }
    if |text| == EndOf(|out|, lits, values, count) {
      ParsesNext(text, out, lits, values, count - 1, start);
    } else {
      ParsesSize(text, out, lits, values, count, start);
    }
  }

  lemma ReplayNone(lits: seq<byte>, values: seq<nat>, out: seq<byte>, start: nat)
    ensures Replay(lits, values, 0, Replayed(out, 0, start)) == Some(Replayed(out, 0, start))
    ensures HasReplayed(lits, values, 0, out, start, Replayed(out, 0, start))
  {
  }

  lemma ReplayedSize(lits: seq<byte>, values: seq<nat>, count: nat, out: seq<byte>, start: nat, z: Replayed)
    requires |values| >= 3 * count && HasReplayed(lits, values, count, out, start, z)
    ensures |z.out| == EndOf(|out|, lits, values, count)
  {
  }

  lemma ParsesSize(text: seq<byte>, out: seq<byte>, lits: seq<byte>, values: seq<nat>, count: nat, start: nat)
    requires |values| >= 3 * count && |text| != EndOf(|out|, lits, values, count)
    ensures !Parses(text, out, lits, values, count, start)
  {
  }

  /** The L, M and D tables; a triple pulls at most 54 bits. */
  ghost predicate IsMatchStream(s: Stream, t: seq<seq<ValSlot>>) {
    && s.Valid() && |s.chs| == |t| == 3
    && (forall c :: 0 <= c < 3 ==> t[c] == s.chs[c].Table())
    && WithinBits(s.chs[0], 14) && WithinBits(s.chs[1], 17) && WithinBits(s.chs[2], 23)
  }

  ghost predicate WithinBits(ch: Channel, most: nat) {
    ch.Valid() && forall s :: 0 <= s < |ch.Table()| ==> ch.Table()[s].total <= most
  }

  lemma ChannelWithin(ch: Channel, extra: nat)
    requires ch.Valid() && forall i :: 0 <= i < |ch.extra| ==> ch.extra[i] <= extra
    ensures WithinBits(ch, ch.n + extra)
  {
    forall s | 0 <= s < |ch.Table()|
      ensures ch.Table()[s].total <= ch.n + extra
    {
      NextStateInRange(ch, s, 0);
      SlotExtra(ch, s, extra);
    }
  }

  lemma SlotExtra(ch: Channel, s: nat, extra: nat)
    requires ch.Valid() && s < |ch.Table()|
    requires forall i :: 0 <= i < |ch.extra| ==> ch.extra[i] <= extra
    ensures ch.Table()[s].extra <= extra
  {
    if s < Sum(ch.freq, |ch.freq|) {
      var sym, j := SlotOwner(ch, |ch.freq|, s);
    }
  }

  lemma TripleWithinRefill(h: Header)
    requires h.Valid()
    ensures var chs := h.MatchChannels(); WithinBits(chs[0], 14) && WithinBits(chs[1], 17) && WithinBits(chs[2], 23)
  {
    var chs := h.MatchChannels();
    assert Fits(chs[0]) && Fits(chs[1]) && Fits(chs[2]);
    ChannelWithin(chs[0], 8);
    ChannelWithin(chs[1], 11);
    DExtraSmall();
    ChannelWithin(chs[2], 15);
  }

  lemma DExtraSmall()
    ensures forall i :: 0 <= i < 64 ==> D_EXTRA[i] <= 15
  {
  }

  /** One value of a triple, the c-th. */
  method PullMatchValue(bs: BackBits, t: seq<ValSlot>, st: seq<nat>, c: nat, ghost most: nat,
                        ghost s: Stream, ghost group: nat, ghost i: nat, ghost zeros: nat, ghost values: seq<nat>)
    returns (value: nat, after: seq<nat>)
    requires bs.Valid() && |s.chs| == 3 && c < 3 && i == 3 * group + c
    requires s.Reading(i, zeros, values, st, bs.Stack())
    requires t == s.chs[c].Table() && WithinBits(s.chs[c], most) && bs.nbits >= most
    modifies bs
    ensures bs.Valid() && bs.nbits >= old(bs.nbits) - most
    ensures s.Reading(i + 1, zeros, values + [value], after, bs.Stack())
  {
    TurnOf(group, 3, c);
    var state;
    state, value := PullValue(bs, t[st[c]], s, i, zeros, values, st, c);
    after := st[c := state];
  }

  lemma MatchTables(s: Stream, t: seq<seq<ValSlot>>)
    requires IsMatchStream(s, t)
    ensures |s.chs| == |t| == 3
    ensures t[0] == s.chs[0].Table() && t[1] == s.chs[1].Table() && t[2] == s.chs[2].Table()
    ensures WithinBits(s.chs[0], 14) && WithinBits(s.chs[1], 17) && WithinBits(s.chs[2], 23)
  {
  }

  /** A triple, after one refill. */
  method PullTriple(bs: BackBits, t: seq<seq<ValSlot>>, st: seq<nat>,
                    ghost s: Stream, ghost group: nat, ghost zeros: nat, ghost values: seq<nat>)
    returns (l: nat, m: nat, d: nat, after: seq<nat>)
    requires bs.Valid() && bs.nbits >= 56 && IsMatchStream(s, t)
    requires s.Reading(3 * group, zeros, values, st, bs.Stack())
    modifies bs
    ensures bs.Valid()
    ensures s.Reading(3 * group + 3, zeros, values + [l, m, d], after, bs.Stack())
  {
    hide *;
    MatchTables(s, t);
    l, after := PullMatchValue(bs, t[0], st, 0, 14, s, group, 3 * group, zeros, values);
    m, after := PullMatchValue(bs, t[1], after, 1, 17, s, group, 3 * group + 1, zeros, values + [l]);
    d, after := PullMatchValue(bs, t[2], after, 2, 23, s, group, 3 * group + 2, zeros, values + [l] + [m]);
    assert values + [l] + [m] + [d] == values + [l, m, d];
  }

  /** A refill, a triple and its replay; the i-th of `count`. */
  method DecodeTriple(bs: BackBits, t: seq<seq<ValSlot>>, states: seq<nat>, lits: seq<byte>, z: Replayed,
                      ghost s: Stream, ghost i: nat, ghost count: nat, ghost zeros: nat, ghost values: seq<nat>,
                      ghost start: Replayed)
    returns (r: Option<Replayed>, after: seq<nat>, ghost below: nat, ghost read: seq<nat>)
    requires bs.Valid() && IsMatchStream(s, t) && i < count && |values| == 3 * i
    requires s.Reading(3 * i, zeros, values, states, bs.Stack())
    requires Replay(lits, values, i, start) == Some(z)
    modifies bs
    ensures bs.Valid()
    ensures r.Some? ==> |read| == 3 * (i + 1) && s.Reading(3 * (i + 1), below, read, after, bs.Stack())
    ensures r.Some? ==> Replay(lits, read, i + 1, start) == r
    ensures r.None? && s.Ample(3 * count) ==>
      |read| == 3 * count && s.DecodesTo(3 * count, read) && Replay(lits, read, count, start) == None
  {
    hide *;
    var ok;
    ok, below := Refill(bs, s, 3 * i, 3 * count, zeros, values, states);
    if !ok {
      return None, states, below, values;
    }
    var l, m, d;
    l, m, d, after := PullTriple(bs, t, states, s, i, below, values);
    read := values + [l, m, d];
    ReplayNext(lits, values, [l, m, d], i, start);
    r := ApplyMatch(lits, z, l, m, d);
    if r == None {
      read := StuckReplay(s, i + 1, count, below, read, after, bs.Stack(), lits, start);
    }
  }

  /** The triples, each replayed as it is read. None is a stream that cannot be opened or refilled, or a bad distance. */
  method DecodeMatches(src: seq<byte>, end: nat, n: int, initial: seq<nat>, t: seq<seq<ValSlot>>, count: nat,
                       lits: seq<byte>, out: seq<byte>, distance: nat, ghost s: Stream)
    returns (r: Option<Replayed>, ghost zeros: nat, ghost values: seq<nat>)
    requires 8 <= end <= |src| && IsMatchStream(s, t) && s.initial == initial
    requires Opens(src[..end], n) ==> s.bits == StreamBits(src[..end], n)
    ensures r.Some? ==> Opens(src[..end], n) && |values| == 3 * count && s.Below(zeros).DecodesTo(3 * count, values)
    ensures r.Some? ==>
      Parses(r.value.out, out, lits, values, count, distance) && IsLastDistance(values, count, distance, r.value.distance)
    ensures Opens(src[..end], n) && s.Ample(3 * count) ==>
      && values == s.Symbols(3 * count)
      && forall text :: Parses(text, out, lits, values, count, distance) ==> r.Some? && r.value.out == text
  {
    hide Replay, Parses, IsLastDistance;
    ghost var start := Replayed(out, 0, distance);
    zeros, values := 0, [];
    var bs := BackBits.Open(src, end, n);
    if bs == null {
      return None, 0, [];
    }
    ReadingStarts(s);
    var st := initial;
    var z := Replayed(out, 0, distance);
    ReplayNone(lits, values, out, distance);
    for i := 0 to count
      invariant bs.Valid() && fresh(bs) && |values| == 3 * i
      invariant s.Reading(3 * i, zeros, values, st, bs.Stack())
      invariant Replay(lits, values, i, start) == Some(z)
    {
      var replayed;
      replayed, st, zeros, values := DecodeTriple(bs, t, st, lits, z, s, i, count, zeros, values, start);
      if replayed == None {
        NothingParses(s, count, lits, values, out, distance);
        return None, zeros, values;
      }
      z := replayed.value;
    }
    ReadingEnds(s, 3 * count, zeros, values, st, bs.Stack());
    ReplayIsParse(lits, values, count, out, distance);
    return Some(z), zeros, values;
  }

  /** A replay that comes to an end writes the one text that is parsed. */
  lemma ReplayIsParse(lits: seq<byte>, values: seq<nat>, count: nat, out: seq<byte>, start: nat)
    requires |values| >= 3 * count
    ensures var r := Replay(lits, values, count, Replayed(out, 0, start));
      && (r.Some? ==> Parses(r.value.out, out, lits, values, count, start)
                      && IsLastDistance(values, count, start, r.value.distance))
      && forall text :: Parses(text, out, lits, values, count, start) ==> r.Some? && r.value.out == text
  {
    hide Replay, Parses, IsLastDistance;
    var r := Replay(lits, values, count, Replayed(out, 0, start));
    if r.Some? {
      ReplayParses(r.value.out, lits, values, count, out, start);
    }
    forall text | Parses(text, out, lits, values, count, start)
      ensures r.Some? && r.value.out == text
    {
      ReplayParses(text, lits, values, count, out, start);
    }
  }

  /** Where the replay of an ample stream's triples fails, no text is parsed. */
  lemma NothingParses(s: Stream, count: nat, lits: seq<byte>, values: seq<nat>, out: seq<byte>, start: nat)
    requires s.Ample(3 * count) ==>
      |values| == 3 * count && s.DecodesTo(3 * count, values)
      && Replay(lits, values, count, Replayed(out, 0, start)) == None
    ensures s.Ample(3 * count) ==>
      && values == s.Symbols(3 * count)
      && forall text :: !Parses(text, out, lits, values, count, start)
  {
    hide Replay, Parses;
    if s.Ample(3 * count) {
      ReplayIsParse(lits, values, count, out, start);
    }
  }

  lemma ReplayNext(lits: seq<byte>, values: seq<nat>, triple: seq<nat>, count: nat, start: Replayed)
    requires |values| == 3 * count && |triple| == 3
    ensures Replay(lits, values + triple, count + 1, start) ==
      match Replay(lits, values, count, start)
      case None => None
      case Some(z) => Match(lits, z, triple[0], triple[1], triple[2])
  {
    ReplayPrefix(lits, values, values + triple, count, start);
  }

  /** Once a replay fails, replaying all of an ample stream's triples fails. */
  lemma StuckReplay(s: Stream, i: nat, count: nat, zeros: nat, values: seq<nat>, states: seq<nat>, rest: seq<bool>,
                    lits: seq<byte>, start: Replayed)
    returns (all: seq<nat>)
    requires s.Reading(3 * i, zeros, values, states, rest) && |values| == 3 * i && i <= count
    requires Replay(lits, values, i, start) == None
    ensures s.Ample(3 * count) ==>
      |all| == 3 * count && s.DecodesTo(3 * count, all) && Replay(lits, all, count, start) == None
  {
    all := values;
    if s.Ample(3 * count) {
      all := Decode(s.chs, s.initial, 3 * count, s.bits).value.values;
      DecodePops(s.chs, s.initial, 3 * i, 3 * count, s.bits);
      DecodeAbove(s.chs, s.initial, 3 * i, s.bits, Zeros(zeros));
      assert values == all[..3 * i];
      ReplayPrefix(lits, values, all, i, start);
      ReplayStuck(lits, all, i, count, start);
    }
  }

  // A whole block.

  datatype Block = Block(out: seq<byte>, end: nat, distance: nat)

  /** Where a block's two bit streams end. */
  function LiteralEnd(p: nat, h: Header): nat {
    p + h.headerSize + h.literalPayload
  }

  function MatchEnd(p: nat, h: Header): nat {
    LiteralEnd(p, h) + h.matchPayload
  }

  /** The bytes up to `end` are a stream ample for `count` symbols, which are `values`. */
  ghost predicate StreamHolds(chs: seq<Channel>, states: seq<nat>, count: nat, bytes: seq<byte>, n: int, values: seq<nat>) {
    && |bytes| >= 8 && Opens(bytes, n)
    && var s := Stream(chs, states, StreamBits(bytes, n)); s.Ample(count) && s.DecodesTo(count, values)
  }

  ghost predicate BlockHolds(src: seq<byte>, p: nat, h: Header, lits: seq<byte>, values: seq<nat>) {
    && MatchEnd(p, h) <= |src| && h.literals % 4 == 0
    && StreamHolds(h.LiteralChannels(), h.literalState, h.literals, src[..LiteralEnd(p, h)], h.literalBits, lits)
    && StreamHolds(h.MatchChannels(), h.MatchStates(), 3 * h.matches, src[..MatchEnd(p, h)], h.matchBits, values)
  }

  lemma HeaderFits(h: Header)
    requires h.Valid()
    ensures Pow2(LIT_LOG) == 1024 && Pow2(L_LOG) == Pow2(M_LOG) == 64 && Pow2(D_LOG) == 256
    ensures FreqsFit(LIT_LOG, h.literalFreq) && FreqsFit(L_LOG, h.lFreq) && FreqsFit(M_LOG, h.mFreq)
    ensures FreqsFit(D_LOG, h.dFreq)
    ensures Ready(h.LiteralChannels(), h.literalState) && Ready(h.MatchChannels(), h.MatchStates())
  {
    SmallPowers();
    var chs := h.MatchChannels();
    assert Fits(chs[0]) && Fits(chs[1]) && Fits(chs[2]);
  }

  /** A block's four tables. */
  method Tables(h: Header) returns (literals: seq<LitSlot>, matches: seq<seq<ValSlot>>)
    requires h.Valid()
    ensures forall bits :: IsLiteralStream(Stream(h.LiteralChannels(), h.literalState, bits), literals)
    ensures forall bits :: IsMatchStream(Stream(h.MatchChannels(), h.MatchStates(), bits), matches)
  {
    HeaderFits(h);
    TripleWithinRefill(h);
    var lit := LitTable(1024, h.literalFreq, LIT_LOG);
    var l := ValTable(64, h.lFreq, L_EXTRA, L_BASE, L_LOG);
    var m := ValTable(64, h.mFreq, M_EXTRA, M_BASE, M_LOG);
    var d := ValTable(256, h.dFreq, D_EXTRA, D_BASE, D_LOG);
    return lit.value, [l.value, m.value, d.value];
  }

  /**
   * A block's output; None stands for the decoder's errors. A block that holds `lits` and `values` gives the one text of
   * its raw size that they parse; None exactly if there is none.
   */
  method DecodeFseBlock(src: seq<byte>, p: nat, h: Header, out: seq<byte>, distance: nat,
                        ghost lits: seq<byte>, ghost values: seq<nat>)
    returns (r: Option<Block>)
    requires h.Valid() && h.headerSize >= 32 && MatchEnd(p, h) <= |src|
    ensures r.Some? ==> |r.value.out| == |out| + h.rawBytes && out <= r.value.out && r.value.end == MatchEnd(p, h)
    ensures BlockHolds(src, p, h, lits, values) ==> |values| == 3 * h.matches
    ensures BlockHolds(src, p, h, lits, values) ==>
      forall text :: r.Some? && r.value.out == text
                     <==> |text| == |out| + h.rawBytes && Parses(text, out, lits, values, h.matches, distance)
    ensures BlockHolds(src, p, h, lits, values) && r.Some? ==>
      IsLastDistance(values, h.matches, distance, r.value.distance)
  {
    hide Parses, IsLastDistance, Opens, StreamBits, Fits;
    var litTable, tables := Tables(h);
    ghost var litBytes, matchBytes := src[..LiteralEnd(p, h)], src[..MatchEnd(p, h)];
    ghost var s := StreamOf(h.LiteralChannels(), h.literalState, litBytes, h.literalBits);
    var literals, zeros := DecodeLiterals(src, LiteralEnd(p, h), h.literalBits, h.literalState, litTable, h.literals, s);
    if literals == None {
      return None;
    }
    s := StreamOf(h.MatchChannels(), h.MatchStates(), matchBytes, h.matchBits);
    var z, zeros', read :=
      DecodeMatches(src, MatchEnd(p, h), h.matchBits, h.MatchStates(), tables, h.matches, literals.value, out, distance, s);
    if z == None {
      return None;
    }
    ParsesExtends(z.value.out, out, literals.value, read, h.matches, distance);
    if |z.value.out| != |out| + h.rawBytes {
      return None;
    }
    return Some(Block(z.value.out, MatchEnd(p, h), z.value.distance));
  }

  ghost function StreamOf(chs: seq<Channel>, states: seq<nat>, bytes: seq<byte>, n: int): Stream
    requires |bytes| >= 8
  {
    Stream(chs, states, if Opens(bytes, n) then StreamBits(bytes, n) else [])
  }

}
