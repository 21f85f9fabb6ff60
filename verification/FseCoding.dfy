/**
 * The tANS code LZFSE's tables decode: symbols taken from several channels in turn, each channel keeping its own state
 * (four for literals, one each for L, M and D). Decoding pops a stack of bits; the reference encoder runs over the
 * symbols in reverse and pushes.
 */
module FseCoding {
  import opened Bits
  import opened FseTables
  import opened LmdValues
  import opened Options
  import opened Sequences

  datatype Decoded = Decoded(values: seq<nat>, states: seq<nat>, rest: seq<bool>)

  /** Whose turn the i-th symbol of m channels is: i mod m. */
  function Turn(i: nat, m: nat): (c: nat)
    requires m > 0
    ensures c < m
  {
    if i < m then i else Turn(i - m, m)
  }

  datatype Stepped = Stepped(value: nat, state: nat, rest: seq<bool>)

  /** Each channel's state indexes its table. */
  ghost predicate Ready(chs: seq<Channel>, states: seq<nat>) {
    && 0 < |chs| == |states|
    && (forall c :: 0 <= c < |chs| ==> chs[c].Valid())
    && forall c :: 0 <= c < |chs| ==> states[c] < Pow2(chs[c].n)
  }

  /** One symbol of a channel in state s: None when the bits run out. */
  ghost function Step(ch: Channel, s: nat, bits: seq<bool>): (r: Option<Stepped>)
    requires ch.Valid() && s < Pow2(ch.n)
    ensures r.Some? ==> r.value.state < Pow2(ch.n)
  {
    var e := ch.Table()[s];
    if |bits| < e.total then None
    else
      var x := ValueOf(bits[..e.total]);
      NextStateInRange(ch, s, x);
      Some(Stepped(e.base + Low(x, e.extra), e.delta + Shr(x, e.extra), bits[e.total..]))
  }

  /** The first n symbols of a bit stream, symbol i from channel i mod the number of channels. */
  ghost function Decode(chs: seq<Channel>, states: seq<nat>, n: nat, bits: seq<bool>): (r: Option<Decoded>)
    requires Ready(chs, states)
    ensures r.Some? ==> |r.value.values| == n && Ready(chs, r.value.states)
  {
    if n == 0 then Some(Decoded([], states, bits))
    else
      match Decode(chs, states, n - 1, bits)
      case None => None
      case Some(d) => Next(chs, d, Turn(n - 1, |chs|))
  }

  ghost function Next(chs: seq<Channel>, d: Decoded, c: nat): (r: Option<Decoded>)
    requires Ready(chs, d.states) && c < |chs|
    ensures r.Some? ==> |r.value.values| == |d.values| + 1 && Ready(chs, r.value.states)
  {
    match Step(chs[c], d.states[c], d.rest)
    case None => None
    case Some(s) => Some(Decoded(d.values + [s.value], d.states[c := s.state], s.rest))
  }

  /** Bits below the ones read do not change what is read. */
  lemma {:induction false} DecodeAbove(chs: seq<Channel>, states: seq<nat>, n: nat, bits: seq<bool>, below: seq<bool>)
    requires Ready(chs, states) && Decode(chs, states, n, bits).Some?
    ensures var d := Decode(chs, states, n, bits).value;
      Decode(chs, states, n, bits + below) == Some(d.(rest := d.rest + below))
  {
    if n == 0 {
    } else {
      DecodeAbove(chs, states, n - 1, bits, below);
      var d, c := Decode(chs, states, n - 1, bits).value, Turn(n - 1, |chs|);
      StepAbove(chs[c], d.states[c], d.rest, below);
    }
  }

  lemma StepAbove(ch: Channel, s: nat, bits: seq<bool>, below: seq<bool>)
    requires ch.Valid() && s < Pow2(ch.n) && Step(ch, s, bits).Some?
    ensures var d := Step(ch, s, bits).value;
      Step(ch, s, bits + below) == Some(d.(rest := d.rest + below))
  {
    var total := ch.Table()[s].total;
    assert (bits + below)[..total] == bits[..total];
    assert (bits + below)[total..] == bits[total..] + below;
  }

  /** Later symbols only pop: what a longer run leaves is a part of what a shorter one leaves. */
  lemma {:induction false} DecodePops(chs: seq<Channel>, states: seq<nat>, m: nat, n: nat, bits: seq<bool>)
    requires Ready(chs, states) && m <= n && Decode(chs, states, n, bits).Some?
    ensures Decode(chs, states, m, bits).Some?
    ensures Decode(chs, states, m, bits).value.values == Decode(chs, states, n, bits).value.values[..m]
    ensures |Decode(chs, states, n, bits).value.rest| <= |Decode(chs, states, m, bits).value.rest|
  {
    hide Next;
    if m == n {
    } else {
      DecodePops(chs, states, m, n - 1, bits);
      NextPops(chs, Decode(chs, states, n - 1, bits).value, Turn(n - 1, |chs|));
    }
  }

  lemma NextPops(chs: seq<Channel>, d: Decoded, c: nat)
    requires Ready(chs, d.states) && c < |chs| && Next(chs, d, c).Some?
    ensures var e := Next(chs, d, c).value;
      && (forall m :: 0 <= m <= |d.values| ==> e.values[..m] == d.values[..m])
      && |e.rest| <= |d.rest|
  {
  }

  // The encoder.

  predicate CanEncode(ch: Channel, t: Token) {
    t.sym < |ch.freq| == |ch.extra| && ch.freq[t.sym] > 0 && t.own < Pow2(ch.extra[t.sym])
  }

  /** A channel every slot of which has a state: its frequencies sum to at most the state count. */
  ghost predicate Fits(ch: Channel) {
    ch.Valid() && Sum(ch.freq, |ch.freq|) <= Pow2(ch.n)
  }

  function TokenValue(ch: Channel, t: Token): nat
    requires t.sym < |ch.base|
  {
    ch.base[t.sym] + t.own
  }

  datatype Encoded = Encoded(states: seq<nat>, bits: seq<bool>)

  /** From the state after a symbol, the state before it: the symbol's slot that leads there. */
  ghost function EncodeState(ch: Channel, t: Token, after: nat): (s: nat)
    requires Fits(ch) && CanEncode(ch, t) && after < Pow2(ch.n)
    ensures s < Pow2(ch.n)
    ensures ch.Table()[s] == ch.SymbolSlot(t.sym, SlotTo(ch.n, ch.freq[t.sym], after))
  {
    var j := SlotTo(ch.n, ch.freq[t.sym], after);
    SlotInTable(ch, t.sym, j);
    Sum(ch.freq, t.sym) + j
  }

  lemma SlotInTable(ch: Channel, sym: nat, j: nat)
    requires Fits(ch) && sym < |ch.freq| && j < ch.freq[sym]
    ensures Sum(ch.freq, sym) + j < Pow2(ch.n)
    ensures ch.Table()[Sum(ch.freq, sym) + j] == ch.SymbolSlot(sym, j)
  {
    SlotAt(ch, |ch.freq|, sym, j);
  }

  /** The bits that slot pulls to lead there, then the value's own bits. */
  ghost function EncodeBits(ch: Channel, t: Token, after: nat): seq<bool>
    requires Fits(ch) && CanEncode(ch, t) && after < Pow2(ch.n)
  {
    var f := ch.freq[t.sym];
    var j := SlotTo(ch.n, f, after);
    BitsOf(after - SlotDelta(ch.n, f, j), SlotBits(ch.n, f, j)) + BitsOf(t.own, ch.extra[t.sym])
  }

  ghost predicate CanEncodeAll(chs: seq<Channel>, toks: seq<Token>) {
    && 0 < |chs|
    && (forall c :: 0 <= c < |chs| ==> Fits(chs[c]))
    && forall i :: 0 <= i < |toks| ==> CanEncode(chs[Turn(i, |chs|)], toks[i])
  }

  /** The symbols from the k-th on, encoded above `rest` so that decoding them ends in states `final`. */
  ghost function Encode(chs: seq<Channel>, toks: seq<Token>, k: nat, final: seq<nat>, rest: seq<bool>): (r: Encoded)
    requires CanEncodeAll(chs, toks) && Ready(chs, final) && k <= |toks|
    ensures Ready(chs, r.states)
    decreases |toks| - k
  {
    if k == |toks| then Encoded(final, rest)
    else
      var later := Encode(chs, toks, k + 1, final, rest);
      var c := Turn(k, |chs|);
      Encoded(
        later.states[c := EncodeState(chs[c], toks[k], later.states[c])],
        EncodeBits(chs[c], toks[k], later.states[c]) + later.bits)
  }

  /** What a symbol's state and bits are made of. */
  lemma EncodedParts(ch: Channel, t: Token, after: nat)
    requires Fits(ch) && CanEncode(ch, t) && after < Pow2(ch.n)
    ensures var f, slot := ch.freq[t.sym], ch.Table()[EncodeState(ch, t, after)];
      var j := SlotTo(ch.n, f, after);
      var width, extra := SlotBits(ch.n, f, j), ch.extra[t.sym];
      && 0 <= after - slot.delta < Pow2(width) && t.own < Pow2(extra)
      && slot.total == width + extra && slot.extra == extra && slot.base == ch.base[t.sym]
      && EncodeBits(ch, t, after) == BitsOf(after - slot.delta, width) + BitsOf(t.own, extra)
  {
    hide EncodeState, SlotBits, SlotDelta, SlotTo;
    SlotToLeads(ch.n, ch.freq[t.sym], after);
  }

  lemma SlotToLeads(n: nat, f: nat, after: nat)
    requires 0 < f <= Pow2(n) && after < Pow2(n)
    ensures var j := SlotTo(n, f, after);
      SlotDelta(n, f, j) <= after < SlotDelta(n, f, j) + Pow2(SlotBits(n, f, j))
  {
    hide SlotBits, SlotDelta, SlotTo;
  }

  lemma StepInverts(ch: Channel, t: Token, after: nat, rest: seq<bool>)
    requires Fits(ch) && CanEncode(ch, t) && after < Pow2(ch.n)
    ensures Step(ch, EncodeState(ch, t, after), EncodeBits(ch, t, after) + rest)
      == Some(Stepped(TokenValue(ch, t), after, rest))
  {
    hide *;
    TokenValueIs(ch, t);
    EncodedParts(ch, t, after);
    var slot := ch.Table()[EncodeState(ch, t, after)];
    var moved := after - slot.delta;
    ShlBits(moved, slot.total - slot.extra, t.own, slot.extra);
    ShrOfShl(moved, t.own, slot.extra);
    StepOfSlot(ch, EncodeState(ch, t, after), Shl(moved, slot.extra) + t.own, rest);
  }

  lemma TokenValueIs(ch: Channel, t: Token)
    requires Fits(ch) && CanEncode(ch, t)
    ensures ch.Valid() && t.sym < |ch.freq| == |ch.base| == |ch.extra| && 0 < ch.freq[t.sym] <= Pow2(ch.n)
    ensures TokenValue(ch, t) == ch.base[t.sym] + t.own
  {
  }

  /** A state whose slot's bits are on top of the stack. */
  lemma StepOfSlot(ch: Channel, s: nat, x: nat, rest: seq<bool>)
    requires ch.Valid() && s < Pow2(ch.n) && x < Pow2(ch.Table()[s].total)
    ensures var e := ch.Table()[s];
      && 0 <= e.delta + Shr(x, e.extra)
      && Step(ch, s, BitsOf(x, e.total) + rest) == Some(Stepped(e.base + Low(x, e.extra), e.delta + Shr(x, e.extra), rest))
  {
    var e := ch.Table()[s];
    Halves(BitsOf(x, e.total), rest);
    ValueOfBitsOf(x, e.total);
    NextStateInRange(ch, s, x);
    hide Channel.Table;
  }

  ghost function TokenValues(chs: seq<Channel>, toks: seq<Token>): (v: seq<nat>)
    requires CanEncodeAll(chs, toks)
    ensures |v| == |toks|
  {
    seq(|toks|, i requires 0 <= i < |toks| => TokenValue(chs[Turn(i, |chs|)], toks[i]))
  }

  /**
   * The decoder inverts the encoder: it gives back the values, and ends in the states the encoder started from with
   * the bits below the stream untouched.
   */
  lemma DecodeInvertsEncode(chs: seq<Channel>, toks: seq<Token>, final: seq<nat>, rest: seq<bool>)
    requires CanEncodeAll(chs, toks) && Ready(chs, final)
    ensures var e := Encode(chs, toks, 0, final, rest);
      Decode(chs, e.states, |toks|, e.bits) == Some(Decoded(TokenValues(chs, toks), final, rest))
  {
    var ds := seq(|toks| + 1, k requires 0 <= k <= |toks| => Passing(chs, toks, k, final, rest));
    forall k: nat | k < |toks| {
      NextInverts(chs, toks, k, final, rest);
    }
    PassingEnds(chs, toks, final, rest);
    DecodeChain(chs, ds[0].states, ds[0].rest, ds, |toks|);
  }

  lemma PassingEnds(chs: seq<Channel>, toks: seq<Token>, final: seq<nat>, rest: seq<bool>)
    requires CanEncodeAll(chs, toks) && Ready(chs, final)
    ensures var e := Encode(chs, toks, 0, final, rest);
      Passing(chs, toks, 0, final, rest) == Decoded([], e.states, e.bits)
    ensures Passing(chs, toks, |toks|, final, rest) == Decoded(TokenValues(chs, toks), final, rest)
  {
    var v := TokenValues(chs, toks);
    assert v[..|toks|] == v;
  }

  /** What a decoder has decoded before the k-th symbol. */
  ghost function Passing(chs: seq<Channel>, toks: seq<Token>, k: nat, final: seq<nat>, rest: seq<bool>): (d: Decoded)
    requires CanEncodeAll(chs, toks) && Ready(chs, final) && k <= |toks|
    ensures Ready(chs, d.states)
  {
    var e := Encode(chs, toks, k, final, rest);
    Decoded(TokenValues(chs, toks)[..k], e.states, e.bits)
  }

  lemma {:induction false} DecodeChain(chs: seq<Channel>, states: seq<nat>, bits: seq<bool>, ds: seq<Decoded>, k: nat)
    requires Ready(chs, states) && k < |ds| && ds[0] == Decoded([], states, bits)
    requires forall i: nat :: i < |ds| - 1 ==> Ready(chs, ds[i].states) && Next(chs, ds[i], Turn(i, |chs|)) == Some(ds[i + 1])
    ensures Decode(chs, states, k, bits) == Some(ds[k])
  {
    if k == 0 {
    } else {
      DecodeChain(chs, states, bits, ds, k - 1);
    }
  }

  lemma NextInverts(chs: seq<Channel>, toks: seq<Token>, k: nat, final: seq<nat>, rest: seq<bool>)
    requires CanEncodeAll(chs, toks) && Ready(chs, final) && k < |toks|
    ensures Next(chs, Passing(chs, toks, k, final, rest), Turn(k, |chs|)) == Some(Passing(chs, toks, k + 1, final, rest))
  {
    hide *;
    var now, later := Passing(chs, toks, k, final, rest), Passing(chs, toks, k + 1, final, rest);
    var c := PassingNext(chs, toks, k, final, rest);
    StepInverts(chs[c], toks[k], later.states[c], later.rest);
    NextStep(chs, now, c, Stepped(TokenValue(chs[c], toks[k]), later.states[c], later.rest));
    assert now.states[c := later.states[c]] == later.states;
  }

  /** What encoding one more symbol, in front, does. */
  lemma PassingNext(chs: seq<Channel>, toks: seq<Token>, k: nat, final: seq<nat>, rest: seq<bool>) returns (c: nat)
    requires CanEncodeAll(chs, toks) && Ready(chs, final) && k < |toks|
    ensures c == Turn(k, |chs|) && c < |chs| && Fits(chs[c]) && CanEncode(chs[c], toks[k])
    ensures toks[k].sym < |chs[c].base|
    ensures var now, later := Passing(chs, toks, k, final, rest), Passing(chs, toks, k + 1, final, rest);
      && c < |later.states| && later.states[c] < Pow2(chs[c].n)
      && now.states == later.states[c := EncodeState(chs[c], toks[k], later.states[c])]
      && now.rest == EncodeBits(chs[c], toks[k], later.states[c]) + later.rest
      && later.values == now.values + [TokenValue(chs[c], toks[k])]
  {
    c := Turn(k, |chs|);
    ValuesNext(chs, toks, k);
    hide Step, EncodeState, EncodeBits, Fits, CanEncode, TokenValue, TokenValues;
  }

  lemma ValuesNext(chs: seq<Channel>, toks: seq<Token>, k: nat)
    requires CanEncodeAll(chs, toks) && k < |toks|
    ensures var v, c := TokenValues(chs, toks), Turn(k, |chs|); v[..k + 1] == v[..k] + [TokenValue(chs[c], toks[k])]
  {
    var v := TokenValues(chs, toks);
    assert v[..k + 1] == v[..k] + [v[k]];
  }

  lemma NextStep(chs: seq<Channel>, d: Decoded, c: nat, s: Stepped)
    requires Ready(chs, d.states) && c < |chs| && Step(chs[c], d.states[c], d.rest) == Some(s)
    ensures Next(chs, d, c) == Some(Decoded(d.values + [s.value], d.states[c := s.state], s.rest))
  {
  }
}
