/**
 * LZFSE's tANS decode tables (tools/ftab/lzfse.py). A symbol of frequency f owns f consecutive slots of a table of
 * 2^n states; each slot leads to a range of next states, and the f ranges tile the state space.
 */
module FseTables {
  import opened Arithmetic
  import opened Bits
  import opened Options

  /** A literal table's slot: bits to pull, what to add to them for the next state, and the literal. */
  datatype LitSlot = LitSlot(bits: nat, delta: int, sym: nat)

  /** A length or distance table's slot: all bits to pull, how many of those are the value's own, and the two bases. */
  datatype ValSlot = ValSlot(total: nat, extra: nat, delta: int, base: nat)

  function Clz32(x: nat): int {
    32 - BitLength(x)
  }

  // What one symbol's slots hold, f being its frequency and 2^n the number of states.

  /** How many bits the wider slots pull; the narrower ones pull one less. */
  function Width(n: nat, f: nat): int {
    n + 1 - BitLength(f)
  }

  /** How many of the slots are wide; they come first. */
  function Wide(n: nat, f: nat): int
    requires 0 < f <= Pow2(n)
  {
    WidthBounds(n, f);
    Pow2(n + 1) / Pow2(Width(n, f)) - f
  }

  lemma WidthBounds(n: nat, f: nat)
    requires 0 < f <= Pow2(n)
    ensures 0 <= Width(n, f) <= n
    ensures Pow2(n) == Pow2(BitLength(f) - 1) * Pow2(Width(n, f))
    ensures Pow2(n + 1) / Pow2(Width(n, f)) == Pow2(BitLength(f))
    ensures Pow2(BitLength(f) - 1) <= f < Pow2(BitLength(f)) == 2 * Pow2(BitLength(f) - 1)
    ensures Width(n, f) == 0 ==> f == Pow2(n)
  {
    BitLengthBounds(f);
    BitLengthOfPow2(n);
    BitLengthMonotone(f, Pow2(n));
    var e, k := BitLength(f) - 1, Width(n, f);
    Pow2Add(e, k);
    Pow2Add(e + 1, k);
    DivExact(Pow2(e + 1), Pow2(k));
  }

  lemma WideBounds(n: nat, f: nat)
    requires 0 < f <= Pow2(n)
    ensures 0 < Wide(n, f) <= f
    ensures Width(n, f) == 0 ==> Wide(n, f) == f
  {
    WidthBounds(n, f);
  }

  function SlotBits(n: nat, f: nat, j: nat): (b: nat)
    requires 0 < f <= Pow2(n) && j < f
    ensures b <= n
  {
    WidthBounds(n, f);
    WideBounds(n, f);
    if j < Wide(n, f) then Width(n, f) else Width(n, f) - 1
  }

  function SlotDelta(n: nat, f: nat, j: nat): int
    requires 0 < f <= Pow2(n) && j < f
  {
    WidthBounds(n, f);
    WideBounds(n, f);
    if j < Wide(n, f) then (f + j) * Pow2(Width(n, f)) - Pow2(n)
    else (j - Wide(n, f)) * Pow2(Width(n, f) - 1)
  }

  /** Whether slot j leads to state t. */
  predicate Leads(n: nat, f: nat, j: nat, t: nat)
    requires 0 < f <= Pow2(n) && j < f
  {
    SlotDelta(n, f, j) <= t < SlotDelta(n, f, j) + Pow2(SlotBits(n, f, j))
  }

  function SlotFor(n: nat, f: nat, t: nat): int
    requires 0 < f <= Pow2(n)
  {
    WidthBounds(n, f);
    var k := Width(n, f);
    if t < f * Pow2(k) - Pow2(n) then (if k == 0 then 0 else Wide(n, f) + t / Pow2(k - 1))
    else (t + Pow2(n)) / Pow2(k) - f
  }

  /** Below this state the narrow slots lead, from it on the wide ones. */
  lemma Boundary(n: nat, f: nat)
    requires 0 < f <= Pow2(n)
    ensures var k := Width(n, f);
      && 0 <= k
      && 0 <= f * Pow2(k) - Pow2(n)
      && (f + Wide(n, f)) * Pow2(k) == 2 * Pow2(n)
      && (k == 0 ==> f * Pow2(k) == Pow2(n))
      && (k > 0 ==> (f - Wide(n, f)) * Pow2(k - 1) == f * Pow2(k) - Pow2(n))
  {
    WidthBounds(n, f);
    WideBounds(n, f);
    var k, e := Width(n, f), BitLength(f) - 1;
    WideMeets(f, Wide(n, f), Pow2(e), Pow2(k), Pow2(n));
    if k > 0 {
      NarrowMeets(f, Wide(n, f), Pow2(e), Pow2(k - 1), Pow2(n));
    }
  }

  lemma WideMeets(f: nat, w: nat, e: nat, p: nat, states: nat)
    requires f + w == 2 * e && e * p == states && e <= f
    ensures (f + w) * p == 2 * states && f * p >= states
  {
    MulMonotone(e, f, p);
    assert (2 * e) * p == 2 * (e * p);
  }

  lemma NarrowMeets(f: nat, w: nat, e: nat, q: nat, states: nat)
    requires f + w == 2 * e && e * (2 * q) == states && e <= f
    ensures (f - w) * q == f * (2 * q) - states
  {
    assert f - w == 2 * f - 2 * e;
    assert (2 * f - 2 * e) * q == 2 * f * q - 2 * e * q;
  }

  /** Every slot's range of next states is within the table. */
  lemma SlotInRange(n: nat, f: nat, j: nat)
    requires 0 < f <= Pow2(n) && j < f
    ensures 0 <= SlotDelta(n, f, j)
    ensures SlotDelta(n, f, j) + Pow2(SlotBits(n, f, j)) <= Pow2(n)
  {
    Boundary(n, f);
    WideBounds(n, f);
    var k, w := Width(n, f), Wide(n, f);
    if j < w {
      UnitWithin(f + j, f, f + w, Pow2(k));
    } else {
      UnitWithin(j - w, 0, f - w, Pow2(k - 1));
      MulMonotone(f, f + w, Pow2(k));
    }
  }

  lemma UnitWithin(i: int, lo: int, hi: int, d: nat)
    requires lo <= i < hi
    ensures lo * d <= i * d && i * d + d <= hi * d
  {
    MulMonotone(lo, i, d);
    MulMonotone(i + 1, hi, d);
    assert (i + 1) * d == i * d + d;
  }

  lemma SlotForLeads(n: nat, f: nat, t: nat)
    requires 0 < f <= Pow2(n) && t < Pow2(n)
    ensures 0 <= SlotFor(n, f, t) < f && Leads(n, f, SlotFor(n, f, t), t)
  {
    Boundary(n, f);
    WideBounds(n, f);
    var k, w := Width(n, f), Wide(n, f);
    if t < f * Pow2(k) - Pow2(n) {
      QuotientWithin(t, Pow2(k - 1), 0, f - w);
    } else {
      QuotientWithin(t + Pow2(n), Pow2(k), f, f + w);
    }
  }

  lemma LeadsIsSlotFor(n: nat, f: nat, j: nat, t: nat)
    requires 0 < f <= Pow2(n) && t < Pow2(n) && j < f && Leads(n, f, j, t)
    ensures j == SlotFor(n, f, t)
  {
    Boundary(n, f);
    WideBounds(n, f);
    var k, w := Width(n, f), Wide(n, f);
    if j < w {
      UnitWithin(f + j, f, f + w, Pow2(k));
      DivUnique(t + Pow2(n), Pow2(k), f + j);
    } else {
      UnitWithin(j - w, 0, f - w, Pow2(k - 1));
      DivUnique(t, Pow2(k - 1), j - w);
    }
  }

  /** The slot leading to state t. */
  function SlotTo(n: nat, f: nat, t: nat): (j: nat)
    requires 0 < f <= Pow2(n) && t < Pow2(n)
    ensures j < f && Leads(n, f, j, t)
  {
    SlotForLeads(n, f, t);
    SlotFor(n, f, t)
  }

  /** The slots of a symbol tile the states: each state is led to by exactly one slot of each symbol that occurs. */
  lemma SlotsTile(n: nat, f: nat, t: nat)
    requires 0 < f <= Pow2(n) && t < Pow2(n)
    ensures forall j: nat | j < f :: Leads(n, f, j, t) <==> j == SlotTo(n, f, t)
  {
    forall j: nat | j < f && Leads(n, f, j, t)
      ensures j == SlotTo(n, f, t)
    {
      LeadsIsSlotFor(n, f, j, t);
    }
  }

  /**
   * A slot's states are those its number and the frequency, shifted into the upper half of twice the table's size, may
   * become with any bits behind it: so many bits are pulled as shift it there.
   */
  lemma SlotIsShift(n: nat, f: nat, j: nat)
    requires 0 < f <= Pow2(n) && j < f
    ensures var shifted := (f + j) * Pow2(SlotBits(n, f, j));
      Pow2(n) <= shifted < 2 * Pow2(n) && SlotDelta(n, f, j) == shifted - Pow2(n)
  {
    WidthBounds(n, f);
    WideBounds(n, f);
    var half, k := Pow2(BitLength(f) - 1), Width(n, f);
    if j < Wide(n, f) {
      ShiftWithin(half, f + j, Pow2(k));
    } else {
      assert Pow2(k) == 2 * Pow2(k - 1);
      ShiftWithin(2 * half, f + j, Pow2(k - 1));
      Regrouped(half, Pow2(k - 1));
      Apart(f + j, 2 * half, Pow2(k - 1));
    }
  }

  lemma ShiftWithin(least: nat, x: nat, d: nat)
    requires least <= x < 2 * least && d > 0
    ensures least * d <= x * d < 2 * (least * d)
  {
    MulMonotone(least, x, d);
    MulMonotone(x + 1, 2 * least, d);
    assert (x + 1) * d == x * d + d && 2 * least * d == 2 * (least * d);
  }

  lemma Regrouped(half: nat, d: nat)
    ensures 2 * half * d == half * (2 * d)
  {
  }

  lemma Apart(x: nat, y: nat, d: nat)
    ensures (x - y) * d == x * d - y * d
  {
  }

  // A whole table: every symbol's slots in symbol order, then padding.

  /** What a table is built for: 2^n states, and each symbol's frequency, own value bits and base value. */
  datatype Channel = Channel(n: nat, freq: seq<nat>, extra: seq<nat>, base: seq<nat>) {
    ghost predicate Valid() {
      && |extra| == |base| == |freq|
      && FreqsFit(n, freq)
    }

    ghost function SymbolSlot(sym: nat, j: nat): ValSlot
      requires Valid() && sym < |freq| && j < freq[sym]
    {
      ValSlot(SlotBits(n, freq[sym], j) + extra[sym], extra[sym], SlotDelta(n, freq[sym], j), base[sym])
    }

    ghost function SymbolSlots(sym: nat, count: nat): (s: seq<ValSlot>)
      requires Valid() && sym < |freq| && count <= freq[sym]
      ensures |s| == count
    {
      seq(count, j requires 0 <= j < count => SymbolSlot(sym, j))
    }

    /** The slots of the first `count` symbols. */
    ghost function Slots(count: nat): (s: seq<ValSlot>)
      requires Valid() && count <= |freq|
      ensures |s| == Sum(freq, count)
    {
      if count == 0 then [] else Slots(count - 1) + SymbolSlots(count - 1, freq[count - 1])
    }

    ghost function Table(): (t: seq<ValSlot>)
      requires Valid()
      ensures |t| >= Pow2(n)
    {
      Padded(Slots(|freq|), Pow2(n), ValSlot(0, 0, 0, 0))
    }
  }

  predicate FreqsFit(n: nat, freq: seq<nat>) {
    forall i :: 0 <= i < |freq| ==> freq[i] <= Pow2(n)
  }

  /** The sum of the first `count` frequencies, which is where the next symbol's slots start. */
  function Sum(freq: seq<nat>, count: nat): nat
    requires count <= |freq|
  {
    if count == 0 then 0 else Sum(freq, count - 1) + freq[count - 1]
  }

  function Padded<T>(s: seq<T>, size: nat, filler: T): (p: seq<T>)
    ensures |p| == if |s| < size then size else |s|
  {
    if |s| < size then s + seq(size - |s|, _ => filler) else s
  }

  lemma {:induction false} SumMonotone(freq: seq<nat>, i: nat, k: nat)
    requires i <= k <= |freq|
    ensures Sum(freq, i) <= Sum(freq, k)
  {
    if i == k {
    } else {
      SumMonotone(freq, i, k - 1);
    }
  }

  /** Where the table holds a symbol's slot. */
  lemma {:induction false} SlotAt(ch: Channel, count: nat, sym: nat, j: nat)
    requires ch.Valid() && sym < count <= |ch.freq| && j < ch.freq[sym]
    ensures Sum(ch.freq, sym) + j < Sum(ch.freq, count)
    ensures ch.Slots(count)[Sum(ch.freq, sym) + j] == ch.SymbolSlot(sym, j)
  {
    hide SlotBits, SlotDelta;
    SlotsOf(ch, count - 1);
    if sym == count - 1 {
    } else {
      hide Channel.Slots;
      SlotAt(ch, count - 1, sym, j);
    }
  }

  /** Any slot of a table but the padding is some symbol's. */
  lemma {:induction false} SlotOwner(ch: Channel, count: nat, s: nat) returns (sym: nat, j: nat)
    requires ch.Valid() && count <= |ch.freq| && s < Sum(ch.freq, count)
    ensures sym < count && j < ch.freq[sym] && s == Sum(ch.freq, sym) + j
    ensures ch.Slots(count)[s] == ch.SymbolSlot(sym, j)
  {
    if s < Sum(ch.freq, count - 1) {
      sym, j := SlotOwner(ch, count - 1, s);
    } else {
      sym, j := count - 1, s - Sum(ch.freq, count - 1);
    }
  }

  /**
   * Whatever bits follow, a state in range leads to a state in range, after pulling no more than n bits besides the
   * value's own.
   */
  lemma NextStateInRange(ch: Channel, s: nat, x: nat)
    requires ch.Valid() && s < |ch.Table()|
    ensures var e := ch.Table()[s];
      && e.extra <= e.total <= ch.n + e.extra
      && 0 <= e.delta
      && e.delta + Pow2(e.total - e.extra) <= Pow2(ch.n)
      && (x < Pow2(e.total) ==> 0 <= e.delta + Shr(x, e.extra) < Pow2(ch.n))
  {
    var e := ch.Table()[s];
    if s < Sum(ch.freq, |ch.freq|) {
      var sym, j := SlotOwner(ch, |ch.freq|, s);
      SlotInRange(ch.n, ch.freq[sym], j);
    }
    ShrBits(x, e.total - e.extra, e.extra);
  }

  /** Literals carry no bits of their own: a literal is its symbol. */
  function LitChannel(n: nat, freq: seq<nat>): Channel {
    Channel(n, freq, seq(|freq|, _ => 0), seq(|freq|, i => i))
  }

  function AsValSlot(s: LitSlot): ValSlot {
    ValSlot(s.bits, 0, s.delta, s.sym)
  }

  function AsValSlots(t: seq<LitSlot>): (r: seq<ValSlot>)
    ensures |r| == |t|
  {
    seq(|t|, i requires 0 <= i < |t| => AsValSlot(t[i]))
  }

  /** The literal table. A frequency over the state count needs a negative shift, an error. */
  method LitTable(nstates: nat, freq: seq<nat>, ghost n: nat) returns (r: Option<seq<LitSlot>>)
    requires nstates == Pow2(n)
    ensures r.Some? <==> FreqsFit(n, freq)
    ensures r.Some? ==> AsValSlots(r.value) == LitChannel(n, freq).Table()
  {
    hide Pow2, SlotBits, SlotDelta, Channel.Slots, BitLength;
    ghost var ch := LitChannel(n, freq);
    var t: seq<LitSlot> := [];
    var nclz := Clz32(nstates);
    BitLengthOfPow2(n);
    for sym := 0 to |freq|
      invariant FreqsFit(n, freq[..sym])
      invariant FreqsFit(n, freq) ==> AsValSlots(t) == ch.Slots(sym)
    {
      var f := freq[sym];
      FitsNext(n, freq, sym);
      if f == 0 {
        if FreqsFit(n, freq) {
          NoSlots(ch, sym);
        }
        continue;
      }
      var k := Clz32(f) - nclz;
      if k < 0 {
        NegativeWidth(n, f);
        return None;
      }
      var slots := LitSlots(nstates, sym, f, k, n);
      if slots == None {
        return None;
      }
      if FreqsFit(n, freq) {
        LitSlotsNext(n, freq, sym, t, slots.value);
      }
      t := t + slots.value;
    }
    assert freq[..|freq|] == freq;
    t := Padded(t, nstates, LitSlot(0, 0, 0));
    return Some(t);
  }

  lemma SlotParts(n: nat, f: nat, j: nat)
    requires 0 < f <= Pow2(n) && j < f
    ensures var k, wide := Width(n, f), Wide(n, f);
      && k >= 0 && (j >= wide ==> k > 0)
      && SlotBits(n, f, j) == (if j < wide then k else k - 1)
      && SlotDelta(n, f, j) == if j < wide then (f + j) * Pow2(k) - Pow2(n) else (j - wide) * Pow2(k - 1)
  {
    hide Pow2, Width, Wide;
    WidthBounds(n, f);
    WideBounds(n, f);
  }

  lemma AsValSlotIs(bits: nat, delta: int, sym: nat)
    ensures AsValSlot(LitSlot(bits, delta, sym)) == ValSlot(bits, 0, delta, sym)
  {
  }

  /** A symbol's slots. A frequency over the state count needs a negative shift, an error. */
  method LitSlots(nstates: nat, sym: nat, f: nat, k: nat, ghost n: nat) returns (r: Option<seq<LitSlot>>)
    requires nstates == Pow2(n) && f > 0 && k == Width(n, f)
    ensures r.Some? <==> f <= nstates
    ensures r.Some? ==> |r.value| == f && forall j :: 0 <= j < f ==>
      AsValSlot(r.value[j]) == ValSlot(SlotBits(n, f, j), 0, SlotDelta(n, f, j), sym)
  {
    hide *;
    r := None;
    var t: seq<LitSlot> := [];
    NarrowShift(n, f);
    var j0 := 2 * nstates / Pow2(k) - f;
    for j := 0 to f
      invariant f > nstates ==> j <= j0 < f && k == 0
      invariant f <= nstates ==> |t| == j && forall i :: 0 <= i < j ==>
        AsValSlot(t[i]) == ValSlot(SlotBits(n, f, i), 0, SlotDelta(n, f, i), sym)
    {
      if j >= j0 && k == 0 {
        return None;
      }
      var bits := if j < j0 then k else k - 1;
      var delta := if j < j0 then (f + j) * Pow2(k) - nstates else (j - j0) * Pow2(k - 1);
      if f <= nstates {
        SlotParts(n, f, j);
      }
      AsValSlotIs(bits, delta, sym);
      t := t + [LitSlot(bits, delta, sym)];
    }
    return Some(t);
  }

  lemma LitSlotsNext(n: nat, freq: seq<nat>, sym: nat, t: seq<LitSlot>, slots: seq<LitSlot>)
    requires FreqsFit(n, freq) && sym < |freq| && freq[sym] > 0 && |slots| == freq[sym]
    requires AsValSlots(t) == LitChannel(n, freq).Slots(sym)
    requires forall j :: 0 <= j < freq[sym] ==>
      AsValSlot(slots[j]) == ValSlot(SlotBits(n, freq[sym], j), 0, SlotDelta(n, freq[sym], j), sym)
    ensures AsValSlots(t + slots) == LitChannel(n, freq).Slots(sym + 1)
  {
    hide SlotBits, SlotDelta, AsValSlot, Channel.Slots;
    var ch := LitChannel(n, freq);
    assert AsValSlots(slots) == ch.SymbolSlots(sym, freq[sym]);
    assert AsValSlots(t + slots) == AsValSlots(t) + AsValSlots(slots);
    SlotsOf(ch, sym);
  }

  lemma SlotsOf(ch: Channel, sym: nat)
    requires ch.Valid() && sym < |ch.freq|
    ensures ch.Slots(sym + 1) == ch.Slots(sym) + ch.SymbolSlots(sym, ch.freq[sym])
  {
  }

  /** A symbol that does not occur has no slots. */
  lemma NoSlots(ch: Channel, sym: nat)
    requires ch.Valid() && sym < |ch.freq| && ch.freq[sym] == 0
    ensures ch.Slots(sym + 1) == ch.Slots(sym)
  {
    SlotsOf(ch, sym);
  }

  lemma FitsNext(n: nat, freq: seq<nat>, sym: nat)
    requires sym < |freq|
    ensures FreqsFit(n, freq[..sym + 1]) == (FreqsFit(n, freq[..sym]) && freq[sym] <= Pow2(n))
    ensures freq[sym] > Pow2(n) ==> !FreqsFit(n, freq)
  {
    assert freq[..sym + 1] == freq[..sym] + [freq[sym]];
  }

  lemma NegativeWidth(n: nat, f: nat)
    requires f > 0 && Width(n, f) < 0
    ensures f > Pow2(n)
  {
    if f <= Pow2(n) {
      WidthBounds(n, f);
    }
  }

  /** What the table builders compute from a frequency whose width is not negative. */
  lemma NarrowShift(n: nat, f: nat)
    requires f > 0 && Width(n, f) >= 0
    ensures f <= Pow2(n) ==> 2 * Pow2(n) / Pow2(Width(n, f)) - f == Wide(n, f)
    ensures f <= Pow2(n) && Width(n, f) == 0 ==> Wide(n, f) == f
    ensures f > Pow2(n) ==> Width(n, f) == 0 && 0 <= 2 * Pow2(n) / Pow2(Width(n, f)) - f < f
  {
    if f <= Pow2(n) {
      WidthBounds(n, f);
      WideBounds(n, f);
    } else {
      BitLengthBounds(f);
      BitLengthOfPow2(n);
      BitLengthMonotone(Pow2(n), f);
      assert Pow2(0) == 1;
    }
  }

  /** A length's or distance's slots, the same way. */
  method ValSlots(nstates: nat, vb: nat, vbase: nat, f: nat, k: nat, ghost n: nat) returns (r: Option<seq<ValSlot>>)
    requires nstates == Pow2(n) && f > 0 && k == Width(n, f)
    ensures r.Some? <==> f <= nstates
    ensures r.Some? ==> |r.value| == f && forall j :: 0 <= j < f ==>
      r.value[j] == ValSlot(SlotBits(n, f, j) + vb, vb, SlotDelta(n, f, j), vbase)
  {
    hide *;
    r := None;
    var t: seq<ValSlot> := [];
    NarrowShift(n, f);
    var j0 := 2 * nstates / Pow2(k) - f;
    for j := 0 to f
      invariant f > nstates ==> j <= j0 < f && k == 0
      invariant f <= nstates ==> |t| == j && forall i :: 0 <= i < j ==>
        t[i] == ValSlot(SlotBits(n, f, i) + vb, vb, SlotDelta(n, f, i), vbase)
    {
      if j >= j0 && k == 0 {
        return None;
      }
      var bits := if j < j0 then k else k - 1;
      var delta := if j < j0 then (f + j) * Pow2(k) - nstates else (j - j0) * Pow2(k - 1);
      if f <= nstates {
        SlotParts(n, f, j);
      }
      t := t + [ValSlot(bits + vb, vb, delta, vbase)];
    }
    return Some(t);
  }

  lemma ValSlotsNext(ch: Channel, sym: nat, t: seq<ValSlot>, slots: seq<ValSlot>)
    requires ch.Valid() && sym < |ch.freq| && ch.freq[sym] > 0 && |slots| == ch.freq[sym] && t == ch.Slots(sym)
    requires forall j :: 0 <= j < ch.freq[sym] ==>
      slots[j] == ValSlot(SlotBits(ch.n, ch.freq[sym], j) + ch.extra[sym], ch.extra[sym],
                          SlotDelta(ch.n, ch.freq[sym], j), ch.base[sym])
    ensures t + slots == ch.Slots(sym + 1)
  {
    hide SlotBits, SlotDelta, Channel.Slots;
    assert slots == ch.SymbolSlots(sym, ch.freq[sym]);
    SlotsOf(ch, sym);
  }

  /** A length or distance table. */
  method ValTable(nstates: nat, freq: seq<nat>, xbits: seq<nat>, base: seq<nat>, ghost n: nat)
    returns (r: Option<seq<ValSlot>>)
    requires nstates == Pow2(n)
    requires |xbits| == |base| == |freq|
    ensures r.Some? <==> FreqsFit(n, freq)
    ensures r.Some? ==> r.value == Channel(n, freq, xbits, base).Table()
  {
    hide Pow2, SlotBits, SlotDelta, Channel.Slots, BitLength;
    ghost var ch := Channel(n, freq, xbits, base);
    var t: seq<ValSlot> := [];
    var nclz := Clz32(nstates);
    BitLengthOfPow2(n);
    for sym := 0 to |freq|
      invariant FreqsFit(n, freq[..sym])
      invariant FreqsFit(n, freq) ==> t == ch.Slots(sym)
    {
      var f := freq[sym];
      FitsNext(n, freq, sym);
      if f == 0 {
        if FreqsFit(n, freq) {
          NoSlots(ch, sym);
        }
        continue;
      }
      var k := Clz32(f) - nclz;
      if k < 0 {
        NegativeWidth(n, f);
        return None;
      }
      var slots := ValSlots(nstates, xbits[sym], base[sym], f, k, n);
      if slots == None {
        return None;
      }
      if FreqsFit(n, freq) {
        ValSlotsNext(ch, sym, t, slots.value);
      }
      t := t + slots.value;
    }
    assert freq[..|freq|] == freq;
    t := Padded(t, nstates, ValSlot(0, 0, 0, 0));
    return Some(t);
  }
}
