/**
 * What an output of literals and matches looks like, said of its bytes alone: where each triple's bytes are, which
 * literals they are, and how far back the others are the same.
 */
module LzParse {
  import opened Bits
  import opened LzCopy

  // Triples, three numbers each: so many literals, so many bytes from a distance back, and the distance.

  function LiteralCount(values: seq<nat>, i: nat): nat
    requires |values| >= 3 * (i + 1)
  {
    values[3 * i]
  }

  function MatchLength(values: seq<nat>, i: nat): nat
    requires |values| >= 3 * (i + 1)
  {
    values[3 * i + 1]
  }

  function Distance(values: seq<nat>, i: nat): nat
    requires |values| >= 3 * (i + 1)
  {
    values[3 * i + 2]
  }

  /** How many literals the first `n` triples ask for, and how many bytes their matches have. */
  function Asked(values: seq<nat>, n: nat): nat
    requires |values| >= 3 * n
  {
    if n == 0 then 0 else Asked(values, n - 1) + LiteralCount(values, n - 1)
  }

  function Matched(values: seq<nat>, n: nat): nat
    requires |values| >= 3 * n
  {
    if n == 0 then 0 else Matched(values, n - 1) + MatchLength(values, n - 1)
  }

  /** How many literals they are given: there may be fewer. */
  function Given(lits: seq<byte>, values: seq<nat>, n: nat): (r: nat)
    requires |values| >= 3 * n
    ensures r <= |lits|
  {
    if Asked(values, n) <= |lits| then Asked(values, n) else |lits|
  }

  /** Where the bytes of the first `n` triples end, behind `from` others. */
  function EndOf(from: nat, lits: seq<byte>, values: seq<nat>, n: nat): (r: nat)
    requires |values| >= 3 * n
    ensures r >= from
  {
    from + Given(lits, values, n) + Matched(values, n)
  }

  /** `d` is the last distance of the first `n` triples that is not 0; `start` if all are. */
  ghost predicate IsLastDistance(values: seq<nat>, n: nat, start: nat, d: nat)
    requires |values| >= 3 * n
  {
    || (d == start && forall k :: 0 <= k < n ==> Distance(values, k) == 0)
    || exists j :: 0 <= j < n && Distance(values, j) == d != 0 && forall k :: j < k < n ==> Distance(values, k) == 0
  }

  /** The i-th triple's bytes: the next literals, then bytes each as the one the last distance before it. */
  ghost predicate TripleHolds(text: seq<byte>, from: nat, lits: seq<byte>, values: seq<nat>, i: nat, start: nat)
    requires |values| >= 3 * (i + 1)
  {
    var a, b := Given(lits, values, i), Given(lits, values, i + 1);
    var at, end := EndOf(from, lits, values, i), EndOf(from, lits, values, i + 1);
    var copied := at + b - a;
    && a <= b && copied <= end <= |text|
    && text[at..copied] == lits[a..b]
    && (end > copied ==>
          exists d: nat :: IsLastDistance(values, i + 1, start, d) && 0 < d <= copied && Echoes(text[..end], copied, d))
  }

  /** `text` is `out` and then the bytes of the first `count` triples. */
  ghost predicate Parses(text: seq<byte>, out: seq<byte>, lits: seq<byte>, values: seq<nat>, count: nat, start: nat)
    requires |values| >= 3 * count
  {
    && |text| == EndOf(|out|, lits, values, count) && text[..|out|] == out
    && forall i :: 0 <= i < count ==> TripleHolds(text, |out|, lits, values, i, start)
  }

  lemma LastDistanceNext(values: seq<nat>, n: nat, start: nat, before: nat, d: nat)
    requires |values| >= 3 * (n + 1) && IsLastDistance(values, n, start, before)
    ensures IsLastDistance(values, n + 1, start, d) <==> d == if Distance(values, n) != 0 then Distance(values, n) else before
  {
  }

  /** A triple's bytes do not depend on those behind them. */
  lemma TripleOfPrefix(text: seq<byte>, size: nat, from: nat, lits: seq<byte>, values: seq<nat>, i: nat, start: nat)
    requires |values| >= 3 * (i + 1) && EndOf(from, lits, values, i + 1) <= size <= |text|
    ensures TripleHolds(text[..size], from, lits, values, i, start) <==> TripleHolds(text, from, lits, values, i, start)
  {
    hide IsLastDistance, Echoes;
    var a, b := Given(lits, values, i), Given(lits, values, i + 1);
    var at, end := EndOf(from, lits, values, i), EndOf(from, lits, values, i + 1);
    var copied := at + b - a;
    assert text[..size][..end] == text[..end];
    if a <= b && copied <= end {
      assert text[..size][at..copied] == text[at..copied];
    }
  }

  lemma EndsAscend(from: nat, lits: seq<byte>, values: seq<nat>, i: nat)
    requires |values| >= 3 * (i + 1)
    ensures EndOf(from, lits, values, i) <= EndOf(from, lits, values, i + 1)
    ensures EndOf(from, lits, values, i + 1)
      == EndOf(from, lits, values, i) + (Given(lits, values, i + 1) - Given(lits, values, i)) + MatchLength(values, i)
    ensures Given(lits, values, i) <= Given(lits, values, i + 1)
  {
  }

  lemma {:induction false} EndsOrdered(from: nat, lits: seq<byte>, values: seq<nat>, i: nat, j: nat)
    requires |values| >= 3 * j && i <= j
    ensures EndOf(from, lits, values, i) <= EndOf(from, lits, values, j)
    decreases j - i
  {
    if i == j {
    } else {
      EndsAscend(from, lits, values, j - 1);
      EndsOrdered(from, lits, values, i, j - 1);
    }
  }

  /** One triple more. */
  lemma ParsesNext(text: seq<byte>, out: seq<byte>, lits: seq<byte>, values: seq<nat>, count: nat, start: nat)
    requires |values| >= 3 * (count + 1) && |text| == EndOf(|out|, lits, values, count + 1)
    ensures EndOf(|out|, lits, values, count) <= |text|
    ensures Parses(text, out, lits, values, count + 1, start)
      <==> Parses(text[..EndOf(|out|, lits, values, count)], out, lits, values, count, start)
           && TripleHolds(text, |out|, lits, values, count, start)
  {
    hide TripleHolds, EndOf;
    var size := EndOf(|out|, lits, values, count);
    EndsAscend(|out|, lits, values, count);
    assert text[..size][..|out|] == text[..|out|];
    forall i | 0 <= i < count
      ensures TripleHolds(text[..size], |out|, lits, values, i, start) <==> TripleHolds(text, |out|, lits, values, i, start)
    {
      EndsOrdered(|out|, lits, values, i + 1, count);
      TripleOfPrefix(text, size, |out|, lits, values, i, start);
    }
  }

  lemma ParsesExtends(text: seq<byte>, out: seq<byte>, lits: seq<byte>, values: seq<nat>, count: nat, start: nat)
    requires |values| >= 3 * count && Parses(text, out, lits, values, count, start)
    ensures out <= text
  {
  }

  lemma ParsesNone(text: seq<byte>, out: seq<byte>, lits: seq<byte>, values: seq<nat>, start: nat)
    ensures Parses(text, out, lits, values, 0, start) <==> text == out
  {
    if |text| == |out| {
      assert text[..|out|] == text;
    }
  }
}
