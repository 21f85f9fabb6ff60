/**
 * Rows and messages cut into runs of a limited size (packages/db/src/sync.ts, apps/extractor/src/queues.ts): nothing is
 * lost, repeated or moved, and no cut into such runs has fewer.
 */
module Batches {
  import opened Sequences

  /** A run's limits: so many bytes, `base` of them whatever it holds and `each` with every element; and so many elements. */
  datatype Limit = Limit(base: nat, each: nat, bytes: nat, count: nat)

  function Bytes<T>(s: seq<T>, size: T -> nat, each: nat): nat {
    if s == [] then 0 else Bytes(s[..|s| - 1], size, each) + size(s[|s| - 1]) + each
  }

  /** An element too large for any run has one to itself. */
  predicate Fits<T>(s: seq<T>, size: T -> nat, l: Limit) {
    |s| == 1 || (|s| <= l.count && l.base + Bytes(s, size, l.each) <= l.bytes)
  }

  /** Each run fits, and could not take the element after it. */
  ghost predicate Greedy<T>(runs: seq<seq<T>>, size: T -> nat, l: Limit) {
    && (forall i :: 0 <= i < |runs| ==> runs[i] != [] && Fits(runs[i], size, l))
    && forall i :: 0 < i < |runs| ==> runs[i] != [] && !Fits(runs[i - 1] + [runs[i][0]], size, l)
  }

  lemma {:induction false} BytesBoth<T>(a: seq<T>, b: seq<T>, size: T -> nat, each: nat)
    ensures Bytes(a + b, size, each) == Bytes(a, size, each) + Bytes(b, size, each)
  {
    if b == [] {
      assert a + b == a;
    } else {
      assert (a + b)[..|a + b| - 1] == a + b[..|b| - 1];
      BytesBoth(a, b[..|b| - 1], size, each);
    }
  }

  /** Part of what fits in a run fits in one. */
  lemma PartFits<T>(s: seq<T>, from: nat, to: nat, size: T -> nat, l: Limit)
    requires from < to <= |s| && Fits(s, size, l)
    ensures Fits(s[from..to], size, l)
  {
    assert s == s[..from] + (s[from..to] + s[to..]);
    BytesBoth(s[..from], s[from..to] + s[to..], size, l.each);
    BytesBoth(s[from..to], s[to..], size, l.each);
  }

  lemma Overlong<T>(first: seq<T>, extra: seq<T>, run: seq<T>, rest: seq<T>, whole: seq<T>)
    requires |extra| + |run| < |first| <= |whole| && first == whole[..|first|]
    requires whole == extra + (run + rest)
    ensures first[|extra|..|extra| + |run| + 1] == run + [rest[0]]
  {
    assert first[|extra| + |run|] == whole[|extra| + |run|];
    forall i | 0 <= i < |run|
      ensures first[|extra| + i] == run[i]
    {
      assert first[|extra| + i] == whole[|extra| + i];
    }
  }

  /** A run that fits reaches no further than a greedy one that ends no earlier than it could. */
  lemma FirstIsShort<T>(runs: seq<seq<T>>, others: seq<seq<T>>, extra: seq<T>, size: T -> nat, l: Limit)
    requires Greedy(runs, size, l) && runs != [] && others != [] && Flat(others) == extra + Flat(runs)
    requires others[0] == [] || Fits(others[0], size, l)
    ensures |others[0]| <= |extra| + |runs[0]|
  {
    hide Fits;
    var first, n, whole := others[0], |extra| + |runs[0]|, Flat(others);
    assert first == whole[..|first|];
    if |first| > n {
      assert runs[1..] != [];
      assert Flat(runs[1..]) == runs[1] + Flat(runs[1..][1..]);
      assert Flat(runs[1..])[0] == runs[1][0] && !Fits(runs[0] + [runs[1][0]], size, l);
      Overlong(first, extra, runs[0], Flat(runs[1..]), whole);
      PartFits(first, |extra|, n + 1, size, l);
    }
  }

  /** Runs that each take all they can are as few as any that hold the same, here with `extra` before it. */
  lemma {:induction false} NoneFewer<T>(runs: seq<seq<T>>, others: seq<seq<T>>, extra: seq<T>, size: T -> nat, l: Limit)
    requires Greedy(runs, size, l) && Flat(others) == extra + Flat(runs)
    requires forall i :: 0 <= i < |others| ==> others[i] == [] || Fits(others[i], size, l)
    ensures |runs| <= |others|
    decreases |others|
  {
    hide Fits;
    if runs == [] || others == [] {
    } else {
      FirstIsShort(runs, others, extra, size, l);
      var first := others[0];
      var left := (extra + runs[0])[|first|..];
      assert Flat(others[1..]) == Flat(others)[|first|..];
      assert Flat(others[1..]) == left + Flat(runs[1..]);
      NoneFewer(runs[1..], others[1..], left, size, l);
    }
  }

  /** No runs that fit are fewer than greedy ones. */
  lemma GreedyIsFewest<T>(runs: seq<seq<T>>, others: seq<seq<T>>, size: T -> nat, l: Limit)
    requires Greedy(runs, size, l) && Flat(others) == Flat(runs)
    requires forall i :: 0 <= i < |others| ==> others[i] == [] || Fits(others[i], size, l)
    ensures |runs| <= |others|
  {
    assert [] + Flat(runs) == Flat(runs);
    NoneFewer(runs, others, [], size, l);
  }

  /** One run cut off as it is followed by an element it cannot take. */
  lemma RunEnds<T>(runs: seq<seq<T>>, run: seq<T>, size: T -> nat, l: Limit)
    requires Greedy(runs, size, l) && run != [] && Fits(run, size, l)
    requires runs != [] ==> !Fits(runs[|runs| - 1] + [run[0]], size, l)
    ensures Greedy(runs + [run], size, l) && Flat(runs + [run]) == Flat(runs) + run
  {
    FlatBoth(runs, [run]);
    assert Flat([run]) == run + Flat<T>([]);
    var all := runs + [run];
    forall i | 0 < i < |all|
      ensures all[i] != [] && !Fits(all[i - 1] + [all[i][0]], size, l)
    {
      if i < |runs| {
        assert runs[i] != [];
      }
    }
  }

  /** How a table's rows are cut: as JSON arrays, a comma with each row, so at most a row a byte. */
  const JSON := Limit(2, 1, 1_000_000, 1_000_000)

  /** How messages are: what one sendBatch takes. */
  const SEND := Limit(0, 0, 200_000, 100)

  lemma {:induction false} BytesAtLeast<T>(s: seq<T>, size: T -> nat)
    ensures |s| <= Bytes(s, size, 1)
  {
    if s == [] {
    } else {
      BytesAtLeast(s[..|s| - 1], size);
    }
  }

  /** The elements before `i` cut into runs, the last run still open. */
  ghost predicate Cutting<T>(s: seq<T>, i: nat, runs: seq<seq<T>>, open: seq<T>, size: T -> nat, l: Limit)
    requires i <= |s|
  {
    && Flat(runs) + open == s[..i] && Greedy(runs, size, l)
    && (open == [] ==> runs == [])
    && (open != [] ==> Fits(open, size, l))
    && (open != [] && runs != [] ==> !Fits(runs[|runs| - 1] + [open[0]], size, l))
  }

  lemma CutNothing<T>(s: seq<T>, size: T -> nat, l: Limit)
    ensures Cutting(s, 0, [], [], size, l)
  {
  }

  /** The next element joins the open run if it may, else begins another. */
  lemma CutNext<T>(s: seq<T>, i: nat, runs: seq<seq<T>>, open: seq<T>, size: T -> nat, l: Limit)
    requires i < |s| && Cutting(s, i, runs, open, size, l)
    ensures open == [] || Fits(open + [s[i]], size, l) ==> Cutting(s, i + 1, runs, open + [s[i]], size, l)
    ensures open != [] && !Fits(open + [s[i]], size, l) ==> Cutting(s, i + 1, runs + [open], [s[i]], size, l)
  {
    assert s[..i + 1] == s[..i] + [s[i]];
    assert Flat(runs) + (open + [s[i]]) == s[..i + 1];
    if open != [] && !Fits(open + [s[i]], size, l) {
      RunEnds(runs, open, size, l);
    }
  }

  lemma CutAll<T>(s: seq<T>, runs: seq<seq<T>>, open: seq<T>, size: T -> nat, l: Limit)
    requires Cutting(s, |s|, runs, open, size, l)
    ensures var all := if open == [] then runs else runs + [open]; Flat(all) == s && Greedy(all, size, l)
  {
    assert s[..|s|] == s;
    if open == [] {
      assert Flat(runs) + [] == Flat(runs);
    } else {
      RunEnds(runs, open, size, l);
    }
  }

  lemma JsonTest<T>(part: seq<T>, row: T, size: T -> nat)
    ensures Bytes(part + [row], size, 1) == Bytes(part, size, 1) + size(row) + 1
    ensures Bytes([row], size, 1) == size(row) + 1 && Bytes<T>([], size, 1) == 0
    ensures part != [] ==> (Fits(part + [row], size, JSON) <==> 2 + Bytes(part, size, 1) + size(row) + 1 <= 1_000_000)
  {
    assert [] + [row] == [row];
    BytesAtLeast(part + [row], size);
  }

  lemma SendTest<T>(batch: seq<T>, m: T, size: T -> nat)
    ensures Bytes(batch + [m], size, 0) == Bytes(batch, size, 0) + size(m)
    ensures Bytes([m], size, 0) == size(m) && Bytes<T>([], size, 0) == 0
    ensures Fits(batch, size, SEND) ==> |batch| <= 100
    ensures batch != [] ==>
      (Fits(batch + [m], size, SEND) <==> |batch| + 1 <= 100 && Bytes(batch, size, 0) + size(m) <= 200_000)
  {
    assert [] + [m] == [m];
  }

  /** Rows as JSON arrays of at most JSON's bytes, `size` being a row's encoded length. */
  method JsonBatches<T>(rows: seq<T>, size: T -> nat) returns (out: seq<seq<T>>)
    ensures Flat(out) == rows && Greedy(out, size, JSON)
  {
    hide *;
    out := [];
    var part: seq<T>, bytes: nat := [], 2;
    CutNothing(rows, size, JSON);
    for i := 0 to |rows|
      invariant Cutting(rows, i, out, part, size, JSON)
      invariant i == 0 ==> bytes == 2 && part == []
      invariant i > 0 ==> bytes == 2 + Bytes(part, size, 1)
    {
      var row := rows[i];
      JsonTest(part, row, size);
      CutNext(rows, i, out, part, size, JSON);
      if |part| > 0 && bytes + size(row) + 1 > 1_000_000 {
        out, part, bytes := out + [part], [], 2;
      }
      assert part == [] ==> part + [row] == [row];
      part := part + [row];
      bytes := bytes + size(row) + 1;
    }
    CutAll(rows, out, part, size, JSON);
    if |part| > 0 {
      out := out + [part];
    }
  }

  /** Messages in runs one sendBatch takes, `size` being a message's length as JSON. */
  method SendBatches<T>(messages: seq<T>, size: T -> nat) returns (out: seq<seq<T>>)
    ensures Flat(out) == messages && Greedy(out, size, SEND)
  {
    hide *;
    out := [];
    var batch: seq<T>, bytes: nat := [], 0;
    CutNothing(messages, size, SEND);
    for i := 0 to |messages|
      invariant Cutting(messages, i, out, batch, size, SEND)
      invariant i == 0 ==> bytes == 0 && batch == []
      invariant i > 0 ==> bytes == Bytes(batch, size, 0) && |batch| <= 100
    {
      var m := messages[i];
      SendTest(batch, m, size);
      CutNext(messages, i, out, batch, size, SEND);
      if |batch| == 100 || (|batch| > 0 && bytes + size(m) > 200_000) {
        out, batch, bytes := out + [batch], [], 0;
      }
      assert batch == [] ==> batch + [m] == [m];
      batch := batch + [m];
      bytes := bytes + size(m);
    }
    CutAll(messages, out, batch, size, SEND);
    if |batch| > 0 {
      out := out + [batch];
    }
  }
}
