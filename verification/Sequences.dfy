/** Sequences without repeats, as sets, filtered and joined. */
module Sequences {
  ghost predicate Distinct<T>(s: seq<T>) {
    forall i, j :: 0 <= i < j < |s| ==> s[i] != s[j]
  }

  function ToSet<T>(s: seq<T>): set<T> {
    set x | x in s
  }

  lemma ToSetBoth<T>(a: seq<T>, b: seq<T>)
    ensures ToSet(a + b) == ToSet(a) + ToSet(b)
    ensures |b| == 0 ==> ToSet(b) == {}
  {
  }

  function Flat<T>(parts: seq<seq<T>>): (r: seq<T>) {
    if parts == [] then [] else parts[0] + Flat(parts[1..])
  }

  lemma Associate<T>(a: seq<T>, b: seq<T>, c: seq<T>)
    ensures a + b + c == a + (b + c)
  {
  }

  lemma Halves<T>(a: seq<T>, b: seq<T>)
    ensures (a + b)[..|a|] == a && (a + b)[|a|..] == b
  {
  }

  lemma {:induction false} FlatBoth<T>(a: seq<seq<T>>, b: seq<seq<T>>)
    ensures Flat(a + b) == Flat(a) + Flat(b)
  {
    if a == [] {
      assert a + b == b;
    } else {
      assert (a + b)[1..] == a[1..] + b;
      FlatBoth(a[1..], b);
    }
  }

  /** The elements `p` holds of, in order. */
  function Filter<T>(s: seq<T>, p: T -> bool): (r: seq<T>)
    ensures forall x :: x in r ==> x in s && p(x)
    ensures forall x :: x in s && p(x) ==> x in r
  {
    if s == [] then []
    else
      var last := s[|s| - 1];
      assert s == s[..|s| - 1] + [last];
      Filter(s[..|s| - 1], p) + (if p(last) then [last] else [])
  }

  lemma FilterMore<T>(s: seq<T>, x: T, p: T -> bool)
    ensures Filter(s + [x], p) == Filter(s, p) + (if p(x) then [x] else [])
    ensures Filter(s, p) + [] == Filter(s, p)
  {
    assert (s + [x])[..|s|] == s;
  }

  lemma FilterNext<T>(s: seq<T>, i: nat, p: T -> bool)
    requires i < |s|
    ensures Filter(s[..i + 1], p) == Filter(s[..i], p) + (if p(s[i]) then [s[i]] else [])
    ensures Filter(s[..i], p) + [] == Filter(s[..i], p)
  {
    assert s[..i + 1] == s[..i] + [s[i]];
    FilterMore(s[..i], s[i], p);
  }

  lemma {:induction false} FilterBoth<T>(a: seq<T>, b: seq<T>, p: T -> bool)
    ensures Filter(a + b, p) == Filter(a, p) + Filter(b, p)
  {
    if b == [] {
      assert a + b == a;
    } else {
      var init, last := b[..|b| - 1], b[|b| - 1];
      assert a + b == a + init + [last] && b == init + [last];
      FilterBoth(a, init, p);
      FilterMore(a + init, last, p);
      FilterMore(init, last, p);
    }
  }

  lemma {:induction false} FilterDistinct<T>(s: seq<T>, p: T -> bool)
    requires Distinct(s)
    ensures Distinct(Filter(s, p))
  {
    if s == [] {
    } else {
      var init, last := s[..|s| - 1], s[|s| - 1];
      assert s == init + [last];
      FilterDistinct(init, p);
      assert last !in init;
    }
  }

  /** Filtering twice keeps what passes both. */
  lemma {:induction false} FilterTwice<T>(s: seq<T>, p: T -> bool, q: T -> bool, both: T -> bool)
    requires forall x :: x in s ==> (both(x) <==> p(x) && q(x))
    ensures Filter(Filter(s, p), q) == Filter(s, both)
  {
    hide Filter;
    if s == [] {
      FilterNone(s, p);
      FilterNone(s, q);
      FilterNone(s, both);
    } else {
      var init, last := s[..|s| - 1], s[|s| - 1];
      assert s == init + [last];
      FilterTwice(init, p, q, both);
      FilterMore(init, last, p);
      FilterMore(init, last, both);
      FilterMore(Filter(init, p), last, q);
    }
  }

  lemma FilterSame<T>(s: seq<T>, p: T -> bool, q: T -> bool)
    requires forall x :: x in s ==> (p(x) <==> q(x))
    ensures Filter(s, p) == Filter(s, q)
  {
    FilterTwice(s, p, q, q);
    FilterAll(Filter(s, p), q);
  }

  lemma {:induction false} FilterAll<T>(s: seq<T>, p: T -> bool)
    requires forall x :: x in s ==> p(x)
    ensures Filter(s, p) == s
  {
    if s == [] {
    } else {
      var init, last := s[..|s| - 1], s[|s| - 1];
      assert s == init + [last];
      FilterAll(init, p);
    }
  }

  lemma {:induction false} FilterNone<T>(s: seq<T>, p: T -> bool)
    requires forall x :: x in s ==> !p(x)
    ensures Filter(s, p) == []
  {
    if s == [] {
    } else {
      var init, last := s[..|s| - 1], s[|s| - 1];
      assert s == init + [last];
      FilterNone(init, p);
    }
  }

  // Keys with values, a later one taking the place of an earlier.

  function Latest<K, V>(pairs: seq<(K, V)>): map<K, V> {
    if pairs == [] then map[]
    else Latest(pairs[..|pairs| - 1])[pairs[|pairs| - 1].0 := pairs[|pairs| - 1].1]
  }

  /** Pair `i` is the last of its key. */
  ghost predicate IsLast<K, V>(pairs: seq<(K, V)>, i: nat) {
    i < |pairs| && forall j :: i < j < |pairs| ==> pairs[j].0 != pairs[i].0
  }

  /** A key is there exactly if some pair has it, with the value of the last that does. */
  ghost predicate LastWins<K, V>(m: map<K, V>, pairs: seq<(K, V)>) {
    && (forall k :: k in m ==> exists i :: 0 <= i < |pairs| && pairs[i].0 == k)
    && (forall i :: 0 <= i < |pairs| ==> pairs[i].0 in m)
    && forall i: nat :: IsLast(pairs, i) ==> m[pairs[i].0] == pairs[i].1
  }

  lemma {:induction false} LastOf<K, V>(pairs: seq<(K, V)>, i: nat) returns (last: nat)
    requires i < |pairs|
    ensures IsLast(pairs, last) && pairs[last].0 == pairs[i].0
    decreases |pairs| - i
  {
    if IsLast(pairs, i) {
      last := i;
    } else {
      var j :| i < j < |pairs| && pairs[j].0 == pairs[i].0;
      last := LastOf(pairs, j);
    }
  }

  lemma LastWinsOnce<K, V>(m: map<K, V>, n: map<K, V>, pairs: seq<(K, V)>)
    requires LastWins(m, pairs) && LastWins(n, pairs)
    ensures m == n
  {
    forall k | k in m
      ensures k in n && m[k] == n[k]
    {
      var i :| 0 <= i < |pairs| && pairs[i].0 == k;
      var last := LastOf(pairs, i);
    }
  }

  lemma LastWinsMore<K, V>(m: map<K, V>, init: seq<(K, V)>, last: (K, V))
    requires LastWins(m, init)
    ensures LastWins(m[last.0 := last.1], init + [last])
  {
    var pairs, more := init + [last], m[last.0 := last.1];
    assert pairs[|init|] == last;
    forall k | k in more
      ensures exists i :: 0 <= i < |pairs| && pairs[i].0 == k
    {
      if k != last.0 {
        var i :| 0 <= i < |init| && init[i].0 == k;
        assert pairs[i].0 == k;
      }
    }
    forall i: nat | IsLast(pairs, i)
      ensures more[pairs[i].0] == pairs[i].1
    {
      if i < |init| {
        assert pairs[i] == init[i] && forall j :: i < j < |init| ==> pairs[j] == init[j];
        assert IsLast(init, i);
      }
    }
  }

  lemma {:induction false} LatestWins<K, V>(pairs: seq<(K, V)>)
    ensures LastWins(Latest(pairs), pairs)
  {
    hide LastWins;
    if pairs == [] {
      NoneWins<K, V>();
    } else {
      var init, last := pairs[..|pairs| - 1], pairs[|pairs| - 1];
      LatestWins(init);
      LastWinsMore(Latest(init), init, last);
      assert pairs == init + [last];
    }
  }

  lemma NoneWins<K, V>()
    ensures LastWins<K, V>(map[], [])
  {
  }
}
