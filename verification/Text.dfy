/** Strings in code point order, which is the order of their UTF-8 bytes, and what they start with. */
module Text {
  predicate StartsWith(s: string, start: string) {
    |start| <= |s| && s[..|start|] == start
  }

  lemma StartsAt(s: string, start: string, k: nat)
    requires StartsWith(s, start) && k < |start|
    ensures s[k] == start[k]
  {
    assert s[k] == s[..|start|][k];
  }

  lemma StartsElse(s: string, start: string, k: nat)
    requires k < |s| && k < |start| && s[k] != start[k]
    ensures !StartsWith(s, start)
  {
    if StartsWith(s, start) {
      StartsAt(s, start, k);
    }
  }

  lemma StartsEmpty(s: string)
    ensures StartsWith(s, "")
  {
  }

  lemma StartsLonger(s: string, start: string)
    requires StartsWith(s, start)
    ensures |s| >= |start|
  {
  }

  lemma StartsTail(s: string, start: string)
    requires s != "" && start != ""
    ensures StartsWith(s, start) <==> s[0] == start[0] && StartsWith(s[1..], start[1..])
  {
    if |start| <= |s| {
      assert s[..|start|] == [s[0]] + s[1..][..|start| - 1];
      assert start == [start[0]] + start[1..];
    }
  }

  predicate Less(a: string, b: string) {
    if b == "" then false
    else if a == "" then true
    else if a[0] != b[0] then a[0] < b[0]
    else Less(a[1..], b[1..])
  }

  lemma {:induction false} LessTransitive(a: string, b: string, c: string)
    requires Less(a, b) && Less(b, c)
    ensures Less(a, c)
  {
    if a == "" || a[0] != b[0] || b[0] != c[0] {
    } else {
      LessTransitive(a[1..], b[1..], c[1..]);
    }
  }

  lemma {:induction false} LessIrreflexive(a: string)
    ensures !Less(a, a)
  {
    if a == "" {
    } else {
      LessIrreflexive(a[1..]);
    }
  }

  lemma {:induction false} LessTotal(a: string, b: string)
    ensures Less(a, b) || a == b || Less(b, a)
  {
    if a == "" || b == "" || a[0] != b[0] {
    } else {
      LessTotal(a[1..], b[1..]);
      assert a == [a[0]] + a[1..] && b == [b[0]] + b[1..];
    }
  }
}
