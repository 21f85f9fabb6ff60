/**
 * Reading a binary property list's objects through a cache (packages/decode-ios/src/plist.ts): the values are those plain
 * recursion over the object graph gives, no object is read twice, and a cycle is an error. What a scalar's bytes stand for
 * is not modelled.
 */
module BinaryPlist {
  import opened BinaryObjects
  import opened Bits
  import opened Options
  import opened Sequences

  datatype Value<L> = Scalar(l: L) | Array(items: seq<Value<L>>) | Dictionary(entries: map<string, Value<L>>)

  /** A file's objects; None is one that cannot be read. How a value is a dictionary's key is left to `keyOf`. */
  datatype File<!L> = File(objects: seq<Option<Node<L>>>, keyOf: Value<L> -> string)

  const MAX_DEPTH: nat := 64

  /** The objects a dictionary holds in the order they are read: each key, then its value. */
  function Interleaved<T>(keys: seq<T>, values: seq<T>): seq<T> {
    if keys == [] || values == [] then [] else [keys[0], values[0]] + Interleaved(keys[1..], values[1..])
  }

  function Refs<L>(n: Node<L>): seq<nat> {
    match n
    case Leaf(_) => []
    case Arr(refs) => refs
    case Dict(keys, values) => Interleaved(keys, values)
  }

  /** Keys and values as a dictionary; a key read again has its last value. */
  function Entries<L>(keyOf: Value<L> -> string, vs: seq<Value<L>>): map<string, Value<L>> {
    if |vs| < 2 then map[]
    else Entries(keyOf, vs[..|vs| - 2])[keyOf(vs[|vs| - 2]) := vs[|vs| - 1]]
  }

  function Build<L>(keyOf: Value<L> -> string, n: Node<L>, vs: seq<Value<L>>): Value<L> {
    match n
    case Leaf(l) => Scalar(l)
    case Arr(_) => Array(vs)
    case Dict(_, _) => Dictionary(Entries(keyOf, vs))
  }

  /** What recursion without a cache gives an object, in fewer than `fuel` levels. None is an error or too many levels. */
  function Plain<L>(f: File<L>, index: nat, fuel: nat): (r: Option<Value<L>>)
    decreases fuel, 0
  {
    if fuel == 0 || index >= |f.objects| || f.objects[index] == None then None
    else
      var n := f.objects[index].value;
      match PlainAll(f, Refs(n), fuel - 1)
      case None => None
      case Some(vs) => Some(Build(f.keyOf, n, vs))
  }

  function PlainAll<L>(f: File<L>, refs: seq<nat>, fuel: nat): (r: Option<seq<Value<L>>>)
    ensures r.Some? ==> |r.value| == |refs|
    decreases fuel, 1 + |refs|
  {
    if refs == [] then Some([])
    else
      var before, last := PlainAll(f, refs[..|refs| - 1], fuel), Plain(f, refs[|refs| - 1], fuel);
      if before == None || last == None then None else Some(before.value + [last.value])
  }

  /** The value an object has. */
  ghost predicate Has<L(!new)>(f: File<L>, index: nat, v: Value<L>) {
    exists fuel: nat :: Plain(f, index, fuel) == Some(v)
  }

  lemma {:induction false} MoreFuel<L>(f: File<L>, index: nat, fuel: nat, more: nat)
    requires fuel <= more && Plain(f, index, fuel).Some?
    ensures Plain(f, index, more) == Plain(f, index, fuel)
    decreases fuel, 0
  {
    MoreFuelForAll(f, Refs(f.objects[index].value), fuel - 1, more - 1);
  }

  lemma {:induction false} MoreFuelForAll<L>(f: File<L>, refs: seq<nat>, fuel: nat, more: nat)
    requires fuel <= more && PlainAll(f, refs, fuel).Some?
    ensures PlainAll(f, refs, more) == PlainAll(f, refs, fuel)
    decreases fuel, 1 + |refs|
  {
    if refs == [] {
    } else {
      MoreFuelForAll(f, refs[..|refs| - 1], fuel, more);
      MoreFuel(f, refs[|refs| - 1], fuel, more);
    }
  }

  /** An object has one value. */
  lemma HasOne<L(!new)>(f: File<L>, index: nat, v: Value<L>, w: Value<L>)
    requires Has(f, index, v) && Has(f, index, w)
    ensures v == w
  {
    var a: nat :| Plain(f, index, a) == Some(v);
    var b: nat :| Plain(f, index, b) == Some(w);
    if a <= b {
      MoreFuel(f, index, a, b);
    } else {
      MoreFuel(f, index, b, a);
    }
  }

  lemma {:induction false} HasFromAll<L(!new)>(f: File<L>, refs: seq<nat>, vs: seq<Value<L>>) returns (fuel: nat)
    requires |vs| == |refs| && forall k :: 0 <= k < |refs| ==> Has(f, refs[k], vs[k])
    ensures PlainAll(f, refs, fuel) == Some(vs)
  {
    hide Plain;
    fuel := 0;
    if refs == [] {
    } else {
      var n := |refs| - 1;
      var before := HasFromAll(f, refs[..n], vs[..n]);
      var last: nat :| Plain(f, refs[n], last) == Some(vs[n]);
      fuel := if before <= last then last else before;
      MoreFuelForAll(f, refs[..n], before, fuel);
      MoreFuel(f, refs[n], last, fuel);
      assert vs == vs[..n] + [vs[n]];
    }
  }

  /** An object's value is built from those of the objects it holds. */
  lemma HasBuilt<L(!new)>(f: File<L>, index: nat, vs: seq<Value<L>>)
    requires index < |f.objects| && f.objects[index].Some?
    requires var refs := Refs(f.objects[index].value);
      |vs| == |refs| && forall k :: 0 <= k < |refs| ==> Has(f, refs[k], vs[k])
    ensures Has(f, index, Build(f.keyOf, f.objects[index].value, vs))
  {
    var fuel := HasFromAll(f, Refs(f.objects[index].value), vs);
    assert Plain(f, index, fuel + 1) == Some(Build(f.keyOf, f.objects[index].value, vs));
  }

  lemma {:induction false} InterleavedAt<T>(a: seq<T>, b: seq<T>)
    requires |a| == |b|
    ensures |Interleaved(a, b)| == 2 * |a|
    ensures forall k :: 0 <= k < |a| ==> Interleaved(a, b)[2 * k] == a[k] && Interleaved(a, b)[2 * k + 1] == b[k]
  {
    if a == [] {
    } else {
      var rest := Interleaved(a[1..], b[1..]);
      InterleavedAt(a[1..], b[1..]);
      forall k | 0 <= k < |a|
        ensures Interleaved(a, b)[2 * k] == a[k] && Interleaved(a, b)[2 * k + 1] == b[k]
      {
        if k > 0 {
          assert rest[2 * (k - 1)] == a[1..][k - 1] && rest[2 * (k - 1) + 1] == b[1..][k - 1];
        }
      }
    }
  }

  /** The evens and odds of a list, interleaved, are the list. */
  lemma {:induction false} Halved<T>(s: seq<T>, n: nat) returns (a: seq<T>, b: seq<T>)
    requires |s| == 2 * n
    ensures |a| == |b| == n && Interleaved(a, b) == s
    ensures forall k :: 0 <= k < n ==> a[k] == s[2 * k] && b[k] == s[2 * k + 1]
    decreases n
  {
    if n == 0 {
      a, b := [], [];
    } else {
      var a', b' := Halved(s[2..], n - 1);
      a, b := [s[0]] + a', [s[1]] + b';
      assert a[1..] == a' && b[1..] == b';
      assert s == [s[0], s[1]] + s[2..];
    }
  }

  lemma {:induction false} InterleavedMore<T>(a: seq<T>, b: seq<T>, x: T, y: T)
    requires |a| == |b|
    ensures Interleaved(a + [x], b + [y]) == Interleaved(a, b) + [x, y]
  {
    if a == [] {
      assert (a + [x])[1..] == [] && (b + [y])[1..] == [];
    } else {
      assert (a + [x])[1..] == a[1..] + [x] && (b + [y])[1..] == b[1..] + [y];
      InterleavedMore(a[1..], b[1..], x, y);
    }
  }

  /** Keys as text, each with its value. */
  function Keyed<L>(keyOf: Value<L> -> string, keys: seq<Value<L>>, values: seq<Value<L>>): (r: seq<(string, Value<L>)>)
    requires |keys| == |values|
    ensures |r| == |keys|
  {
    seq(|keys|, i requires 0 <= i < |keys| => (keyOf(keys[i]), values[i]))
  }

  /** A dictionary has each key with the value it was last read with, and no other. */
  lemma {:induction false} EntriesSay<L>(keyOf: Value<L> -> string, keys: seq<Value<L>>, values: seq<Value<L>>)
    requires |keys| == |values|
    ensures LastWins(Entries(keyOf, Interleaved(keys, values)), Keyed(keyOf, keys, values))
    decreases |keys|
  {
    hide LastWins, Interleaved;
    if keys == [] {
      InterleavedAt(keys, values);
      NoneWins<string, Value<L>>();
    } else {
      var n := |keys| - 1;
      var before := Interleaved(keys[..n], values[..n]);
      InterleavedMore(keys[..n], values[..n], keys[n], values[n]);
      assert keys == keys[..n] + [keys[n]] && values == values[..n] + [values[n]];
      assert (before + [keys[n], values[n]])[..|before|] == before;
      EntriesSay(keyOf, keys[..n], values[..n]);
      LastWinsMore(Entries(keyOf, before), Keyed(keyOf, keys[..n], values[..n]), (keyOf(keys[n]), values[n]));
      assert Keyed(keyOf, keys, values) == Keyed(keyOf, keys[..n], values[..n]) + [(keyOf(keys[n]), values[n])];
    }
  }

  /** `v` is what an object says, the objects it refers to saying what they do. */
  ghost predicate IsValueOf<L(!new)>(f: File<L>, index: nat, v: Value<L>) {
    && index < |f.objects| && f.objects[index].Some?
    && match f.objects[index].value
       case Leaf(l) => v == Scalar(l)
       case Arr(refs) => v.Array? && AllHave(f, refs, v.items)
       case Dict(keys, values) =>
         && v.Dictionary?
         && exists ks: seq<Value<L>>, vs: seq<Value<L>> ::
              && AllHave(f, keys, ks) && AllHave(f, values, vs) && |ks| == |vs|
              && LastWins(v.entries, Keyed(f.keyOf, ks, vs))
  }

  ghost predicate AllHave<L(!new)>(f: File<L>, refs: seq<nat>, vs: seq<Value<L>>) {
    |vs| == |refs| && forall k :: 0 <= k < |refs| ==> Has(f, refs[k], vs[k])
  }

  /** As many keys as values. */
  predicate Even<L>(n: Node<L>) {
    n.Dict? ==> |n.keys| == |n.values|
  }

  lemma {:induction false} AllOfPlain<L(!new)>(f: File<L>, refs: seq<nat>, fuel: nat)
    requires PlainAll(f, refs, fuel).Some?
    ensures AllHave(f, refs, PlainAll(f, refs, fuel).value)
    decreases |refs|
  {
    if refs == [] {
    } else {
      AllOfPlain(f, refs[..|refs| - 1], fuel);
      assert Has(f, refs[|refs| - 1], Plain(f, refs[|refs| - 1], fuel).value);
    }
  }

  /** An object's value is the one it says, and there is no other. */
  lemma HasIsValueOf<L(!new)>(f: File<L>, index: nat, v: Value<L>)
    requires index < |f.objects| && f.objects[index].Some? ==> Even(f.objects[index].value)
    ensures Has(f, index, v) <==> IsValueOf(f, index, v)
  {
    hide PlainAll, Interleaved, Entries, LastWins, AllHave;
    if Has(f, index, v) {
      var fuel: nat :| Plain(f, index, fuel) == Some(v);
      var n := f.objects[index].value;
      AllOfPlain(f, Refs(n), fuel - 1);
      BuiltSays(f, index, PlainAll(f, Refs(n), fuel - 1).value);
    }
    if IsValueOf(f, index, v) {
      SaidIsBuilt(f, index, v);
    }
  }

  lemma BuiltSays<L(!new)>(f: File<L>, index: nat, ws: seq<Value<L>>)
    requires index < |f.objects| && f.objects[index].Some? && Even(f.objects[index].value)
    requires AllHave(f, Refs(f.objects[index].value), ws)
    ensures IsValueOf(f, index, Build(f.keyOf, f.objects[index].value, ws))
  {
    hide Has, Entries, LastWins, Interleaved;
    var n := f.objects[index].value;
    if n.Dict? {
      InterleavedAt(n.keys, n.values);
      var ks, vs := Halved(ws, |n.keys|);
      forall k | 0 <= k < |n.keys|
        ensures Has(f, n.keys[k], ks[k]) && Has(f, n.values[k], vs[k])
      {
        var refs := Refs(n);
        assert refs[2 * k] == n.keys[k] && refs[2 * k + 1] == n.values[k];
      }
      assert AllHave(f, n.keys, ks) && AllHave(f, n.values, vs);
      EntriesSay(f.keyOf, ks, vs);
    }
  }

  lemma SaidIsBuilt<L(!new)>(f: File<L>, index: nat, v: Value<L>)
    requires IsValueOf(f, index, v) && Even(f.objects[index].value)
    ensures Has(f, index, v)
  {
    hide Has, Entries, LastWins, Interleaved;
    var n := f.objects[index].value;
    match n
    case Leaf(_) => HasBuilt(f, index, []);
    case Arr(_) => HasBuilt(f, index, v.items);
    case Dict(keys, values) =>
      var ks: seq<Value<L>>, vs: seq<Value<L>> :|
        AllHave(f, keys, ks) && AllHave(f, values, vs) && |ks| == |vs| && LastWins(v.entries, Keyed(f.keyOf, ks, vs));
      EntriesSay(f.keyOf, ks, vs);
      LastWinsOnce(v.entries, Entries(f.keyOf, Interleaved(ks, vs)), Keyed(f.keyOf, ks, vs));
      InterleavedAt(keys, values);
      InterleavedAt(ks, vs);
      var refs, ws := Interleaved(keys, values), Interleaved(ks, vs);
      forall k | 0 <= k < |refs|
        ensures Has(f, refs[k], ws[k])
      {
        var j := k / 2;
        assert k == 2 * j || k == 2 * j + 1;
        assert Has(f, keys[j], ks[j]) && Has(f, values[j], vs[j]);
      }
      HasBuilt(f, index, ws);
  }

  // Cycles.

  ghost predicate Holds<L>(f: File<L>, i: nat, j: nat) {
    i < |f.objects| && f.objects[i].Some? && j in Refs(f.objects[i].value)
  }

  /** Objects each of which holds the next. */
  ghost predicate IsPath<L>(f: File<L>, path: seq<nat>) {
    path != [] && forall k :: 0 < k < |path| ==> Holds(f, path[k - 1], path[k])
  }

  lemma {:induction false} PlainOfHeld<L>(f: File<L>, refs: seq<nat>, j: nat, fuel: nat)
    requires j in refs && PlainAll(f, refs, fuel).Some?
    ensures Plain(f, j, fuel).Some?
  {
    if j == refs[|refs| - 1] {
    } else {
      assert refs == refs[..|refs| - 1] + [refs[|refs| - 1]];
      PlainOfHeld(f, refs[..|refs| - 1], j, fuel);
    }
  }

  /** Plain recursion needs a level for each object on a path. */
  lemma {:induction false} PathNeedsFuel<L>(f: File<L>, path: seq<nat>, fuel: nat)
    requires IsPath(f, path) && Plain(f, path[0], fuel).Some?
    ensures |path| <= fuel
    decreases |path|
  {
    if |path| == 1 {
    } else {
      assert Holds(f, path[0], path[1]);
      PlainOfHeld(f, Refs(f.objects[path[0]].value), path[1], fuel - 1);
      assert forall k :: 0 < k < |path[1..]| ==> path[1..][k - 1] == path[k] && path[1..][k] == path[k + 1];
      PathNeedsFuel(f, path[1..], fuel - 1);
    }
  }

  /** A path round a cycle, `times` over. */
  function Round(cycle: seq<nat>, times: nat): (r: seq<nat>)
    requires |cycle| > 1
    ensures |r| > times && r[0] == cycle[0]
  {
    if times == 0 then [cycle[0]] else cycle[..|cycle| - 1] + Round(cycle, times - 1)
  }

  lemma {:induction false} RoundIsPath<L>(f: File<L>, cycle: seq<nat>, times: nat)
    requires IsPath(f, cycle) && |cycle| > 1 && cycle[0] == cycle[|cycle| - 1]
    ensures IsPath(f, Round(cycle, times))
  {
    if times == 0 {
    } else {
      RoundIsPath(f, cycle, times - 1);
      var rest, all := Round(cycle, times - 1), Round(cycle, times);
      var n := |cycle| - 1;
      forall k | 0 < k < |all|
        ensures Holds(f, all[k - 1], all[k])
      {
        if k < n {
          assert Holds(f, cycle[k - 1], cycle[k]);
        } else if k == n {
          assert Holds(f, cycle[n - 1], cycle[n]);
        } else {
          assert all[k - 1] == rest[k - 1 - n] && all[k] == rest[k - n];
        }
      }
    }
  }

  /** An object on a cycle has no value. */
  lemma CycleHasNone<L(!new)>(f: File<L>, cycle: seq<nat>, v: Value<L>)
    requires IsPath(f, cycle) && |cycle| > 1 && cycle[0] == cycle[|cycle| - 1]
    ensures !Has(f, cycle[0], v)
  {
    if Has(f, cycle[0], v) {
      var fuel: nat :| Plain(f, cycle[0], fuel) == Some(v);
      RoundIsPath(f, cycle, fuel);
      PathNeedsFuel(f, Round(cycle, fuel), fuel);
    }
  }

  /** What an object with a value reaches has one too. */
  lemma {:induction false} PlainAlong<L>(f: File<L>, path: seq<nat>, fuel: nat) returns (less: nat)
    requires IsPath(f, path) && Plain(f, path[0], fuel).Some?
    ensures Plain(f, path[|path| - 1], less).Some?
    decreases |path|
  {
    less := fuel;
    if |path| == 1 {
    } else {
      assert Holds(f, path[0], path[1]);
      PlainOfHeld(f, Refs(f.objects[path[0]].value), path[1], fuel - 1);
      assert forall k :: 0 < k < |path[1..]| ==> path[1..][k - 1] == path[k] && path[1..][k] == path[k + 1];
      less := PlainAlong(f, path[1..], fuel - 1);
    }
  }

  lemma ReachedHas<L(!new)>(f: File<L>, i: nat, j: nat, v: Value<L>)
    requires Has(f, i, v) && Reaches(f, i, j)
    ensures exists w :: Has(f, j, w)
  {
    var fuel: nat :| Plain(f, i, fuel) == Some(v);
    var path :| IsPath(f, path) && path[0] == i && path[|path| - 1] == j;
    var less := PlainAlong(f, path, fuel);
    assert Has(f, j, Plain(f, j, less).value);
  }

  ghost predicate OnCycle<L>(f: File<L>, i: nat) {
    exists cycle: seq<nat> :: IsPath(f, cycle) && |cycle| > 1 && cycle[0] == cycle[|cycle| - 1] == i
  }

  /** Nothing an object with a value reaches is on a cycle. */
  lemma NoCycleBelow<L(!new)>(f: File<L>, i: nat, j: nat, v: Value<L>)
    requires Has(f, i, v) && Reaches(f, i, j)
    ensures !OnCycle(f, j)
  {
    ReachedHas(f, i, j, v);
    if OnCycle(f, j) {
      var cycle :| IsPath(f, cycle) && |cycle| > 1 && cycle[0] == cycle[|cycle| - 1] == j;
      var w :| Has(f, j, w);
      CycleHasNone(f, cycle, w);
    }
  }

  ghost predicate Reaches<L>(f: File<L>, i: nat, j: nat) {
    exists path: seq<nat> :: IsPath(f, path) && path[0] == i && path[|path| - 1] == j
  }

  lemma ReachesSelf<L>(f: File<L>, i: nat)
    ensures Reaches(f, i, i)
  {
    assert IsPath(f, [i]);
  }

  lemma ReachesOn<L>(f: File<L>, i: nat, j: nat, k: nat)
    requires Holds(f, i, j) && Reaches(f, j, k)
    ensures Reaches(f, i, k)
  {
    var path :| IsPath(f, path) && path[0] == j && path[|path| - 1] == k;
    ExtendPath(f, i, path);
  }

  lemma ExtendPath<L>(f: File<L>, i: nat, path: seq<nat>)
    requires IsPath(f, path) && Holds(f, i, path[0])
    ensures IsPath(f, [i] + path) && ([i] + path)[|path|] == path[|path| - 1]
  {
  }

  /** An object with a value is not reached from what it holds. */
  lemma NoWayBack<L(!new)>(f: File<L>, i: nat, j: nat, v: Value<L>)
    requires Has(f, i, v) && Holds(f, i, j)
    ensures !Reaches(f, j, i)
  {
    if Reaches(f, j, i) {
      var path :| IsPath(f, path) && path[0] == j && path[|path| - 1] == i;
      ExtendPath(f, i, path);
      CycleHasNone(f, [i] + path, v);
    }
  }

  // What reading adds to a cache.

  /** Reading objects from `from` took a cache of some objects to another: those new to it, each begun once, in `begun`. */
  ghost predicate Grown<L>(f: File<L>, was: set<nat>, now: set<nat>, begun: seq<nat>, from: set<nat>) {
    && was <= now && Distinct(begun) && ToSet(begun) == now - was
    && forall i :: i in now - was ==> exists j :: j in from && Reaches(f, j, i)
  }

  lemma GrownNone<L>(f: File<L>, keys: set<nat>, from: set<nat>)
    ensures Grown(f, keys, keys, [], from)
  {
  }

  lemma GrownThen<L>(f: File<L>, a: set<nat>, b: set<nat>, c: set<nat>, first: seq<nat>, next: seq<nat>,
                     from: set<nat>, from': set<nat>)
    requires Grown(f, a, b, first, from) && Grown(f, b, c, next, from')
    ensures Grown(f, a, c, first + next, from + from')
  {
    hide Reaches;
    var both := first + next;
    forall i, j | 0 <= i < j < |both|
      ensures both[i] != both[j]
    {
      if i < |first| <= j {
        assert both[i] in ToSet(first) && both[j] in ToSet(next);
      }
    }
    assert ToSet(both) == ToSet(first) + ToSet(next);
    forall i | i in c - a
      ensures exists j :: j in from + from' && Reaches(f, j, i)
    {
      if i in b {
        var j :| j in from && Reaches(f, j, i);
      } else {
        assert i in c - b;
        var j :| j in from' && Reaches(f, j, i);
      }
    }
  }

  /** An object with a value was not begun again while what it holds was read. */
  lemma GrownAround<L(!new)>(f: File<L>, was: set<nat>, now: set<nat>, begun: seq<nat>, index: nat, v: Value<L>)
    requires index < |f.objects| && f.objects[index].Some? && Has(f, index, v) && index !in was
    requires Grown(f, was, now, begun, ToSet(Refs(f.objects[index].value)))
    ensures Grown(f, was, now + {index}, [index] + begun, {index})
  {
    hide Reaches, Has, Refs;
    forall i | i in now - was
      ensures i != index && Reaches(f, index, i)
    {
      var j :| j in ToSet(Refs(f.objects[index].value)) && Reaches(f, j, i);
      assert Holds(f, index, j);
      NoWayBack(f, index, j, v);
      ReachesOn(f, index, j, i);
    }
    ReachesSelf(f, index);
    var all := [index] + begun;
    assert index !in ToSet(begun);
    assert ToSet(all) == {index} + ToSet(begun);
    forall i, j | 0 <= i < j < |all|
      ensures all[i] != all[j]
    {
      assert all[j] == begun[j - 1] && begun[j - 1] in ToSet(begun);
    }
    assert index in {index};
  }

  // The code.

  /** The levels left at a depth. */
  function Fuel(depth: nat): nat {
    if depth <= MAX_DEPTH then MAX_DEPTH + 1 - depth else 0
  }

  lemma PlainParts<L>(f: File<L>, index: nat, depth: nat)
    ensures depth > MAX_DEPTH || index >= |f.objects| || f.objects[index] == None ==> Plain(f, index, Fuel(depth)) == None
    ensures depth <= MAX_DEPTH && index < |f.objects| && f.objects[index].Some? ==>
      var vs := PlainAll(f, Refs(f.objects[index].value), Fuel(depth + 1));
      Plain(f, index, Fuel(depth)) == if vs == None then None else Some(Build(f.keyOf, f.objects[index].value, vs.value))
  {
    hide PlainAll, Build;
  }

  lemma HasPlain<L(!new)>(f: File<L>, index: nat, v: Value<L>, fuel: nat)
    requires Has(f, index, v)
    ensures Plain(f, index, fuel).Some? ==> Plain(f, index, fuel) == Some(v)
  {
    if Plain(f, index, fuel).Some? {
      HasOne(f, index, v, Plain(f, index, fuel).value);
    }
  }

  lemma PlainNext<L>(f: File<L>, refs: seq<nat>, k: nat, fuel: nat)
    requires k < |refs|
    ensures PlainAll(f, refs[..k + 1], fuel)
      == if PlainAll(f, refs[..k], fuel) == None || Plain(f, refs[k], fuel) == None then None
         else Some(PlainAll(f, refs[..k], fuel).value + [Plain(f, refs[k], fuel).value])
  {
    assert refs[..k + 1][..k] == refs[..k];
  }

  lemma {:induction false} PlainStops<L>(f: File<L>, refs: seq<nat>, k: nat, fuel: nat)
    requires k <= |refs| && PlainAll(f, refs[..k], fuel) == None
    ensures PlainAll(f, refs, fuel) == None
    decreases |refs| - k
  {
    if k < |refs| {
      PlainNext(f, refs, k, fuel);
      PlainStops(f, refs, k + 1, fuel);
    } else {
      assert refs[..k] == refs;
    }
  }

  lemma ToSetNext(refs: seq<nat>, k: nat)
    requires k < |refs|
    ensures ToSet(refs[..k + 1]) == ToSet(refs[..k]) + {refs[k]}
  {
    assert refs[..k + 1] == refs[..k] + [refs[k]];
  }

  /** A file's objects, from its bytes. */
  function FileOf(b: seq<byte>, t: Table, keyOf: Value<Raw> -> string): File<Raw> {
    File(Nodes(b, t), keyOf)
  }

  /** An object read from bytes has the one value it says. */
  lemma ValueFromBytes(b: seq<byte>, t: Table, keyOf: Value<Raw> -> string, index: nat, v: Value<Raw>)
    ensures var f := FileOf(b, t, keyOf); Has(f, index, v) <==> IsValueOf(f, index, v)
  {
    hide Has, IsValueOf, NodeAt;
    if index < |t.offsets| {
      NodeEven(b, t.offsets[index], t.refSize);
    }
    HasIsValueOf(FileOf(b, t, keyOf), index, v);
  }

  class Reader {
    const buf: seq<byte>
    const table: Table
    const keyOf: Value<Raw> -> string
    var cache: map<nat, Value<Raw>>
    /** The objects whose reading began, in order. */
    ghost var begun: seq<nat>

    ghost function F(): File<Raw> {
      FileOf(buf, table, keyOf)
    }

    /** Every value in the cache is its object's. */
    ghost predicate Valid()
      reads this
    {
      forall i :: i in cache ==> Has(F(), i, cache[i])
    }

    constructor (buf: seq<byte>, table: Table, keyOf: Value<Raw> -> string)
      ensures Valid() && F() == FileOf(buf, table, keyOf) && cache == map[] && begun == []
    {
      this.buf, this.table, this.keyOf, cache, begun := buf, table, keyOf, map[], [];
    }

    /** An object's bytes, read. */
    method NodeOfIndex(index: nat) returns (n: Option<Node<Raw>>)
      requires index < |table.offsets|
      ensures |F().objects| == |table.offsets| && n == F().objects[index]
    {
      hide NodeAt;
      n := ReadNode(buf, table.offsets[index], table.refSize);
    }

    /**
     * The value of an object, `depth` levels down. None is an error. A value is the object's, and is in the cache; every
     * object the cache gained was begun once. Whatever plain recursion reads within the depth is read.
     */
    method ObjAt(index: nat, depth: nat) returns (r: Option<Value<Raw>>)
      requires Valid()
      modifies this
      ensures Valid()
      ensures Plain(F(), index, Fuel(depth)).Some? ==> r == Plain(F(), index, Fuel(depth))
      ensures r.Some? ==> depth <= MAX_DEPTH && Has(F(), index, r.value) && index in cache && cache[index] == r.value
      ensures r.Some? ==> IsValueOf(F(), index, r.value)
      ensures r.Some? ==> |old(begun)| <= |begun| && begun[..|old(begun)|] == old(begun)
      ensures r.Some? ==> Grown(F(), old(cache).Keys, cache.Keys, begun[|old(begun)|..], {index})
      decreases Fuel(depth), 0
    {
      hide Has, Plain, PlainAll, Grown, Build, Refs, IsValueOf;
      PlainParts(F(), index, depth);
      if index >= |table.offsets| {
        return None;
      }
      if depth > MAX_DEPTH {
        return None;
      }
      if index in cache {
        HasPlain(F(), index, cache[index], Fuel(depth));
        ValueFromBytes(buf, table, keyOf, index, cache[index]);
        GrownNone(F(), cache.Keys, {index});
        assert begun[|begun|..] == [];
        return Some(cache[index]);
      }
      var node := NodeOfIndex(index);
      if node == None {
        return None;
      }
      var n := node.value;
      ghost var was, started := cache.Keys, |begun|;
      begun := begun + [index];
      var vs := ObjsAt(Refs(n), depth + 1);
      if vs == None {
        return None;
      }
      var out := Build(keyOf, n, vs.value);
      HasBuilt(F(), index, vs.value);
      ValueFromBytes(buf, table, keyOf, index, out);
      GrownAround(F(), was, cache.Keys, begun[started + 1..], index, out);
      assert begun[started..] == [index] + begun[started + 1..];
      ghost var now := cache.Keys;
      cache := cache[index := out];
      assert cache.Keys == now + {index};
      return Some(out);
    }

    /** The values of the objects one holds. */
    method ObjsAt(refs: seq<nat>, depth: nat) returns (r: Option<seq<Value<Raw>>>)
      requires Valid()
      modifies this
      ensures Valid()
      ensures PlainAll(F(), refs, Fuel(depth)).Some? ==> r == PlainAll(F(), refs, Fuel(depth))
      ensures r.Some? ==> |r.value| == |refs| && forall k :: 0 <= k < |refs| ==> Has(F(), refs[k], r.value[k])
      ensures r.Some? ==> |old(begun)| <= |begun| && begun[..|old(begun)|] == old(begun)
      ensures r.Some? ==> Grown(F(), old(cache).Keys, cache.Keys, begun[|old(begun)|..], ToSet(refs))
      decreases Fuel(depth), 1
    {
      hide Has, Plain, PlainAll, Grown, ToSet;
      var out: seq<Value<Raw>> := [];
      ghost var was, started, fuel := cache.Keys, |begun|, Fuel(depth);
      GrownNone(F(), was, ToSet(refs[..0]));
      assert begun[started..] == [];
      NonePlain(F(), refs, fuel);
      for k := 0 to |refs|
        invariant Valid() && |out| == k
        invariant PlainAll(F(), refs[..k], fuel).Some? ==> PlainAll(F(), refs[..k], fuel) == Some(out)
        invariant forall j :: 0 <= j < k ==> Has(F(), refs[j], out[j])
        invariant started <= |begun| && begun[..started] == old(begun)
        invariant Grown(F(), was, cache.Keys, begun[started..], ToSet(refs[..k]))
      {
        ghost var next, at := cache.Keys, begun;
        var v := ObjAt(refs[k], depth);
        PlainNext(F(), refs, k, fuel);
        if v == None {
          PlainStops(F(), refs, k + 1, fuel);
          return None;
        }
        GrownThen(F(), was, next, cache.Keys, at[started..], begun[|at|..], ToSet(refs[..k]), {refs[k]});
        assert begun[started..] == at[started..] + begun[|at|..] by {
          assert begun == at + begun[|at|..];
        }
        ToSetNext(refs, k);
        out := out + [v.value];
      }
      assert refs[..|refs|] == refs;
      return Some(out);
    }
  }

  lemma NonePlain<L>(f: File<L>, refs: seq<nat>, fuel: nat)
    ensures PlainAll(f, refs[..0], fuel) == Some([])
  {
  }

  /**
   * A file's value, its top object's. None is an error. Objects are begun no more than once; the value is the top
   * object's; whatever plain recursion reads in 65 levels is read; and a cycle the top object reaches is an error.
   */
  method Parse(b: seq<byte>, keyOf: Value<Raw> -> string) returns (r: Option<Value<Raw>>, ghost begun: seq<nat>)
    ensures TableOf(b) == None ==> r == None
    ensures TableOf(b).Some? ==>
      var t := TableOf(b).value;
      var f := FileOf(b, t, keyOf);
      && (r.Some? ==> Has(f, t.top, r.value) && Distinct(begun) && forall i :: i in begun ==> Reaches(f, t.top, i))
      && (r.Some? ==> IsValueOf(f, t.top, r.value))
      && (Plain(f, t.top, MAX_DEPTH + 1).Some? ==> r == Plain(f, t.top, MAX_DEPTH + 1))
      && ((exists j :: Reaches(f, t.top, j) && OnCycle(f, j)) ==> r == None)
  {
    hide Has, Plain, Reaches, OnCycle, TableOf, Nodes, IsValueOf;
    begun := [];
    var t := ReadTable(b);
    if t == None {
      return None, [];
    }
    var reader := new Reader(b, t.value, keyOf);
    ghost var f, top := FileOf(b, t.value, keyOf), t.value.top;
    r := reader.ObjAt(t.value.top, 0);
    begun := reader.begun;
    if r.Some? {
      assert begun[0..] == begun;
      forall i | i in begun
        ensures Reaches(f, top, i)
      {
        assert i in ToSet(begun);
      }
      forall j | Reaches(f, top, j)
        ensures !OnCycle(f, j)
      {
        NoCycleBelow(f, top, j, r.value);
      }
    }
  }

  /** A file written for any objects has those objects, and its top one. */
  lemma WrittenFile(l: Layout, keyOf: Value<Raw> -> string)
    requires l.Ok() && |l.head| + |WriteObjects(l.objects, l.refSize)| < Room(8)
    requires RefsOk(Offsets(l.objects, l.refSize, |l.head|), l.offsetSize)
    ensures var objects := seq(|l.objects|, i requires 0 <= i < |l.objects| => Some(NodeOf(l.objects[i])));
      var b := WriteFile(l);
      && TableOf(b).Some? && TableOf(b).value.top == l.top
      && FileOf(b, TableOf(b).value, keyOf) == File(objects, keyOf)
  {
    hide WriteFile, TableOf, NodeOf, NodeAt, Offsets, WriteObjects;
    FileReadBack(l);
    var t := TableOf(WriteFile(l)).value;
    assert |Nodes(WriteFile(l), t)| == |l.objects|;
  }
}
