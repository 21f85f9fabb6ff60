/**
 * Trees written as binary property lists (packages/decode-ios/src/plist.ts): each tree's bytes parse to what it says.
 */
module BinaryTrees {
  import opened BinaryObjects
  import opened BinaryPlist
  import opened Bits
  import opened Options
  import opened Sequences

  /** What an object is but for the objects it holds. */
  datatype Shape = Atom(o: Object) | Items(kind: nat, form: Form) | Pairing(form: Form)

  /** A tree as written: scalars and blobs, arrays, and dictionaries, whose children are their keys and then their values. */
  datatype Tree = Tree(shape: Shape, children: seq<Tree>)

  predicate TreeOk(t: Tree)
    decreases t
  {
    && (t.shape.Atom? ==> t.children == [] && (t.shape.o.Single? || t.shape.o.Blob?))
    && (t.shape.Pairing? ==> |t.children| % 2 == 0)
    && forall c :: c in t.children ==> TreeOk(c)
  }

  /** How many objects a tree takes: one itself, then its children's. */
  function Count(t: Tree): (n: nat)
    ensures n > 0
    decreases t, 0
  {
    1 + CountAll(t.children)
  }

  function CountAll(ts: seq<Tree>): nat
    decreases ts, 1
  {
    if ts == [] then 0 else CountAll(ts[..|ts| - 1]) + Count(ts[|ts| - 1])
  }

  /** The numbers of trees' objects, those of the first from `at` on. */
  function Starts(ts: seq<Tree>, at: nat): (r: seq<nat>)
    ensures |r| == |ts|
  {
    if ts == [] then [] else Starts(ts[..|ts| - 1], at) + [at + CountAll(ts[..|ts| - 1])]
  }

  function Half(t: Tree): (n: nat)
    ensures n <= |t.children|
  {
    |t.children| / 2
  }

  /** A tree's own object, numbered `at`. */
  function Root(t: Tree, at: nat): Object {
    match t.shape
    case Atom(o) => o
    case Items(kind, form) => Listing(kind, form, Starts(t.children, at + 1))
    case Pairing(form) =>
      var starts := Starts(t.children, at + 1);
      Pairs(form, starts[..Half(t)], starts[Half(t)..])
  }

  function Flatten(t: Tree, at: nat): (r: seq<Object>)
    ensures |r| == Count(t)
    decreases t, 0
  {
    [Root(t, at)] + FlattenAll(t.children, at + 1)
  }

  function FlattenAll(ts: seq<Tree>, at: nat): (r: seq<Object>)
    ensures |r| == CountAll(ts)
    decreases ts, 1
  {
    if ts == [] then []
    else FlattenAll(ts[..|ts| - 1], at) + Flatten(ts[|ts| - 1], at + CountAll(ts[..|ts| - 1]))
  }

  /** How many levels of objects a tree has. */
  function Levels(t: Tree): (n: nat)
    ensures n > 0
    decreases t, 0
  {
    1 + LevelsAll(t.children)
  }

  function LevelsAll(ts: seq<Tree>): nat
    decreases ts, 1
  {
    if ts == [] then 0
    else
      var before, last := LevelsAll(ts[..|ts| - 1]), Levels(ts[|ts| - 1]);
      if before >= last then before else last
  }

  /** What a tree says; a key written again has its last value. */
  function Meaning(keyOf: Value<Raw> -> string, t: Tree): Value<Raw>
    decreases t, 0
  {
    var vs := Meanings(keyOf, t.children);
    match t.shape
    case Atom(o) => Scalar(if NodeOf(o).Leaf? then NodeOf(o).l else Raw(0, 0, []))
    case Items(_, _) => Array(vs)
    case Pairing(_) => Dictionary(Entries(keyOf, Interleaved(vs[..Half(t)], vs[Half(t)..])))
  }

  function Meanings(keyOf: Value<Raw> -> string, ts: seq<Tree>): (vs: seq<Value<Raw>>)
    ensures |vs| == |ts|
    decreases ts, 1
  {
    if ts == [] then [] else Meanings(keyOf, ts[..|ts| - 1]) + [Meaning(keyOf, ts[|ts| - 1])]
  }

  /** What a scalar object says. */
  function AtomRaw(o: Object): Raw
    requires o.Single? || o.Blob?
  {
    match o
    case Single(raw) => raw
    case Blob(kind, _, bytes) => Raw(kind, 0, bytes)
  }

  /**
   * `v` is what a tree says: a scalar its bytes, an array its items in order, and a dictionary each key with the value
   * last written for it. The first half of a dictionary's children are its keys.
   */
  ghost predicate Says(keyOf: Value<Raw> -> string, t: Tree, v: Value<Raw>)
    requires TreeOk(t)
    decreases t, 0
  {
    match t.shape
    case Atom(o) => v == Scalar(AtomRaw(o))
    case Items(_, _) => v.Array? && AllSay(keyOf, t.children, v.items)
    case Pairing(_) =>
      && v.Dictionary?
      && exists ks: seq<Value<Raw>>, vs: seq<Value<Raw>> ::
           && |ks| == |vs| == Half(t) && AllSay(keyOf, t.children, ks + vs)
           && LastWins(v.entries, Keyed(keyOf, ks, vs))
  }

  ghost predicate AllSay(keyOf: Value<Raw> -> string, ts: seq<Tree>, vs: seq<Value<Raw>>)
    requires forall t :: t in ts ==> TreeOk(t)
    decreases ts, 1
  {
    |vs| == |ts| && forall i :: 0 <= i < |ts| ==> Says(keyOf, ts[i], vs[i])
  }

  lemma {:induction false} MeaningSays(keyOf: Value<Raw> -> string, t: Tree)
    requires TreeOk(t)
    ensures Says(keyOf, t, Meaning(keyOf, t))
    decreases t, 0
  {
    hide Meanings, Interleaved, Entries, LastWins, Keyed, AllSay;
    var vs := Meanings(keyOf, t.children);
    MeaningsSay(keyOf, t.children);
    if t.shape.Pairing? {
      EntriesSay(keyOf, vs[..Half(t)], vs[Half(t)..]);
      assert vs[..Half(t)] + vs[Half(t)..] == vs;
    }
  }

  lemma {:induction false} MeaningsSay(keyOf: Value<Raw> -> string, ts: seq<Tree>)
    requires forall t :: t in ts ==> TreeOk(t)
    ensures AllSay(keyOf, ts, Meanings(keyOf, ts))
    decreases ts, 1
  {
    hide Meaning, Says, TreeOk;
    if ts == [] {
    } else {
      var init, last := ts[..|ts| - 1], ts[|ts| - 1];
      assert last in ts && forall t :: t in init ==> t in ts;
      MeaningsSay(keyOf, init);
      MeaningSays(keyOf, last);
      var vs := Meanings(keyOf, ts);
      assert vs[..|vs| - 1] == Meanings(keyOf, init);
    }
  }

  /** A tree says one thing. */
  lemma {:induction false} SaysOnce(keyOf: Value<Raw> -> string, t: Tree, v: Value<Raw>, w: Value<Raw>)
    requires TreeOk(t) && Says(keyOf, t, v) && Says(keyOf, t, w)
    ensures v == w
    decreases t, 0
  {
    hide LastWins, Keyed, AllSay, TreeOk;
    TreeParts(t);
    match t.shape
    case Atom(_) =>
    case Items(_, _) => AllSayOnce(keyOf, t.children, v.items, w.items);
    case Pairing(_) =>
      var ks: seq<Value<Raw>>, vs: seq<Value<Raw>> :|
        |ks| == |vs| == Half(t) && AllSay(keyOf, t.children, ks + vs) && LastWins(v.entries, Keyed(keyOf, ks, vs));
      var ls: seq<Value<Raw>>, ws: seq<Value<Raw>> :|
        |ls| == |ws| == Half(t) && AllSay(keyOf, t.children, ls + ws) && LastWins(w.entries, Keyed(keyOf, ls, ws));
      AllSayOnce(keyOf, t.children, ks + vs, ls + ws);
      assert (ks + vs)[..Half(t)] == ks && (ls + ws)[..Half(t)] == ls;
      assert (ks + vs)[Half(t)..] == vs && (ls + ws)[Half(t)..] == ws;
      LastWinsOnce(v.entries, w.entries, Keyed(keyOf, ks, vs));
  }

  lemma TreeParts(t: Tree)
    requires TreeOk(t)
    ensures forall c :: c in t.children ==> TreeOk(c)
  {
  }

  lemma {:induction false} AllSayOnce(keyOf: Value<Raw> -> string, ts: seq<Tree>, vs: seq<Value<Raw>>, ws: seq<Value<Raw>>)
    requires (forall t :: t in ts ==> TreeOk(t)) && AllSay(keyOf, ts, vs) && AllSay(keyOf, ts, ws)
    ensures vs == ws
    decreases ts, 1
  {
    hide Says, TreeOk;
    forall i | 0 <= i < |ts|
      ensures vs[i] == ws[i]
    {
      SaysOnce(keyOf, ts[i], vs[i], ws[i]);
    }
  }

  /** A file has these objects from `at` on. */
  ghost predicate HasObjects(f: File<Raw>, at: nat, objects: seq<Object>) {
    && at + |objects| <= |f.objects|
    && forall i :: 0 <= i < |objects| ==> f.objects[at + i] == Some(NodeOf(objects[i]))
  }

  lemma HasParts(f: File<Raw>, at: nat, a: seq<Object>, b: seq<Object>)
    requires HasObjects(f, at, a + b)
    ensures HasObjects(f, at, a) && HasObjects(f, at + |a|, b)
  {
    forall i | 0 <= i < |a|
      ensures f.objects[at + i] == Some(NodeOf(a[i]))
    {
      assert (a + b)[i] == a[i];
    }
    forall i | 0 <= i < |b|
      ensures f.objects[at + |a| + i] == Some(NodeOf(b[i]))
    {
      assert (a + b)[|a| + i] == b[i];
    }
  }

  /** Values one by one are all of them. */
  lemma {:induction false} PlainEach(f: File<Raw>, refs: seq<nat>, vs: seq<Value<Raw>>, fuel: nat)
    requires |refs| == |vs| && forall k :: 0 <= k < |refs| ==> Plain(f, refs[k], fuel) == Some(vs[k])
    ensures PlainAll(f, refs, fuel) == Some(vs)
    decreases |refs|
  {
    hide Plain;
    if refs == [] {
    } else {
      var n := |refs| - 1;
      PlainEach(f, refs[..n], vs[..n], fuel);
      assert vs == vs[..n] + [vs[n]];
    }
  }

  lemma PlainInterleaved(f: File<Raw>, keys: seq<nat>, values: seq<nat>, a: seq<Value<Raw>>, b: seq<Value<Raw>>, fuel: nat)
    requires |keys| == |values| == |a| == |b|
    requires forall k :: 0 <= k < |keys| ==> Plain(f, keys[k], fuel) == Some(a[k]) && Plain(f, values[k], fuel) == Some(b[k])
    ensures PlainAll(f, Interleaved(keys, values), fuel) == Some(Interleaved(a, b))
  {
    hide Plain, Interleaved;
    InterleavedAt(keys, values);
    InterleavedAt(a, b);
    var refs, vs := Interleaved(keys, values), Interleaved(a, b);
    forall k | 0 <= k < |refs|
      ensures Plain(f, refs[k], fuel) == Some(vs[k])
    {
      var j := k / 2;
      assert k == 2 * j || k == 2 * j + 1;
      assert Plain(f, keys[j], fuel) == Some(a[j]) && Plain(f, values[j], fuel) == Some(b[j]);
    }
    PlainEach(f, refs, vs, fuel);
  }

  /** What a tree's own object holds, and what is built of it. */
  lemma RootValue(f: File<Raw>, t: Tree, at: nat, fuel: nat) returns (ws: seq<Value<Raw>>)
    requires TreeOk(t)
    requires forall k :: 0 <= k < |t.children| ==>
      Plain(f, Starts(t.children, at + 1)[k], fuel) == Some(Meanings(f.keyOf, t.children)[k])
    ensures var n := NodeOf(Root(t, at));
      PlainAll(f, Refs(n), fuel) == Some(ws) && Build(f.keyOf, n, ws) == Meaning(f.keyOf, t)
  {
    hide PlainAll, Starts, Meanings, Plain, Interleaved, Entries;
    var starts, vs := Starts(t.children, at + 1), Meanings(f.keyOf, t.children);
    match t.shape
    case Atom(_) =>
      ws := [];
      PlainEach(f, [], [], fuel);
    case Items(_, _) =>
      ws := vs;
      PlainEach(f, starts, vs, fuel);
    case Pairing(_) =>
      var n := Half(t);
      ws := Interleaved(vs[..n], vs[n..]);
      PlainInterleaved(f, starts[..n], starts[n..], vs[..n], vs[n..], fuel);
  }

  lemma PlainOne(f: File<Raw>, at: nat, n: Node<Raw>, ws: seq<Value<Raw>>, fuel: nat)
    requires at < |f.objects| && f.objects[at] == Some(n) && PlainAll(f, Refs(n), fuel) == Some(ws)
    ensures Plain(f, at, fuel + 1) == Some(Build(f.keyOf, n, ws))
  {
  }

  /** A file with a tree's objects has the tree's value, given levels enough. */
  lemma {:induction false} PlainOfTree(f: File<Raw>, t: Tree, at: nat, fuel: nat)
    requires TreeOk(t) && HasObjects(f, at, Flatten(t, at)) && Levels(t) <= fuel
    ensures Plain(f, at, fuel) == Some(Meaning(f.keyOf, t))
    decreases t, 0
  {
    hide PlainAll, Plain, Starts, Meanings, Meaning, HasObjects, FlattenAll, Root, NodeOf, Build;
    HasParts(f, at, [Root(t, at)], FlattenAll(t.children, at + 1));
    PlainOfAll(f, t.children, at + 1, fuel - 1);
    RootThere(f, at, Root(t, at));
    var ws := RootValue(f, t, at, fuel - 1);
    PlainOne(f, at, NodeOf(Root(t, at)), ws, fuel - 1);
  }

  lemma RootThere(f: File<Raw>, at: nat, o: Object)
    requires HasObjects(f, at, [o])
    ensures at < |f.objects| && f.objects[at] == Some(NodeOf(o))
  {
    assert f.objects[at + 0] == Some(NodeOf([o][0]));
  }

  lemma {:induction false} PlainOfAll(f: File<Raw>, ts: seq<Tree>, at: nat, fuel: nat)
    requires (forall t :: t in ts ==> TreeOk(t)) && HasObjects(f, at, FlattenAll(ts, at)) && LevelsAll(ts) <= fuel
    ensures forall k :: 0 <= k < |ts| ==> Plain(f, Starts(ts, at)[k], fuel) == Some(Meanings(f.keyOf, ts)[k])
    decreases ts, 1
  {
    hide Plain, Flatten, Meaning, HasObjects, TreeOk, NodeOf;
    if ts == [] {
    } else {
      var init, last := ts[..|ts| - 1], ts[|ts| - 1];
      assert last in ts && forall t :: t in init ==> t in ts;
      HasParts(f, at, FlattenAll(init, at), Flatten(last, at + CountAll(init)));
      PlainOfAll(f, init, at, fuel);
      PlainOfTree(f, last, at + CountAll(init), fuel);
    }
  }

  /** A tree's layout: its objects, the tree's own first and on top. */
  function LayoutOf(t: Tree, head: seq<byte>, offsetSize: byte, refSize: byte, pad: seq<byte>): Layout {
    Layout(head, Flatten(t, 0), offsetSize, refSize, 0, pad)
  }

  ghost predicate Fitting(l: Layout) {
    && l.Ok() && |l.head| + |WriteObjects(l.objects, l.refSize)| < Room(8)
    && RefsOk(Offsets(l.objects, l.refSize, |l.head|), l.offsetSize)
  }

  /** A tree's bytes have its value, by plain recursion. */
  lemma TreeReadBack(l: Layout, t: Tree, keyOf: Value<Raw> -> string)
    requires Fitting(l) && l.objects == Flatten(t, 0) && l.top == 0 && TreeOk(t) && Levels(t) <= MAX_DEPTH + 1
    ensures TableOf(WriteFile(l)).Some? && TableOf(WriteFile(l)).value.top == 0
    ensures Plain(FileOf(WriteFile(l), TableOf(WriteFile(l)).value, keyOf), 0, MAX_DEPTH + 1) == Some(Meaning(keyOf, t))
    ensures Says(keyOf, t, Meaning(keyOf, t))
  {
    hide Says, WriteFile, TableOf, WriteObjects, Offsets, Plain, Nodes, Flatten, NodeOf, Meaning;
    WrittenFile(l, keyOf);
    MeaningSays(keyOf, t);
    PlainOfTree(FileOf(WriteFile(l), TableOf(WriteFile(l)).value, keyOf), t, 0, MAX_DEPTH + 1);
  }

  /** A tree of no more than 65 levels, written to bytes, parses to what it says. */
  method ParseWritten(t: Tree, head: seq<byte>, offsetSize: byte, refSize: byte, pad: seq<byte>,
                      keyOf: Value<Raw> -> string)
    returns (r: Option<Value<Raw>>)
    requires TreeOk(t) && Levels(t) <= MAX_DEPTH + 1 && Fitting(LayoutOf(t, head, offsetSize, refSize, pad))
    ensures r.Some? && forall v :: Says(keyOf, t, v) <==> v == r.value
  {
    var l := LayoutOf(t, head, offsetSize, refSize, pad);
    TreeReadBack(l, t, keyOf);
    hide WriteFile, Plain, Has, Reaches, OnCycle, TableOf, Says, IsValueOf, Meaning;
    ghost var begun;
    r, begun := Parse(WriteFile(l), keyOf);
    forall v | Says(keyOf, t, v)
      ensures v == r.value
    {
      SaysOnce(keyOf, t, v, r.value);
    }
  }
}
