/**
 * Reading XML property lists (packages/decode-ios/src/plist.ts). On any tokens reading ends, and within them; on the
 * tokens of a printed tree it gives the tree, whatever text is between its elements. How a scalar's text decodes is left
 * to `Scalars`.
 */
module XmlPlist {
  import opened Options
  import opened Sequences
  import opened XmlTokens

  datatype Value<L> =
    | Null
    | Bool(b: bool)
    | Text(s: string)
    | Leaf(l: L)
    | Array(items: seq<Value<L>>)
    | Dict(entries: map<string, Value<L>>)

  /** What entities in a text stand for, and what the text of an integer, real, data or date is. */
  datatype Scalars<!L> = Scalars(entities: string -> string, leaf: (string, string) -> L)

  const MAX_DEPTH: nat := 200

  predicate Closes(ts: seq<Tok>, name: string) {
    ts != [] && ts[0].kind == Close && ts[0].name == name
  }

  predicate OpensElement(ts: seq<Tok>) {
    ts != [] && ts[0].kind != Close
  }

  /** One token if it is the close tag of `name`. */
  function SkipTo(ts: seq<Tok>, name: string): (n: nat)
    ensures n <= |ts|
  {
    if Closes(ts, name) then 1 else 0
  }

  predicate IsLeaf(name: string) {
    name == "integer" || name == "real" || name == "data" || name == "date"
  }

  function SelfValue<L>(d: Scalars<L>, name: string): Value<L> {
    if name == "true" then Bool(true)
    else if name == "false" then Bool(false)
    else if name == "dict" then Dict(map[])
    else if name == "array" then Array([])
    else if name == "string" then Text("")
    else if name == "data" then Leaf(d.leaf("data", ""))
    else Null
  }

  /** An element's value and how many tokens it takes. None is an error: nested too deep. */
  function Element<L>(d: Scalars<L>, ts: seq<Tok>, depth: nat): (r: Option<(Value<L>, nat)>)
    ensures r.Some? ==> r.value.1 <= |ts|
    ensures r.Some? && ts != [] ==> 0 < r.value.1
    decreases |ts|, 0
  {
    if depth > MAX_DEPTH then None
    else if ts == [] then Some((Null, 0))
    else
      var t, rest := ts[0], ts[1..];
      if t.kind == Close then Some((Null, 1))
      else if t.kind == Self then Some((SelfValue(d, t.name), 1))
      else if t.name == "plist" then
        match PlistRest(d, rest, depth)
        case None => None
        case Some((v, n)) => Some((v, 1 + n))
      else if t.name == "dict" then
        match DictRest(d, rest, depth, map[])
        case None => None
        case Some((entries, n)) => Some((Dict(entries), 1 + n))
      else if t.name == "array" then
        match ArrayRest(d, rest, depth)
        case None => None
        case Some((items, n)) => Some((Array(items), 1 + n))
      else Some((OtherValue(d, t), 1 + SkipTo(rest, t.name)))
  }

  /** What an element that holds no others says. */
  function OtherValue<L>(d: Scalars<L>, t: Tok): Value<L> {
    if t.name == "key" || t.name == "string" then Text(d.entities(t.text))
    else if IsLeaf(t.name) then Leaf(d.leaf(t.name, t.text))
    else if t.name == "true" then Bool(true)
    else if t.name == "false" then Bool(false)
    else Null
  }

  /** The element within another, if one opens. */
  function Member<L>(d: Scalars<L>, ts: seq<Tok>, depth: nat): (r: Option<(Value<L>, nat)>)
    ensures r.Some? ==> r.value.1 <= |ts|
    decreases |ts|, 1
  {
    if OpensElement(ts) then Element(d, ts, depth + 1) else Some((Null, 0))
  }

  /** A plist's element, and its close tag if that is next. */
  function PlistRest<L>(d: Scalars<L>, ts: seq<Tok>, depth: nat): (r: Option<(Value<L>, nat)>)
    ensures r.Some? ==> r.value.1 <= |ts|
    decreases |ts|, 2
  {
    match Member(d, ts, depth)
    case None => None
    case Some((v, n)) => Some((v, n + SkipTo(ts[n..], "plist")))
  }

  /** A dict's entries after those before, to its close tag or the end. */
  function DictRest<L>(d: Scalars<L>, ts: seq<Tok>, depth: nat, before: map<string, Value<L>>)
    : (r: Option<(map<string, Value<L>>, nat)>)
    ensures r.Some? ==> r.value.1 <= |ts|
    decreases |ts|, 2
  {
    if ts == [] then Some((before, 0))
    else if ts[0].kind == Close then
      if ts[0].name == "dict" then Some((before, 1)) else After(DictRest(d, ts[1..], depth, before), 1)
    else if ts[0].name != "key" then
      match Element(d, ts, depth + 1)
      case None => None
      case Some((_, n)) => After(DictRest(d, ts[n..], depth, before), n)
    else
      match Entry(d, ts, depth)
      case None => None
      case Some(((key, v), n)) => After(DictRest(d, ts[n..], depth, before[key := v]), n)
  }

  /** A key and the value behind it. */
  function Entry<L>(d: Scalars<L>, ts: seq<Tok>, depth: nat): (r: Option<((string, Value<L>), nat)>)
    requires ts != []
    ensures r.Some? ==> 0 < r.value.1 <= |ts|
    decreases |ts|, 1
  {
    var n := 1 + SkipTo(ts[1..], "key");
    match Member(d, ts[n..], depth)
    case None => None
    case Some((v, m)) => Some(((d.entities(ts[0].text), v), n + m))
  }

  function ArrayRest<L>(d: Scalars<L>, ts: seq<Tok>, depth: nat): (r: Option<(seq<Value<L>>, nat)>)
    ensures r.Some? ==> r.value.1 <= |ts|
    decreases |ts|, 2
  {
    if ts == [] then Some(([], 0))
    else if ts[0].kind == Close then
      if ts[0].name == "array" then Some(([], 1)) else After(ArrayRest(d, ts[1..], depth), 1)
    else
      match Element(d, ts, depth + 1)
      case None => None
      case Some((v, n)) =>
        match ArrayRest(d, ts[n..], depth)
        case None => None
        case Some((items, m)) => Some(([v] + items, n + m))
  }

  /** The same result `n` tokens further on. */
  function After<T>(r: Option<(T, nat)>, n: nat): Option<(T, nat)> {
    match r
    case None => None
    case Some((v, m)) => Some((v, n + m))
  }

  // Text behind a tag that is not a scalar's or a key's does not matter.

  predicate SameTok(t: Tok, u: Tok) {
    && t.name == u.name && t.kind == u.kind
    && (t.kind != Close && (IsLeaf(t.name) || t.name == "key" || t.name == "string") ==> t.text == u.text)
  }

  predicate SameToks(ts: seq<Tok>, us: seq<Tok>) {
    |ts| == |us| && forall i :: 0 <= i < |ts| ==> SameTok(ts[i], us[i])
  }

  lemma SameFrom(ts: seq<Tok>, us: seq<Tok>, n: nat)
    requires SameToks(ts, us) && n <= |ts|
    ensures |ts| == |us| && SameToks(ts[n..], us[n..])
    ensures forall name :: SkipTo(ts[n..], name) == SkipTo(us[n..], name)
    ensures ts != [] ==> SameTok(ts[0], us[0])
  {
  }

  lemma {:induction false} TextBetweenElements<L>(d: Scalars<L>, ts: seq<Tok>, us: seq<Tok>, depth: nat)
    requires SameToks(ts, us)
    ensures Element(d, ts, depth) == Element(d, us, depth)
    decreases |ts|, 0
  {
    hide DictRest, ArrayRest, Member, SkipTo, SameToks;
    SameFrom(ts, us, 0);
    if depth <= MAX_DEPTH && ts != [] {
      SameFrom(ts, us, 1);
      SameMember(d, ts[1..], us[1..], depth);
      SameDict(d, ts[1..], us[1..], depth, map[]);
      SameArray(d, ts[1..], us[1..], depth);
      if Member(d, ts[1..], depth).Some? {
        SameFrom(ts[1..], us[1..], Member(d, ts[1..], depth).value.1);
      }
    }
  }

  lemma {:induction false} SameMember<L>(d: Scalars<L>, ts: seq<Tok>, us: seq<Tok>, depth: nat)
    requires SameToks(ts, us)
    ensures Member(d, ts, depth) == Member(d, us, depth)
    decreases |ts|, 1
  {
    hide Element;
    TextBetweenElements(d, ts, us, depth + 1);
    assert ts != [] ==> SameTok(ts[0], us[0]);
  }

  lemma {:induction false} SameEntry<L>(d: Scalars<L>, ts: seq<Tok>, us: seq<Tok>, depth: nat)
    requires SameToks(ts, us) && ts != [] && ts[0].kind != Close && ts[0].name == "key"
    ensures Entry(d, ts, depth) == Entry(d, us, depth)
    decreases |ts|, 1
  {
    hide Member, SkipTo, SameToks;
    SameFrom(ts, us, 0);
    SameFrom(ts, us, 1);
    var n := 1 + SkipTo(ts[1..], "key");
    SameFrom(ts, us, n);
    SameMember(d, ts[n..], us[n..], depth);
  }

  lemma {:induction false} SameDict<L>(d: Scalars<L>, ts: seq<Tok>, us: seq<Tok>, depth: nat, before: map<string, Value<L>>)
    requires SameToks(ts, us)
    ensures DictRest(d, ts, depth, before) == DictRest(d, us, depth, before)
    decreases |ts|, 2
  {
    hide Element, Entry, SameToks;
    SameFrom(ts, us, 0);
    if ts == [] {
    } else {
      SameFrom(ts, us, 1);
      if ts[0].kind == Close {
        SameDict(d, ts[1..], us[1..], depth, before);
      } else if ts[0].name != "key" {
        TextBetweenElements(d, ts, us, depth + 1);
        if Element(d, ts, depth + 1).Some? {
          var n := Element(d, ts, depth + 1).value.1;
          SameFrom(ts, us, n);
          SameDict(d, ts[n..], us[n..], depth, before);
        }
      } else {
        SameEntry(d, ts, us, depth);
        if Entry(d, ts, depth).Some? {
          var ((key, v), n) := Entry(d, ts, depth).value;
          SameFrom(ts, us, n);
          SameDict(d, ts[n..], us[n..], depth, before[key := v]);
        }
      }
    }
  }

  lemma {:induction false} SameArray<L>(d: Scalars<L>, ts: seq<Tok>, us: seq<Tok>, depth: nat)
    requires SameToks(ts, us)
    ensures ArrayRest(d, ts, depth) == ArrayRest(d, us, depth)
    decreases |ts|, 2
  {
    hide Element, Member;
    if ts == [] {
    } else {
      assert SameTok(ts[0], us[0]);
      if ts[0].kind == Close {
        SameArray(d, ts[1..], us[1..], depth);
      } else {
        TextBetweenElements(d, ts, us, depth + 1);
        if Element(d, ts, depth + 1).Some? {
          var n := Element(d, ts, depth + 1).value.1;
          SameArray(d, ts[n..], us[n..], depth);
        }
      }
    }
  }

  // Trees, and the tokens they are printed as.

  datatype LeafKind = Integer | Real | Data | Date

  function LeafName(kind: LeafKind): string {
    match kind
    case Integer => "integer"
    case Real => "real"
    case Data => "data"
    case Date => "date"
  }

  /** A tree as written: keys and scalars by their text, empty ones in one tag, and elements of other names. */
  datatype Tree =
    | Flag(b: bool, self: bool)
    | Words(text: string)
    | Scalar(kind: LeafKind, text: string)
    | NoItems
    | NoEntries
    | NoWords
    | NoData
    | Odd(name: string, self: bool)
    | Items(items: seq<Tree>)
    | Entries(entries: seq<Keyed>)

  datatype Keyed = Keyed(key: string, value: Tree)

  predicate TreeOk(t: Tree)
    decreases t
  {
    match t
    case Odd(name, self) =>
      && name !in ["plist", "key", "dict", "array", "string", "data", "true", "false"]
      && (self || name !in ["integer", "real", "date"])
    case Items(items) => forall i :: 0 <= i < |items| ==> TreeOk(items[i])
    case Entries(entries) => forall i :: 0 <= i < |entries| ==> TreeOk(entries[i].value)
    case _ => true
  }

  function Pair(name: string, text: string): seq<Tok> {
    [Tok(name, Open, text), Tok(name, Close, "")]
  }

  function Print(t: Tree): (r: seq<Tok>)
    ensures r != [] && r[0].kind != Close
    ensures TreeOk(t) ==> r[0].name != "key" && r[0].name != "plist"
    decreases t, 0
  {
    match t
    case Flag(b, self) =>
      var name := if b then "true" else "false";
      if self then [Tok(name, Self, "")] else Pair(name, "")
    case Words(text) => Pair("string", text)
    case Scalar(kind, text) => Pair(LeafName(kind), text)
    case NoItems => [Tok("array", Self, "")]
    case NoEntries => [Tok("dict", Self, "")]
    case NoWords => [Tok("string", Self, "")]
    case NoData => [Tok("data", Self, "")]
    case Odd(name, self) => if self then [Tok(name, Self, "")] else Pair(name, "")
    case Items(items) => [Tok("array", Open, "")] + PrintAll(items) + [Tok("array", Close, "")]
    case Entries(entries) => [Tok("dict", Open, "")] + PrintEntries(entries) + [Tok("dict", Close, "")]
  }

  function PrintAll(items: seq<Tree>): seq<Tok>
    decreases items, 0
  {
    if items == [] then [] else Print(items[0]) + PrintAll(items[1..])
  }

  function PrintEntries(entries: seq<Keyed>): seq<Tok>
    decreases entries, 0
  {
    if entries == [] then []
    else Pair("key", entries[0].key) + Print(entries[0].value) + PrintEntries(entries[1..])
  }

  /** How many arrays and dicts a tree nests, an empty innermost one aside. */
  function Height(t: Tree): nat
    decreases t, 0
  {
    match t
    case Items(items) => if items == [] then 0 else 1 + HeightAll(items)
    case Entries(entries) => if entries == [] then 0 else 1 + HeightEntries(entries)
    case _ => 0
  }

  function Max(a: nat, b: nat): nat {
    if a >= b then a else b
  }

  function HeightAll(items: seq<Tree>): nat
    decreases items, 0
  {
    if items == [] then 0 else Max(Height(items[0]), HeightAll(items[1..]))
  }

  function HeightEntries(entries: seq<Keyed>): nat
    decreases entries, 0
  {
    if entries == [] then 0 else Max(Height(entries[0].value), HeightEntries(entries[1..]))
  }

  /** What a tree says; a key written again has its last value. */
  function Meaning<L>(d: Scalars<L>, t: Tree): Value<L>
    decreases t, 0
  {
    match t
    case Flag(b, _) => Bool(b)
    case Words(text) => Text(d.entities(text))
    case Scalar(kind, text) => Leaf(d.leaf(LeafName(kind), text))
    case NoItems => Array([])
    case NoEntries => Dict(map[])
    case NoWords => Text("")
    case NoData => Leaf(d.leaf("data", ""))
    case Odd(_, _) => Null
    case Items(items) => Array(MeaningAll(d, items))
    case Entries(entries) => Dict(MeaningEntries(d, entries, map[]))
  }

  function MeaningAll<L>(d: Scalars<L>, items: seq<Tree>): seq<Value<L>>
    decreases items, 0
  {
    if items == [] then [] else [Meaning(d, items[0])] + MeaningAll(d, items[1..])
  }

  function MeaningEntries<L>(d: Scalars<L>, entries: seq<Keyed>, before: map<string, Value<L>>)
    : map<string, Value<L>>
    decreases entries, 0
  {
    if entries == [] then before
    else MeaningEntries(d, entries[1..], before[d.entities(entries[0].key) := Meaning(d, entries[0].value)])
  }

  /** What entries say, each key with the value last written for it. */
  lemma {:induction false} MeaningIsLast<L>(d: Scalars<L>, entries: seq<Keyed>, before: map<string, Value<L>>,
                                            pairs: seq<(string, Value<L>)>)
    requires LastWins(before, pairs)
    ensures LastWins(MeaningEntries(d, entries, before),
                     pairs + seq(|entries|, i requires 0 <= i < |entries| =>
                               (d.entities(entries[i].key), Meaning(d, entries[i].value))))
    decreases |entries|
  {
    hide LastWins, Meaning;
    var said := seq(|entries|, i requires 0 <= i < |entries| => (d.entities(entries[i].key), Meaning(d, entries[i].value)));
    if entries == [] {
      assert pairs + said == pairs;
    } else {
      var first := said[0];
      LastWinsMore(before, pairs, first);
      MeaningIsLast(d, entries[1..], before[first.0 := first.1], pairs + [first]);
      var others := entries[1..];
      assert pairs + [first] + seq(|others|, i requires 0 <= i < |others| =>
                                     (d.entities(others[i].key), Meaning(d, others[i].value))) == pairs + said;
    }
  }

  // Reading on.

  lemma DictStep<L>(d: Scalars<L>, ts: seq<Tok>, depth: nat, before: map<string, Value<L>>)
    ensures ts == [] ==> DictRest(d, ts, depth, before) == Some((before, 0))
    ensures ts != [] && ts[0].kind == Close ==>
      (DictRest(d, ts, depth, before)
       == if ts[0].name == "dict" then Some((before, 1)) else After(DictRest(d, ts[1..], depth, before), 1))
    ensures ts != [] && ts[0].kind != Close && ts[0].name != "key" ==>
      (DictRest(d, ts, depth, before)
       == if Element(d, ts, depth + 1) == None then None
          else
            var n := Element(d, ts, depth + 1).value.1;
            After(DictRest(d, ts[n..], depth, before), n))
    ensures ts != [] && ts[0].kind != Close && ts[0].name == "key" ==>
      (DictRest(d, ts, depth, before)
       == if Entry(d, ts, depth) == None then None
          else
            var ((key, v), n) := Entry(d, ts, depth).value;
            After(DictRest(d, ts[n..], depth, before[key := v]), n))
  {
    hide Element, Entry;
  }

  lemma ArrayStep<L>(d: Scalars<L>, ts: seq<Tok>, depth: nat)
    ensures ts == [] ==> ArrayRest(d, ts, depth) == Some(([], 0))
    ensures ts != [] && ts[0].kind == Close ==>
      ArrayRest(d, ts, depth) == if ts[0].name == "array" then Some(([], 1)) else After(ArrayRest(d, ts[1..], depth), 1)
    ensures ts != [] && ts[0].kind != Close ==>
      (ArrayRest(d, ts, depth)
       == if Element(d, ts, depth + 1) == None then None
          else
            var (v, n) := Element(d, ts, depth + 1).value;
            Ahead([v], n, ArrayRest(d, ts[n..], depth)))
  {
    hide Element;
  }

  lemma NoneFurther<L>(items: seq<Value<L>>, n: nat)
    ensures Ahead(items, n, None) == None
  {
  }

  lemma NothingFurther<L>(items: seq<Value<L>>, n: nat)
    ensures Ahead(items, n, Some(([], 0))) == Some((items, n))
  {
    assert items + [] == items;
  }

  /** Items read from `n` tokens, and a reading of the rest. */
  function Ahead<L>(items: seq<Value<L>>, n: nat, r: Option<(seq<Value<L>>, nat)>): Option<(seq<Value<L>>, nat)> {
    match r
    case None => None
    case Some((others, m)) => Some((items + others, n + m))
  }

  lemma NoneAhead<L>(r: Option<(seq<Value<L>>, nat)>)
    ensures Ahead([], 0, r) == r
  {
    assert r.Some? ==> [] + r.value.0 == r.value.0;
  }

  lemma EndsHere<L>(items: seq<Value<L>>, n: nat)
    ensures Ahead(items, n, Some(([], 1))) == Some((items, n + 1))
  {
    assert items + [] == items;
  }

  lemma FurtherOn<L>(items: seq<Value<L>>, n: nat, more: seq<Value<L>>, m: nat, r: Option<(seq<Value<L>>, nat)>)
    ensures Ahead(items, n, Ahead(more, m, r)) == Ahead(items + more, n + m, r)
    ensures more == [] ==> items + more == items && Ahead(more, m, r) == After(r, m)
  {
    if r.Some? {
      assert items + (more + r.value.0) == items + more + r.value.0;
      assert [] + r.value.0 == r.value.0;
    }
  }

  /** A printed tree reads back, whatever follows it, unless it nests too deep. */
  lemma {:induction false} ReadPrinted<L>(d: Scalars<L>, t: Tree, rest: seq<Tok>, depth: nat)
    requires TreeOk(t)
    ensures Element(d, Print(t) + rest, depth)
      == if depth + Height(t) <= MAX_DEPTH then Some((Meaning(d, t), |Print(t)|)) else None
    decreases t, 0
  {
    match t
    case Items(items) =>
      ArrayEndsAt(d, items, Tok("array", Close, ""), rest, depth);
      hide *;
      ItemsPrinted(d, items, rest, depth);
    case Entries(entries) =>
      DictEndsAt(d, entries, Tok("dict", Close, ""), rest, depth, map[]);
      hide *;
      EntriesPrinted(d, entries, rest, depth);
    case _ => LeafPrinted(d, t, rest, depth);
  }

  lemma ItemsPrinted<L>(d: Scalars<L>, items: seq<Tree>, rest: seq<Tok>, depth: nat)
    requires ArrayRest(d, PrintAll(items) + [Tok("array", Close, "")] + rest, depth)
      == if items == [] || depth + 1 + HeightAll(items) <= MAX_DEPTH then Some((MeaningAll(d, items), |PrintAll(items)| + 1))
         else None
    ensures Element(d, Print(Items(items)) + rest, depth)
      == if depth + Height(Items(items)) <= MAX_DEPTH then Some((Meaning(d, Items(items)), |Print(Items(items))|)) else None
  {
    hide Element, ArrayRest, PrintAll, MeaningAll, HeightAll;
    var tail := PrintAll(items) + [Tok("array", Close, "")] + rest;
    assert Print(Items(items)) + rest == [Tok("array", Open, "")] + tail;
    ArrayOpens(d, tail, depth);
  }

  lemma EntriesPrinted<L>(d: Scalars<L>, entries: seq<Keyed>, rest: seq<Tok>, depth: nat)
    requires DictRest(d, PrintEntries(entries) + [Tok("dict", Close, "")] + rest, depth, map[])
      == if entries == [] || depth + 1 + HeightEntries(entries) <= MAX_DEPTH
         then Some((MeaningEntries(d, entries, map[]), |PrintEntries(entries)| + 1)) else None
    ensures Element(d, Print(Entries(entries)) + rest, depth)
      == if depth + Height(Entries(entries)) <= MAX_DEPTH
         then Some((Meaning(d, Entries(entries)), |Print(Entries(entries))|)) else None
  {
    hide Element, DictRest, PrintEntries, MeaningEntries, HeightEntries;
    var tail := PrintEntries(entries) + [Tok("dict", Close, "")] + rest;
    assert Print(Entries(entries)) + rest == [Tok("dict", Open, "")] + tail;
    DictOpens(d, tail, depth);
  }

  lemma ArrayOpens<L>(d: Scalars<L>, rest: seq<Tok>, depth: nat)
    ensures Element(d, [Tok("array", Open, "")] + rest, depth)
      == if depth > MAX_DEPTH || ArrayRest(d, rest, depth) == None then None
         else Some((Array(ArrayRest(d, rest, depth).value.0), 1 + ArrayRest(d, rest, depth).value.1))
  {
    hide ArrayRest;
    assert ([Tok("array", Open, "")] + rest)[1..] == rest;
  }

  lemma DictOpens<L>(d: Scalars<L>, rest: seq<Tok>, depth: nat)
    ensures Element(d, [Tok("dict", Open, "")] + rest, depth)
      == if depth > MAX_DEPTH || DictRest(d, rest, depth, map[]) == None then None
         else Some((Dict(DictRest(d, rest, depth, map[]).value.0), 1 + DictRest(d, rest, depth, map[]).value.1))
  {
    hide DictRest;
    assert ([Tok("dict", Open, "")] + rest)[1..] == rest;
  }

  lemma LeafPrinted<L>(d: Scalars<L>, t: Tree, rest: seq<Tok>, depth: nat)
    requires TreeOk(t) && !t.Items? && !t.Entries?
    ensures Element(d, Print(t) + rest, depth)
      == if depth <= MAX_DEPTH then Some((Meaning(d, t), |Print(t)|)) else None
  {
    hide ArrayRest, DictRest, Member;
    if t.Odd? && !t.self {
      assert (Print(t) + rest)[1..][0].name == t.name;
    }
  }

  /** Printed items in an open array, whatever follows them, are read first. */
  lemma {:induction false} ReadAllPrinted<L>(d: Scalars<L>, items: seq<Tree>, rest: seq<Tok>, depth: nat)
    requires forall i :: 0 <= i < |items| ==> TreeOk(items[i])
    ensures ArrayRest(d, PrintAll(items) + rest, depth)
      == if items == [] || depth + 1 + HeightAll(items) <= MAX_DEPTH
         then Ahead(MeaningAll(d, items), |PrintAll(items)|, ArrayRest(d, rest, depth)) else None
    decreases items, 0
  {
    hide Element, Print, Meaning, Height, ArrayRest, Ahead;
    if items == [] {
      assert PrintAll(items) + rest == rest;
      NoneAhead(ArrayRest(d, rest, depth));
    } else {
      var first, others := items[0], items[1..];
      var tail := PrintAll(others) + rest;
      var ts := Print(first) + tail;
      assert PrintAll(items) + rest == ts && ts[|Print(first)|..] == tail && ts[0] == Print(first)[0];
      ReadPrinted(d, first, tail, depth + 1);
      ReadAllPrinted(d, others, rest, depth);
      ArrayStep(d, ts, depth);
      FurtherOn([Meaning(d, first)], |Print(first)|, MeaningAll(d, others), |PrintAll(others)|, ArrayRest(d, rest, depth));
      NoneFurther([Meaning(d, first)], |Print(first)|);
    }
  }

  /** An open array with items within the depth limit ends at a close tag if it is its own, and else reads on behind it. */
  lemma {:induction false} ArrayEndsAt<L>(d: Scalars<L>, items: seq<Tree>, c: Tok, rest: seq<Tok>, depth: nat)
    requires (forall i :: 0 <= i < |items| ==> TreeOk(items[i])) && c.kind == Close
    ensures ArrayRest(d, PrintAll(items) + [c] + rest, depth)
      == if items != [] && depth + 1 + HeightAll(items) > MAX_DEPTH then None
         else if c.name == "array" then Some((MeaningAll(d, items), |PrintAll(items)| + 1))
         else Ahead(MeaningAll(d, items), |PrintAll(items)| + 1, ArrayRest(d, rest, depth))
    decreases items, 1
  {
    hide PrintAll, MeaningAll, HeightAll, ArrayRest, Ahead;
    Associate(PrintAll(items), [c], rest);
    ReadAllPrinted(d, items, [c] + rest, depth);
    ArrayStep(d, [c] + rest, depth);
    assert ([c] + rest)[1..] == rest;
    EndsHere(MeaningAll(d, items), |PrintAll(items)|);
    FurtherOn(MeaningAll(d, items), |PrintAll(items)|, [], 1, ArrayRest(d, rest, depth));
  }

  lemma DictGoesOn<L>(d: Scalars<L>, key: string, rest: seq<Tok>, depth: nat, before: map<string, Value<L>>)
    ensures |Pair("key", key)| == 2
    ensures var ts := Pair("key", key) + rest;
      DictRest(d, ts, depth, before)
      == match Entry(d, ts, depth)
         case None => None
         case Some(((key, v), n)) => After(DictRest(d, ts[n..], depth, before[key := v]), n)
  {
    hide Entry;
  }

  lemma EntryOpens<L>(d: Scalars<L>, key: string, value: seq<Tok>, depth: nat)
    requires value != [] && value[0].kind != Close
    ensures Entry(d, Pair("key", key) + value, depth)
      == match Element(d, value, depth + 1)
         case None => None
         case Some((v, n)) => Some(((d.entities(key), v), 2 + n))
  {
    hide Element;
    assert (Pair("key", key) + value)[2..] == value;
  }

  lemma {:induction false} ReadEntriesPrinted<L>(d: Scalars<L>, entries: seq<Keyed>, rest: seq<Tok>, depth: nat,
                                                 before: map<string, Value<L>>)
    requires forall i :: 0 <= i < |entries| ==> TreeOk(entries[i].value)
    ensures DictRest(d, PrintEntries(entries) + rest, depth, before)
      == if entries == [] || depth + 1 + HeightEntries(entries) <= MAX_DEPTH
         then After(DictRest(d, rest, depth, MeaningEntries(d, entries, before)), |PrintEntries(entries)|) else None
    decreases entries, 0
  {
    hide Element, Entry, Print, Meaning, Height, DictRest, Pair;
    var ts := PrintEntries(entries) + rest;
    if entries == [] {
      assert ts == rest;
    } else {
      var key, t := entries[0].key, entries[0].value;
      var tail := PrintEntries(entries[1..]) + rest;
      assert ts == Pair("key", key) + (Print(t) + tail);
      ReadPrinted(d, t, tail, depth + 1);
      EntryOpens(d, key, Print(t) + tail, depth);
      DictGoesOn(d, key, Print(t) + tail, depth, before);
      assert ts[2 + |Print(t)|..] == tail;
      ReadEntriesPrinted(d, entries[1..], rest, depth, before[d.entities(key) := Meaning(d, t)]);
    }
  }

  /** An open dict with entries within the depth limit ends at a close tag if it is its own, and else reads on behind it. */
  lemma {:induction false} DictEndsAt<L>(d: Scalars<L>, entries: seq<Keyed>, c: Tok, rest: seq<Tok>, depth: nat,
                                         before: map<string, Value<L>>)
    requires (forall i :: 0 <= i < |entries| ==> TreeOk(entries[i].value)) && c.kind == Close
    ensures var all := MeaningEntries(d, entries, before);
      DictRest(d, PrintEntries(entries) + [c] + rest, depth, before)
      == if entries != [] && depth + 1 + HeightEntries(entries) > MAX_DEPTH then None
         else if c.name == "dict" then Some((all, |PrintEntries(entries)| + 1))
         else After(DictRest(d, rest, depth, all), |PrintEntries(entries)| + 1)
    decreases entries, 1
  {
    hide PrintEntries, MeaningEntries, HeightEntries, DictRest;
    Associate(PrintEntries(entries), [c], rest);
    ReadEntriesPrinted(d, entries, [c] + rest, depth, before);
    DictStep(d, [c] + rest, depth, MeaningEntries(d, entries, before));
    assert ([c] + rest)[1..] == rest;
  }

  // Close tags that are not an element's own.

  lemma TakesSome<L>(d: Scalars<L>, ts: seq<Tok>, depth: nat, before: map<string, Value<L>>)
    requires ts != []
    ensures ArrayRest(d, ts, depth).Some? ==> ArrayRest(d, ts, depth).value.1 > 0
    ensures DictRest(d, ts, depth, before).Some? ==> DictRest(d, ts, depth, before).value.1 > 0
  {
    hide Element, Entry, ArrayRest, DictRest;
    ArrayStep(d, ts, depth);
    DictStep(d, ts, depth, before);
    SomeTaken(d, ts, depth);
  }

  lemma SomeTaken<L>(d: Scalars<L>, ts: seq<Tok>, depth: nat)
    requires ts != []
    ensures Element(d, ts, depth + 1).Some? ==> Element(d, ts, depth + 1).value.1 > 0
    ensures Entry(d, ts, depth).Some? ==> Entry(d, ts, depth).value.1 > 0
  {
    hide Element, Entry;
  }

  /** With anything behind it, a close tag ends an open array exactly if it is an array's, whatever its parents are. */
  lemma ArrayEndsAtOwn<L>(d: Scalars<L>, items: seq<Tree>, c: Tok, rest: seq<Tok>, depth: nat)
    requires (forall i :: 0 <= i < |items| ==> TreeOk(items[i])) && c.kind == Close && rest != []
    requires items == [] || depth + 1 + HeightAll(items) <= MAX_DEPTH
    ensures c.name == "array" <==>
      ArrayRest(d, PrintAll(items) + [c] + rest, depth) == Some((MeaningAll(d, items), |PrintAll(items)| + 1))
  {
    hide PrintAll, MeaningAll, HeightAll, ArrayRest;
    ArrayEndsAt(d, items, c, rest, depth);
    TakesSome(d, rest, depth, map[]);
  }

  /** With anything behind it, a close tag ends an open dict exactly if it is a dict's, whatever its parents are. */
  lemma DictEndsAtOwn<L>(d: Scalars<L>, entries: seq<Keyed>, c: Tok, rest: seq<Tok>, depth: nat,
                         before: map<string, Value<L>>)
    requires (forall i :: 0 <= i < |entries| ==> TreeOk(entries[i].value)) && c.kind == Close && rest != []
    requires entries == [] || depth + 1 + HeightEntries(entries) <= MAX_DEPTH
    ensures c.name == "dict" <==>
      DictRest(d, PrintEntries(entries) + [c] + rest, depth, before)
      == Some((MeaningEntries(d, entries, before), |PrintEntries(entries)| + 1))
  {
    hide PrintEntries, MeaningEntries, HeightEntries, DictRest;
    DictEndsAt(d, entries, c, rest, depth, before);
    TakesSome(d, rest, depth, MeaningEntries(d, entries, before));
  }

  /** Any other element but a plist takes a close tag behind it exactly if it is its own. */
  lemma LeafEndsAtOwn<L>(d: Scalars<L>, t: Tok, c: Tok, rest: seq<Tok>, depth: nat)
    requires t.kind == Open && t.name != "array" && t.name != "dict" && t.name != "plist"
    requires c.kind == Close && depth <= MAX_DEPTH
    ensures var r := Element(d, [t, c] + rest, depth); r.Some? && r.value.1 == if c.name == t.name then 2 else 1
  {
    hide ArrayRest, DictRest, Member;
  }

  /**
   * A dict's last value an array left open: the array takes the dict's close tag for a stray one, and what is behind the
   * dict for its own items.
   */
  lemma OpenArraySwallows<L>(d: Scalars<L>, entries: seq<Keyed>, key: string, items: seq<Tree>, rest: seq<Tok>, depth: nat)
    requires forall i :: 0 <= i < |entries| ==> TreeOk(entries[i].value)
    requires forall i :: 0 <= i < |items| ==> TreeOk(items[i])
    requires depth + 1 + HeightEntries(entries) <= MAX_DEPTH && depth + 2 + HeightAll(items) <= MAX_DEPTH
    requires ArrayRest(d, rest, depth + 1).Some?
    ensures var (others, n) := ArrayRest(d, rest, depth + 1).value;
      var taken := Array(MeaningAll(d, items) + others);
      var open := PrintEntries(entries) + Pair("key", key) + [Tok("array", Open, "")] + PrintAll(items);
      DictRest(d, open + [Tok("dict", Close, "")] + rest, depth, map[])
      == After(DictRest(d, rest[n..], depth, MeaningEntries(d, entries, map[])[d.entities(key) := taken]), |open| + 1 + n)
  {
    hide Element, Entry, ArrayRest, DictRest, PrintEntries, PrintAll, MeaningAll, MeaningEntries, HeightAll, HeightEntries;
    var close := Tok("dict", Close, "");
    var left := PrintAll(items) + [close] + rest;
    var value := [Tok("array", Open, "")] + left;
    var open := PrintEntries(entries) + Pair("key", key) + [Tok("array", Open, "")] + PrintAll(items);
    assert open + [close] + rest == PrintEntries(entries) + (Pair("key", key) + value);
    ReadEntriesPrinted(d, entries, Pair("key", key) + value, depth, map[]);
    ArrayEndsAt(d, items, close, rest, depth + 1);
    ArrayOpens(d, left, depth + 1);
    EntryOpens(d, key, value, depth);
    DictGoesOn(d, key, value, depth, MeaningEntries(d, entries, map[]));
    var n := ArrayRest(d, rest, depth + 1).value.1;
    assert (Pair("key", key) + value)[4 + |PrintAll(items)| + n..] == rest[n..];
  }

  /** The element a document's tokens begin with, stray close tags before it skipped. */
  function Document<L>(d: Scalars<L>, ts: seq<Tok>): (r: Option<Value<L>>)
    decreases |ts|
  {
    if ts != [] && ts[0].name != "plist" && ts[0].kind == Close then Document(d, ts[1..])
    else
      match Element(d, ts, 0)
      case None => None
      case Some((v, _)) => Some(v)
  }

  /**
   * A document that prints a tree within a plist element reads as the tree, whatever text is behind its structural tags;
   * unless the tree nests too deep, when reading fails.
   */
  lemma DocumentReadBack<L>(d: Scalars<L>, t: Tree, ts: seq<Tok>)
    requires TreeOk(t) && SameToks([Tok("plist", Open, "")] + Print(t) + [Tok("plist", Close, "")], ts)
    ensures Document(d, ts) == if 1 + Height(t) <= MAX_DEPTH then Some(Meaning(d, t)) else None
  {
    var close := [Tok("plist", Close, "")];
    var us := [Tok("plist", Open, "")] + Print(t) + close;
    TextBetweenElements(d, us, ts, 0);
    SameFrom(us, ts, 0);
    PlistOpens(d, t, 0);
    hide Print, Meaning, Height;
  }

  lemma PlistOpens<L>(d: Scalars<L>, t: Tree, depth: nat)
    requires TreeOk(t) && depth <= MAX_DEPTH
    ensures Element(d, [Tok("plist", Open, "")] + Print(t) + [Tok("plist", Close, "")], depth)
      == if depth + 1 + Height(t) <= MAX_DEPTH then Some((Meaning(d, t), 2 + |Print(t)|)) else None
  {
    hide Element, Member, ArrayRest, DictRest, Print, Meaning, Height;
    var close := [Tok("plist", Close, "")];
    var us := [Tok("plist", Open, "")] + Print(t) + close;
    ReadPrinted(d, t, close, depth + 1);
    assert us[1..] == Print(t) + close;
    assert (Print(t) + close)[|Print(t)|..] == close && (Print(t) + close)[0] == Print(t)[0];
    MemberIs(d, Print(t) + close, depth);
    PlistIs(d, us, depth);
  }

  lemma MemberIs<L>(d: Scalars<L>, ts: seq<Tok>, depth: nat)
    requires ts != [] && ts[0].kind != Close
    ensures Member(d, ts, depth) == Element(d, ts, depth + 1)
  {
    hide Element;
  }

  lemma PlistIs<L>(d: Scalars<L>, ts: seq<Tok>, depth: nat)
    requires depth <= MAX_DEPTH && ts != [] && ts[0].kind == Open && ts[0].name == "plist"
    ensures var m := Member(d, ts[1..], depth);
      Element(d, ts, depth)
      == if m == None then None else Some((m.value.0, 1 + m.value.1 + SkipTo(ts[1..][m.value.1..], "plist")))
  {
    hide Member, DictRest, ArrayRest;
  }

  // Documents that are not as they should be.

  /** Close tags before a document are skipped, unless they are a plist's. */
  lemma {:induction false} StrayBefore<L>(d: Scalars<L>, stray: seq<Tok>, ts: seq<Tok>)
    requires forall i :: 0 <= i < |stray| ==> stray[i].kind == Close && stray[i].name != "plist"
    ensures Document(d, stray + ts) == Document(d, ts)
    decreases |stray|
  {
    hide Element;
    if stray == [] {
      assert stray + ts == ts;
    } else {
      assert (stray + ts)[1..] == stray[1..] + ts;
      StrayBefore(d, stray[1..], ts);
    }
  }

  /** An element in a dict without a key before it is read and dropped. */
  lemma DictSkips<L>(d: Scalars<L>, t: Tree, rest: seq<Tok>, depth: nat, before: map<string, Value<L>>)
    requires TreeOk(t)
    ensures DictRest(d, Print(t) + rest, depth, before)
      == if depth + 1 + Height(t) <= MAX_DEPTH then After(DictRest(d, rest, depth, before), |Print(t)|) else None
  {
    hide Element, DictRest, Print, Meaning, Height;
    var ts := Print(t) + rest;
    ReadPrinted(d, t, rest, depth + 1);
    DictStep(d, ts, depth, before);
    assert ts[0] == Print(t)[0] && ts[|Print(t)|..] == rest;
  }

  /** A key with no element behind it has no value: null. */
  lemma KeyAlone<L>(d: Scalars<L>, key: string, c: Tok, rest: seq<Tok>, depth: nat, before: map<string, Value<L>>)
    requires c.kind == Close && depth <= MAX_DEPTH
    ensures DictRest(d, Pair("key", key) + ([c] + rest), depth, before)
      == After(DictRest(d, [c] + rest, depth, before[d.entities(key) := Null]), 2)
  {
    hide Element, DictRest;
    var ts := Pair("key", key) + ([c] + rest);
    DictStep(d, ts, depth, before);
    assert ts[1..][0] == Tok("key", Close, "") && ts[2..] == [c] + rest;
  }

  /** What a document leaves open ends with it. */
  lemma EndsWithDocument<L>(d: Scalars<L>, items: seq<Tree>, entries: seq<Keyed>, depth: nat)
    requires forall i :: 0 <= i < |items| ==> TreeOk(items[i])
    requires forall i :: 0 <= i < |entries| ==> TreeOk(entries[i].value)
    requires depth + 1 + HeightAll(items) <= MAX_DEPTH && depth + 1 + HeightEntries(entries) <= MAX_DEPTH
    ensures ArrayRest(d, PrintAll(items), depth) == Some((MeaningAll(d, items), |PrintAll(items)|))
    ensures DictRest(d, PrintEntries(entries), depth, map[])
      == Some((MeaningEntries(d, entries, map[]), |PrintEntries(entries)|))
  {
    hide Element, ArrayRest, DictRest, PrintAll, MeaningAll, HeightAll, PrintEntries, MeaningEntries, HeightEntries;
    assert PrintAll(items) + [] == PrintAll(items) && PrintEntries(entries) + [] == PrintEntries(entries);
    ReadAllPrinted(d, items, [], depth);
    ArrayStep(d, [], depth);
    NothingFurther(MeaningAll(d, items), |PrintAll(items)|);
    ReadEntriesPrinted(d, entries, [], depth, map[]);
    DictStep(d, [], depth, MeaningEntries(d, entries, map[]));
  }

  /** A document, cut before each tag, that leaves an array open in a dict. */
  const OPEN_ARRAY := ["<dict>", "<key>a", "</key>", "<array>", "</dict>", "<string>x", "</string>"]

  function OpenArrayTokens(): seq<Tok> {
    [Tok("dict", Open, ""), Tok("key", Open, "a"), Tok("key", Close, ""), Tok("array", Open, ""), Tok("dict", Close, ""),
     Tok("string", Open, "x"), Tok("string", Close, "")]
  }

  lemma OpenArrayIsWritten()
    ensures Scan(Flat(OPEN_ARRAY)).toks == OpenArrayTokens()
  {
    var ws := seq(7, i requires 0 <= i < 7 => Simple(OpenArrayTokens()[i]));
    hide Scan, WriteAll, Flat, Write, TagOk, TagsOk, Simple, Toks;
    PartsOk(ws);
    TokensReadBack(ws);
    PartsRead(ws);
    PartsWritten(ws);
    WrittenIn(ws, OPEN_ARRAY);
  }

  /** A token's tag without attributes, its text as it is. */
  function Simple(t: Tok): Tag {
    Tag(t.kind, t.name, [], "", if t.text == "" then [] else [Plain(t.text)])
  }

  lemma SimpleText(t: Tok)
    ensures TextOf(Simple(t).behind) == t.text && WritePieces(Simple(t).behind) == t.text
  {
    assert t.text + "" == t.text;
  }

  lemma SimpleOk(t: Tok)
    requires t.name != "" && (forall i :: 0 <= i < |t.name| ==> 'a' <= t.name[i] <= 'z') && '<' !in t.text
    ensures TagOk(Simple(t)) && TokOf(Simple(t)) == t
  {
    hide NameOk;
    LettersOk(t.name);
    SimpleText(t);
  }

  lemma SimpleWritten(t: Tok)
    requires t.kind != Self && t.name != "" && forall i :: 0 <= i < |t.name| ==> 'a' <= t.name[i] <= 'z'
    ensures Write(Simple(t)) == (if t.kind == Open then "<" else "</") + t.name + ">" + t.text
  {
    SimpleText(t);
    LettersOk(t.name);
    hide WritePieces, Cased;
    var raw := (if t.kind == Open then "" else "/") + t.name;
    assert raw + "" == raw == Raw(Simple(t));
  }

  lemma PartOk(i: nat)
    requires i < 7
    ensures TagOk(Simple(OpenArrayTokens()[i])) && TokOf(Simple(OpenArrayTokens()[i])) == OpenArrayTokens()[i]
  {
    hide TagOk, TokOf, Simple;
    SimpleOk(OpenArrayTokens()[i]);
  }

  lemma PartsOk(ws: seq<Tag>)
    requires |ws| == 7 && forall i :: 0 <= i < 7 ==> ws[i] == Simple(OpenArrayTokens()[i])
    ensures TagsOk(ws)
  {
    hide TagOk;
    forall i | 0 <= i < 7
      ensures TagOk(ws[i])
    {
      PartOk(i);
    }
  }

  lemma PartsRead(ws: seq<Tag>)
    requires |ws| == 7 && forall i :: 0 <= i < 7 ==> ws[i] == Simple(OpenArrayTokens()[i])
    ensures Toks(ws) == OpenArrayTokens()
  {
    hide Toks, TokOf;
    forall i | 0 <= i < 7
      ensures TokOf(ws[i]) == OpenArrayTokens()[i]
    {
      PartOk(i);
    }
    ReadAs(ws, OpenArrayTokens());
  }

  lemma PartsWritten(ws: seq<Tag>)
    requires |ws| == 7 && forall i :: 0 <= i < 7 ==> ws[i] == Simple(OpenArrayTokens()[i])
    ensures forall i :: 0 <= i < 7 ==> OPEN_ARRAY[i] == Write(ws[i])
  {
    hide Write, Simple;
    forall i | 0 <= i < 7
      ensures OPEN_ARRAY[i] == Write(ws[i])
    {
      SimpleWritten(OpenArrayTokens()[i]);
    }
  }

  lemma {:induction false} WrittenIn(ws: seq<Tag>, parts: seq<string>)
    requires |ws| == |parts| && forall i :: 0 <= i < |ws| ==> parts[i] == Write(ws[i])
    ensures WriteAll(ws) == Flat(parts)
  {
    hide Write;
    if ws == [] {
    } else {
      WrittenIn(ws[1..], parts[1..]);
    }
  }

  lemma {:induction false} ReadAs(ws: seq<Tag>, ts: seq<Tok>)
    requires |ws| == |ts| && forall i :: 0 <= i < |ws| ==> TokOf(ws[i]) == ts[i]
    ensures Toks(ws) == ts
  {
    hide TokOf;
    if ws == [] {
    } else {
      ReadAs(ws[1..], ts[1..]);
    }
  }

  /** The array left open takes the dict's close tag for a stray one, and the string behind it for its own item. */
  lemma OpenArrayTakesNext<L>(d: Scalars<L>)
    ensures Document(d, Scan(Flat(OPEN_ARRAY)).toks) == Some(Dict(map[d.entities("a") := Array([Text(d.entities("x"))])]))
  {
    hide Element, Scan, DictRest, ArrayRest, Flat;
    OpenArrayIsWritten();
    OpenArrayReads(d);
    assert OpenArrayTokens()[0].kind == Open;
  }

  lemma OpenArrayReads<L>(d: Scalars<L>)
    ensures Element(d, OpenArrayTokens(), 0) == Some((Dict(map[d.entities("a") := Array([Text(d.entities("x"))])]), 7))
  {
    hide Element, DictRest, ArrayRest;
    var ts, rest, items := OpenArrayTokens(), Pair("string", "x"), [Text(d.entities("x"))];
    StringRead(d, "x", 1);
    OpenArraySwallows(d, [], "a", [], rest, 0);
    assert [] + items == items && rest[2..] == [];
    DictStep(d, [], 0, map[d.entities("a") := Array(items)]);
    DictOpens(d, ts[1..], 0);
    assert ts == [Tok("dict", Open, "")] + ts[1..];
    assert ts[1..] == [] + Pair("key", "a") + [Tok("array", Open, "")] + [] + [Tok("dict", Close, "")] + rest;
  }

  lemma StringRead<L>(d: Scalars<L>, text: string, depth: nat)
    requires depth < MAX_DEPTH
    ensures ArrayRest(d, Pair("string", text), depth) == Some(([Text(d.entities(text))], 2))
  {
    hide ArrayRest, Element;
    var words := [Words(text)];
    assert words[1..] == [] && PrintAll([]) == [] && MeaningAll(d, []) == [];
    assert PrintAll(words) + [] == Pair("string", text) && MeaningAll(d, words) == [Text(d.entities(text))];
    ReadAllPrinted(d, words, [], depth);
    ArrayStep(d, [], depth);
    NothingFurther(MeaningAll(d, words), 2);
  }

  /** The tokens of a document that holds a tree, its structural tags with no text. */
  function Plist(t: Tree): seq<Tok> {
    [Tok("plist", Open, "")] + Print(t) + [Tok("plist", Close, "")]
  }

  /**
   * A tree printed as XML reads back as the tree: whatever attributes its tags have and whatever text is behind its
   * structural tags, with comments, declarations and CDATA anywhere in it and before it.
   */
  lemma XmlReadBack<L>(d: Scalars<L>, t: Tree, ws: seq<Tag>, prologs: seq<Piece>)
    requires TreeOk(t) && SameToks(Plist(t), Toks(ws)) && TagsOk(ws) && PiecesOk(prologs)
    ensures Document(d, Scan(WritePieces(prologs) + WriteAll(ws)).toks)
      == if 1 + Height(t) <= MAX_DEPTH then Some(Meaning(d, t)) else None
  {
    hide Document, Scan, Meaning, Height, Markup, WriteAll, WritePieces, PiecesOk, TagsOk, Print;
    TokensReadBack(ws);
    DocumentReadBack(d, t, Toks(ws));
    MarkupReadBack(ws);
    PrologsSkipped(prologs, WriteAll(ws));
  }

  // The code.

  class Parser<L> {
    const d: Scalars<L>
    const toks: seq<Tok>
    /** The token to be read next. */
    var p: nat

    constructor (d: Scalars<L>, toks: seq<Tok>)
      ensures this.d == d && this.toks == toks && p == 0
    {
      this.d, this.toks, p := d, toks, 0;
    }

    ghost function Left(): seq<Tok>
      reads this
      requires p <= |toks|
    {
      toks[p..]
    }

    /** Whether `r` and the tokens read since `from` are what a reading of those from there gives. */
    ghost predicate Gives<T>(r: Option<T>, from: nat, should: Option<(T, nat)>)
      reads this
    {
      && from <= p <= |toks|
      && (r == None <==> should == None)
      && (r.Some? ==> should == Some((r.value, p - from)))
    }

    /** Consumes the close tag of `name` if it is the next token. */
    method Skip(name: string)
      requires p <= |toks|
      modifies this
      ensures p == old(p) + SkipTo(old(Left()), name) && p <= |toks|
    {
      if p < |toks| && toks[p].kind == Close && toks[p].name == name {
        p := p + 1;
      }
    }

    /** Consumes one element and gives its value. None is an error. */
    method ReadElement(depth: nat) returns (r: Option<Value<L>>)
      requires p <= |toks|
      modifies this
      ensures Gives(r, old(p), Element(d, old(Left()), depth))
      decreases |toks| - p, 0
    {
      hide DictRest, ArrayRest, PlistRest, OtherValue, SelfValue;
      if depth > MAX_DEPTH {
        return None;
      }
      if p == |toks| {
        return Some(Null);
      }
      var t := toks[p];
      p := p + 1;
      assert Left() == old(Left())[1..];
      if t.kind == Close {
        return Some(Null);
      }
      if t.kind == Self {
        return Some(SelfValue(d, t.name));
      }
      if t.name == "plist" {
        var v := ReadPlist(depth);
        return v;
      }
      if t.name == "dict" {
        var entries := ReadDict(depth);
        return if entries == None then None else Some(Dict(entries.value));
      }
      if t.name == "array" {
        var items := ReadArray(depth);
        return if items == None then None else Some(Array(items.value));
      }
      Skip(t.name);
      return Some(OtherValue(d, t));
    }

    method ReadPlist(depth: nat) returns (r: Option<Value<L>>)
      requires p <= |toks|
      modifies this
      ensures Gives(r, old(p), PlistRest(d, old(Left()), depth))
      decreases |toks| - p, 2
    {
      hide Member;
      r := ReadMember(depth);
      if r == None {
        return;
      }
      assert Left() == old(Left())[p - old(p)..];
      Skip("plist");
    }

    method ReadMember(depth: nat) returns (r: Option<Value<L>>)
      requires p <= |toks|
      modifies this
      ensures Gives(r, old(p), Member(d, old(Left()), depth))
      decreases |toks| - p, 1
    {
      hide Element;
      if p < |toks| && toks[p].kind != Close {
        r := ReadElement(depth + 1);
      } else {
        r := Some(Null);
      }
    }

    method ReadArray(depth: nat) returns (r: Option<seq<Value<L>>>)
      requires p <= |toks|
      modifies this
      ensures Gives(r, old(p), ArrayRest(d, old(Left()), depth))
      decreases |toks| - p, 2
    {
      hide Element, ArrayRest, Ahead;
      var out: seq<Value<L>> := [];
      ghost var all := ArrayRest(d, Left(), depth);
      NoneAhead(all);
      while p < |toks|
        invariant old(p) <= p <= |toks|
        invariant all == Ahead(out, p - old(p), ArrayRest(d, Left(), depth))
        decreases |toks| - p
      {
        ghost var here, at := Left(), p;
        ArrayStep(d, here, depth);
        if toks[p].kind == Close {
          p := p + 1;
          assert Left() == here[1..];
          if toks[p - 1].name == "array" {
            EndsHere(out, at - old(p));
            return Some(out);
          }
          FurtherOn(out, at - old(p), [], 1, ArrayRest(d, Left(), depth));
          assert out + [] == out;
          continue;
        }
        var v := ReadElement(depth + 1);
        if v == None {
          NoneFurther(out, at - old(p));
          return None;
        }
        assert Left() == here[p - at..];
        FurtherOn(out, at - old(p), [v.value], p - at, ArrayRest(d, Left(), depth));
        out := out + [v.value];
      }
      ArrayStep(d, Left(), depth);
      NothingFurther(out, p - old(p));
      return Some(out);
    }

    method ReadDict(depth: nat) returns (r: Option<map<string, Value<L>>>)
      requires p <= |toks|
      modifies this
      ensures Gives(r, old(p), DictRest(d, old(Left()), depth, map[]))
      decreases |toks| - p, 2
    {
      hide Element, Entry, DictRest;
      var out: map<string, Value<L>> := map[];
      ghost var all := DictRest(d, Left(), depth, map[]);
      assert all == After(DictRest(d, Left(), depth, out), 0);
      while p < |toks|
        invariant old(p) <= p <= |toks|
        invariant all == After(DictRest(d, Left(), depth, out), p - old(p))
        decreases |toks| - p
      {
        ghost var here, at := Left(), p;
        DictStep(d, here, depth, out);
        if toks[p].kind == Close {
          p := p + 1;
          assert Left() == here[1..];
          if toks[p - 1].name == "dict" {
            return Some(out);
          }
          continue;
        }
        if toks[p].name != "key" {
          var v := ReadElement(depth + 1);
          if v == None {
            return None;
          }
          assert Left() == here[p - at..];
          continue;
        }
        var e := ReadEntry(depth);
        if e == None {
          return None;
        }
        assert Left() == here[p - at..];
        out := out[e.value.0 := e.value.1];
      }
      DictStep(d, Left(), depth, out);
      return Some(out);
    }

    method ReadEntry(depth: nat) returns (r: Option<(string, Value<L>)>)
      requires p < |toks|
      modifies this
      ensures Gives(r, old(p), Entry(d, old(Left()), depth))
      ensures r.Some? ==> p > old(p)
      decreases |toks| - p, 1
    {
      hide Member;
      var key := d.entities(toks[p].text);
      p := p + 1;
      assert Left() == old(Left())[1..];
      Skip("key");
      assert Left() == old(Left())[p - old(p)..];
      var v := ReadMember(depth);
      return if v == None then None else Some((key, v.value));
    }
  }

  /** An XML property list's value. None is an error. */
  method Parse<L>(d: Scalars<L>, xml: string) returns (r: Option<Value<L>>)
    ensures r == Document(d, Scan(xml).toks)
  {
    hide Element, Scan;
    var toks := Tokenize(xml);
    var parser := new Parser(d, toks);
    assert toks[0..] == toks;
    while parser.p < |toks| && toks[parser.p].name != "plist" && toks[parser.p].kind == Close
      invariant parser.toks == toks && parser.d == d && parser.p <= |toks|
      invariant Document(d, toks) == Document(d, toks[parser.p..])
    {
      assert toks[parser.p..][1..] == toks[parser.p + 1..];
      parser.p := parser.p + 1;
    }
    r := parser.ReadElement(0);
  }
}
