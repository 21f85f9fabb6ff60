/**
 * Decoding a CarrierSettings message (packages/decode-android/src/carrier-settings.ts): a message behind another adds to
 * what the first says, and an embedded message seen twice merges. How an item's own bytes decode is left to `Items`.
 */
module CarrierSettings {
  import opened Bits
  import opened Options
  import opened Protobuf
  import opened Sequences

  /** The repeated wrapper messages a file holds. */
  datatype Kind = Apns | Configs | Vendors

  /** Where an unknown field was found: the file, a wrapper, or an item of one by its number. */
  datatype Path = File | Wrapper(kind: Kind) | Item(kind: Kind, index: nat)

  /** An unknown field, and the keys below `path` it is under. */
  datatype Unknown = Unknown(path: Path, below: seq<string>, f: WireField)

  /** An unknown field of an item. */
  datatype Inner = Inner(below: seq<string>, f: WireField)

  /** How items and scalars decode. None is an error. */
  datatype Items<A, C, V> = Items(
    text: seq<byte> -> Option<string>,
    int64: nat -> string,
    timestamp: seq<byte> -> Option<string>,
    apn: seq<byte> -> Option<(A, seq<Inner>)>,
    config: seq<byte> -> Option<(seq<(string, C)>, seq<Inner>)>,
    vendor: seq<byte> -> Option<(V, seq<Inner>)>)

  /** What a wrapper's reader makes of a field: none of its items, an error, or items and the unknown fields in them. */
  datatype Reading<T> = Other | Failed | Read(items: seq<T>, unknown: seq<Inner>)

  function ApnItems<A, C, V>(d: Items<A, C, V>): WireField -> Reading<A> {
    (f: WireField) =>
      if f.field != 2 || !f.value.Bytes? then Other
      else
        match d.apn(f.value.bytes)
        case None => Failed
        case Some((a, unknown)) => Read([a], unknown)
  }

  function VendorItems<A, C, V>(d: Items<A, C, V>): WireField -> Reading<V> {
    (f: WireField) =>
      if f.field != 2 || !f.value.Bytes? then Other
      else
        match d.vendor(f.value.bytes)
        case None => Failed
        case Some((v, unknown)) => Read([v], unknown)
  }

  function ConfigItems<A, C, V>(d: Items<A, C, V>): WireField -> Reading<(string, C)> {
    (f: WireField) =>
      if f.field != 2 || !f.value.Bytes? then Other
      else
        match d.config(f.value.bytes)
        case None => Failed
        case Some((entries, unknown)) => Read(entries, unknown)
  }

  /** Config entries are not numbered: their unknown fields are found by key. */
  function PathOf(kind: Kind, index: nat): Path {
    if kind == Configs then Wrapper(Configs) else Item(kind, index)
  }

  function Found(unknown: seq<Inner>, path: Path): (r: seq<Unknown>)
    ensures |r| == |unknown|
  {
    seq(|unknown|, i requires 0 <= i < |unknown| => Unknown(path, unknown[i].below, unknown[i].f))
  }

  datatype Listed<T> = Listed(items: seq<T>, unknown: seq<Unknown>)

  /** One more field of a wrapper message. */
  function ListOne<T>(l: Listed<T>, f: WireField, read: WireField -> Reading<T>, kind: Kind, first: nat)
    : (r: Option<Listed<T>>)
  {
    match read(f)
    case Other => Some(Listed(l.items, l.unknown + [Unknown(Wrapper(kind), [], f)]))
    case Failed => None
    case Read(items, unknown) =>
      Some(Listed(l.items + items, l.unknown + Found(unknown, PathOf(kind, first + |l.items|))))
  }

  /** The items of a wrapper message's fields, numbered on from `first`. */
  function ListFields<T>(fs: seq<WireField>, read: WireField -> Reading<T>, kind: Kind, first: nat): (r: Option<Listed<T>>)
    decreases |fs|
  {
    if fs == [] then Some(Listed([], []))
    else
      match ListFields(fs[..|fs| - 1], read, kind, first)
      case None => None
      case Some(l) => ListOne(l, fs[|fs| - 1], read, kind, first)
  }

  function Repeated<T>(b: seq<byte>, read: WireField -> Reading<T>, kind: Kind, first: nat): (r: Option<Listed<T>>) {
    match Fields(b)
    case None => None
    case Some(fs) => ListFields(fs, read, kind, first)
  }

  /** A wrapper's items behind others'. */
  function Joined<T>(a: Option<Listed<T>>, b: Option<Listed<T>>): Option<Listed<T>> {
    if a == None || b == None then None
    else Some(Listed(a.value.items + b.value.items, a.value.unknown + b.value.unknown))
  }

  // Numbering.

  /** The same unknown field once `apns` and `vendors` items come before its list's. */
  function Renumbered(u: Unknown, apns: nat, vendors: nat): Unknown {
    match u.path
    case Item(Apns, i) => u.(path := Item(Apns, i + apns))
    case Item(Vendors, i) => u.(path := Item(Vendors, i + vendors))
    case _ => u
  }

  function Shifted(us: seq<Unknown>, apns: nat, vendors: nat): (r: seq<Unknown>)
    ensures |r| == |us|
  {
    seq(|us|, i requires 0 <= i < |us| => Renumbered(us[i], apns, vendors))
  }

  lemma ShiftedBoth(a: seq<Unknown>, b: seq<Unknown>, apns: nat, vendors: nat)
    ensures Shifted(a + b, apns, vendors) == Shifted(a, apns, vendors) + Shifted(b, apns, vendors)
  {
  }

  /** How far a list's numbers move. */
  function Ahead(kind: Kind, apns: nat, vendors: nat): nat {
    match kind
    case Apns => apns
    case Configs => 0
    case Vendors => vendors
  }

  function ShiftedList<T>(l: Option<Listed<T>>, apns: nat, vendors: nat): Option<Listed<T>> {
    match l
    case None => None
    case Some(l) => Some(Listed(l.items, Shifted(l.unknown, apns, vendors)))
  }

  /** Counting a list's items from `more` further on only renumbers its unknown fields; config entries are not numbered. */
  lemma {:induction false} ListMoved<T>(fs: seq<WireField>, read: WireField -> Reading<T>, kind: Kind, first: nat, more: nat,
                                        apns: nat, vendors: nat)
    requires kind != Configs ==> more == Ahead(kind, apns, vendors)
    ensures ListFields(fs, read, kind, first + more) == ShiftedList(ListFields(fs, read, kind, first), apns, vendors)
    decreases |fs|
  {
    if fs == [] {
    } else {
      ListMoved(fs[..|fs| - 1], read, kind, first, more, apns, vendors);
      var before := ListFields(fs[..|fs| - 1], read, kind, first);
      if before.Some? {
        OneMoved(before.value, fs[|fs| - 1], read, kind, first, more, apns, vendors);
      }
    }
  }

  lemma OneMoved<T>(l: Listed<T>, f: WireField, read: WireField -> Reading<T>, kind: Kind, first: nat, more: nat,
                    apns: nat, vendors: nat)
    requires kind != Configs ==> more == Ahead(kind, apns, vendors)
    ensures ListOne(Listed(l.items, Shifted(l.unknown, apns, vendors)), f, read, kind, first + more)
      == ShiftedList(ListOne(l, f, read, kind, first), apns, vendors)
  {
    match read(f)
    case Failed =>
    case Other =>
      var u := [Unknown(Wrapper(kind), [], f)];
      ShiftedBoth(l.unknown, u, apns, vendors);
      assert Shifted(u, apns, vendors) == u;
    case Read(_, unknown) =>
      var path, moved := PathOf(kind, first + |l.items|), PathOf(kind, first + more + |l.items|);
      ShiftedBoth(l.unknown, Found(unknown, path), apns, vendors);
      assert Shifted(Found(unknown, path), apns, vendors) == Found(unknown, moved);
  }

  /** A wrapper seen twice is its fields one after the other, numbered on. */
  lemma {:induction false} ListBoth<T>(a: seq<WireField>, b: seq<WireField>, read: WireField -> Reading<T>, kind: Kind,
                                       first: nat)
    ensures ListFields(a, read, kind, first) == None ==> ListFields(a + b, read, kind, first) == None
    ensures ListFields(a, read, kind, first).Some? ==>
      var la := ListFields(a, read, kind, first);
      ListFields(a + b, read, kind, first) == Joined(la, ListFields(b, read, kind, first + |la.value.items|))
    decreases |b|
  {
    if b == [] {
      assert a + b == a;
      NothingJoined(ListFields(a, read, kind, first));
    } else {
      var init, last := b[..|b| - 1], b[|b| - 1];
      assert (a + b)[..|a + b| - 1] == a + init;
      ListBoth(a, init, read, kind, first);
      var la := ListFields(a, read, kind, first);
      if la.Some? && ListFields(init, read, kind, first + |la.value.items|).Some? {
        OneJoined(la.value, ListFields(init, read, kind, first + |la.value.items|).value, last, read, kind, first);
      }
    }
  }

  lemma NothingJoined<T>(l: Option<Listed<T>>)
    ensures Joined(l, Some(Listed([], []))) == l
  {
    assert l.Some? ==> l.value.items + [] == l.value.items && l.value.unknown + [] == l.value.unknown;
  }

  lemma OneJoined<T>(a: Listed<T>, b: Listed<T>, f: WireField, read: WireField -> Reading<T>, kind: Kind, first: nat)
    ensures ListOne(Joined(Some(a), Some(b)).value, f, read, kind, first)
      == Joined(Some(a), ListOne(b, f, read, kind, first + |a.items|))
  {
    match read(f)
    case Failed =>
    case Other =>
      var u := [Unknown(Wrapper(kind), [], f)];
      assert a.unknown + b.unknown + u == a.unknown + (b.unknown + u);
    case Read(items, unknown) =>
      var u := Found(unknown, PathOf(kind, first + |a.items| + |b.items|));
      assert a.unknown + b.unknown + u == a.unknown + (b.unknown + u);
      assert a.items + b.items + items == a.items + (b.items + items);
  }

  // A file.

  datatype State<A, C, V> = State(canonicalName: Option<string>, version: Option<string>, lastUpdated: Option<string>,
                                  apns: seq<A>, configs: seq<(string, C)>, vendors: seq<V>, unknown: seq<Unknown>)

  function Empty<A, C, V>(): State<A, C, V> {
    State(None, None, None, [], [], [], [])
  }

  /** A list, and the unknown fields so far, behind a further wrapper of it. */
  function More<T>(items: seq<T>, unknown: seq<Unknown>, b: seq<byte>, read: WireField -> Reading<T>, kind: Kind)
    : (r: Option<Listed<T>>)
  {
    Joined(Some(Listed(items, unknown)), Repeated(b, read, kind, |items|))
  }

  /** One more field of a file. */
  function Step<A, C, V>(d: Items<A, C, V>, s: State<A, C, V>, f: WireField): (r: Option<State<A, C, V>>) {
    match (f.field, f.value)
    case (1, Bytes(b)) =>
      var t := d.text(b);
      if t == None then None else Some(s.(canonicalName := t))
    case (2, Varint(n)) => Some(s.(version := Some(d.int64(n))))
    case (3, Bytes(b)) =>
      (match More(s.apns, s.unknown, b, ApnItems(d), Apns)
       case None => None
       case Some(l) => Some(s.(apns := l.items, unknown := l.unknown)))
    case (4, Bytes(b)) =>
      (match More(s.configs, s.unknown, b, ConfigItems(d), Configs)
       case None => None
       case Some(l) => Some(s.(configs := l.items, unknown := l.unknown)))
    case (6, Bytes(b)) =>
      (match More(s.vendors, s.unknown, b, VendorItems(d), Vendors)
       case None => None
       case Some(l) => Some(s.(vendors := l.items, unknown := l.unknown)))
    case (8, Bytes(b)) =>
      var t := d.timestamp(b);
      if t == None then None else Some(s.(lastUpdated := t))
    case _ => Some(s.(unknown := s.unknown + [Unknown(File, [], f)]))
  }

  function Run<A, C, V>(d: Items<A, C, V>, fs: seq<WireField>): (r: Option<State<A, C, V>>)
    decreases |fs|
  {
    if fs == [] then Some(Empty())
    else
      match Run(d, fs[..|fs| - 1])
      case None => None
      case Some(s) => Step(d, s, fs[|fs| - 1])
  }

  /** What two messages one behind the other say: the second's scalars win, its lists are added and numbered on. */
  function Merged<A, C, V>(a: State<A, C, V>, b: State<A, C, V>): State<A, C, V> {
    State(Later(a.canonicalName, b.canonicalName), Later(a.version, b.version), Later(a.lastUpdated, b.lastUpdated),
          a.apns + b.apns, a.configs + b.configs, a.vendors + b.vendors,
          a.unknown + Shifted(b.unknown, |a.apns|, |a.vendors|))
  }

  function Later(a: Option<string>, b: Option<string>): Option<string> {
    if b.Some? then b else a
  }

  function MergedWith<A, C, V>(a: State<A, C, V>, b: Option<State<A, C, V>>): Option<State<A, C, V>> {
    match b
    case None => None
    case Some(b) => Some(Merged(a, b))
  }

  lemma RepeatedMoved<T>(b: seq<byte>, read: WireField -> Reading<T>, kind: Kind, first: nat, more: nat,
                         apns: nat, vendors: nat)
    requires kind != Configs ==> more == Ahead(kind, apns, vendors)
    ensures Repeated(b, read, kind, first + more) == ShiftedList(Repeated(b, read, kind, first), apns, vendors)
  {
    if Fields(b).Some? {
      ListMoved(Fields(b).value, read, kind, first, more, apns, vendors);
    }
  }

  lemma UnknownMerged(a: seq<Unknown>, b: seq<Unknown>, u: seq<Unknown>, apns: nat, vendors: nat)
    ensures a + Shifted(b, apns, vendors) + Shifted(u, apns, vendors) == a + Shifted(b + u, apns, vendors)
  {
    ShiftedBoth(b, u, apns, vendors);
    assert a + Shifted(b, apns, vendors) + Shifted(u, apns, vendors)
      == a + (Shifted(b, apns, vendors) + Shifted(u, apns, vendors));
  }

  /** A further wrapper of a merged list is one of the later list. */
  lemma MoreMerged<T>(a: seq<T>, before: seq<Unknown>, b: seq<T>, unknown: seq<Unknown>, bytes: seq<byte>,
                      read: WireField -> Reading<T>, kind: Kind, apns: nat, vendors: nat)
    requires kind != Configs ==> |a| == Ahead(kind, apns, vendors)
    ensures More(a + b, before + Shifted(unknown, apns, vendors), bytes, read, kind)
      == match More(b, unknown, bytes, read, kind)
         case None => None
         case Some(l) => Some(Listed(a + l.items, before + Shifted(l.unknown, apns, vendors)))
  {
    hide Repeated, Shifted, Ahead;
    RepeatedMoved(bytes, read, kind, |b|, |a|, apns, vendors);
    var l := Repeated(bytes, read, kind, |b|);
    if l.Some? {
      UnknownMerged(before, unknown, l.value.unknown, apns, vendors);
      assert a + b + l.value.items == a + (b + l.value.items);
    }
  }

  /** A field does to a merged state what it does to the later one. */
  lemma StepMerged<A, C, V>(d: Items<A, C, V>, a: State<A, C, V>, b: State<A, C, V>, f: WireField)
    ensures Step(d, Merged(a, b), f) == MergedWith(a, Step(d, b, f))
  {
    hide More, Shifted, ApnItems, ConfigItems, VendorItems;
    var na, nv := |a.apns|, |a.vendors|;
    match (f.field, f.value)
    case (3, Bytes(bytes)) =>
      MoreMerged(a.apns, a.unknown, b.apns, b.unknown, bytes, ApnItems(d), Apns, na, nv);
    case (4, Bytes(bytes)) =>
      MoreMerged(a.configs, a.unknown, b.configs, b.unknown, bytes, ConfigItems(d), Configs, na, nv);
    case (6, Bytes(bytes)) =>
      MoreMerged(a.vendors, a.unknown, b.vendors, b.unknown, bytes, VendorItems(d), Vendors, na, nv);
    case (1, Bytes(_)) =>
    case (2, Varint(_)) =>
    case (8, Bytes(_)) =>
    case _ =>
      var u := [Unknown(File, [], f)];
      ShiftedFile(f, na, nv);
      UnknownMerged(a.unknown, b.unknown, u, na, nv);
  }

  lemma ShiftedFile(f: WireField, apns: nat, vendors: nat)
    ensures Shifted([Unknown(File, [], f)], apns, vendors) == [Unknown(File, [], f)]
  {
  }

  lemma {:induction false} RunMerged<A, C, V>(d: Items<A, C, V>, a: seq<WireField>, b: seq<WireField>)
    ensures Run(d, a) == None ==> Run(d, a + b) == None
    ensures Run(d, a).Some? ==> Run(d, a + b) == MergedWith(Run(d, a).value, Run(d, b))
    decreases |b|
  {
    hide Step, Merged;
    if b == [] {
      assert a + b == a;
      if Run(d, a).Some? {
        MergedEmpty(Run(d, a).value);
      }
    } else {
      var init, last := b[..|b| - 1], b[|b| - 1];
      assert (a + b)[..|a + b| - 1] == a + init;
      RunMerged(d, a, init);
      if Run(d, a).Some? && Run(d, init).Some? {
        StepMerged(d, Run(d, a).value, Run(d, init).value, last);
      }
    }
  }

  lemma MergedEmpty<A, C, V>(a: State<A, C, V>)
    ensures Merged(a, Empty()) == a
  {
    var e: State<A, C, V> := Empty();
    assert Shifted(e.unknown, |a.apns|, |a.vendors|) == [];
    assert a.apns + [] == a.apns && a.configs + [] == a.configs && a.vendors + [] == a.vendors
      && a.unknown + [] == a.unknown;
  }

  /** What a decoder gives its caller. */
  datatype Settings<A, C, V> = Settings(canonicalName: string, version: Option<string>, lastUpdated: Option<string>,
                                        apns: seq<A>, configs: map<string, C>, vendors: seq<V>, unknown: seq<Unknown>)

  lemma {:induction false} EntriesBoth<C>(a: seq<(string, C)>, b: seq<(string, C)>)
    ensures Latest(a + b) == Latest(a) + Latest(b)
  {
    if b == [] {
      assert a + b == a;
    } else {
      assert (a + b)[..|a + b| - 1] == a + b[..|b| - 1];
      EntriesBoth(a, b[..|b| - 1]);
    }
  }

  /** A file without a name, or with an empty one, is an error. */
  function Finished<A, C, V>(s: State<A, C, V>): Option<Settings<A, C, V>> {
    if s.canonicalName == None || s.canonicalName.value == "" then None
    else Some(Settings(s.canonicalName.value, s.version, s.lastUpdated, s.apns, Latest(s.configs), s.vendors, s.unknown))
  }

  function Decoded<A, C, V>(d: Items<A, C, V>, bytes: seq<byte>): (r: Option<Settings<A, C, V>>) {
    match Fields(bytes)
    case None => None
    case Some(fs) =>
      match Run(d, fs)
      case None => None
      case Some(s) => Finished(s)
  }

  /** Decoding two messages that decode, one behind the other, merges what they say. */
  lemma DecodedBoth<A, C, V>(d: Items<A, C, V>, a: seq<byte>, b: seq<byte>)
    requires Decoded(d, a).Some? && Decoded(d, b).Some?
    ensures var sa, sb := Decoded(d, a).value, Decoded(d, b).value;
      Decoded(d, a + b) == Some(Settings(
        sb.canonicalName, Later(sa.version, sb.version), Later(sa.lastUpdated, sb.lastUpdated),
        sa.apns + sb.apns, sa.configs + sb.configs, sa.vendors + sb.vendors,
        sa.unknown + Shifted(sb.unknown, |sa.apns|, |sa.vendors|)))
  {
    hide Fields, Run;
    var fa, fb := Fields(a).value, Fields(b).value;
    FieldsOfBoth(a, b);
    RunMerged(d, fa, fb);
    EntriesBoth(Run(d, fa).value.configs, Run(d, fb).value.configs);
  }

  // A wrapper seen twice.

  predicate IsWrapper(field: nat) {
    field == 3 || field == 4 || field == 6
  }

  function StepMore<A, C, V>(d: Items<A, C, V>, s: Option<State<A, C, V>>, f: WireField): Option<State<A, C, V>> {
    match s
    case None => None
    case Some(s) => Step(d, s, f)
  }

  lemma RepeatedBoth<T>(x: seq<byte>, y: seq<byte>, read: WireField -> Reading<T>, kind: Kind, first: nat)
    requires Fields(x).Some?
    ensures var lx := Repeated(x, read, kind, first);
      Repeated(x + y, read, kind, first)
      == if lx == None then None else Joined(lx, Repeated(y, read, kind, first + |lx.value.items|))
  {
    hide Fields;
    FieldsOfBoth(x, y);
    if Fields(y).Some? {
      ListBoth(Fields(x).value, Fields(y).value, read, kind, first);
    }
  }

  /** A list behind a wrapper of two payloads is the one behind a wrapper of each. */
  lemma MoreSplit<T>(items: seq<T>, unknown: seq<Unknown>, x: seq<byte>, y: seq<byte>, read: WireField -> Reading<T>,
                     kind: Kind)
    requires Fields(x).Some?
    ensures More(items, unknown, x + y, read, kind)
      == match More(items, unknown, x, read, kind)
         case None => None
         case Some(l) => More(l.items, l.unknown, y, read, kind)
  {
    hide Repeated, Fields;
    RepeatedBoth(x, y, read, kind, |items|);
    var a := Repeated(x, read, kind, |items|);
    if a.Some? {
      var b := Repeated(y, read, kind, |items| + |a.value.items|);
      if b.Some? {
        Associate(items, a.value.items, b.value.items);
        Associate(unknown, a.value.unknown, b.value.unknown);
      }
    }
  }

  /** One wrapper of two payloads does what a wrapper of each does. */
  lemma StepSplit<A, C, V>(d: Items<A, C, V>, s: State<A, C, V>, field: nat, x: seq<byte>, y: seq<byte>)
    requires IsWrapper(field) && Fields(x).Some?
    ensures Step(d, s, WireField(field, Bytes(x + y)))
      == StepMore(d, Step(d, s, WireField(field, Bytes(x))), WireField(field, Bytes(y)))
  {
    hide More, Fields, ApnItems, ConfigItems, VendorItems;
    if field == 3 {
      MoreSplit(s.apns, s.unknown, x, y, ApnItems(d), Apns);
    } else if field == 4 {
      MoreSplit(s.configs, s.unknown, x, y, ConfigItems(d), Configs);
    } else {
      MoreSplit(s.vendors, s.unknown, x, y, VendorItems(d), Vendors);
    }
  }

  lemma {:induction false} RunOn<A, C, V>(d: Items<A, C, V>, a: seq<WireField>, b: seq<WireField>, more: seq<WireField>)
    requires Run(d, a) == Run(d, b)
    ensures Run(d, a + more) == Run(d, b + more)
    decreases |more|
  {
    hide Step;
    if more == [] {
      assert a + more == a && b + more == b;
    } else {
      var init := more[..|more| - 1];
      assert (a + more)[..|a + more| - 1] == a + init && (b + more)[..|b + more| - 1] == b + init;
      RunOn(d, a, b, init);
    }
  }

  lemma RunMore<A, C, V>(d: Items<A, C, V>, fs: seq<WireField>, f: WireField)
    ensures Run(d, fs + [f]) == StepMore(d, Run(d, fs), f)
  {
    hide Step;
    assert (fs + [f])[..|fs|] == fs;
  }

  lemma RunSplit<A, C, V>(d: Items<A, C, V>, fs: seq<WireField>, field: nat, x: seq<byte>, y: seq<byte>)
    requires IsWrapper(field) && Fields(x).Some?
    ensures var fx, fy := WireField(field, Bytes(x)), WireField(field, Bytes(y));
      Run(d, fs + [WireField(field, Bytes(x + y))]) == Run(d, fs + [fx, fy])
  {
    hide Run, Step, Fields;
    var fx, fy := WireField(field, Bytes(x)), WireField(field, Bytes(y));
    RunMore(d, fs, WireField(field, Bytes(x + y)));
    RunMore(d, fs, fx);
    RunMore(d, fs + [fx], fy);
    assert fs + [fx] + [fy] == fs + [fx, fy];
    if Run(d, fs).Some? {
      StepSplit(d, Run(d, fs).value, field, x, y);
    }
  }

  /** A message with an embedded message in two parts decodes as the one with both in one. */
  lemma SplitMerges<A, C, V>(d: Items<A, C, V>, before: seq<byte>, field: nat, x: seq<byte>, y: seq<byte>, after: seq<byte>)
    requires IsWrapper(field) && Fields(before).Some? && Fields(x).Some? && |x + y| <= MAX_SAFE
    ensures var once := EncodeField(WireField(field, Bytes(x + y)));
      var twice := EncodeField(WireField(field, Bytes(x))) + EncodeField(WireField(field, Bytes(y)));
      Decoded(d, before + (once + after)) == Decoded(d, before + (twice + after))
  {
    hide Fields, Run, Step, EncodeField, Finished;
    var fx, fy, both := WireField(field, Bytes(x)), WireField(field, Bytes(y)), WireField(field, Bytes(x + y));
    var fs := Fields(before).value;
    FieldsOfBoth(before, EncodeField(both) + after);
    FieldBefore(both, after);
    FieldsOfBoth(before, EncodeField(fx) + EncodeField(fy) + after);
    assert EncodeField(fx) + EncodeField(fy) + after == EncodeField(fx) + (EncodeField(fy) + after);
    FieldBefore(fx, EncodeField(fy) + after);
    FieldBefore(fy, after);
    if Fields(after).Some? {
      var rest := Fields(after).value;
      RunSplit(d, fs, field, x, y);
      RunOn(d, fs + [both], fs + [fx, fy], rest);
      assert fs + [both] + rest == fs + ([both] + rest) && fs + [fx, fy] + rest == fs + ([fx] + ([fy] + rest));
    }
  }

  lemma FieldBefore(f: WireField, after: seq<byte>)
    requires FieldOk(f)
    ensures Fields(EncodeField(f) + after) == Before([f], Fields(after))
  {
    hide ReadField, EncodeField;
    FieldReadBack(f, after);
    assert (EncodeField(f) + after)[|EncodeField(f)|..] == after;
  }

  // The code.

  method RepeatedItems<T>(bytes: seq<byte>, read: WireField -> Reading<T>, kind: Kind, first: nat)
    returns (r: Option<Listed<T>>)
    ensures r == Repeated(bytes, read, kind, first)
  {
    hide Fields, ListOne;
    var fs := WireFields(bytes);
    if fs == None {
      return None;
    }
    r := Some(Listed([], []));
    for i := 0 to |fs.value|
      invariant r == ListFields(fs.value[..i], read, kind, first)
    {
      assert fs.value[..i + 1][..i] == fs.value[..i];
      if r.Some? {
        r := ListOne(r.value, fs.value[i], read, kind, first);
      }
    }
    assert fs.value[..|fs.value|] == fs.value;
  }

  method Decode<A, C, V>(d: Items<A, C, V>, bytes: seq<byte>) returns (r: Option<Settings<A, C, V>>)
    ensures r == Decoded(d, bytes)
  {
    hide Fields, Repeated, ApnItems, ConfigItems, VendorItems, Finished;
    var read := WireFields(bytes);
    if read == None {
      return None;
    }
    var fs := read.value;
    var s: State<A, C, V> := Empty();
    for i := 0 to |fs|
      invariant Run(d, fs[..i]) == Some(s)
    {
      assert fs[..i + 1][..i] == fs[..i];
      var next := StepField(d, s, fs[i]);
      if next == None {
        RunStops(d, fs, i + 1);
        return None;
      }
      s := next.value;
    }
    assert fs[..|fs|] == fs;
    return Finished(s);
  }

  lemma {:induction false} RunStops<A, C, V>(d: Items<A, C, V>, fs: seq<WireField>, n: nat)
    requires n <= |fs| && Run(d, fs[..n]) == None
    ensures Run(d, fs) == None
    decreases |fs| - n
  {
    if n < |fs| {
      assert fs[..n + 1][..n] == fs[..n];
      RunStops(d, fs, n + 1);
    } else {
      assert fs[..n] == fs;
    }
  }

  method StepField<A, C, V>(d: Items<A, C, V>, s: State<A, C, V>, f: WireField) returns (r: Option<State<A, C, V>>)
    ensures r == Step(d, s, f)
  {
    hide Repeated, ApnItems, ConfigItems, VendorItems;
    match (f.field, f.value)
    case (1, Bytes(b)) =>
      var t := d.text(b);
      return if t == None then None else Some(s.(canonicalName := t));
    case (2, Varint(n)) =>
      return Some(s.(version := Some(d.int64(n))));
    case (3, Bytes(b)) =>
      var l := RepeatedItems(b, ApnItems(d), Apns, |s.apns|);
      return if l == None then None
        else Some(s.(apns := s.apns + l.value.items, unknown := s.unknown + l.value.unknown));
    case (4, Bytes(b)) =>
      var l := RepeatedItems(b, ConfigItems(d), Configs, |s.configs|);
      return if l == None then None
        else Some(s.(configs := s.configs + l.value.items, unknown := s.unknown + l.value.unknown));
    case (6, Bytes(b)) =>
      var l := RepeatedItems(b, VendorItems(d), Vendors, |s.vendors|);
      return if l == None then None
        else Some(s.(vendors := s.vendors + l.value.items, unknown := s.unknown + l.value.unknown));
    case (8, Bytes(b)) =>
      var t := d.timestamp(b);
      return if t == None then None else Some(s.(lastUpdated := t));
    case _ =>
      return Some(s.(unknown := s.unknown + [Unknown(File, [], f)]));
  }
}
