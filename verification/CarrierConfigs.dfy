/**
 * The configuration entries of a CarrierSettings message (packages/decode-android/src/carrier-settings.ts): keys and
 * values by their bytes, bundles nested in values. How a value other than a bundle decodes is left to `Values`.
 */
module CarrierConfigs {
  import opened Bits
  import opened CarrierSettings
  import opened Options
  import opened Protobuf
  import opened Sequences

  datatype ConfigValue<S> = Scalar(s: S) | Bundle(entries: map<string, ConfigValue<S>>)

  /** How text and values other than bundles decode. None is an error. */
  datatype Values<!S> = Values(text: seq<byte> -> Option<string>, scalar: WireField -> Option<(S, seq<Inner>)>)

  type Entries<S> = (seq<(string, ConfigValue<S>)>, seq<Inner>)

  predicate IsKey(f: WireField) {
    f.field == 1 && f.value.Bytes?
  }

  predicate IsBundle(f: WireField) {
    f.field == 8 && f.value.Bytes?
  }

  predicate IsValue(f: WireField) {
    match f.value
    case Bytes(_) => f.field == 2 || f.field == 6 || f.field == 7 || f.field == 8
    case Varint(_) => f.field == 3 || f.field == 4 || f.field == 5
    case Fixed64(_) => f.field == 9
    case _ => false
  }

  predicate IsUnnamed(f: WireField) {
    !IsKey(f) && !IsValue(f)
  }

  /** Keys and texts are decoded as they are met, other values once the key is known. */
  predicate Legible<S>(d: Values<S>, f: WireField) {
    f.value.Bytes? && (f.field == 1 || f.field == 2) ==> d.text(f.value.bytes).Some?
  }

  /** What a configuration's fields say so far: the last key, the last value, and the fields that are neither. */
  datatype Config = Config(key: Option<string>, pending: Option<WireField>, unnamed: seq<WireField>)

  function GatherOne<S>(d: Values<S>, c: Config, f: WireField): (r: Option<Config>)
    ensures r == None <==> !Legible(d, f)
  {
    if !Legible(d, f) then None
    else if IsKey(f) then Some(c.(key := d.text(f.value.bytes)))
    else if IsValue(f) then Some(c.(pending := Some(f)))
    else Some(c.(unnamed := c.unnamed + [f]))
  }

  function Gathered<S>(d: Values<S>, fs: seq<WireField>): (r: Option<Config>)
    ensures r.Some? && r.value.pending.Some? ==> r.value.pending.value in fs && IsValue(r.value.pending.value)
    decreases |fs|
  {
    if fs == [] then Some(Config(None, None, []))
    else
      match Gathered(d, fs[..|fs| - 1])
      case None => None
      case Some(c) => GatherOne(d, c, fs[|fs| - 1])
  }

  function Size(f: WireField): nat {
    if f.value.Bytes? then |f.value.bytes| else 0
  }

  ghost predicate Short(fs: seq<WireField>, size: nat) {
    forall f :: f in fs ==> Size(f) < size
  }

  /** A message's fields are shorter than it. */
  lemma {:induction false} FieldsShorter(w: seq<byte>)
    requires Fields(w).Some?
    ensures Short(Fields(w).value, |w|)
    decreases |w|
  {
    hide ReadField;
    if w == [] {
    } else {
      var s := ReadField(w).value;
      FieldShorter(w);
      FieldsShorter(w[s.size..]);
    }
  }

  lemma FieldShorter(w: seq<byte>)
    requires ReadField(w).Some?
    ensures Size(ReadField(w).value.f) < |w|
  {
    hide Varint.Read;
  }

  /** Unknown fields below a key. */
  function Below(key: string, unknown: seq<Inner>): (r: seq<Inner>)
    ensures |r| == |unknown|
  {
    seq(|unknown|, i requires 0 <= i < |unknown| => Inner([key] + unknown[i].below, unknown[i].f))
  }

  function Bare(fs: seq<WireField>): (r: seq<Inner>)
    ensures |r| == |fs|
  {
    seq(|fs|, i requires 0 <= i < |fs| => Inner([], fs[i]))
  }

  /** A configuration, an entry; without a key or a value it is kept whole as unknown. None is an error. */
  function DecodeConfig<S>(d: Values<S>, bytes: seq<byte>): (r: Option<Entries<S>>)
    decreases |bytes|, 0, 0
  {
    match Fields(bytes)
    case None => None
    case Some(fs) =>
      match Gathered(d, fs)
      case None => None
      case Some(c) =>
        if c.key == None || c.pending == None then Some(([], [Inner([], WireField(2, Bytes(bytes)))]))
        else
          FieldsShorter(bytes);
          match Resolved(d, c.pending.value)
          case None => None
          case Some((v, unknown)) => Some(([(c.key.value, v)], Below(c.key.value, Bare(c.unnamed) + unknown)))
  }

  function Resolved<S>(d: Values<S>, f: WireField): (r: Option<(ConfigValue<S>, seq<Inner>)>)
    decreases Size(f), 2, 0
  {
    if IsBundle(f) then
      match EntriesIn(d, f.value.bytes)
      case None => None
      case Some((entries, unknown)) => Some((Bundle(Latest(entries)), unknown))
    else
      match d.scalar(f)
      case None => None
      case Some((s, unknown)) => Some((Scalar(s), unknown))
  }

  function EntriesIn<S>(d: Values<S>, bytes: seq<byte>): (r: Option<Entries<S>>)
    decreases |bytes|, 1, 0
  {
    match Fields(bytes)
    case None => None
    case Some(fs) =>
      FieldsShorter(bytes);
      EntriesOf(d, fs, |bytes|)
  }

  /** The entries of fields below a size. */
  function EntriesOf<S>(d: Values<S>, fs: seq<WireField>, ghost size: nat): (r: Option<Entries<S>>)
    requires Short(fs, size)
    decreases size, 0, |fs|
  {
    if fs == [] then Some(([], []))
    else
      match EntriesOf(d, fs[..|fs| - 1], size)
      case None => None
      case Some(es) => AddEntry(d, es, fs[|fs| - 1])
  }

  function AddEntry<S>(d: Values<S>, es: Entries<S>, f: WireField): (r: Option<Entries<S>>)
    decreases Size(f), 1, 0
  {
    if f.field != 2 || !f.value.Bytes? then Some((es.0, es.1 + [Inner([], f)]))
    else
      match DecodeConfig(d, f.value.bytes)
      case None => None
      case Some((more, inner)) => Some((es.0 + more, es.1 + inner))
  }

  // The order of a configuration's fields.

  lemma {:induction false} GatheredLegible<S>(d: Values<S>, fs: seq<WireField>)
    ensures Gathered(d, fs) == None <==> exists f :: f in fs && !Legible(d, f)
    decreases |fs|
  {
    hide Legible;
    if fs == [] {
    } else {
      var init, last := fs[..|fs| - 1], fs[|fs| - 1];
      assert fs == init + [last];
      GatheredLegible(d, init);
      assert forall f :: f in fs <==> f in init || f == last;
    }
  }

  /** A configuration's keys, its values and its other fields count each on their own. */
  lemma {:induction false} GatheredApart<S>(d: Values<S>, fs: seq<WireField>)
    requires Gathered(d, fs).Some?
    ensures var keys, values := Gathered(d, Filter(fs, IsKey)), Gathered(d, Filter(fs, IsValue));
      && keys.Some? && values.Some?
      && Gathered(d, fs) == Some(Config(keys.value.key, values.value.pending, Filter(fs, IsUnnamed)))
    decreases |fs|
  {
    hide Legible;
    if fs == [] {
    } else {
      var init, last := fs[..|fs| - 1], fs[|fs| - 1];
      assert fs == init + [last];
      GatheredApart(d, init);
      FilterMore(init, last, IsKey);
      FilterMore(init, last, IsValue);
      FilterMore(init, last, IsUnnamed);
      GatheredMore(d, Filter(init, IsKey), last);
      GatheredMore(d, Filter(init, IsValue), last);
    }
  }

  lemma GatheredMore<S>(d: Values<S>, fs: seq<WireField>, f: WireField)
    ensures Gathered(d, fs + [f])
      == match Gathered(d, fs)
         case None => None
         case Some(c) => GatherOne(d, c, f)
  {
    assert (fs + [f])[..|fs|] == fs;
  }

  /** A key may come last: however keys, values and other fields are interleaved, the configuration is the same. */
  lemma OrderBetweenKinds<S>(d: Values<S>, fs: seq<WireField>, gs: seq<WireField>)
    requires Filter(fs, IsKey) == Filter(gs, IsKey) && Filter(fs, IsValue) == Filter(gs, IsValue)
    requires Filter(fs, IsUnnamed) == Filter(gs, IsUnnamed)
    ensures Gathered(d, fs) == Gathered(d, gs)
  {
    hide Gathered, Legible;
    SameFields(fs, gs);
    GatheredLegible(d, fs);
    GatheredLegible(d, gs);
    if Gathered(d, fs).Some? {
      GatheredApart(d, fs);
      GatheredApart(d, gs);
    }
  }

  lemma SameFields(fs: seq<WireField>, gs: seq<WireField>)
    requires Filter(fs, IsKey) == Filter(gs, IsKey) && Filter(fs, IsValue) == Filter(gs, IsValue)
    requires Filter(fs, IsUnnamed) == Filter(gs, IsUnnamed)
    ensures forall f :: f in fs <==> f in gs
  {
    forall f
      ensures f in fs <==> f in gs
    {
      assert f in fs <==> f in Filter(fs, IsKey) || f in Filter(fs, IsValue) || f in Filter(fs, IsUnnamed);
      assert f in gs <==> f in Filter(gs, IsKey) || f in Filter(gs, IsValue) || f in Filter(gs, IsUnnamed);
    }
  }

  // Entries in two parts.

  function Both<S>(a: Option<Entries<S>>, b: Option<Entries<S>>): Option<Entries<S>> {
    if a == None || b == None then None else Some((a.value.0 + b.value.0, a.value.1 + b.value.1))
  }

  lemma AddBoth<S>(d: Values<S>, a: Entries<S>, b: Entries<S>, f: WireField)
    ensures AddEntry(d, (a.0 + b.0, a.1 + b.1), f) == Both(Some(a), AddEntry(d, b, f))
  {
    hide DecodeConfig;
    var more, inner := AddEntry(d, ([], []), f), [Inner([], f)];
    Associate(a.1, b.1, inner);
    if f.field == 2 && f.value.Bytes? && DecodeConfig(d, f.value.bytes).Some? {
      Associate(a.0, b.0, DecodeConfig(d, f.value.bytes).value.0);
      Associate(a.1, b.1, DecodeConfig(d, f.value.bytes).value.1);
    }
  }

  lemma NothingAdded<S>(a: Option<Entries<S>>)
    ensures Both(a, Some(([], []))) == a && Both(Some(([], [])), a) == a
  {
    if a.Some? {
      assert a.value.0 + [] == a.value.0 == [] + a.value.0 && a.value.1 + [] == a.value.1 == [] + a.value.1;
    }
  }

  lemma {:induction false} SizeIrrelevant<S>(d: Values<S>, fs: seq<WireField>, m: nat, n: nat)
    requires Short(fs, m) && Short(fs, n)
    ensures EntriesOf(d, fs, m) == EntriesOf(d, fs, n)
    decreases |fs|
  {
    hide AddEntry;
    if fs == [] {
    } else {
      SizeIrrelevant(d, fs[..|fs| - 1], m, n);
    }
  }

  lemma {:induction false} EntriesOfBoth<S>(d: Values<S>, a: seq<WireField>, b: seq<WireField>, size: nat, m: nat, n: nat)
    requires Short(a, m) && Short(b, n) && Short(a + b, size)
    ensures EntriesOf(d, a + b, size) == Both(EntriesOf(d, a, m), EntriesOf(d, b, n))
    decreases |b|
  {
    hide AddEntry;
    if b == [] {
      assert a + b == a;
      SizeIrrelevant(d, a, size, m);
      NothingAdded(EntriesOf(d, a, m));
    } else {
      var init, last := b[..|b| - 1], b[|b| - 1];
      assert (a + b)[..|a + b| - 1] == a + init;
      EntriesOfBoth(d, a, init, size, m, n);
      if EntriesOf(d, a, m).Some? && EntriesOf(d, init, n).Some? {
        AddBoth(d, EntriesOf(d, a, m).value, EntriesOf(d, init, n).value, last);
      }
    }
  }

  /** Entries in two parts are the first part's and then the second's. */
  lemma EntriesInBoth<S>(d: Values<S>, x: seq<byte>, y: seq<byte>)
    requires Fields(x).Some?
    ensures EntriesIn(d, x + y) == Both(EntriesIn(d, x), EntriesIn(d, y))
  {
    hide EntriesOf, Fields, Short;
    FieldsOfBoth(x, y);
    FieldsShorter(x);
    if Fields(y).Some? {
      FieldsShorter(y);
      FieldsShorter(x + y);
      EntriesOfBoth(d, Fields(x).value, Fields(y).value, |x + y|, |x|, |y|);
    }
  }

  /** A bundle of two bundles' bytes holds both, a later value of a key winning. */
  lemma BundleOfBoth<S>(d: Values<S>, x: seq<byte>, y: seq<byte>)
    requires EntriesIn(d, x).Some? && EntriesIn(d, y).Some?
    ensures var (ex, ux) := EntriesIn(d, x).value;
      var (ey, uy) := EntriesIn(d, y).value;
      Resolved(d, WireField(8, Bytes(x + y))) == Some((Bundle(Latest(ex) + Latest(ey)), ux + uy))
  {
    hide EntriesIn, Latest;
    var (ex, ux) := EntriesIn(d, x).value;
    var (ey, uy) := EntriesIn(d, y).value;
    Decodes(d, x);
    EntriesInBoth(d, x, y);
    EntriesBoth(ex, ey);
  }

  lemma Decodes<S>(d: Values<S>, x: seq<byte>)
    requires EntriesIn(d, x).Some?
    ensures Fields(x).Some?
  {
  }

  /** A file's configurations are read as a bundle's entries are. */
  lemma {:induction false} ListedEntries<A, S, V>(d: Values<S>, items: Items<A, ConfigValue<S>, V>,
                                                       fs: seq<WireField>, size: nat)
    requires Short(fs, size) && forall b :: items.config(b) == DecodeConfig(d, b)
    ensures ListFields(fs, ConfigItems(items), Configs, 0)
      == match EntriesOf(d, fs, size)
         case None => None
         case Some((entries, unknown)) => Some(Listed(entries, Found(unknown, Wrapper(Configs))))
    decreases |fs|
  {
    hide DecodeConfig;
    if fs == [] {
    } else {
      var init, f := fs[..|fs| - 1], fs[|fs| - 1];
      ListedEntries(d, items, init, size);
      if EntriesOf(d, init, size).Some? {
        var (entries, unknown) := EntriesOf(d, init, size).value;
        FoundBoth(unknown, [Inner([], f)], Wrapper(Configs));
        if f.field == 2 && f.value.Bytes? && DecodeConfig(d, f.value.bytes).Some? {
          FoundBoth(unknown, DecodeConfig(d, f.value.bytes).value.1, Wrapper(Configs));
        }
      }
    }
  }

  lemma FoundBoth(a: seq<Inner>, b: seq<Inner>, path: Path)
    ensures Found(a + b, path) == Found(a, path) + Found(b, path)
    ensures |b| == 1 ==> Found(b, path) == [Unknown(path, b[0].below, b[0].f)]
  {
  }

  // Writing entries.

  /** A value as it is written: each kind has a field of its own. */
  datatype Tree =
    | TextValue(text: seq<byte>)
    | IntValue(n: nat)
    | LongValue(n: nat)
    | BoolValue(n: nat)
    | TextArray(items: seq<byte>)
    | IntArray(items: seq<byte>)
    | Nested(parts: seq<Part>)
    | DoubleValue(bytes: seq<byte>)

  /** An entry with its key, its value and fields of no meaning; one that lacks either; or such a field by itself. */
  datatype Part =
    | Keyed(key: seq<byte>, value: Tree, extra: seq<WireField>)
    | Incomplete(fs: seq<WireField>)
    | Loose(f: WireField)

  function ValueField(t: Tree): WireField
    decreases t, 1
  {
    match t
    case TextValue(text) => WireField(2, Bytes(text))
    case IntValue(n) => WireField(3, Varint(n))
    case LongValue(n) => WireField(4, Varint(n))
    case BoolValue(n) => WireField(5, Varint(n))
    case TextArray(items) => WireField(6, Bytes(items))
    case IntArray(items) => WireField(7, Bytes(items))
    case Nested(parts) => WireField(8, Bytes(Write(parts)))
    case DoubleValue(bytes) => WireField(9, Fixed64(bytes))
  }

  function PartField(e: Part): WireField
    decreases e, 2
  {
    match e
    case Keyed(key, value, extra) =>
      WireField(2, Bytes(EncodeFields([WireField(1, Bytes(key)), ValueField(value)] + extra)))
    case Incomplete(fs) => WireField(2, Bytes(EncodeFields(fs)))
    case Loose(f) => f
  }

  function Write(parts: seq<Part>): seq<byte>
    decreases parts, 0
  {
    if parts == [] then [] else Write(parts[..|parts| - 1]) + EncodeField(PartField(parts[|parts| - 1]))
  }

  predicate NamesKey(f: WireField) {
    f.field == 1 && f.value.Bytes?
  }

  /** A field that is neither a key nor a value of any kind. */
  predicate IsExtra(f: WireField) {
    match f.value
    case Varint(_) => f.field < 3 || f.field > 5
    case Fixed64(_) => f.field != 9
    case Bytes(_) => 3 <= f.field <= 5 || f.field > 8
    case Fixed32(_) => true
  }

  /** Keys and values decode, and fields are as they may be. */
  ghost predicate PartsOk<S>(d: Values<S>, parts: seq<Part>)
    decreases parts, 0
  {
    forall e :: e in parts ==> PartOk(d, e)
  }

  ghost predicate PartOk<S>(d: Values<S>, e: Part)
    decreases e, 2
  {
    && FieldOk(PartField(e))
    && match e
       case Keyed(key, value, extra) =>
         && d.text(key).Some? && FieldOk(WireField(1, Bytes(key))) && TreeOk(d, value)
         && forall i :: 0 <= i < |extra| ==> FieldOk(extra[i]) && IsExtra(extra[i])
       case Incomplete(fs) =>
         && (forall i :: 0 <= i < |fs| ==> FieldOk(fs[i]) && (NamesKey(fs[i]) ==> d.text(fs[i].value.bytes).Some?))
         && (forall i :: 0 <= i < |fs| ==> (fs[i].field == 2 && fs[i].value.Bytes? ==> d.text(fs[i].value.bytes).Some?))
         && ((forall i :: 0 <= i < |fs| ==> !NamesKey(fs[i])) || (forall i :: 0 <= i < |fs| ==> NamesKey(fs[i]) || IsExtra(fs[i])))
       case Loose(f) => !(f.field == 2 && f.value.Bytes?)
  }

  ghost predicate TreeOk<S>(d: Values<S>, t: Tree)
    decreases t, 1
  {
    && FieldOk(ValueField(t))
    && match t
       case Nested(parts) => PartsOk(d, parts)
       case TextValue(text) => d.text(text).Some? && d.scalar(ValueField(t)).Some?
       case _ => d.scalar(ValueField(t)).Some?
  }

  /** `v` is what a written value says. A bundle has each of its keys with the value of its last entry. */
  ghost predicate Says<S(!new)>(d: Values<S>, t: Tree, v: ConfigValue<S>)
    decreases t, 1
  {
    match t
    case Nested(parts) => v.Bundle? && exists pairs :: SayAll(d, parts, pairs) && LastWins(v.entries, pairs)
    case _ => d.scalar(ValueField(t)).Some? && v == Scalar(d.scalar(ValueField(t)).value.0)
  }

  /** `pairs` are the keys and values written, in order. */
  ghost predicate SayAll<S(!new)>(d: Values<S>, parts: seq<Part>, pairs: seq<(string, ConfigValue<S>)>)
    decreases parts, 0
  {
    if parts == [] then pairs == []
    else
      var init, e := parts[..|parts| - 1], parts[|parts| - 1];
      match e
      case Loose(_) => SayAll(d, init, pairs)
      case Incomplete(_) => SayAll(d, init, pairs)
      case Keyed(key, value, _) =>
        && pairs != [] && SayAll(d, init, pairs[..|pairs| - 1])
        && d.text(key) == Some(pairs[|pairs| - 1].0) && Says(d, value, pairs[|pairs| - 1].1)
  }

  /** The fields of no meaning written, under the keys they are in, and those of the values. */
  ghost function Extras<S>(d: Values<S>, t: Tree): seq<Inner>
    requires TreeOk(d, t)
    decreases t, 1
  {
    match t
    case Nested(parts) => AllExtras(d, parts)
    case _ => d.scalar(ValueField(t)).value.1
  }

  ghost function AllExtras<S>(d: Values<S>, parts: seq<Part>): seq<Inner>
    requires PartsOk(d, parts)
    decreases parts, 0
  {
    if parts == [] then []
    else
      var init, e := parts[..|parts| - 1], parts[|parts| - 1];
      assert PartOk(d, e);
      AllExtras(d, init)
      + match e
        case Loose(f) => [Inner([], f)]
        case Incomplete(_) => [Inner([], PartField(e))]
        case Keyed(key, value, extra) =>
          var k, inside := d.text(key).value, Extras(d, value);
          seq(|extra|, i requires 0 <= i < |extra| => Inner([k], extra[i]))
          + seq(|inside|, i requires 0 <= i < |inside| => Inner([k] + inside[i].below, inside[i].f))
  }

  lemma OneField(f: WireField)
    requires FieldOk(f)
    ensures EncodeFields([f]) == EncodeField(f) && Fields(EncodeField(f)) == Some([f])
  {
    hide EncodeField, ReadField, Fields;
    assert [f][1..] == [] && EncodeField(f) + [] == EncodeField(f);
    FieldsReadBack([f]);
  }

  /** Entries written, bundles within bundles among them, are read back, and every field of no meaning is found. */
  lemma {:induction false} EntriesReadBack<S(!new)>(d: Values<S>, parts: seq<Part>)
    requires PartsOk(d, parts)
    ensures EntriesIn(d, Write(parts)).Some?
    ensures var (entries, unknown) := EntriesIn(d, Write(parts)).value;
      SayAll(d, parts, entries) && unknown == AllExtras(d, parts)
    decreases parts, 0
  {
    hide EncodeField, DecodeConfig, EntriesIn, PartField, Says, Extras, PartOk;
    if parts == [] {
      Nothing(d);
    } else {
      var init, e := parts[..|parts| - 1], parts[|parts| - 1];
      assert PartOk(d, e);
      EntriesReadBack(d, init);
      PartReadBack(d, e);
      Decodes(d, Write(init));
      EntriesInBoth(d, Write(init), EncodeField(PartField(e)));
      var (entries, _) := EntriesIn(d, Write(init)).value;
      var (more, _) := EntriesIn(d, EncodeField(PartField(e))).value;
      var all := entries + more;
      if e.Keyed? {
        assert all[..|all| - 1] == entries && all[|all| - 1] == more[0];
      } else {
        assert all == entries;
      }
    }
  }

  lemma Nothing<S>(d: Values<S>)
    ensures EntriesIn(d, []) == Some(([], []))
  {
  }

  lemma AddedFirst<S>(d: Values<S>, f: WireField, size: nat)
    requires Short([f], size)
    ensures EntriesOf(d, [f], size) == AddEntry(d, ([], []), f)
  {
    hide AddEntry;
    assert [f][..0] == [];
    assert EntriesOf(d, [], size) == Some(([], []));
  }

  lemma OneEntry<S>(d: Values<S>, f: WireField)
    requires FieldOk(f)
    ensures EntriesIn(d, EncodeField(f))
      == if f.field == 2 && f.value.Bytes? then DecodeConfig(d, f.value.bytes) else Some(([], [Inner([], f)]))
  {
    hide DecodeConfig, EncodeField, ReadField;
    OneField(f);
    FieldsShorter(EncodeField(f));
    AddedFirst(d, f, |EncodeField(f)|);
    if f.field == 2 && f.value.Bytes? {
      NothingAdded(DecodeConfig(d, f.value.bytes));
    } else {
      assert [] + [Inner([], f)] == [Inner([], f)];
    }
  }

  /** One part, read back. */
  lemma {:induction false} PartReadBack<S(!new)>(d: Values<S>, e: Part)
    requires PartOk(d, e)
    ensures EntriesIn(d, EncodeField(PartField(e))).Some?
    ensures var (entries, unknown) := EntriesIn(d, EncodeField(PartField(e))).value;
      match e
      case Loose(f) => entries == [] && unknown == [Inner([], f)]
      case Incomplete(_) => entries == [] && unknown == [Inner([], PartField(e))]
      case Keyed(key, value, extra) =>
        var k, inside := d.text(key).value, Extras(d, value);
        && |entries| == 1 && d.text(key) == Some(entries[0].0) && Says(d, value, entries[0].1)
        && unknown == seq(|extra|, i requires 0 <= i < |extra| => Inner([k], extra[i]))
                      + seq(|inside|, i requires 0 <= i < |inside| => Inner([k] + inside[i].below, inside[i].f))
    decreases e, 2
  {
    hide EncodeField, Fields, Resolved, EntriesIn, Gathered, IsExtra;
    OneEntry(d, PartField(e));
    if e.Keyed? {
      var k, v := WireField(1, Bytes(e.key)), ValueField(e.value);
      ValueReadBack(d, e.value);
      FieldsReadBack([k, v] + e.extra);
      GatheredParts(d, e.key, v, e.extra);
      BelowBoth(d.text(e.key).value, e.extra, Extras(d, e.value));
    } else if e.Incomplete? {
      FieldsReadBack(e.fs);
      GatheredIncomplete(d, e.fs);
    }
  }

  /** Without a key or a value none is gathered. */
  lemma {:induction false} GatheredIncomplete<S>(d: Values<S>, fs: seq<WireField>)
    requires forall i :: 0 <= i < |fs| ==> NamesKey(fs[i]) ==> d.text(fs[i].value.bytes).Some?
    requires forall i :: 0 <= i < |fs| ==> (fs[i].field == 2 && fs[i].value.Bytes? ==> d.text(fs[i].value.bytes).Some?)
    ensures Gathered(d, fs).Some?
    ensures (forall i :: 0 <= i < |fs| ==> !NamesKey(fs[i])) ==> Gathered(d, fs).value.key == None
    ensures (forall i :: 0 <= i < |fs| ==> NamesKey(fs[i]) || IsExtra(fs[i])) ==> Gathered(d, fs).value.pending == None
    decreases |fs|
  {
    if fs == [] {
    } else {
      GatheredIncomplete(d, fs[..|fs| - 1]);
      assert fs[|fs| - 1] in fs;
    }
  }

  lemma BelowBoth(key: string, extra: seq<WireField>, inside: seq<Inner>)
    ensures Below(key, Bare(extra) + inside)
      == seq(|extra|, i requires 0 <= i < |extra| => Inner([key], extra[i]))
         + seq(|inside|, i requires 0 <= i < |inside| => Inner([key] + inside[i].below, inside[i].f))
  {
    assert [key] + [] == [key];
  }

  /** A key, a value and other fields are gathered as such. */
  lemma {:induction false} GatheredParts<S>(d: Values<S>, key: seq<byte>, v: WireField, extra: seq<WireField>)
    requires d.text(key).Some? && IsValue(v) && Legible(d, v) && !IsKey(v)
    requires forall i :: 0 <= i < |extra| ==> IsExtra(extra[i])
    ensures Gathered(d, [WireField(1, Bytes(key)), v] + extra) == Some(Config(d.text(key), Some(v), extra))
    decreases |extra|
  {
    hide Gathered, GatherOne, IsExtra, IsValue, Legible;
    var k := WireField(1, Bytes(key));
    if extra == [] {
      GatheredTwo(d, key, v);
      assert [k, v] + extra == [k, v];
    } else {
      var init, last := extra[..|extra| - 1], extra[|extra| - 1];
      GatheredParts(d, key, v, init);
      GatheredMore(d, [k, v] + init, last);
      GatherExtra(d, Config(d.text(key), Some(v), init), last);
      assert [k, v] + init + [last] == [k, v] + extra && init + [last] == extra;
    }
  }

  lemma GatherExtra<S>(d: Values<S>, c: Config, f: WireField)
    requires IsExtra(f)
    ensures GatherOne(d, c, f) == Some(c.(unnamed := c.unnamed + [f]))
  {
  }

  lemma GatheredTwo<S>(d: Values<S>, key: seq<byte>, v: WireField)
    requires d.text(key).Some? && IsValue(v) && Legible(d, v) && !IsKey(v)
    ensures Gathered(d, [WireField(1, Bytes(key)), v]) == Some(Config(d.text(key), Some(v), []))
  {
    var k := WireField(1, Bytes(key));
    GatheredMore(d, [], k);
    GatheredMore(d, [] + [k], v);
    assert [] + [k] + [v] == [k, v];
  }

  lemma {:induction false} ValueReadBack<S(!new)>(d: Values<S>, t: Tree)
    requires TreeOk(d, t)
    ensures var f := ValueField(t); IsValue(f) && Legible(d, f) && !IsKey(f)
    ensures var r := Resolved(d, ValueField(t)); r.Some? && Says(d, t, r.value.0) && r.value.1 == Extras(d, t)
    decreases t, 1
  {
    hide EntriesIn, Latest, SayAll, LastWins, PartsOk;
    if t.Nested? {
      EntriesReadBack(d, t.parts);
      LatestWins(EntriesIn(d, Write(t.parts)).value.0);
    }
  }

  // The code.

  method ReadConfig<S>(d: Values<S>, bytes: seq<byte>) returns (r: Option<Entries<S>>)
    ensures r == DecodeConfig(d, bytes)
    decreases |bytes|, 0
  {
    hide Fields, Resolved, GatherOne;
    var read := WireFields(bytes);
    if read == None {
      return None;
    }
    var fs, c := read.value, Config(None, None, []);
    for i := 0 to |fs|
      invariant Gathered(d, fs[..i]) == Some(c)
    {
      assert fs[..i + 1][..i] == fs[..i];
      var next := GatherOne(d, c, fs[i]);
      if next == None {
        GatheredStops(d, fs, i + 1);
        return None;
      }
      c := next.value;
    }
    assert fs[..|fs|] == fs;
    if c.key == None || c.pending == None {
      return Some(([], [Inner([], WireField(2, Bytes(bytes)))]));
    }
    FieldsShorter(bytes);
    var v := ReadValue(d, c.pending.value);
    return if v == None then None
      else Some(([(c.key.value, v.value.0)], Below(c.key.value, Bare(c.unnamed) + v.value.1)));
  }

  lemma {:induction false} GatheredStops<S>(d: Values<S>, fs: seq<WireField>, n: nat)
    requires n <= |fs| && Gathered(d, fs[..n]) == None
    ensures Gathered(d, fs) == None
    decreases |fs| - n
  {
    if n == |fs| {
      assert fs[..n] == fs;
    } else {
      assert fs[..n + 1][..n] == fs[..n];
      GatheredStops(d, fs, n + 1);
    }
  }

  method ReadValue<S>(d: Values<S>, f: WireField) returns (r: Option<(ConfigValue<S>, seq<Inner>)>)
    ensures r == Resolved(d, f)
    decreases Size(f), 2
  {
    hide EntriesIn;
    if IsBundle(f) {
      var entries := ReadEntries(d, f.value.bytes);
      return if entries == None then None else Some((Bundle(Latest(entries.value.0)), entries.value.1));
    }
    var s := d.scalar(f);
    return if s == None then None else Some((Scalar(s.value.0), s.value.1));
  }

  method ReadEntries<S>(d: Values<S>, bytes: seq<byte>) returns (r: Option<Entries<S>>)
    ensures r == EntriesIn(d, bytes)
    decreases |bytes|, 1
  {
    hide Fields, DecodeConfig;
    var read := WireFields(bytes);
    if read == None {
      return None;
    }
    var fs := read.value;
    FieldsShorter(bytes);
    var entries: seq<(string, ConfigValue<S>)>, unknown: seq<Inner> := [], [];
    for i := 0 to |fs|
      invariant EntriesOf(d, fs[..i], |bytes|) == Some((entries, unknown))
    {
      assert fs[..i + 1][..i] == fs[..i];
      var f := fs[i];
      assert f in fs;
      if f.field != 2 || !f.value.Bytes? {
        unknown := unknown + [Inner([], f)];
      } else {
        var more := ReadConfig(d, f.value.bytes);
        if more == None {
          EntriesStop(d, fs, i + 1, |bytes|);
          return None;
        }
        entries, unknown := entries + more.value.0, unknown + more.value.1;
      }
    }
    assert fs[..|fs|] == fs;
    return Some((entries, unknown));
  }

  lemma {:induction false} EntriesStop<S>(d: Values<S>, fs: seq<WireField>, n: nat, size: nat)
    requires Short(fs, size) && n <= |fs| && EntriesOf(d, fs[..n], size) == None
    ensures EntriesOf(d, fs, size) == None
    decreases |fs| - n
  {
    hide DecodeConfig;
    if n == |fs| {
      assert fs[..n] == fs;
    } else {
      assert fs[..n + 1][..n] == fs[..n];
      EntriesStop(d, fs, n + 1, size);
    }
  }
}
