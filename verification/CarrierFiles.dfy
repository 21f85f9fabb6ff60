/**
 * Writing a CarrierSettings file (packages/decode-android/src/carrier-settings.ts): what its fields say, each in the
 * place its number gives it, is what decoding the bytes finds.
 */
module CarrierFiles {
  import opened Bits
  import opened CarrierSettings
  import opened Options
  import opened Protobuf
  import opened Sequences

  /** In a wrapper: an item's bytes, or a field that is no item. */
  datatype Inside = Item(bytes: seq<byte>) | Loose(f: WireField)

  /** A file's fields. */
  datatype Piece =
    | Name(bytes: seq<byte>)
    | Version(n: nat)
    | Apns(parts: seq<Inside>)
    | Configs(parts: seq<Inside>)
    | Vendors(parts: seq<Inside>)
    | Updated(bytes: seq<byte>)
    | Other(f: WireField)

  function InsideFields(parts: seq<Inside>): (fs: seq<WireField>)
    ensures |fs| == |parts|
  {
    seq(|parts|, i requires 0 <= i < |parts| =>
      if parts[i].Item? then WireField(2, Bytes(parts[i].bytes)) else parts[i].f)
  }

  function PieceField(p: Piece): WireField {
    match p
    case Name(bytes) => WireField(1, Bytes(bytes))
    case Version(n) => WireField(2, Varint(n))
    case Apns(parts) => WireField(3, Bytes(EncodeFields(InsideFields(parts))))
    case Configs(parts) => WireField(4, Bytes(EncodeFields(InsideFields(parts))))
    case Vendors(parts) => WireField(6, Bytes(EncodeFields(InsideFields(parts))))
    case Updated(bytes) => WireField(8, Bytes(bytes))
    case Other(f) => f
  }

  function PieceFields(ps: seq<Piece>): (fs: seq<WireField>)
    ensures |fs| == |ps|
  {
    seq(|ps|, i requires 0 <= i < |ps| => PieceField(ps[i]))
  }

  predicate PartsOk(parts: seq<Inside>) {
    forall i :: 0 <= i < |parts| ==>
      && FieldOk(InsideFields(parts)[i])
      && (parts[i].Loose? ==> !(parts[i].f.field == 2 && parts[i].f.value.Bytes?))
  }

  /** Fields as they may be; others have no number and type of a piece's. */
  predicate PieceOk(p: Piece) {
    && FieldOk(PieceField(p))
    && (p.Apns? || p.Configs? || p.Vendors? ==> PartsOk(p.parts))
    && (p.Other? ==> match p.f.value
                     case Varint(_) => p.f.field != 2
                     case Bytes(_) => p.f.field == 2 || p.f.field == 5 || p.f.field == 7 || p.f.field > 8
                     case _ => true)
  }

  predicate PiecesOk(ps: seq<Piece>) {
    forall i :: 0 <= i < |ps| ==> PieceOk(ps[i])
  }

  // What is said.

  /** How an item's bytes read. */
  type Reader<!T> = seq<byte> -> Option<(seq<T>, seq<Inner>)>

  function ApnReader<A, C, V>(d: Items<A, C, V>): Reader<A> {
    b => match d.apn(b) case None => None case Some((a, unknown)) => Some(([a], unknown))
  }

  function VendorReader<A, C, V>(d: Items<A, C, V>): Reader<V> {
    b => match d.vendor(b) case None => None case Some((v, unknown)) => Some(([v], unknown))
  }

  function ConfigReader<A, C, V>(d: Items<A, C, V>): Reader<(string, C)> {
    b => d.config(b)
  }

  predicate Legible<T>(read: Reader<T>, parts: seq<Inside>) {
    forall i :: 0 <= i < |parts| && parts[i].Item? ==> read(parts[i].bytes).Some?
  }

  function Found<T>(read: Reader<T>, part: Inside): (seq<T>, seq<Inner>) {
    if part.Item? && read(part.bytes).Some? then read(part.bytes).value else ([], [])
  }

  /** A wrapper's items, in order. */
  function ItemsOf<T>(read: Reader<T>, parts: seq<Inside>): seq<T> {
    if parts == [] then [] else ItemsOf(read, parts[..|parts| - 1]) + Found(read, parts[|parts| - 1]).0
  }

  /** The unknown fields of a part, an item under its number unless it is a configuration. */
  function UnknownIn<T>(read: Reader<T>, part: Inside, kind: Kind, at: nat): seq<Unknown> {
    match part
    case Loose(f) => [Unknown(Wrapper(kind), [], f)]
    case Item(bytes) =>
      var us := Found(read, part).1;
      var path := if kind == Kind.Configs then Wrapper(kind) else Path.Item(kind, at);
      seq(|us|, i requires 0 <= i < |us| => Unknown(path, us[i].below, us[i].f))
  }

  /** Those of a wrapper's parts, items numbered on from `first`. */
  function InsideUnknown<T>(read: Reader<T>, parts: seq<Inside>, kind: Kind, first: nat): seq<Unknown> {
    if parts == [] then []
    else
      var init, last := parts[..|parts| - 1], parts[|parts| - 1];
      InsideUnknown(read, init, kind, first) + UnknownIn(read, last, kind, first + |ItemsOf(read, init)|)
  }

  /** The last name, version and time written. */
  function NameOf<A, C, V>(d: Items<A, C, V>, ps: seq<Piece>): Option<string> {
    if ps == [] then None
    else
      var last := ps[|ps| - 1];
      if last.Name? then d.text(last.bytes) else NameOf(d, ps[..|ps| - 1])
  }

  function VersionOf<A, C, V>(d: Items<A, C, V>, ps: seq<Piece>): Option<string> {
    if ps == [] then None
    else
      var last := ps[|ps| - 1];
      if last.Version? then Some(d.int64(last.n)) else VersionOf(d, ps[..|ps| - 1])
  }

  function UpdatedOf<A, C, V>(d: Items<A, C, V>, ps: seq<Piece>): Option<string> {
    if ps == [] then None
    else
      var last := ps[|ps| - 1];
      if last.Updated? then d.timestamp(last.bytes) else UpdatedOf(d, ps[..|ps| - 1])
  }

  /** All wrappers' insides, of each kind. */
  function ApnParts(ps: seq<Piece>): seq<Inside> {
    if ps == [] then []
    else ApnParts(ps[..|ps| - 1]) + if ps[|ps| - 1].Apns? then ps[|ps| - 1].parts else []
  }

  function ConfigParts(ps: seq<Piece>): seq<Inside> {
    if ps == [] then []
    else ConfigParts(ps[..|ps| - 1]) + if ps[|ps| - 1].Configs? then ps[|ps| - 1].parts else []
  }

  function VendorParts(ps: seq<Piece>): seq<Inside> {
    if ps == [] then []
    else VendorParts(ps[..|ps| - 1]) + if ps[|ps| - 1].Vendors? then ps[|ps| - 1].parts else []
  }

  /** What a piece behind others adds to them. */
  function UnknownOf<A, C, V>(d: Items<A, C, V>, before: seq<Piece>, p: Piece): seq<Unknown> {
    match p
    case Apns(parts) => InsideUnknown(ApnReader(d), parts, Kind.Apns, |ItemsOf(ApnReader(d), ApnParts(before))|)
    case Configs(parts) => InsideUnknown(ConfigReader(d), parts, Kind.Configs, 0)
    case Vendors(parts) => InsideUnknown(VendorReader(d), parts, Kind.Vendors, |ItemsOf(VendorReader(d), VendorParts(before))|)
    case Other(f) => [Unknown(File, [], f)]
    case _ => []
  }

  /** Every field of no meaning, in order. */
  function AllUnknown<A, C, V>(d: Items<A, C, V>, ps: seq<Piece>): seq<Unknown> {
    if ps == [] then [] else AllUnknown(d, ps[..|ps| - 1]) + UnknownOf(d, ps[..|ps| - 1], ps[|ps| - 1])
  }

  // Reading it back.

  lemma {:induction false} ItemsOfBoth<T>(read: Reader<T>, a: seq<Inside>, b: seq<Inside>)
    ensures ItemsOf(read, a + b) == ItemsOf(read, a) + ItemsOf(read, b)
    decreases |b|
  {
    hide Found;
    if b == [] {
      assert a + b == a;
    } else {
      assert (a + b)[..|a + b| - 1] == a + b[..|b| - 1];
      ItemsOfBoth(read, a, b[..|b| - 1]);
    }
  }

  /** What the code reads of a wrapper's field. */
  ghost predicate Agrees<T(!new)>(read: Reader<T>, code: WireField -> Reading<T>) {
    && (forall b :: code(WireField(2, Bytes(b)))
                    == match read(b) case None => Failed case Some((items, unknown)) => Read(items, unknown))
    && forall f: WireField :: !(f.field == 2 && f.value.Bytes?) ==> code(f) == Reading.Other
  }

  lemma {:induction false} ListWritten<T(!new)>(read: Reader<T>, code: WireField -> Reading<T>, parts: seq<Inside>, kind: Kind,
                                               first: nat)
    requires Agrees(read, code) && PartsOk(parts)
    ensures ListFields(InsideFields(parts), code, kind, first)
      == if Legible(read, parts) then Some(Listed(ItemsOf(read, parts), InsideUnknown(read, parts, kind, first))) else None
    decreases |parts|
  {
    hide ListOne, Found, UnknownIn, Agrees, PartsOk, Legible, InsideFields;
    if parts == [] {
      NothingInside(read);
    } else {
      var init, last := parts[..|parts| - 1], parts[|parts| - 1];
      LastInside(read, parts);
      ListWritten(read, code, init, kind, first);
      OneWritten(read, code, Listed(ItemsOf(read, init), InsideUnknown(read, init, kind, first)), last, kind, first);
    }
  }

  lemma NothingInside<T>(read: Reader<T>)
    ensures InsideFields([]) == [] && Legible(read, [])
  {
  }

  lemma LastInside<T>(read: Reader<T>, parts: seq<Inside>)
    requires parts != [] && PartsOk(parts)
    ensures var init, last := parts[..|parts| - 1], parts[|parts| - 1];
      && PartsOk(init) && (last.Loose? ==> !(last.f.field == 2 && last.f.value.Bytes?))
      && InsideFields(parts) == InsideFields(init) + InsideFields([last])
      && (Legible(read, parts) <==> Legible(read, init) && (last.Item? ==> read(last.bytes).Some?))
  {
    hide FieldOk;
    var init, last := parts[..|parts| - 1], parts[|parts| - 1];
    assert parts == init + [last];
    forall i | 0 <= i < |init|
      ensures FieldOk(InsideFields(init)[i]) && InsideFields(parts)[i] == InsideFields(init)[i]
    {
      assert init[i] == parts[i] && FieldOk(InsideFields(parts)[i]);
    }
  }

  /** One part of a wrapper. */
  lemma OneWritten<T(!new)>(read: Reader<T>, code: WireField -> Reading<T>, l: Listed<T>, part: Inside, kind: Kind, first: nat)
    requires Agrees(read, code) && (part.Loose? ==> !(part.f.field == 2 && part.f.value.Bytes?))
    ensures ListOne(l, InsideFields([part])[0], code, kind, first)
      == if part.Item? && read(part.bytes) == None then None
         else Some(Listed(l.items + Found(read, part).0, l.unknown + UnknownIn(read, part, kind, first + |l.items|)))
  {
    if part.Loose? {
      assert l.items + [] == l.items;
    } else if read(part.bytes).Some? {
      var us := read(part.bytes).value.1;
      var path := if kind == Kind.Configs then Wrapper(kind) else Path.Item(kind, first + |l.items|);
      assert seq(|us|, i requires 0 <= i < |us| => Unknown(path, us[i].below, us[i].f))
        == CarrierSettings.Found(us, PathOf(kind, first + |l.items|));
    }
  }

  lemma WrapperReadBack<T(!new)>(read: Reader<T>, code: WireField -> Reading<T>, parts: seq<Inside>, kind: Kind, first: nat)
    requires Agrees(read, code) && PartsOk(parts)
    ensures Repeated(EncodeFields(InsideFields(parts)), code, kind, first)
      == if Legible(read, parts) then Some(Listed(ItemsOf(read, parts), InsideUnknown(read, parts, kind, first))) else None
  {
    hide ListFields, Fields, EncodeFields, Legible, Agrees;
    FieldsReadBack(InsideFields(parts));
    ListWritten(read, code, parts, kind, first);
  }

  /** What a file's pieces come to. */
  function Said<A, C, V>(d: Items<A, C, V>, ps: seq<Piece>): State<A, C, V> {
    State(NameOf(d, ps), VersionOf(d, ps), UpdatedOf(d, ps), ItemsOf(ApnReader(d), ApnParts(ps)),
          ItemsOf(ConfigReader(d), ConfigParts(ps)), ItemsOf(VendorReader(d), VendorParts(ps)), AllUnknown(d, ps))
  }

  lemma ReadersAgree<A(!new), C(!new), V(!new)>(d: Items<A, C, V>)
    ensures Agrees(ApnReader(d), ApnItems(d)) && Agrees(ConfigReader(d), ConfigItems(d))
    ensures Agrees(VendorReader(d), VendorItems(d))
  {
  }

  predicate LegiblePiece<A, C, V>(d: Items<A, C, V>, p: Piece) {
    match p
    case Name(bytes) => d.text(bytes).Some?
    case Updated(bytes) => d.timestamp(bytes).Some?
    case Apns(parts) => Legible(ApnReader(d), parts)
    case Configs(parts) => Legible(ConfigReader(d), parts)
    case Vendors(parts) => Legible(VendorReader(d), parts)
    case _ => true
  }

  lemma SaidNext<A, C, V>(d: Items<A, C, V>, init: seq<Piece>, p: Piece)
    ensures var all := init + [p];
      && NameOf(d, all) == (if p.Name? then d.text(p.bytes) else NameOf(d, init))
      && VersionOf(d, all) == (if p.Version? then Some(d.int64(p.n)) else VersionOf(d, init))
      && UpdatedOf(d, all) == (if p.Updated? then d.timestamp(p.bytes) else UpdatedOf(d, init))
      && ApnParts(all) == (if p.Apns? then ApnParts(init) + p.parts else ApnParts(init))
      && ConfigParts(all) == (if p.Configs? then ConfigParts(init) + p.parts else ConfigParts(init))
      && VendorParts(all) == (if p.Vendors? then VendorParts(init) + p.parts else VendorParts(init))
      && AllUnknown(d, all) == AllUnknown(d, init) + UnknownOf(d, init, p)
  {
    hide UnknownOf;
    assert (init + [p])[..|init|] == init;
    assert ApnParts(init) + [] == ApnParts(init) && ConfigParts(init) + [] == ConfigParts(init);
    assert VendorParts(init) + [] == VendorParts(init);
  }

  /** One piece more. */
  lemma StepWritten<A(!new), C(!new), V(!new)>(d: Items<A, C, V>, init: seq<Piece>, p: Piece)
    requires PieceOk(p)
    ensures Step(d, Said(d, init), PieceField(p)) == if LegiblePiece(d, p) then Some(Said(d, init + [p])) else None
  {
    hide Repeated, EncodeFields, ItemsOf, InsideUnknown, ApnReader, ConfigReader, VendorReader, Legible, FieldOk, Agrees;
    hide ApnItems, ConfigItems, VendorItems;
    hide ApnParts, ConfigParts, VendorParts, AllUnknown;
    SaidNext(d, init, p);
    ReadersAgree(d);
    assert AllUnknown(d, init) + [] == AllUnknown(d, init);
    match p
    case Apns(parts) =>
      ItemsOfBoth(ApnReader(d), ApnParts(init), parts);
      WrapperReadBack(ApnReader(d), ApnItems(d), parts, Kind.Apns, |ItemsOf(ApnReader(d), ApnParts(init))|);
    case Configs(parts) =>
      ItemsOfBoth(ConfigReader(d), ConfigParts(init), parts);
      WrapperReadBack(ConfigReader(d), ConfigItems(d), parts, Kind.Configs, |ItemsOf(ConfigReader(d), ConfigParts(init))|);
      FirstIrrelevant(ConfigReader(d), parts, |ItemsOf(ConfigReader(d), ConfigParts(init))|);
    case Vendors(parts) =>
      ItemsOfBoth(VendorReader(d), VendorParts(init), parts);
      WrapperReadBack(VendorReader(d), VendorItems(d), parts, Kind.Vendors, |ItemsOf(VendorReader(d), VendorParts(init))|);
    case _ =>
  }

  lemma {:induction false} FirstIrrelevant<T>(read: Reader<T>, parts: seq<Inside>, first: nat)
    ensures InsideUnknown(read, parts, Kind.Configs, first) == InsideUnknown(read, parts, Kind.Configs, 0)
    decreases |parts|
  {
    if parts == [] {
    } else {
      FirstIrrelevant(read, parts[..|parts| - 1], first);
    }
  }

  predicate AllLegible<A, C, V>(d: Items<A, C, V>, ps: seq<Piece>) {
    forall i :: 0 <= i < |ps| ==> LegiblePiece(d, ps[i])
  }

  lemma {:induction false} RunWritten<A(!new), C(!new), V(!new)>(d: Items<A, C, V>, ps: seq<Piece>)
    requires PiecesOk(ps)
    ensures Run(d, PieceFields(ps)) == if AllLegible(d, ps) then Some(Said(d, ps)) else None
    decreases |ps|
  {
    hide Step, Said, LegiblePiece, PieceOk, PieceField;
    if ps == [] {
      NothingSaid(d);
    } else {
      var init, last := ps[..|ps| - 1], ps[|ps| - 1];
      var fs := PieceFields(ps);
      assert fs[..|fs| - 1] == PieceFields(init);
      RunWritten(d, init);
      StepWritten(d, init, last);
      assert init + [last] == ps;
      assert AllLegible(d, ps) <==> AllLegible(d, init) && LegiblePiece(d, last);
    }
  }

  lemma NothingSaid<A, C, V>(d: Items<A, C, V>)
    ensures Said(d, []) == Empty()
  {
  }

  /**
   * A file written is read back: its last name, version and time, its items in order and numbered on from wrapper to
   * wrapper, each configuration key with its last value, and every field of no meaning where it is. It is an error if an
   * item or text does not decode, or there is no name.
   */
  lemma FileReadBack<A(!new), C(!new), V(!new)>(d: Items<A, C, V>, ps: seq<Piece>)
    requires PiecesOk(ps)
    ensures var r := Decoded(d, EncodeFields(PieceFields(ps)));
      && (r.Some? <==> AllLegible(d, ps) && NameOf(d, ps).Some? && NameOf(d, ps).value != "")
      && (r.Some? ==>
            && r.value.canonicalName == NameOf(d, ps).value
            && r.value.version == VersionOf(d, ps) && r.value.lastUpdated == UpdatedOf(d, ps)
            && r.value.apns == ItemsOf(ApnReader(d), ApnParts(ps))
            && LastWins(r.value.configs, ItemsOf(ConfigReader(d), ConfigParts(ps)))
            && r.value.vendors == ItemsOf(VendorReader(d), VendorParts(ps))
            && r.value.unknown == AllUnknown(d, ps))
  {
    hide Run, Fields, EncodeFields, PieceField, AllLegible, NameOf, VersionOf, UpdatedOf, ItemsOf, AllUnknown, LastWins;
    hide ApnReader, ConfigReader, VendorReader, ApnParts, ConfigParts, VendorParts, Latest;
    FieldsReadBack(PieceFields(ps));
    RunWritten(d, ps);
    LatestWins(ItemsOf(ConfigReader(d), ConfigParts(ps)));
  }

  /** In what decodes, each configuration key read has the value of its last entry, and there is no other key. */
  lemma ConfigsRead<A, C, V>(d: Items<A, C, V>, bytes: seq<byte>)
    requires Decoded(d, bytes).Some?
    ensures LastWins(Decoded(d, bytes).value.configs, Run(d, Fields(bytes).value).value.configs)
  {
    hide Fields, Run, Latest, LastWins;
    LatestWins(Run(d, Fields(bytes).value).value.configs);
  }
}
