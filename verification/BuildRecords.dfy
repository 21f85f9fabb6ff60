/**
 * One device's record of a build joining its other devices' rows (apps/extractor/src/records.ts): the rows a build ends
 * with are the same for every order its records arrive in, however often they do.
 */
module BuildRecords {
  import opened Options
  import opened Sequences
  import opened Text

  type Device = string

  /** What every device's record of a build must agree on. */
  datatype Shared = Shared(platform: string, id: string, version: string, patch: string, released: Option<string>,
                           sortKey: string)

  /** A modem's fields but its devices. */
  datatype Firmware = Firmware(name: string, family: string, package: Option<string>, size: Option<nat>,
                               kind: Option<string>)

  datatype ReleaseRow = ReleaseRow(shared: Shared, devices: seq<Device>, sourceCount: nat)
  datatype ModemRow = ModemRow(firmware: Firmware, devices: seq<Device>)
  /** A configuration's label is its tag. */
  datatype ConfigRow = ConfigRow(device: Device, tag: string, sha: string)
  datatype Config = Config(tag: string, sha: string)
  datatype Rows = Rows(release: ReleaseRow, modems: seq<ModemRow>, configs: seq<ConfigRow>)

  // A device's configurations, in label order.

  /** An element put into a sorted list, behind those it does not precede. */
  function Insert<T>(x: T, sorted: seq<T>, before: (T, T) -> bool): (r: seq<T>)
    ensures |r| == |sorted| + 1
  {
    if sorted == [] then [x]
    else if before(x, sorted[0]) then [x] + sorted
    else [sorted[0]] + Insert(x, sorted[1..], before)
  }

  /** Of two things at most one precedes the other, and what precedes one precedes or follows any third. */
  ghost predicate IsOrder<T(!new)>(before: (T, T) -> bool) {
    && (forall x, y :: before(x, y) ==> !before(y, x))
    && forall x, y, z :: before(x, y) ==> before(x, z) || before(z, y)
  }

  ghost predicate Ordered<T>(s: seq<T>, before: (T, T) -> bool) {
    forall i, j :: 0 <= i < j < |s| ==> !before(s[j], s[i])
  }

  lemma {:induction false} InsertOrders<T(!new)>(x: T, sorted: seq<T>, before: (T, T) -> bool)
    requires IsOrder(before) && Ordered(sorted, before)
    ensures Ordered(Insert(x, sorted, before), before)
  {
    if sorted == [] {
    } else if before(x, sorted[0]) {
      forall j | 0 <= j < |sorted|
        ensures !before(sorted[j], x)
      {
        assert !before(sorted[j], sorted[0]);
        assert before(x, sorted[j]);
      }
    } else {
      InsertOrders(x, sorted[1..], before);
      InsertElements(x, sorted[1..], before);
      hide Insert;
      var rest := Insert(x, sorted[1..], before);
      forall j | 0 <= j < |rest|
        ensures !before(rest[j], sorted[0])
      {
        assert rest[j] in rest;
        if rest[j] != x {
          var k :| 0 <= k < |sorted[1..]| && sorted[1..][k] == rest[j];
          assert sorted[k + 1] == rest[j];
        }
      }
      InsertBehind(x, sorted, before);
    }
  }

  lemma {:induction false} SortOrders<T(!new)>(s: seq<T>, before: (T, T) -> bool)
    requires IsOrder(before)
    ensures Ordered(Sort(s, before), before)
  {
    if s == [] {
    } else {
      SortOrders(s[..|s| - 1], before);
      InsertOrders(s[|s| - 1], Sort(s[..|s| - 1], before), before);
    }
  }

  lemma InsertBehind<T>(x: T, sorted: seq<T>, before: (T, T) -> bool)
    requires sorted != [] && !before(x, sorted[0])
    ensures Insert(x, sorted, before) == [sorted[0]] + Insert(x, sorted[1..], before)
  {
  }

  lemma {:induction false} InsertCounts<T>(x: T, sorted: seq<T>, before: (T, T) -> bool)
    ensures multiset(Insert(x, sorted, before)) == multiset{x} + multiset(sorted)
  {
    if sorted == [] || before(x, sorted[0]) {
    } else {
      InsertCounts(x, sorted[1..], before);
      InsertBehind(x, sorted, before);
      hide Insert;
      assert sorted == [sorted[0]] + sorted[1..];
    }
  }

  lemma InsertElements<T>(x: T, sorted: seq<T>, before: (T, T) -> bool)
    ensures multiset(Insert(x, sorted, before)) == multiset{x} + multiset(sorted)
    ensures forall y :: y in Insert(x, sorted, before) <==> y == x || y in sorted
  {
    hide Insert;
    InsertCounts(x, sorted, before);
    forall y
      ensures y in Insert(x, sorted, before) <==> y == x || y in sorted
    {
      assert y in Insert(x, sorted, before) <==> y in multiset(Insert(x, sorted, before));
    }
  }

  function Sort<T>(s: seq<T>, before: (T, T) -> bool): (r: seq<T>)
    ensures |r| == |s|
  {
    if s == [] then [] else Insert(s[|s| - 1], Sort(s[..|s| - 1], before), before)
  }

  lemma {:induction false} SortCounts<T>(s: seq<T>, before: (T, T) -> bool)
    ensures multiset(Sort(s, before)) == multiset(s)
  {
    if s == [] {
    } else {
      var init, x := s[..|s| - 1], s[|s| - 1];
      SortCounts(init, before);
      InsertElements(x, Sort(init, before), before);
      assert s == init + [x];
    }
  }

  lemma SortElements<T>(s: seq<T>, before: (T, T) -> bool)
    ensures multiset(Sort(s, before)) == multiset(s)
    ensures forall y :: y in Sort(s, before) <==> y in s
    ensures Distinct(s) ==> Distinct(Sort(s, before))
  {
    SortCounts(s, before);
    hide Sort;
    forall y
      ensures y in Sort(s, before) <==> y in s
    {
      assert y in Sort(s, before) <==> y in multiset(Sort(s, before));
    }
    if Distinct(s) {
      OneEach(s);
      ManyNone(Sort(s, before));
    }
  }

  lemma OneEach<T>(s: seq<T>)
    requires Distinct(s)
    ensures forall x :: multiset(s)[x] <= 1
  {
    if s == [] {
    } else {
      var init, x := s[..|s| - 1], s[|s| - 1];
      OneEach(init);
      assert s == init + [x];
      assert x !in init;
    }
  }

  lemma ManyNone<T>(s: seq<T>)
    requires forall x :: multiset(s)[x] <= 1
    ensures Distinct(s)
  {
    forall i, j | 0 <= i < j < |s|
      ensures s[i] != s[j]
    {
      if s[i] == s[j] {
        TwiceCounted(s, i, j);
      }
    }
  }

  lemma TwiceCounted<T>(s: seq<T>, i: nat, j: nat)
    requires i < j < |s| && s[i] == s[j]
    ensures multiset(s)[s[i]] >= 2
  {
    assert s == s[..i] + [s[i]] + s[i + 1..j] + [s[j]] + s[j + 1..];
  }

  predicate ByTag(a: Config, b: Config) {
    Less(a.tag, b.tag)
  }

  /** The configurations of `device` among `configs`, sorted by label. */
  function ConfigsOf(configs: seq<ConfigRow>, device: Device): seq<Config> {
    if configs == [] then []
    else
      var c := configs[|configs| - 1];
      var before := ConfigsOf(configs[..|configs| - 1], device);
      if c.device == device then Insert(Config(c.tag, c.sha), before, ByTag) else before
  }

  /** The same, as a set. */
  function Carried(configs: seq<ConfigRow>, device: Device): set<Config> {
    set c | c in configs && c.device == device :: Config(c.tag, c.sha)
  }

  /** A device names each label once. */
  ghost predicate LabelsDistinct(configs: seq<ConfigRow>) {
    forall a, b :: a in configs && b in configs && a.device == b.device && a.tag == b.tag ==> a == b
  }

  ghost predicate Ascending(s: seq<Config>) {
    forall i, j :: 0 <= i < j < |s| ==> Less(s[i].tag, s[j].tag)
  }

  lemma FirstAscends(c: Config, s: seq<Config>)
    requires Ascending(s) && forall x :: x in s ==> Less(c.tag, x.tag)
    ensures Ascending([c] + s)
  {
    hide Less;
  }

  lemma AscendingRest(s: seq<Config>)
    requires Ascending(s) && s != []
    ensures Ascending(s[1..]) && forall x :: x in s[1..] ==> Less(s[0].tag, x.tag)
  {
    hide Less;
  }

  lemma {:induction false} InsertAscends(c: Config, sorted: seq<Config>)
    requires Ascending(sorted) && forall x :: x in sorted ==> x.tag != c.tag
    ensures Ascending(Insert(c, sorted, ByTag))
  {
    hide Less, Ascending;
    if sorted == [] {
      FirstAscends(c, sorted);
      assert [c] + sorted == [c];
      return;
    }
    var first, rest := sorted[0], sorted[1..];
    AscendingRest(sorted);
    if Less(c.tag, first.tag) {
      forall x | x in sorted
        ensures Less(c.tag, x.tag)
      {
        if x != first {
          assert x in rest;
          LessTransitive(c.tag, first.tag, x.tag);
        }
      }
      FirstAscends(c, sorted);
    } else {
      LessTotal(c.tag, first.tag);
      InsertAscends(c, rest);
      InsertBehind(c, sorted, ByTag);
      InsertElements(c, rest, ByTag);
      FirstAscends(first, Insert(c, rest, ByTag));
    }
  }

  lemma {:induction false} ConfigsOfElements(configs: seq<ConfigRow>, device: Device)
    ensures ToSet(ConfigsOf(configs, device)) == Carried(configs, device)
  {
    if configs == [] {
    } else {
      var init, c := configs[..|configs| - 1], configs[|configs| - 1];
      ConfigsOfElements(init, device);
      assert configs == init + [c];
      InsertElements(Config(c.tag, c.sha), ConfigsOf(init, device), ByTag);
      assert Carried(configs, device)
        == Carried(init, device) + if c.device == device then {Config(c.tag, c.sha)} else {};
    }
  }

  lemma {:induction false} ConfigsOfAscends(configs: seq<ConfigRow>, device: Device)
    requires LabelsDistinct(configs) && Distinct(configs)
    ensures Ascending(ConfigsOf(configs, device))
  {
    if configs == [] {
    } else {
      var init, c := configs[..|configs| - 1], configs[|configs| - 1];
      assert configs == init + [c];
      ConfigsOfAscends(init, device);
      ConfigsOfElements(init, device);
      if c.device == device {
        forall x | x in ConfigsOf(init, device)
          ensures x.tag != c.tag
        {
          assert x in ToSet(ConfigsOf(init, device));
          var row :| row in init && row.device == device && x == Config(row.tag, row.sha);
          assert row in configs && c in configs;
        }
        InsertAscends(Config(c.tag, c.sha), ConfigsOf(init, device));
      }
    }
  }

  lemma {:induction false} AscendingUnique(a: seq<Config>, b: seq<Config>)
    requires Ascending(a) && Ascending(b) && forall x :: x in a <==> x in b
    ensures a == b
  {
    assert b != [] ==> b[0] in b && b[0] in a;
    if a == [] {
    } else {
      assert a[0] in a && a[0] in b;
      HeadsAgree(a, b);
      TailIs(a);
      TailIs(b);
      AscendingUnique(a[1..], b[1..]);
      assert a == [a[0]] + a[1..] && b == [b[0]] + b[1..];
    }
  }

  lemma HeadsAgree(a: seq<Config>, b: seq<Config>)
    requires Ascending(a) && Ascending(b) && a != [] && b != [] && a[0] in b && b[0] in a
    ensures a[0] == b[0]
  {
    hide Less;
    var i :| 0 <= i < |b| && b[i] == a[0];
    var j :| 0 <= j < |a| && a[j] == b[0];
    if i > 0 && j > 0 {
      LessTransitive(a[0].tag, b[0].tag, a[0].tag);
      LessIrreflexive(a[0].tag);
    }
  }

  lemma TailIs(a: seq<Config>)
    requires Ascending(a) && a != []
    ensures Ascending(a[1..]) && forall x :: x in a[1..] <==> x in a && x != a[0]
  {
    forall i | 0 < i < |a|
      ensures a[i] != a[0]
    {
      LessIrreflexive(a[0].tag);
      assert Less(a[0].tag, a[i].tag);
    }
    assert a == [a[0]] + a[1..];
  }

  /** Comparing two devices' sorted configurations compares what they carry. */
  lemma SameConfigs(configs: seq<ConfigRow>, d: Device, own: seq<ConfigRow>, e: Device)
    requires LabelsDistinct(configs) && Distinct(configs) && LabelsDistinct(own) && Distinct(own)
    ensures ConfigsOf(configs, d) == ConfigsOf(own, e) <==> Carried(configs, d) == Carried(own, e)
  {
    ConfigsOfElements(configs, d);
    ConfigsOfElements(own, e);
    ConfigsOfAscends(configs, d);
    ConfigsOfAscends(own, e);
    if Carried(configs, d) == Carried(own, e) {
      forall x
        ensures x in ConfigsOf(configs, d) <==> x in ConfigsOf(own, e)
      {
        assert x in ToSet(ConfigsOf(configs, d)) <==> x in ToSet(ConfigsOf(own, e));
      }
      AscendingUnique(ConfigsOf(configs, d), ConfigsOf(own, e));
    }
  }

  // What a build's rows say.

  /** What a device's record says of it: the firmwares it runs and the configurations it carries. */
  datatype Info = Info(firmwares: set<Firmware>, configs: set<Config>)

  /** A build's devices, each as its record says. */
  type Build = map<Device, Info>

  ghost predicate ModemOk(m: ModemRow, b: Build) {
    && m.devices != [] && Distinct(m.devices)
    && (forall d :: d in m.devices ==> d in b && m.firmware in b[d].firmwares)
    && forall d, e :: d in m.devices && e in m.devices ==> b[d].configs == b[e].configs
  }

  /** Two modems of one firmware and configurations. */
  ghost predicate Alike(m: ModemRow, o: ModemRow, b: Build)
    requires ModemOk(m, b) && ModemOk(o, b)
  {
    m.firmware == o.firmware && b[m.devices[0]].configs == b[o.devices[0]].configs
  }

  /**
   * The modems group the devices by firmware and configurations: each modem's devices share one list of configurations,
   * no two modems share both, and every firmware of every device is some modem's.
   */
  ghost predicate ModemsGroup(modems: seq<ModemRow>, b: Build) {
    && Apart(modems, b)
    && forall d, f :: d in b && f in b[d].firmwares ==> RunBy(modems, d, f)
  }

  ghost predicate Apart(modems: seq<ModemRow>, b: Build) {
    && (forall i :: 0 <= i < |modems| ==> ModemOk(modems[i], b))
    && forall i, j :: 0 <= i < |modems| && 0 <= j < |modems| && i != j ==> !Alike(modems[i], modems[j], b)
  }

  ghost predicate RunBy(modems: seq<ModemRow>, d: Device, f: Firmware) {
    exists m :: m in modems && m.firmware == f && d in m.devices
  }

  ghost predicate ConfigsSay(configs: seq<ConfigRow>, b: Build) {
    && Distinct(configs) && LabelsDistinct(configs)
    && (forall c :: c in configs ==> c.device in b)
    && forall d :: d in b ==> Carried(configs, d) == b[d].configs
  }

  ghost predicate Says(r: Rows, s: Shared, b: Build) {
    && r.release.shared == s
    && Distinct(r.release.devices) && ToSet(r.release.devices) == b.Keys
    && ModemsGroup(r.modems, b) && ConfigsSay(r.configs, b)
  }

  predicate FirmwaresOnce(modems: seq<ModemRow>) {
    forall i, j :: 0 <= i < j < |modems| ==> modems[i].firmware != modems[j].firmware
  }

  /** A device's record, each firmware once. */
  ghost predicate IsPart(r: Rows, d: Device, s: Shared, info: Info) {
    IsRecord(r, d, s, info) && FirmwaresOnce(r.modems)
  }

  /** A device's record: its rows alone. */
  ghost predicate IsRecord(r: Rows, d: Device, s: Shared, info: Info) {
    && r.release.shared == s && r.release.devices == [d]
    && (forall i :: 0 <= i < |r.modems| ==> r.modems[i].devices == [d])
    && info.firmwares == (set m | m in r.modems :: m.firmware)
    && Distinct(r.configs) && LabelsDistinct(r.configs)
    && (forall c :: c in r.configs ==> c.device == d)
    && info.configs == Carried(r.configs, d)
  }

  // Any two sets of rows that say the same of a build are the same but for order.

  /** The modems as firmwares and their devices. */
  function Groups(modems: seq<ModemRow>): set<(Firmware, set<Device>)> {
    set m | m in modems :: (m.firmware, ToSet(m.devices))
  }

  /** The devices that run a firmware with the configurations a device carries. */
  ghost function Together(b: Build, f: Firmware, d: Device): set<Device>
    requires d in b
  {
    set e | e in b && f in b[e].firmwares && b[e].configs == b[d].configs
  }

  lemma GroupIsTogether(modems: seq<ModemRow>, b: Build, m: ModemRow, d: Device)
    requires ModemsGroup(modems, b) && m in modems && d in m.devices
    ensures d in b && ToSet(m.devices) == Together(b, m.firmware, d)
  {
    var i :| 0 <= i < |modems| && modems[i] == m;
    forall e | e in Together(b, m.firmware, d)
      ensures e in m.devices
    {
      assert RunBy(modems, e, m.firmware);
      var o :| o in modems && o.firmware == m.firmware && e in o.devices;
      var j :| 0 <= j < |modems| && modems[j] == o;
      assert ModemOk(m, b) && ModemOk(o, b);
      assert b[m.devices[0]].configs == b[d].configs && b[o.devices[0]].configs == b[e].configs;
      assert Alike(modems[i], modems[j], b);
    }
  }

  lemma GroupsWithin(modems: seq<ModemRow>, modems': seq<ModemRow>, b: Build)
    requires ModemsGroup(modems, b) && ModemsGroup(modems', b)
    ensures Groups(modems) <= Groups(modems')
  {
    forall m | m in modems
      ensures (m.firmware, ToSet(m.devices)) in Groups(modems')
    {
      assert ModemOk(m, b);
      var d := m.devices[0];
      assert RunBy(modems', d, m.firmware);
      var o :| o in modems' && o.firmware == m.firmware && d in o.devices;
      GroupIsTogether(modems, b, m, d);
      GroupIsTogether(modems', b, o, d);
      assert (o.firmware, ToSet(o.devices)) in Groups(modems');
    }
  }

  /** Rows that say the same of a build have the same devices, configurations and groups of devices. */
  lemma SaysDetermines(r: Rows, r': Rows, s: Shared, b: Build)
    requires Says(r, s, b) && Says(r', s, b)
    ensures ToSet(r.release.devices) == ToSet(r'.release.devices) && r.release.shared == r'.release.shared
    ensures ToSet(r.configs) == ToSet(r'.configs)
    ensures Groups(r.modems) == Groups(r'.modems)
  {
    GroupsWithin(r.modems, r'.modems, b);
    GroupsWithin(r'.modems, r.modems, b);
    ConfigsWithin(r.configs, r'.configs, b);
    ConfigsWithin(r'.configs, r.configs, b);
  }

  lemma ConfigsWithin(configs: seq<ConfigRow>, configs': seq<ConfigRow>, b: Build)
    requires ConfigsSay(configs, b) && ConfigsSay(configs', b)
    ensures ToSet(configs) <= ToSet(configs')
  {
    forall c | c in configs
      ensures c in configs'
    {
      assert Config(c.tag, c.sha) in Carried(configs, c.device);
      var c' :| c' in configs' && c'.device == c.device && Config(c'.tag, c'.sha) == Config(c.tag, c.sha);
      assert c == c';
    }
  }

  // The code.

  /** The modems without a device; a modem it alone ran is dropped. */
  function OtherModems(modems: seq<ModemRow>, d: Device): seq<ModemRow> {
    if modems == [] then []
    else
      var m := Cut(modems[|modems| - 1], d);
      OtherModems(modems[..|modems| - 1], d) + (if m.devices == [] then [] else [m])
  }

  function Cut(m: ModemRow, d: Device): ModemRow {
    ModemRow(m.firmware, OtherDevices(m.devices, d))
  }

  function OtherDevices(devices: seq<Device>, d: Device): seq<Device> {
    Filter(devices, x => x != d)
  }

  function OtherConfigs(configs: seq<ConfigRow>, d: Device): seq<ConfigRow> {
    Filter(configs, (c: ConfigRow) => c.device != d)
  }

  /** Each element once, where it first is. */
  function Once(s: seq<Device>): seq<Device> {
    if s == [] then []
    else
      var last := s[|s| - 1];
      Once(s[..|s| - 1]) + (if last in s[..|s| - 1] then [] else [last])
  }

  /** Whether a part's modem joins one the index holds: same firmware, and every device of it carries the same. */
  predicate Joins(o: ModemRow, m: ModemRow, others: seq<ConfigRow>, own: seq<Config>) {
    && o.firmware == m.firmware
    && forall d :: d in o.devices ==> ConfigsOf(others, d) == own
  }

  method FindJoined(modems: seq<ModemRow>, m: ModemRow, others: seq<ConfigRow>, own: seq<Config>) returns (k: nat)
    ensures k <= |modems|
    ensures k < |modems| ==> Joins(modems[k], m, others, own)
    ensures forall i :: 0 <= i < k ==> !Joins(modems[i], m, others, own)
  {
    k := 0;
    while k < |modems| && !Joins(modems[k], m, others, own)
      invariant k <= |modems| && forall i :: 0 <= i < k ==> !Joins(modems[i], m, others, own)
    {
      k := k + 1;
    }
  }

  /**
   * A build's rows once `part`, one device's record of it, is that device's: they say the build with the device's entry
   * exactly if the record names no firmware twice. None stands for the error of a record that disagrees on the header.
   * `b` and `info` are what the held rows and the part may say.
   */
  method WithPart(held: Option<Rows>, part: Rows, device: Device, order: (Device, Device) -> bool,
                  ghost s: Shared, ghost b: Build, ghost info: Info)
    returns (r: Option<Rows>)
    ensures r == None <==> held.Some? && held.value.release.shared != part.release.shared
    ensures held == None && IsRecord(part, device, s, info) ==>
      (Says(r.value, s, map[device := info]) <==> FirmwaresOnce(part.modems))
    ensures held.Some? && r.Some? && Says(held.value, s, b) && IsRecord(part, device, s, info) ==>
      (Says(r.value, s, b[device := info]) <==> FirmwaresOnce(part.modems))
    ensures held.Some? && r.Some? ==>
      && r.value.release.sourceCount == part.release.sourceCount
      && r.value.configs == Filter(held.value.configs, (c: ConfigRow) => c.device != device) + part.configs
      && (IsOrder(order) ==> Ordered(r.value.release.devices, order))
      && (IsRecord(part, device, s, info) ==>
            forall m :: m in r.value.modems && device in m.devices ==> m.devices == [device] || Ordered(m.devices, Less))
  {
    hide *;
    PartIs(part, device, s, info);
    if held == None {
      if IsRecord(part, device, s, info) {
        PartSays(part, device, s, info);
      }
      return Some(part);
    }
    if held.value.release.shared != part.release.shared {
      return None;
    }
    var modems := OtherModems(held.value.modems, device);
    var others := OtherConfigs(held.value.configs, device);
    var own := ConfigsOf(part.configs, device);
    ghost var known := Says(held.value, s, b) && IsPart(part, device, s, info);
    if known {
      FirstModems(held.value, part, device, s, b, info);
    }
    ghost var record := IsRecord(part, device, s, info);
    NoneRun(modems, part.modems, device);
    NoneJoined(held.value.modems, device);
    for i := 0 to |part.modems|
      invariant known ==> ModemsGroup(modems, b[device := Info(Ran(part.modems, i), info.configs)])
      invariant record ==> AllRun(modems, part.modems, i, device)
      invariant record ==> JoinedOrdered(modems, device)
    {
      var m := part.modems[i];
      if record {
        OwnModem(part, device, s, info, i);
      }
      ghost var before := modems;
      var k := FindJoined(modems, m, others, own);
      if record {
        JoinRuns(modems, part, device, s, info, i, k, others, own);
      }
      if known {
        JoinKeeps(held.value.configs, part, device, s, b, info, modems, i, k);
      }
      if k == |modems| {
        modems := modems + [m];
      } else {
        var joined := modems[k];
        modems := modems[k := ModemRow(joined.firmware, Sort(joined.devices + [device], Less))];
      }
      JoinedMore(before, modems, k, m, device);
    }
    if record {
      JoinedAre(modems, device);
    }
    var devices := Sort(Once(OtherDevices(held.value.release.devices, device) + part.release.devices), order);
    OthersAre(held.value.configs, device);
    if IsOrder(order) {
      SortOrders(Once(OtherDevices(held.value.release.devices, device) + part.release.devices), order);
    }
    r := Some(Rows(ReleaseRow(part.release.shared, devices, part.release.sourceCount), modems, others + part.configs));
    if known {
      JoinedSays(held.value, part, device, order, s, b, info, modems);
    }
    if record {
      RunOnce(r.value, s, b[device := info], part.modems, device);
    }
  }

  /** A modem the device runs lists it alone, or its devices in order. */
  ghost predicate JoinedOrdered(modems: seq<ModemRow>, d: Device) {
    forall i :: 0 <= i < |modems| && d in modems[i].devices ==> modems[i].devices == [d] || Ordered(modems[i].devices, Less)
  }

  lemma JoinedAre(modems: seq<ModemRow>, d: Device)
    requires JoinedOrdered(modems, d)
    ensures forall m :: m in modems && d in m.devices ==> m.devices == [d] || Ordered(m.devices, Less)
  {
    hide Ordered;
  }

  lemma NoneJoined(modems: seq<ModemRow>, d: Device)
    ensures JoinedOrdered(OtherModems(modems, d), d)
  {
    hide Ordered, OtherModems;
    OtherModemsAre(modems, d);
  }

  lemma OwnModem(part: Rows, d: Device, s: Shared, info: Info, i: nat)
    requires IsRecord(part, d, s, info) && i < |part.modems|
    ensures part.modems[i].devices == [d]
  {
  }

  lemma JoinedMore(before: seq<ModemRow>, modems: seq<ModemRow>, k: nat, m: ModemRow, d: Device)
    requires k <= |before|
    requires modems == if k == |before| then before + [m]
      else before[k := ModemRow(before[k].firmware, Sort(before[k].devices + [d], Less))]
    ensures JoinedOrdered(before, d) && m.devices == [d] ==> JoinedOrdered(modems, d)
  {
    hide Sort, Ordered;
    LessOrders();
    if k < |before| {
      SortOrders(before[k].devices + [d], Less);
    }
  }

  lemma LessOrders()
    ensures IsOrder(Less)
  {
    hide Less;
    forall x, y | Less(x, y)
      ensures !Less(y, x)
    {
      if Less(y, x) {
        LessTransitive(x, y, x);
        LessIrreflexive(x);
      }
    }
    forall x, y, z | Less(x, y)
      ensures Less(x, z) || Less(z, y)
    {
      LessTotal(x, z);
      if Less(z, x) {
        LessTransitive(z, x, y);
      }
    }
  }

  lemma OthersAre(configs: seq<ConfigRow>, d: Device)
    ensures OtherConfigs(configs, d) == Filter(configs, (c: ConfigRow) => c.device != d)
  {
    FilterSame(configs, (c: ConfigRow) => c.device != d, (c: ConfigRow) => c.device != d);
  }

  // Records that name a firmware twice.

  lemma PartIs(part: Rows, d: Device, s: Shared, info: Info)
    ensures IsPart(part, d, s, info) <==> IsRecord(part, d, s, info) && FirmwaresOnce(part.modems)
  {
  }

  /** A build's first record that names a firmware twice, whose rows do not say it. */
  lemma NamedTwice(s: Shared)
    ensures var m := ModemRow(Firmware("1", "shannon", None, None, None), ["d"]);
      var part, info := Rows(ReleaseRow(s, ["d"], 0), [m, m], []), Info({m.firmware}, {});
      IsRecord(part, "d", s, info) && !Says(part, s, map["d" := info])
  {
    var m := ModemRow(Firmware("1", "shannon", None, None, None), ["d"]);
    var part, info := Rows(ReleaseRow(s, ["d"], 0), [m, m], []), Info({m.firmware}, {});
    assert (set o | o in part.modems :: o.firmware) == {m.firmware} by {
      assert part.modems[0] in part.modems;
    }
    assert part.modems[0].firmware == part.modems[1].firmware;
    PartSays(part, "d", s, info);
  }

  /** A device listed twice by one modem, or by two of one firmware. */
  ghost predicate Doubled(modems: seq<ModemRow>, d: Device) {
    || (exists m :: m in modems && multiset(m.devices)[d] >= 2)
    || exists k, l :: 0 <= k < l < |modems| && modems[k].firmware == modems[l].firmware
                      && d in modems[k].devices && d in modems[l].devices
  }

  /** The device runs a record's first modems' firmwares, and is doubled if one is named twice. */
  ghost predicate AllRun(modems: seq<ModemRow>, part: seq<ModemRow>, count: nat, d: Device)
    requires count <= |part|
  {
    && (forall j :: 0 <= j < count ==> RunBy(modems, d, part[j].firmware))
    && (!FirmwaresOnce(part[..count]) ==> Doubled(modems, d))
  }

  lemma NoneRun(modems: seq<ModemRow>, part: seq<ModemRow>, d: Device)
    ensures AllRun(modems, part, 0, d)
  {
  }

  lemma StillRun(modems: seq<ModemRow>, f: Firmware, d: Device, k: nat, more: seq<Device>, all: seq<ModemRow>)
    requires k <= |modems| && d in more
    requires all == if k == |modems| then modems + [ModemRow(f, more)] else modems[k := ModemRow(f, more)]
    requires k < |modems| ==>
      modems[k].firmware == f && multiset(more) == multiset(modems[k].devices) + multiset{d}
      && forall e :: e in modems[k].devices ==> e in more
    ensures forall g :: RunBy(modems, d, g) || g == f ==> RunBy(all, d, g)
    ensures Doubled(modems, d) || RunBy(modems, d, f) ==> Doubled(all, d)
  {
    assert all[k] == ModemRow(f, more) && all[k] in all;
    forall g | RunBy(modems, d, g)
      ensures RunBy(all, d, g)
    {
      var i :| 0 <= i < |modems| && modems[i].firmware == g && d in modems[i].devices;
      assert all[i] in all;
    }
    if Doubled(modems, d) {
      StillDoubled(modems, f, d, k, more);
    } else if RunBy(modems, d, f) {
      var i :| 0 <= i < |modems| && modems[i].firmware == f && d in modems[i].devices;
      if i == k {
        assert multiset(all[k].devices)[d] >= 2;
      } else {
        assert all[i] == modems[i];
      }
    }
  }

  lemma StillDoubled(modems: seq<ModemRow>, f: Firmware, d: Device, k: nat, more: seq<Device>)
    requires k <= |modems| && d in more && Doubled(modems, d)
    requires k < |modems| ==>
      modems[k].firmware == f && multiset(more) == multiset(modems[k].devices) + multiset{d}
      && forall e :: e in modems[k].devices ==> e in more
    ensures Doubled(if k == |modems| then modems + [ModemRow(f, more)] else modems[k := ModemRow(f, more)], d)
  {
    var all := if k == |modems| then modems + [ModemRow(f, more)] else modems[k := ModemRow(f, more)];
    if m :| m in modems && multiset(m.devices)[d] >= 2 {
      var i :| 0 <= i < |modems| && modems[i] == m;
      assert all[i] in all && multiset(all[i].devices)[d] >= 2;
    } else {
      var i, j :| 0 <= i < j < |modems| && modems[i].firmware == modems[j].firmware
                  && d in modems[i].devices && d in modems[j].devices;
      assert all[i].firmware == all[j].firmware && d in all[i].devices && d in all[j].devices;
    }
  }

  /** Rows that say a build double no device. */
  lemma NotDoubled(modems: seq<ModemRow>, b: Build, d: Device)
    requires Apart(modems, b) && d in b
    ensures !Doubled(modems, d)
  {
    forall m | m in modems
      ensures multiset(m.devices)[d] <= 1
    {
      var i :| 0 <= i < |modems| && modems[i] == m;
      assert ModemOk(modems[i], b);
      OneEach(m.devices);
    }
    forall k, l | 0 <= k < l < |modems| && modems[k].firmware == modems[l].firmware
                  && d in modems[k].devices && d in modems[l].devices
      ensures false
    {
      assert ModemOk(modems[k], b) && ModemOk(modems[l], b);
      assert modems[k].devices[0] in modems[k].devices && modems[l].devices[0] in modems[l].devices;
      assert Alike(modems[k], modems[l], b);
    }
  }

  lemma RunOnce(r: Rows, s: Shared, b: Build, part: seq<ModemRow>, d: Device)
    requires d in b && AllRun(r.modems, part, |part|, d)
    ensures Says(r, s, b) ==> FirmwaresOnce(part)
  {
    assert part[..|part|] == part;
    if Says(r, s, b) {
      NotDoubled(r.modems, b, d);
    }
  }

  /** Joining a modem or not, a record's next one is run, and doubled if it already was. */
  lemma JoinRuns(modems: seq<ModemRow>, part: Rows, d: Device, s: Shared, info: Info, i: nat, k: nat,
                 others: seq<ConfigRow>, own: seq<Config>)
    requires IsRecord(part, d, s, info) && i < |part.modems| && k <= |modems|
    requires AllRun(modems, part.modems, i, d)
    requires k < |modems| ==> Joins(modems[k], part.modems[i], others, own)
    ensures var m := part.modems[i];
      AllRun(if k == |modems| then modems + [m]
             else modems[k := ModemRow(modems[k].firmware, Sort(modems[k].devices + [d], Less))], part.modems, i + 1, d)
  {
    var m := part.modems[i];
    var more := if k < |modems| then Sort(modems[k].devices + [d], Less) else [d];
    if k < |modems| {
      SortElements(modems[k].devices + [d], Less);
      assert modems[k].firmware == m.firmware;
    }
    assert m == ModemRow(m.firmware, [d]);
    hide *;
    NextRun(modems, part.modems, i, d, k, more);
  }

  lemma NextRun(modems: seq<ModemRow>, part: seq<ModemRow>, i: nat, d: Device, k: nat, more: seq<Device>)
    requires i < |part| && AllRun(modems, part, i, d) && k <= |modems| && d in more
    requires k < |modems| ==>
      modems[k].firmware == part[i].firmware && multiset(more) == multiset(modems[k].devices) + multiset{d}
      && forall e :: e in modems[k].devices ==> e in more
    ensures var m := ModemRow(part[i].firmware, more);
      AllRun(if k == |modems| then modems + [m] else modems[k := m], part, i + 1, d)
  {
    hide RunBy, Doubled, FirmwaresOnce;
    var m := ModemRow(part[i].firmware, more);
    var all := if k == |modems| then modems + [m] else modems[k := m];
    StillRun(modems, part[i].firmware, d, k, more, all);
    OnceMore(part, i);
    forall j | 0 <= j < i + 1
      ensures RunBy(all, d, part[j].firmware)
    {
      assert j < i ==> RunBy(modems, d, part[j].firmware);
    }
    if j :| 0 <= j < i && part[j].firmware == part[i].firmware {
      assert RunBy(modems, d, part[j].firmware);
    }
  }

  lemma OnceMore(part: seq<ModemRow>, i: nat)
    requires i < |part|
    ensures FirmwaresOnce(part[..i]) && !FirmwaresOnce(part[..i + 1]) ==>
      exists j :: 0 <= j < i && part[j].firmware == part[i].firmware
  {
    assert part[..i + 1] == part[..i] + [part[i]];
  }

  lemma FirstModems(held: Rows, part: Rows, d: Device, s: Shared, b: Build, info: Info)
    requires Says(held, s, b) && IsPart(part, d, s, info)
    ensures ConfigsSay(held.configs, b)
    ensures ModemsGroup(OtherModems(held.modems, d), b[d := Info(Ran(part.modems, 0), info.configs)])
  {
    OthersGroup(held.modems, b, d, info.configs);
    assert Ran(part.modems, 0) == {};
  }

  lemma JoinedSays(held: Rows, part: Rows, d: Device, order: (Device, Device) -> bool, s: Shared, b: Build, info: Info,
                   modems: seq<ModemRow>)
    requires Says(held, s, b) && IsPart(part, d, s, info)
    requires ModemsGroup(modems, b[d := Info(Ran(part.modems, |part.modems|), info.configs)])
    ensures var devices := Sort(Once(OtherDevices(held.release.devices, d) + part.release.devices), order);
      Says(Rows(ReleaseRow(part.release.shared, devices, part.release.sourceCount), modems,
                OtherConfigs(held.configs, d) + part.configs), s, b[d := info])
  {
    hide OtherDevices, OtherConfigs, Once, Sort, Carried, ConfigsSay, ModemsGroup, LabelsDistinct, Distinct, Ran, ToSet;
    RanAll(part.modems);
    DevicesJoin(held.release.devices, d, order);
    ConfigsJoin(held.configs, part.configs, d, b, info);
  }

  /** The firmwares of a part's first modems. */
  ghost function Ran(modems: seq<ModemRow>, count: nat): set<Firmware>
    requires count <= |modems|
  {
    set m | m in modems[..count] :: m.firmware
  }

  lemma RanAll(modems: seq<ModemRow>)
    ensures Ran(modems, |modems|) == set m | m in modems :: m.firmware
  {
    assert modems[..|modems|] == modems;
  }

  lemma PartSays(part: Rows, d: Device, s: Shared, info: Info)
    requires IsRecord(part, d, s, info)
    ensures Says(part, s, map[d := info]) <==> FirmwaresOnce(part.modems)
  {
    if Says(part, s, map[d := info]) {
      NotDoubled(part.modems, map[d := info], d);
    }
    if FirmwaresOnce(part.modems) {
      var b := map[d := info];
      forall f | f in info.firmwares
        ensures RunBy(part.modems, d, f)
      {
        var m :| m in part.modems && m.firmware == f;
        assert d in m.devices;
      }
      forall i | 0 <= i < |part.modems|
        ensures ModemOk(part.modems[i], b)
      {
        assert part.modems[i] in part.modems;
      }
    }
  }

  lemma OtherDevicesAre(devices: seq<Device>, d: Device)
    ensures forall x :: x in OtherDevices(devices, d) <==> x in devices && x != d
    ensures Distinct(devices) ==> Distinct(OtherDevices(devices, d))
  {
    if Distinct(devices) {
      FilterDistinct(devices, x => x != d);
    }
  }

  lemma {:induction false} OnceIs(s: seq<Device>)
    ensures Distinct(Once(s)) && forall x :: x in Once(s) <==> x in s
  {
    if s == [] {
    } else {
      OnceIs(s[..|s| - 1]);
      assert s == s[..|s| - 1] + [s[|s| - 1]];
    }
  }

  lemma DevicesJoin(devices: seq<Device>, d: Device, order: (Device, Device) -> bool)
    ensures var joined := Sort(Once(OtherDevices(devices, d) + [d]), order);
      Distinct(joined) && ToSet(joined) == ToSet(devices) + {d}
  {
    hide OtherDevices, Once, Sort;
    OtherDevicesAre(devices, d);
    OnceIs(OtherDevices(devices, d) + [d]);
    SortElements(Once(OtherDevices(devices, d) + [d]), order);
  }

  lemma OtherConfigsAre(configs: seq<ConfigRow>, d: Device)
    ensures forall c :: c in OtherConfigs(configs, d) <==> c in configs && c.device != d
    ensures Distinct(configs) ==> Distinct(OtherConfigs(configs, d))
  {
    if Distinct(configs) {
      FilterDistinct(configs, (c: ConfigRow) => c.device != d);
    }
  }

  lemma OthersCarry(configs: seq<ConfigRow>, b: Build, d: Device)
    requires ConfigsSay(configs, b)
    ensures var others := OtherConfigs(configs, d);
      Distinct(others) && LabelsDistinct(others) && forall e :: e in b && e != d ==> Carried(others, e) == b[e].configs
  {
    OtherConfigsAre(configs, d);
    forall e | e in b && e != d
      ensures Carried(OtherConfigs(configs, d), e) == Carried(configs, e)
    {
    }
  }

  lemma ConfigsJoin(configs: seq<ConfigRow>, own: seq<ConfigRow>, d: Device, b: Build, info: Info)
    requires ConfigsSay(configs, b) && Distinct(own) && LabelsDistinct(own)
    requires (forall c :: c in own ==> c.device == d) && info.configs == Carried(own, d)
    ensures ConfigsSay(OtherConfigs(configs, d) + own, b[d := info])
  {
    var others := OtherConfigs(configs, d);
    OtherConfigsAre(configs, d);
    OthersCarry(configs, b, d);
    forall e | e in b[d := info]
      ensures Carried(others + own, e) == b[d := info][e].configs
    {
      assert Carried(others + own, e) == Carried(others, e) + Carried(own, e);
      if e == d {
        assert Carried(others, d) == {};
      } else {
        assert Carried(own, e) == {};
      }
    }
  }

  lemma CutOk(m: ModemRow, b: Build, d: Device, info: Info)
    requires ModemOk(m, b) && Cut(m, d).devices != []
    ensures ModemOk(Cut(m, d), b[d := info])
    ensures b[d := info][Cut(m, d).devices[0]].configs == b[m.devices[0]].configs
  {
    OtherDevicesAre(m.devices, d);
    assert Cut(m, d).devices[0] in Cut(m, d).devices;
  }

  ghost predicate IsCut(o: ModemRow, modems: seq<ModemRow>, d: Device) {
    exists i :: 0 <= i < |modems| && o == Cut(modems[i], d)
  }

  /** Each modem left is a modem cut, and each one cut but not emptied is left. */
  lemma {:induction false} OtherModemsAre(modems: seq<ModemRow>, d: Device)
    ensures forall o :: o in OtherModems(modems, d) ==> o.devices != [] && IsCut(o, modems, d)
    ensures forall i :: 0 <= i < |modems| && Cut(modems[i], d).devices != [] ==> Cut(modems[i], d) in OtherModems(modems, d)
  {
    hide Cut;
    if modems == [] {
    } else {
      var init, last := modems[..|modems| - 1], Cut(modems[|modems| - 1], d);
      OtherModemsAre(init, d);
      assert OtherModems(modems, d) == OtherModems(init, d) + (if last.devices == [] then [] else [last]);
      hide OtherModems;
      forall o | o in OtherModems(modems, d)
        ensures o.devices != [] && IsCut(o, modems, d)
      {
        if o in OtherModems(init, d) {
          var i :| 0 <= i < |init| && o == Cut(init[i], d);
          assert o == Cut(modems[i], d);
        }
      }
      forall i | 0 <= i < |modems| && Cut(modems[i], d).devices != []
        ensures Cut(modems[i], d) in OtherModems(modems, d)
      {
        if i < |init| {
          assert modems[i] == init[i];
        }
      }
    }
  }

  lemma {:induction false} OthersApart(modems: seq<ModemRow>, b: Build, d: Device, info: Info)
    requires Apart(modems, b)
    ensures Apart(OtherModems(modems, d), b[d := info])
  {
    if modems == [] {
    } else {
      var init, last := modems[..|modems| - 1], modems[|modems| - 1];
      OthersApart(init, b, d, info);
      if Cut(last, d).devices != [] {
        CutOk(last, b, d, info);
        CutApart(modems, b, d, info);
      }
    }
  }

  ghost predicate NoneAlike(modems: seq<ModemRow>, m: ModemRow, b: Build)
    requires ModemOk(m, b)
  {
    forall o :: o in modems ==> ModemOk(o, b) && !Alike(o, m, b)
  }

  lemma CutApart(modems: seq<ModemRow>, b: Build, d: Device, info: Info)
    requires Apart(modems, b) && modems != [] && Cut(modems[|modems| - 1], d).devices != []
    requires ModemOk(Cut(modems[|modems| - 1], d), b[d := info])
    ensures NoneAlike(OtherModems(modems[..|modems| - 1], d), Cut(modems[|modems| - 1], d), b[d := info])
  {
    var init, last := modems[..|modems| - 1], modems[|modems| - 1];
    OtherModemsAre(init, d);
    CutOk(last, b, d, info);
    forall o | o in OtherModems(init, d)
      ensures ModemOk(o, b[d := info]) && !Alike(o, Cut(last, d), b[d := info])
    {
      var i :| 0 <= i < |init| && o == Cut(init[i], d);
      CutOk(modems[i], b, d, info);
      assert !Alike(modems[i], modems[|modems| - 1], b);
    }
  }

  lemma OthersGroup(modems: seq<ModemRow>, b: Build, d: Device, own: set<Config>)
    requires ModemsGroup(modems, b)
    ensures ModemsGroup(OtherModems(modems, d), b[d := Info({}, own)])
  {
    var b' := b[d := Info({}, own)];
    OthersApart(modems, b, d, Info({}, own));
    OtherModemsAre(modems, d);
    forall e, f | e in b' && f in b'[e].firmwares
      ensures RunBy(OtherModems(modems, d), e, f)
    {
      assert RunBy(modems, e, f);
      var m :| m in modems && m.firmware == f && e in m.devices;
      var i :| 0 <= i < |modems| && modems[i] == m;
      OtherDevicesAre(m.devices, d);
      assert e in Cut(m, d).devices;
      assert Cut(modems[i], d) in OtherModems(modems, d);
    }
  }

  /** One more firmware of a device. */
  function More(b: Build, d: Device, f: Firmware): Build
    requires d in b
  {
    b[d := Info(b[d].firmwares + {f}, b[d].configs)]
  }

  lemma NewModem(modems: seq<ModemRow>, b: Build, d: Device, f: Firmware)
    requires ModemsGroup(modems, b) && d in b && f !in b[d].firmwares
    requires forall o :: o in modems && o.firmware == f ==> ModemOk(o, b) && b[o.devices[0]].configs != b[d].configs
    ensures ModemsGroup(modems + [ModemRow(f, [d])], More(b, d, f))
  {
    var b', all := More(b, d, f), modems + [ModemRow(f, [d])];
    forall i | 0 <= i < |modems|
      ensures ModemOk(modems[i], b') && b'[modems[i].devices[0]].configs == b[modems[i].devices[0]].configs
    {
    }
    forall i | 0 <= i < |modems|
      ensures !Alike(modems[i], ModemRow(f, [d]), b') && !Alike(ModemRow(f, [d]), modems[i], b')
    {
      assert modems[i] in modems;
    }
    forall i, j | 0 <= i < |modems| && 0 <= j < |modems| && i != j
      ensures !Alike(modems[i], modems[j], b')
    {
      assert !Alike(modems[i], modems[j], b);
    }
    forall e, g | e in b' && g in b'[e].firmwares
      ensures RunBy(all, e, g)
    {
      if e == d && g == f {
        assert ModemRow(f, [d]) in all;
      } else {
        assert RunBy(modems, e, g);
        var m :| m in modems && m.firmware == g && e in m.devices;
        assert m in all;
      }
    }
  }

  lemma JoinModem(modems: seq<ModemRow>, b: Build, d: Device, k: nat, devices: seq<Device>)
    requires ModemsGroup(modems, b) && d in b && k < |modems| && modems[k].firmware !in b[d].firmwares
    requires b[modems[k].devices[0]].configs == b[d].configs
    requires Distinct(devices) && forall x :: x in devices <==> x in modems[k].devices || x == d
    ensures ModemsGroup(modems[k := ModemRow(modems[k].firmware, devices)], More(b, d, modems[k].firmware))
  {
    var f := modems[k].firmware;
    var b', all := More(b, d, f), modems[k := ModemRow(f, devices)];
    assert d in devices;
    assert Apart(all, b') by {
      JoinApart(modems, b, d, k, devices);
    }
    forall e, g | e in b' && g in b'[e].firmwares
      ensures RunBy(all, e, g)
    {
      if e == d && g == f {
        assert all[k] in all;
      } else {
        assert RunBy(modems, e, g);
        var i :| 0 <= i < |modems| && modems[i].firmware == g && e in modems[i].devices;
        assert all[i] in all;
      }
    }
  }

  /** A modem is as it was when a device runs one more firmware. */
  lemma StillOk(m: ModemRow, b: Build, d: Device, f: Firmware)
    requires ModemOk(m, b) && d in b
    ensures ModemOk(m, More(b, d, f)) && More(b, d, f)[m.devices[0]].configs == b[m.devices[0]].configs
  {
    assert m.devices[0] in m.devices;
  }

  /** A device joins a modem of its configurations. */
  lemma JoinedOk(m: ModemRow, b: Build, d: Device, devices: seq<Device>)
    requires ModemOk(m, b) && d in b && b[m.devices[0]].configs == b[d].configs
    requires Distinct(devices) && forall x :: x in devices <==> x in m.devices || x == d
    ensures var joined, b' := ModemRow(m.firmware, devices), More(b, d, m.firmware);
      ModemOk(joined, b') && b'[devices[0]].configs == b[m.devices[0]].configs
  {
    var b' := More(b, d, m.firmware);
    assert m.devices[0] in m.devices && d in devices && devices[0] in devices;
    forall x | x in devices
      ensures x in b' && m.firmware in b'[x].firmwares && b'[x].configs == b[d].configs
    {
      assert x in m.devices || x == d;
    }
  }

  lemma JoinApart(modems: seq<ModemRow>, b: Build, d: Device, k: nat, devices: seq<Device>)
    requires Apart(modems, b) && d in b && k < |modems|
    requires b[modems[k].devices[0]].configs == b[d].configs
    requires Distinct(devices) && forall x :: x in devices <==> x in modems[k].devices || x == d
    ensures Apart(modems[k := ModemRow(modems[k].firmware, devices)], More(b, d, modems[k].firmware))
  {
    var f := modems[k].firmware;
    var b', all := More(b, d, f), modems[k := ModemRow(f, devices)];
    forall i | 0 <= i < |modems|
      ensures ModemOk(all[i], b') && b'[all[i].devices[0]].configs == b[modems[i].devices[0]].configs
    {
      if i == k {
        JoinedOk(modems[k], b, d, devices);
      } else {
        assert all[i] == modems[i] && ModemOk(modems[i], b);
        StillOk(modems[i], b, d, f);
      }
    }
    hide More, ModemOk;
    forall i, j | 0 <= i < |all| && 0 <= j < |all| && i != j
      ensures !Alike(all[i], all[j], b')
    {
      assert !Alike(modems[i], modems[j], b);
    }
  }

  /** Comparing sorted configurations finds the modem whose devices carry what the part's device carries. */
  lemma JoinsMeans(o: ModemRow, m: ModemRow, held: seq<ConfigRow>, part: Rows, d: Device, s: Shared, b: Build, info: Info,
                   ran: set<Firmware>)
    requires ConfigsSay(held, b) && IsPart(part, d, s, info) && m.firmware !in ran
    requires ModemOk(o, b[d := Info(ran, info.configs)]) && o.firmware == m.firmware
    ensures Joins(o, m, OtherConfigs(held, d), ConfigsOf(part.configs, d))
      <==> b[d := Info(ran, info.configs)][o.devices[0]].configs == info.configs
    ensures d !in o.devices
  {
    var others := OtherConfigs(held, d);
    OthersCarry(held, b, d);
    assert o.devices[0] in o.devices;
    forall e | e in o.devices
      ensures ConfigsOf(others, e) == ConfigsOf(part.configs, d) <==> b[e].configs == info.configs
    {
      SameConfigs(others, e, part.configs, d);
    }
  }

  lemma NoneCarries(held: seq<ConfigRow>, part: Rows, d: Device, s: Shared, b: Build, info: Info, modems: seq<ModemRow>,
                    m: ModemRow, ran: set<Firmware>)
    requires ConfigsSay(held, b) && IsPart(part, d, s, info) && m.firmware !in ran
    requires Apart(modems, b[d := Info(ran, info.configs)])
    requires forall j :: 0 <= j < |modems| ==>
      !Joins(modems[j], m, OtherConfigs(held, d), ConfigsOf(part.configs, d))
    ensures var now := b[d := Info(ran, info.configs)];
      forall o :: o in modems && o.firmware == m.firmware ==>
        ModemOk(o, now) && now[o.devices[0]].configs != now[d].configs
  {
    hide ConfigsSay, IsPart, OtherConfigs, ConfigsOf, Joins;
    forall o | o in modems && o.firmware == m.firmware
      ensures var now := b[d := Info(ran, info.configs)];
        ModemOk(o, now) && now[o.devices[0]].configs != now[d].configs
    {
      var j :| 0 <= j < |modems| && modems[j] == o;
      JoinsMeans(o, m, held, part, d, s, b, info, ran);
    }
  }

  lemma JoinKeeps(held: seq<ConfigRow>, part: Rows, d: Device, s: Shared, b: Build, info: Info, modems: seq<ModemRow>,
                  i: nat, k: nat)
    requires ConfigsSay(held, b) && IsPart(part, d, s, info) && i < |part.modems| && k <= |modems|
    requires ModemsGroup(modems, b[d := Info(Ran(part.modems, i), info.configs)])
    requires var m, others, own := part.modems[i], OtherConfigs(held, d), ConfigsOf(part.configs, d);
      && (k < |modems| ==> Joins(modems[k], m, others, own))
      && forall j :: 0 <= j < k ==> !Joins(modems[j], m, others, own)
    ensures var m := part.modems[i];
      ModemsGroup(if k == |modems| then modems + [m]
                  else modems[k := ModemRow(modems[k].firmware, Sort(modems[k].devices + [d], Less))],
                  b[d := Info(Ran(part.modems, i + 1), info.configs)])
  {
    var m, ran := part.modems[i], Ran(part.modems, i);
    var now := b[d := Info(ran, info.configs)];
    NotYetRan(part.modems, i);
    assert m == ModemRow(m.firmware, [d]);
    hide ConfigsSay, IsPart, OtherConfigs, ConfigsOf, Joins, Sort, Alike;
    assert More(now, d, m.firmware) == b[d := Info(Ran(part.modems, i + 1), info.configs)];
    if k == |modems| {
      NoneCarries(held, part, d, s, b, info, modems, m, ran);
      NewModem(modems, now, d, m.firmware);
    } else {
      JoinsMeans(modems[k], m, held, part, d, s, b, info, ran);
      SortElements(modems[k].devices + [d], Less);
      JoinModem(modems, now, d, k, Sort(modems[k].devices + [d], Less));
    }
  }

  lemma NotYetRan(modems: seq<ModemRow>, i: nat)
    requires i < |modems|
    requires forall i, j :: 0 <= i < j < |modems| ==> modems[i].firmware != modems[j].firmware
    ensures modems[i].firmware !in Ran(modems, i)
    ensures Ran(modems, i + 1) == Ran(modems, i) + {modems[i].firmware}
  {
    assert modems[..i + 1] == modems[..i] + [modems[i]];
  }

  // Any order of the records, and any repeats.

  datatype DeviceRecord = DeviceRecord(device: Device, part: Rows)

  ghost predicate RecordsSay(records: seq<DeviceRecord>, s: Shared, all: Build) {
    forall i :: 0 <= i < |records| ==>
      records[i].device in all && IsPart(records[i].part, records[i].device, s, all[records[i].device])
  }

  /** What the records that arrived say. */
  ghost function Arrived(records: seq<DeviceRecord>, all: Build): Build {
    map d | d in all && exists i :: 0 <= i < |records| && records[i].device == d :: all[d]
  }

  /** Rows with each list but the devices reordered, as an index may give them back. */
  ghost predicate Reordered(r: Rows, r': Rows) {
    r'.release == r.release && multiset(r'.modems) == multiset(r.modems) && multiset(r'.configs) == multiset(r.configs)
  }

  ghost predicate ReadsBack(readBack: (nat, Rows) -> Rows) {
    forall n: nat, r: Rows :: Reordered(r, readBack(n, r))
  }

  /**
   * A build's rows once its records arrived one after another. Before the n-th joins them the rows written are read back
   * from the index, in whatever order that gives them.
   */
  method Fold(records: seq<DeviceRecord>, order: (Device, Device) -> bool, readBack: (nat, Rows) -> Rows,
              ghost s: Shared, ghost all: Build)
    returns (r: Option<Rows>)
    requires RecordsSay(records, s, all) && ReadsBack(readBack)
    ensures r == None <==> records == []
    ensures r.Some? ==> Says(r.value, s, Arrived(records, all))
  {
    hide *;
    r := None;
    for n := 0 to |records|
      invariant r == None <==> n == 0
      invariant r.Some? ==> Says(r.value, s, Arrived(records[..n], all))
    {
      OneMore(records, n, s, all);
      var held := if r == None then None else Some(readBack(n, r.value));
      if r.Some? {
        HeldSays(readBack, n, r.value, s, Arrived(records[..n], all));
      }
      r := WithPart(held, records[n].part, records[n].device, order,
        s, Arrived(records[..n], all), all[records[n].device]);
    }
    assert records[..|records|] == records;
  }

  lemma HeldSays(readBack: (nat, Rows) -> Rows, n: nat, r: Rows, s: Shared, b: Build)
    requires ReadsBack(readBack) && Says(r, s, b)
    ensures Says(readBack(n, r), s, b) && readBack(n, r).release.shared == s
  {
    assert Reordered(r, readBack(n, r));
    ReadBackSays(r, readBack(n, r), s, b);
  }

  lemma OneMore(records: seq<DeviceRecord>, n: nat, s: Shared, all: Build)
    requires RecordsSay(records, s, all) && n < |records|
    ensures records[n].device in all && records[n].part.release.shared == s
    ensures IsPart(records[n].part, records[n].device, s, all[records[n].device])
    ensures Arrived(records[..n + 1], all) == Arrived(records[..n], all)[records[n].device := all[records[n].device]]
    ensures n == 0 ==> Arrived(records[..n + 1], all) == map[records[n].device := all[records[n].device]]
  {
  }

  /** Rows alike but for the order of each list. */
  ghost predicate SameGrouping(r: Rows, r': Rows) {
    && r.release.shared == r'.release.shared && ToSet(r.release.devices) == ToSet(r'.release.devices)
    && ToSet(r.configs) == ToSet(r'.configs) && Groups(r.modems) == Groups(r'.modems)
  }

  /** The records of a build's devices, in two orders, with any repeats and read back anyhow, end in the same grouping. */
  method FoldTwice(records: seq<DeviceRecord>, records': seq<DeviceRecord>, order: (Device, Device) -> bool,
                   readBack: (nat, Rows) -> Rows, readBack': (nat, Rows) -> Rows, ghost s: Shared, ghost all: Build)
    returns (r: Option<Rows>, r': Option<Rows>)
    requires ReadsBack(readBack) && ReadsBack(readBack')
    requires RecordsSay(records, s, all) && RecordsSay(records', s, all)
    requires forall x :: x in records <==> x in records'
    ensures r.Some? <==> r'.Some?
    ensures r.Some? && r'.Some? ==> SameGrouping(r.value, r'.value)
  {
    r := Fold(records, order, readBack, s, all);
    r' := Fold(records', order, readBack', s, all);
    SameArrived(records, records', all);
    assert records != [] ==> records[0] in records';
    assert records' != [] ==> records'[0] in records;
    if r.Some? {
      SaysDetermines(r.value, r'.value, s, Arrived(records, all));
    }
  }

  lemma SameArrived(records: seq<DeviceRecord>, records': seq<DeviceRecord>, all: Build)
    requires forall x :: x in records <==> x in records'
    ensures Arrived(records, all) == Arrived(records', all)
  {
    forall d | d in all
      ensures d in Arrived(records, all) <==> d in Arrived(records', all)
    {
      if d in Arrived(records, all) {
        var i :| 0 <= i < |records| && records[i].device == d;
        assert records[i] in records;
        var j :| 0 <= j < |records'| && records'[j] == records[i];
        assert records'[j].device == d;
      }
      if d in Arrived(records', all) {
        var i :| 0 <= i < |records'| && records'[i].device == d;
        assert records'[i] in records';
        var j :| 0 <= j < |records| && records[j] == records'[i];
        assert records[j].device == d;
      }
    }
  }

  /** Rows read back from the index in another order say the same. */
  lemma ReadBackSays(r: Rows, r': Rows, s: Shared, b: Build)
    requires Says(r, s, b) && Reordered(r, r')
    ensures Says(r', s, b)
  {
    SameElements(r'.configs, r.configs);
    SameElements(r'.modems, r.modems);
    ReorderedDistinct(r.configs, r'.configs);
    assert Carries(r.configs, r'.configs);
    ReorderedGroups(r.modems, r'.modems, b);
  }

  ghost predicate Carries(configs: seq<ConfigRow>, configs': seq<ConfigRow>)
    requires forall c :: c in configs <==> c in configs'
  {
    forall d :: Carried(configs, d) == Carried(configs', d)
  }

  lemma SameElements<T>(s: seq<T>, t: seq<T>)
    requires multiset(s) == multiset(t)
    ensures forall x :: x in s <==> x in t
  {
    forall x
      ensures x in s <==> x in t
    {
      assert x in s <==> x in multiset(s);
      assert x in t <==> x in multiset(t);
    }
  }

  lemma ReorderedDistinct<T>(s: seq<T>, t: seq<T>)
    requires Distinct(s) && multiset(s) == multiset(t)
    ensures Distinct(t)
  {
    OneEach(s);
    ManyNone(t);
  }

  lemma ReorderedGroups(modems: seq<ModemRow>, modems': seq<ModemRow>, b: Build)
    requires ModemsGroup(modems, b) && multiset(modems') == multiset(modems)
    ensures ModemsGroup(modems', b)
  {
    SameElements(modems', modems);
    assert Distinct(modems) by {
      forall i, j | 0 <= i < j < |modems|
        ensures modems[i] != modems[j]
      {
        assert !Alike(modems[i], modems[j], b);
      }
    }
    ReorderedDistinct(modems, modems');
    forall i | 0 <= i < |modems'|
      ensures ModemOk(modems'[i], b)
    {
      assert modems'[i] in modems;
    }
    forall i, j | 0 <= i < |modems'| && 0 <= j < |modems'| && i != j
      ensures !Alike(modems'[i], modems'[j], b)
    {
      assert modems'[i] in modems && modems'[j] in modems;
      var k :| 0 <= k < |modems| && modems[k] == modems'[i];
      var l :| 0 <= l < |modems| && modems[l] == modems'[j];
      assert !Alike(modems[k], modems[l], b);
    }
    forall d, f | d in b && f in b[d].firmwares
      ensures RunBy(modems', d, f)
    {
      assert RunBy(modems, d, f);
    }
  }
}
