/**
 * The held records a reindex goes through (apps/extractor/src/reindex.ts): the bucket's keys under each record prefix,
 * listed on from any of them.
 */
module HeldRecords {
  import opened IndexProtocol
  import opened Options
  import opened Sequences
  import opened Text

  /** Keys are ordered as their prefixes are, when neither prefix is one of the other. */
  lemma {:induction false} PrefixesOrder(p: string, q: string, a: string, b: string)
    requires Less(p, q) && !StartsWith(q, p) && StartsWith(a, p) && StartsWith(b, q)
    ensures Less(a, b)
  {
    hide StartsWith;
    if p == "" {
      StartsEmpty(q);
    } else {
      StartsLonger(a, p);
      StartsLonger(b, q);
      StartsTail(a, p);
      StartsTail(b, q);
      StartsTail(q, p);
      if p[0] == q[0] {
        PrefixesOrder(p[1..], q[1..], a[1..], b[1..]);
      }
    }
  }

  ghost predicate Sorted(keys: seq<string>) {
    forall i, j :: 0 <= i < j < |keys| ==> Less(keys[i], keys[j])
  }

  /** Sorted, and none a prefix of another. */
  ghost predicate Separate(prefixes: seq<string>) {
    && Sorted(prefixes)
    && forall i, j :: 0 <= i < |prefixes| && 0 <= j < |prefixes| && i != j ==> !StartsWith(prefixes[j], prefixes[i])
  }

  predicate Follows(key: string, after: Option<string>) {
    after.Some? ==> Less(after.value, key)
  }

  /** The keys that follow `after`. */
  function Later(keys: seq<string>, after: Option<string>): seq<string> {
    Filter(keys, k => Follows(k, after))
  }

  /** A bucket's listing of a prefix, from after a key on. */
  function Listed(keys: seq<string>, prefix: string, after: Option<string>): seq<string> {
    Filter(keys, k => StartsWith(k, prefix) && Follows(k, after))
  }

  /** A prefix's records. */
  function Under(keys: seq<string>, prefix: string, after: Option<string>, isRecord: string -> bool): seq<string> {
    Filter(Listed(keys, prefix, after), isRecord)
  }

  /** Every held record, prefix by prefix. */
  function All(keys: seq<string>, prefixes: seq<string>, isRecord: string -> bool): seq<string> {
    if prefixes == [] then [] else Under(keys, prefixes[0], None, isRecord) + All(keys, prefixes[1..], isRecord)
  }

  lemma UnderIs(keys: seq<string>, prefix: string, after: Option<string>, isRecord: string -> bool)
    ensures forall k :: k in Under(keys, prefix, after, isRecord) <==>
      k in keys && StartsWith(k, prefix) && isRecord(k) && Follows(k, after)
  {
  }

  /** The records under a prefix from after r on are those of its whole listing that follow r. */
  lemma UnderLater(keys: seq<string>, prefix: string, r: string, isRecord: string -> bool)
    ensures Under(keys, prefix, Some(r), isRecord) == Later(Under(keys, prefix, None, isRecord), Some(r))
  {
    var here, on := (k: string) => StartsWith(k, prefix) && Follows(k, None), (k: string) => Follows(k, Some(r));
    var hereOn := (k: string) => StartsWith(k, prefix) && Follows(k, Some(r));
    var record := (k: string) => StartsWith(k, prefix) && isRecord(k);
    var recordOn := (k: string) => StartsWith(k, prefix) && Follows(k, Some(r)) && isRecord(k);
    FilterTwice(keys, hereOn, isRecord, recordOn);
    FilterTwice(keys, here, isRecord, record);
    FilterTwice(keys, record, on, recordOn);
  }

  lemma {:induction false} FilterSorted(keys: seq<string>, p: string -> bool)
    requires Sorted(keys)
    ensures Sorted(Filter(keys, p))
  {
    if keys == [] {
    } else {
      var init, last := keys[..|keys| - 1], keys[|keys| - 1];
      FilterSorted(init, p);
      forall k | k in Filter(init, p)
        ensures Less(k, last)
      {
        var i :| 0 <= i < |init| && init[i] == k;
        assert Less(keys[i], keys[|keys| - 1]);
      }
    }
  }

  /** The records under the prefixes, those under the first one after `after`. */
  function From(keys: seq<string>, prefixes: seq<string>, after: Option<string>, isRecord: string -> bool): seq<string> {
    if prefixes == [] then [] else Under(keys, prefixes[0], after, isRecord) + All(keys, prefixes[1..], isRecord)
  }

  /** The records after r, listed on from the first prefix that is r's; None is a key under no prefix. */
  function After(keys: seq<string>, prefixes: seq<string>, r: string, isRecord: string -> bool): Option<seq<string>> {
    if prefixes == [] then None
    else if StartsWith(r, prefixes[0]) then Some(From(keys, prefixes, Some(r), isRecord))
    else After(keys, prefixes[1..], r, isRecord)
  }

  method IndexOfPrefix(prefixes: seq<string>, key: string) returns (from: nat)
    ensures from <= |prefixes| && forall i :: 0 <= i < from ==> !StartsWith(key, prefixes[i])
    ensures from < |prefixes| ==> StartsWith(key, prefixes[from])
  {
    from := 0;
    while from < |prefixes| && !StartsWith(key, prefixes[from])
      invariant from <= |prefixes| && forall i :: 0 <= i < from ==> !StartsWith(key, prefixes[i])
    {
      from := from + 1;
    }
  }

  lemma {:induction false} AfterAt(keys: seq<string>, prefixes: seq<string>, key: string, isRecord: string -> bool, from: nat)
    requires from <= |prefixes| && forall i :: 0 <= i < from ==> !StartsWith(key, prefixes[i])
    requires from < |prefixes| ==> StartsWith(key, prefixes[from])
    ensures After(keys, prefixes, key, isRecord)
      == if from == |prefixes| then None else Some(From(keys, prefixes[from..], Some(key), isRecord))
  {
    if from == 0 {
      assert prefixes[0..] == prefixes;
    } else {
      AfterAt(keys, prefixes[1..], key, isRecord, from - 1);
      assert prefixes[1..][from - 1..] == prefixes[from..];
    }
  }

  /** A listing's records. */
  method Yield(listing: seq<string>, isRecord: string -> bool) returns (records: seq<string>)
    ensures records == Filter(listing, isRecord)
  {
    records := [];
    for j := 0 to |listing|
      invariant records == Filter(listing[..j], isRecord)
    {
      FilterNext(listing, j, isRecord);
      if isRecord(listing[j]) {
        records := records + [listing[j]];
      }
    }
    assert listing[..|listing|] == listing;
  }

  /**
   * Every held record after `after` (None: from the first), in the order the prefixes and the bucket list them. None
   * stands for the error of a key under no prefix.
   */
  method Records(keys: seq<string>, prefixes: seq<string>, after: Option<string>, isRecord: string -> bool)
    returns (r: Option<seq<string>>)
    ensures after == None ==> r == Some(All(keys, prefixes, isRecord))
    ensures after.Some? ==> r == After(keys, prefixes, after.value, isRecord)
  {
    hide *;
    var from := 0;
    if after.Some? {
      from := IndexOfPrefix(prefixes, after.value);
      AfterAt(keys, prefixes, after.value, isRecord, from);
      if from == |prefixes| {
        return None;
      }
    }
    var records := [];
    ghost var all := From(keys, prefixes[from..], after, isRecord);
    for i := from to |prefixes|
      invariant all == records + From(keys, prefixes[i..], if i == from then after else None, isRecord)
    {
      var options := if i == from then after else None;
      var more := Yield(Listed(keys, prefixes[i], options), isRecord);
      FromNext(keys, prefixes, i, options, isRecord);
      ghost var rest := From(keys, prefixes[i + 1..], None, isRecord);
      Associate(records, more, rest);
      records := records + more;
    }
    assert prefixes[0..] == prefixes;
    FromEnds(keys, prefixes, isRecord);
    assert prefixes[|prefixes|..] == [] && records + [] == records;
    return Some(records);
  }

  lemma FromEnds(keys: seq<string>, prefixes: seq<string>, isRecord: string -> bool)
    ensures From(keys, prefixes, None, isRecord) == All(keys, prefixes, isRecord)
    ensures forall after :: From(keys, [], after, isRecord) == []
  {
  }

  lemma FromNext(keys: seq<string>, prefixes: seq<string>, i: nat, after: Option<string>, isRecord: string -> bool)
    requires i < |prefixes|
    ensures From(keys, prefixes[i..], after, isRecord)
      == Filter(Listed(keys, prefixes[i], after), isRecord) + From(keys, prefixes[i + 1..], None, isRecord)
  {
    assert prefixes[i..][1..] == prefixes[i + 1..];
  }

  /** The whole listing is every key under some prefix that names a record. */
  lemma {:induction false} AllIs(keys: seq<string>, prefixes: seq<string>, isRecord: string -> bool)
    ensures forall k :: k in All(keys, prefixes, isRecord) <==>
      k in keys && isRecord(k) && exists p :: p in prefixes && StartsWith(k, p)
  {
    if prefixes == [] {
    } else {
      UnderIs(keys, prefixes[0], None, isRecord);
      AllIs(keys, prefixes[1..], isRecord);
      assert prefixes == [prefixes[0]] + prefixes[1..];
    }
  }

  /** What lies under later prefixes is later. */
  lemma AllAbove(keys: seq<string>, prefixes: seq<string>, a: string, isRecord: string -> bool)
    requires Separate(prefixes) && prefixes != [] && StartsWith(a, prefixes[0])
    ensures forall b :: b in All(keys, prefixes[1..], isRecord) ==> Less(a, b)
  {
    var later := prefixes[1..];
    AllIs(keys, later, isRecord);
    forall b | b in All(keys, later, isRecord)
      ensures Less(a, b)
    {
      var i :| 0 <= i < |later| && StartsWith(b, later[i]);
      assert later[i] == prefixes[i + 1];
      PrefixesOrder(prefixes[0], later[i], a, b);
    }
  }

  /** The whole listing is in key order, so it lists each record once. */
  lemma {:induction false} AllSorted(keys: seq<string>, prefixes: seq<string>, isRecord: string -> bool)
    requires Sorted(keys) && Separate(prefixes)
    ensures Sorted(All(keys, prefixes, isRecord)) && Distinct(All(keys, prefixes, isRecord))
  {
    if prefixes == [] {
    } else {
      var p, later := prefixes[0], prefixes[1..];
      FilterSorted(keys, k => StartsWith(k, p) && Follows(k, None));
      FilterSorted(Listed(keys, p, None), isRecord);
      AllSorted(keys, later, isRecord);
      UnderIs(keys, p, None, isRecord);
      forall a, b | a in Under(keys, p, None, isRecord) && b in All(keys, later, isRecord)
        ensures Less(a, b)
      {
        AllAbove(keys, prefixes, a, isRecord);
      }
    }
    SortedDistinct(All(keys, prefixes, isRecord));
  }

  lemma SortedDistinct(keys: seq<string>)
    requires Sorted(keys)
    ensures Distinct(keys)
  {
    forall i, j | 0 <= i < j < |keys|
      ensures keys[i] != keys[j]
    {
      LessIrreflexive(keys[i]);
    }
  }

  predicate UnderAny(key: string, prefixes: seq<string>) {
    exists p :: p in prefixes && StartsWith(key, p)
  }

  /** Listing on from a key gives exactly the records of the whole listing that follow it, or an error under no prefix. */
  lemma {:induction false} AfterIsLater(keys: seq<string>, prefixes: seq<string>, r: string, isRecord: string -> bool)
    requires Separate(prefixes)
    ensures After(keys, prefixes, r, isRecord)
      == if UnderAny(r, prefixes) then Some(Later(All(keys, prefixes, isRecord), Some(r))) else None
  {
    if prefixes == [] {
    } else {
      var p, later := prefixes[0], prefixes[1..];
      var mine, others := Under(keys, p, None, isRecord), All(keys, later, isRecord);
      FilterBoth(mine, others, k => Follows(k, Some(r)));
      if StartsWith(r, p) {
        UnderLater(keys, p, r, isRecord);
        AllAbove(keys, prefixes, r, isRecord);
        FilterAll(others, k => Follows(k, Some(r)));
      } else {
        assert UnderAny(r, prefixes) <==> UnderAny(r, later) by {
          assert prefixes == [p] + later;
        }
        AfterIsLater(keys, later, r, isRecord);
        if UnderAny(r, later) {
          NoneLater(keys, prefixes, r, isRecord);
          assert [] + Later(others, Some(r)) == Later(others, Some(r));
        }
      }
    }
  }

  /** No record under a first prefix follows a key under a later one. */
  lemma NoneLater(keys: seq<string>, prefixes: seq<string>, r: string, isRecord: string -> bool)
    requires Separate(prefixes) && prefixes != [] && UnderAny(r, prefixes[1..])
    ensures Later(Under(keys, prefixes[0], None, isRecord), Some(r)) == []
  {
    var p, later := prefixes[0], prefixes[1..];
    var i :| 0 <= i < |later| && StartsWith(r, later[i]);
    assert later[i] == prefixes[i + 1];
    UnderIs(keys, p, None, isRecord);
    forall k | k in Under(keys, p, None, isRecord)
      ensures !Follows(k, Some(r))
    {
      PrefixesOrder(p, later[i], k, r);
      if Less(r, k) {
        LessTransitive(r, k, r);
        LessIrreflexive(r);
      }
    }
    FilterNone(Under(keys, p, None, isRecord), k => Follows(k, Some(r)));
  }

  /** The records after r. */
  function Remaining(held: seq<string>, r: string): seq<string> {
    if held == [] then [] else if held[0] == r then held[1..] else Remaining(held[1..], r)
  }

  lemma {:induction false} RemainingIsLater(held: seq<string>, r: string)
    requires Sorted(held) && r in held
    ensures Remaining(held, r) == Later(held, Some(r))
  {
    hide Less, Filter;
    var first, rest := held[0], held[1..];
    assert held == [first] + rest;
    assert Sorted(rest);
    FilterBoth([first], rest, k => Follows(k, Some(r)));
    if first == r {
      LessIrreflexive(r);
      FilterNone([first], k => Follows(k, Some(r)));
      FilterAll(rest, k => Follows(k, Some(r)));
    } else {
      var i :| 0 <= i < |held| && held[i] == r;
      assert Less(first, r) && rest[i - 1] == r;
      if Less(r, first) {
        LessTransitive(r, first, r);
        LessIrreflexive(r);
      }
      FilterNone([first], k => Follows(k, Some(r)));
      RemainingIsLater(rest, r);
    }
  }

  /** Listing on from a record gives exactly the records that follow it in the whole listing. */
  lemma AfterIsRemaining(keys: seq<string>, prefixes: seq<string>, r: string, isRecord: string -> bool)
    requires Sorted(keys) && Separate(prefixes) && r in All(keys, prefixes, isRecord)
    ensures After(keys, prefixes, r, isRecord) == Some(Remaining(All(keys, prefixes, isRecord), r))
  {
    AllIs(keys, prefixes, isRecord);
    AllSorted(keys, prefixes, isRecord);
    AfterIsLater(keys, prefixes, r, isRecord);
    RemainingIsLater(All(keys, prefixes, isRecord), r);
  }

  /** What follows the first of the later ones are the rest of them. */
  lemma LaterNext(held: seq<string>, after: Option<string>)
    requires Sorted(held) && Later(held, after) != []
    ensures Later(held, Some(Later(held, after)[0])) == Later(held, after)[1..]
  {
    var left := Later(held, after);
    FilterSorted(held, k => Follows(k, after));
    assert left[0] in left;
    LaterTwice(held, after, left[0]);
    FirstOfSorted(left);
  }

  lemma LaterTwice(held: seq<string>, after: Option<string>, first: string)
    requires Follows(first, after)
    ensures Later(Later(held, after), Some(first)) == Later(held, Some(first))
  {
    forall k | Less(first, k)
      ensures Follows(k, after)
    {
      if after.Some? {
        LessTransitive(after.value, first, k);
      }
    }
    FilterTwice(held, k => Follows(k, after), k => Follows(k, Some(first)), k => Follows(k, Some(first)));
  }

  lemma FirstOfSorted(s: seq<string>)
    requires Sorted(s) && s != []
    ensures Later(s, Some(s[0])) == s[1..]
  {
    RemainingIsLater(s, s[0]);
  }

  /** Where a platform's records are listed, or every platform's, sorted. */
  function RecordPrefixes(platform: Option<Platform>): seq<string> {
    match platform
    case Some(Ios) => ["ota/apple/files/", "releases/ios/"]
    case Some(Android) => ["ota/pixel/files/", "releases/android/"]
    case Some(Samsung) => ["releases/samsung/"]
    case None => ["ota/apple/files/", "ota/pixel/files/", "releases/android/", "releases/ios/", "releases/samsung/"]
  }

  /** Strings that first differ at i. */
  lemma {:induction false} DifferAt(a: string, b: string, i: nat)
    requires i < |a| && i < |b| && a[..i] == b[..i] && a[i] < b[i]
    ensures Less(a, b) && !StartsWith(a, b) && !StartsWith(b, a)
  {
    StartsElse(a, b, i);
    StartsElse(b, a, i);
    if i == 0 {
    } else {
      assert a[0] == a[..i][0] == b[..i][0] == b[0];
      assert a[1..][..i - 1] == a[..i][1..] && b[1..][..i - 1] == b[..i][1..];
      DifferAt(a[1..], b[1..], i - 1);
    }
  }

  lemma RecordPrefixesSeparate(platform: Option<Platform>)
    ensures Separate(RecordPrefixes(platform))
  {
    hide Less, StartsWith;
    var all := RecordPrefixes(None);
    DifferAt(all[0], all[1], 4);
    DifferAt(all[0], all[2], 0);
    DifferAt(all[0], all[3], 0);
    DifferAt(all[0], all[4], 0);
    DifferAt(all[1], all[2], 0);
    DifferAt(all[1], all[3], 0);
    DifferAt(all[1], all[4], 0);
    DifferAt(all[2], all[3], 9);
    DifferAt(all[2], all[4], 9);
    DifferAt(all[3], all[4], 9);
  }

  // Whose a key is.

  datatype Feed = Apple | Pixel

  function PlatformName(p: Platform): string {
    match p
    case Ios => "ios"
    case Android => "android"
    case Samsung => "samsung"
  }

  function FeedName(f: Feed): string {
    match f
    case Apple => "apple"
    case Pixel => "pixel"
  }

  /** The platform a feed's files are indexed with. */
  function FeedPlatform(f: Feed): Platform {
    match f
    case Apple => Ios
    case Pixel => Android
  }

  function ReleasePrefix(p: Platform): string {
    "releases/" + PlatformName(p) + "/"
  }

  function FilesPrefix(f: Feed): string {
    "ota/" + FeedName(f) + "/files/"
  }

  /** A platform's keys are those under its own name and under the feeds indexed with it. */
  predicate Owns(p: Platform, key: string) {
    StartsWith(key, ReleasePrefix(p)) || exists f: Feed :: FeedPlatform(f) == p && StartsWith(key, FilesPrefix(f))
  }

  /** The prefixes, by name and feed. */
  lemma PrefixesAre()
    ensures RecordPrefixes(Some(Ios)) == [FilesPrefix(Apple), ReleasePrefix(Ios)]
    ensures RecordPrefixes(Some(Android)) == [FilesPrefix(Pixel), ReleasePrefix(Android)]
    ensures RecordPrefixes(Some(Samsung)) == [ReleasePrefix(Samsung)]
    ensures RecordPrefixes(None)
      == [FilesPrefix(Apple), FilesPrefix(Pixel), ReleasePrefix(Android), ReleasePrefix(Ios), ReleasePrefix(Samsung)]
  {
    assert FilesPrefix(Apple) == "ota/apple/files/" && FilesPrefix(Pixel) == "ota/pixel/files/";
    assert ReleasePrefix(Android) == "releases/android/" && ReleasePrefix(Ios) == "releases/ios/";
    assert ReleasePrefix(Samsung) == "releases/samsung/";
    hide FilesPrefix, ReleasePrefix;
  }

  lemma UnderEither(key: string, p: string, q: string)
    ensures UnderAny(key, [p]) <==> StartsWith(key, p)
    ensures UnderAny(key, [p, q]) <==> StartsWith(key, p) || StartsWith(key, q)
  {
    hide StartsWith;
    assert p in [p] && p in [p, q] && q in [p, q];
  }

  /** A platform's prefixes list its own keys. */
  lemma PrefixesOwn(p: Platform, key: string)
    ensures UnderAny(key, RecordPrefixes(Some(p))) <==> Owns(p, key)
  {
    hide StartsWith, RecordPrefixes, FilesPrefix, ReleasePrefix, UnderAny;
    PrefixesAre();
    UnderEither(key, FilesPrefix(Apple), ReleasePrefix(p));
    UnderEither(key, FilesPrefix(Pixel), ReleasePrefix(p));
    UnderEither(key, ReleasePrefix(p), "");
    assert FeedPlatform(Apple) == Ios && FeedPlatform(Pixel) == Android;
  }

  /** All prefixes list every platform's. */
  lemma AllPrefixesOwn(key: string)
    ensures UnderAny(key, RecordPrefixes(None)) <==> exists p: Platform :: Owns(p, key)
  {
    hide StartsWith, RecordPrefixes, FilesPrefix, ReleasePrefix;
    PrefixesAre();
    var prefixes := RecordPrefixes(None);
    if UnderAny(key, prefixes) {
      var s :| s in prefixes && StartsWith(key, s);
      var i :| 0 <= i < 5 && s == prefixes[i];
      var p := if i == 0 || i == 3 then Ios else if i == 1 || i == 2 then Android else Samsung;
      assert FeedPlatform(Apple) == Ios && FeedPlatform(Pixel) == Android;
      assert Owns(p, key);
    }
    if p: Platform :| Owns(p, key) {
      if StartsWith(key, ReleasePrefix(p)) {
        assert prefixes[if p == Android then 2 else if p == Ios then 3 else 4] == ReleasePrefix(p);
      } else {
        var f: Feed :| FeedPlatform(f) == p && StartsWith(key, FilesPrefix(f));
        assert prefixes[if f == Apple then 0 else 1] == FilesPrefix(f);
      }
    }
  }

  lemma SegmentStarts(head: string, name: string, rest: string, other: string)
    requires '/' !in name && '/' !in other
    ensures StartsWith(head + name + "/" + rest, head + other + "/") <==> name == other
  {
    var key, start, n := head + name + "/" + rest, head + other + "/", |head|;
    if name == other {
      assert key[..|start|] == start;
    } else if |name| < |other| {
      StartsElse(key, start, n + |name|);
    } else if |name| > |other| {
      StartsElse(key, start, n + |other|);
    } else {
      var i :| 0 <= i < |name| && name[i] != other[i];
      StartsElse(key, start, n + i);
    }
  }

  /** A release's key is its named platform's alone, and no one's under another name. */
  lemma ReleaseOwner(name: string, rest: string, p: Platform)
    requires '/' !in name
    ensures Owns(p, "releases/" + name + "/" + rest) <==> name == PlatformName(p)
  {
    hide StartsWith;
    var key := "releases/" + name + "/" + rest;
    SegmentStarts("releases/", name, rest, PlatformName(p));
    StartsElse(key, FilesPrefix(Apple), 0);
    StartsElse(key, FilesPrefix(Pixel), 0);
  }

  /** A feed's file is iOS's if the feed is Apple's, Android's if Pixel's, and no one's otherwise. */
  lemma FileOwner(feed: string, rest: string, p: Platform)
    requires '/' !in feed
    ensures Owns(p, "ota/" + feed + "/files/" + rest) <==> (feed == "apple" && p == Ios) || (feed == "pixel" && p == Android)
  {
    hide StartsWith;
    var key := "ota/" + feed + "/files/" + rest;
    StartsElse(key, ReleasePrefix(p), 0);
    FeedStarts(feed, rest, Apple);
    FeedStarts(feed, rest, Pixel);
    assert FeedPlatform(Apple) == Ios && FeedPlatform(Pixel) == Android;
  }

  lemma FeedStarts(feed: string, rest: string, f: Feed)
    requires '/' !in feed
    ensures StartsWith("ota/" + feed + "/files/" + rest, FilesPrefix(f)) <==> feed == FeedName(f)
  {
    var key, start := "ota/" + feed + "/files/" + rest, "ota/" + FeedName(f) + "/";
    SegmentStarts("ota/", feed, "files/" + rest, FeedName(f));
    assert key == "ota/" + feed + "/" + ("files/" + rest);
    assert FilesPrefix(f)[..|start|] == start;
    if StartsWith(key, FilesPrefix(f)) {
      assert key[..|start|] == key[..|FilesPrefix(f)|][..|start|];
    }
    if feed == FeedName(f) {
      assert key[..|FilesPrefix(f)|] == FilesPrefix(f);
    }
  }

  // A platform's listing.

  /** A platform's held records after `after`. None is the error of an `after` under none of its prefixes. */
  function HeldOn(keys: seq<string>, isRecord: string -> bool, p: Platform, after: Option<Record>): Option<seq<Record>> {
    match after
    case None => Some(All(keys, RecordPrefixes(Some(p)), isRecord))
    case Some(r) => After(keys, RecordPrefixes(Some(p)), r, isRecord)
  }

  /** Whether a reindex can go on from there. */
  predicate Placed(p: Platform, after: Option<Record>) {
    after.Some? ==> Owns(p, after.value)
  }

  function AllHeld(keys: seq<string>, isRecord: string -> bool, p: Platform): seq<Record> {
    All(keys, RecordPrefixes(Some(p)), isRecord)
  }

  lemma HeldOnIs(keys: seq<string>, isRecord: string -> bool, p: Platform, after: Option<Record>,
                 held: Option<seq<Record>>)
    requires after == None ==> held == Some(All(keys, RecordPrefixes(Some(p)), isRecord))
    requires after.Some? ==> held == After(keys, RecordPrefixes(Some(p)), after.value, isRecord)
    ensures held == HeldOn(keys, isRecord, p, after)
    ensures held == None <==> !Placed(p, after)
  {
    HeldOnIsLater(keys, isRecord, p, after);
  }

  /** Listed on from anywhere, what is left is what follows. */
  lemma HeldOnIsLater(keys: seq<string>, isRecord: string -> bool, p: Platform, after: Option<Record>)
    ensures HeldOn(keys, isRecord, p, after)
      == if Placed(p, after) then Some(Later(AllHeld(keys, isRecord, p), after)) else None
  {
    hide Owns, RecordPrefixes, UnderAny, All, After, Separate, Filter;
    RecordPrefixesSeparate(Some(p));
    match after
    case None => FilterAll(AllHeld(keys, isRecord, p), k => Follows(k, None));
    case Some(r) =>
      PrefixesOwn(p, r);
      AfterIsLater(keys, RecordPrefixes(Some(p)), r, isRecord);
  }

  lemma AllHeldAre(keys: seq<string>, isRecord: string -> bool, p: Platform)
    requires Sorted(keys)
    ensures var all := AllHeld(keys, isRecord, p);
      Sorted(all) && Distinct(all) && forall k :: k in all <==> k in keys && isRecord(k) && Owns(p, k)
  {
    hide Owns, RecordPrefixes, All, Separate, StartsWith;
    var prefixes := RecordPrefixes(Some(p));
    RecordPrefixesSeparate(Some(p));
    AllSorted(keys, prefixes, isRecord);
    AllIs(keys, prefixes, isRecord);
    forall k
      ensures UnderAny(k, prefixes) <==> Owns(p, k)
    {
      PrefixesOwn(p, k);
    }
    assert forall k :: UnderAny(k, prefixes) <==> exists q :: q in prefixes && StartsWith(k, q);
  }

  /** A held record of a platform's own, after `after`. */
  predicate IsLeft(keys: seq<string>, isRecord: string -> bool, p: Platform, after: Option<Record>, k: string) {
    k in keys && isRecord(k) && Owns(p, k) && Follows(k, after)
  }

  /** What is left is each such record; the first of them is the least. */
  lemma HeldOnIsLeft(keys: seq<string>, isRecord: string -> bool, p: Platform, after: Option<Record>)
    requires Sorted(keys)
    ensures HeldOn(keys, isRecord, p, after).Some? <==> Placed(p, after)
    ensures HeldOn(keys, isRecord, p, after).Some? ==>
      var left := HeldOn(keys, isRecord, p, after).value;
      && (forall k :: k in left <==> IsLeft(keys, isRecord, p, after, k))
      && (left != [] ==> forall k :: IsLeft(keys, isRecord, p, after, k) ==> k == left[0] || Less(left[0], k))
  {
    hide Owns, HeldOn, AllHeld, Less;
    var all := AllHeld(keys, isRecord, p);
    HeldOnIsLater(keys, isRecord, p, after);
    AllHeldAre(keys, isRecord, p);
    FilterSorted(all, k => Follows(k, after));
  }

  /** A platform's listing goes on from each of its records. */
  lemma HeldOnNext(keys: seq<string>, isRecord: string -> bool, p: Platform, after: Option<Record>)
    requires Sorted(keys) && HeldOn(keys, isRecord, p, after).Some? && HeldOn(keys, isRecord, p, after).value != []
    ensures var left := HeldOn(keys, isRecord, p, after).value;
      Placed(p, Some(left[0])) && HeldOn(keys, isRecord, p, Some(left[0])) == Some(left[1..])
  {
    hide Owns, HeldOn, AllHeld, Less;
    var all := AllHeld(keys, isRecord, p);
    AllHeldAre(keys, isRecord, p);
    HeldOnIsLater(keys, isRecord, p, after);
    var first := HeldOn(keys, isRecord, p, after).value[0];
    assert first in all;
    HeldOnIsLater(keys, isRecord, p, Some(first));
    LaterNext(all, after);
  }
}
