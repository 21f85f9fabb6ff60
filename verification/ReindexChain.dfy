/**
 * A platform's reindex as a chain of messages (apps/extractor/src/indexing.ts, reindex.ts): one held record's facts a
 * message, in key order, then one rederive.
 */
module ReindexChain {
  import opened HeldRecords
  import opened IndexConsumer
  import opened IndexProtocol
  import opened IndexWork
  import opened Options
  import opened Sequences

  /** One handling of a reindex message: the index before and after it, and what it handed on. */
  datatype Visit = Visit(
    m: Message,
    profiles: set<Sha>, facts: map<Platform, set<Record>>, counted: map<Platform, nat>,
    profiles': set<Sha>, facts': map<Platform, set<Record>>, counted': map<Platform, nat>,
    next: Option<Message>)

  ghost predicate IsVisit(b: Bucket, v: Visit) {
    && v.m.Reindex?
    && HeldStep(b, v.m, v.profiles, v.facts, v.profiles', v.facts', v.next)
    && v.counted' == NextCounted(b, v.m, v.next, v.counted)
  }

  /** The visits of a platform's chain so far. Whatever else is handled in between may change the index. */
  ghost predicate IsChain(b: Bucket, p: Platform, vs: seq<Visit>) {
    && vs != [] && vs[0].m == Reindex(p, None)
    && (forall i :: 0 <= i < |vs| ==> IsVisit(b, vs[i]))
    && forall i :: 0 < i < |vs| ==> vs[i - 1].next == Some(vs[i].m)
  }

  /** The records left when a message goes on from `after`. */
  function LeftAfter(b: Bucket, p: Platform, after: Option<Record>): seq<Record> {
    var held := Held(b, p, after);
    if held.Some? then held.value else []
  }

  /** The records left when what was handed on is handled: none once it is not a reindex message. */
  function LeftOf(b: Bucket, next: Option<Message>): seq<Record> {
    if next.Some? && next.value.Reindex? then LeftAfter(b, next.value.platform, next.value.after) else []
  }

  /** The record whose facts a visit wrote whole, if any. */
  ghost function CompletedBy(b: Bucket, v: Visit): seq<Record> {
    var left := LeftOf(b, Some(v.m));
    if left != [] && ToSet(b.norms(left[0])) <= v.profiles' then [left[0]] else []
  }

  ghost function Completed(b: Bucket, vs: seq<Visit>): seq<Record> {
    if vs == [] then [] else Completed(b, vs[..|vs| - 1]) + CompletedBy(b, vs[|vs| - 1])
  }

  /** A visit writes a first record of those left whole, or leaves as many; only one with none left hands on a rederive. */
  lemma VisitDoesPart(b: Bucket, v: Visit)
    requires Sorted(b.keys) && IsVisit(b, v)
    ensures CompletedBy(b, v) + LeftOf(b, v.next) == LeftOf(b, Some(v.m))
    ensures v.m.Reindex? && v.next.Some?
    ensures v.next.value.Reindex? ==> v.next.value.platform == v.m.platform && LeftOf(b, Some(v.m)) != []
    ensures !v.next.value.Reindex? ==> v.next.value == Rederive(v.m.platform) && LeftOf(b, Some(v.m)) == []
    ensures v.next == Some(v.m) ==> CompletedBy(b, v) == []
    ensures CompletedBy(b, v) == [] && v.next.value.Reindex? ==> v.next == Some(v.m)
  {
    hide HeldOn;
    var left := Held(b, v.m.platform, v.m.after).value;
    if left != [] {
      HeldOnNext(b.keys, b.isRecord, v.m.platform, v.m.after);
    }
  }

  /**
   * A chain's records so far, whole and in order, and those still left, are all the platform's held records. It hands on
   * reindex messages while any is left, and then, every record whole, one rederive.
   */
  lemma {:induction false} ChainWritesInOrder(b: Bucket, p: Platform, vs: seq<Visit>)
    requires Sorted(b.keys) && IsChain(b, p, vs)
    ensures var next := vs[|vs| - 1].next;
      && next.Some?
      && Completed(b, vs) + LeftOf(b, next) == AllHeld(b.keys, b.isRecord, p)
      && (if next.value.Reindex? then next.value.platform == p
          else next.value == Rederive(p) && Completed(b, vs) == AllHeld(b.keys, b.isRecord, p))
    decreases |vs|
  {
    hide HeldOn, LeftOf, CompletedBy, IsChain, IsVisit;
    ChainPrefix(b, p, vs);
    var init, last := vs[..|vs| - 1], vs[|vs| - 1];
    ChainStep(b, p, vs, |vs| - 1);
    VisitDoesPart(b, last);
    if |vs| == 1 {
      assert init == [];
      FromStart(b, p);
    } else {
      ChainWritesInOrder(b, p, init);
      Associate(Completed(b, init), CompletedBy(b, last), LeftOf(b, last.next));
    }
  }

  lemma FromStart(b: Bucket, p: Platform)
    ensures LeftOf(b, Some(Reindex(p, None))) == AllHeld(b.keys, b.isRecord, p)
  {
  }

  lemma ChainStep(b: Bucket, p: Platform, vs: seq<Visit>, i: nat)
    requires IsChain(b, p, vs) && i < |vs|
    ensures IsVisit(b, vs[i]) && (i > 0 ==> vs[i - 1].next == Some(vs[i].m))
  {
  }

  lemma ChainPrefix(b: Bucket, p: Platform, vs: seq<Visit>)
    requires IsChain(b, p, vs)
    ensures vs != [] && vs[0].m == Reindex(p, None)
    ensures |vs| > 1 ==> IsChain(b, p, vs[..|vs| - 1]) && vs[..|vs| - 1][|vs| - 2] == vs[|vs| - 2]
  {
  }

  /** The listing is each held record of the platform once, in key order. */
  lemma ListingIs(b: Bucket, p: Platform)
    requires Sorted(b.keys)
    ensures var all := AllHeld(b.keys, b.isRecord, p);
      && Sorted(all) && Distinct(all)
      && forall k :: k in all <==> k in b.keys && b.isRecord(k) && Owns(p, k)
  {
    AllHeldAre(b.keys, b.isRecord, p);
  }

  /** The records left only get fewer, and fewer by each one written whole. */
  lemma {:induction false} LeftShrinks(b: Bucket, p: Platform, vs: seq<Visit>, i: nat, j: nat)
    requires Sorted(b.keys) && IsChain(b, p, vs) && i <= j < |vs|
    ensures |LeftOf(b, Some(vs[j].m))| <= |LeftOf(b, Some(vs[i].m))|
    ensures forall k :: i <= k < j && CompletedBy(b, vs[k]) != [] ==>
      |LeftOf(b, Some(vs[j].m))| < |LeftOf(b, Some(vs[i].m))|
    decreases j - i
  {
    hide LeftOf, CompletedBy, IsChain, IsVisit;
    if i == j {
    } else {
      LeftShrinks(b, p, vs, i, j - 1);
      ChainStep(b, p, vs, j - 1);
      ChainStep(b, p, vs, j);
      VisitDoesPart(b, vs[j - 1]);
      var done, left := CompletedBy(b, vs[j - 1]), LeftOf(b, vs[j - 1].next);
      assert |done + left| == |done| + |left|;
    }
  }

  /** A message comes again only while its record is left unfinished, and nothing else of the chain comes in between. */
  lemma {:induction false} RepeatsUnfinished(b: Bucket, p: Platform, vs: seq<Visit>, i: nat, j: nat)
    requires Sorted(b.keys) && IsChain(b, p, vs) && i < j < |vs| && vs[i].m == vs[j].m
    ensures forall k :: i <= k < j ==> CompletedBy(b, vs[k]) == [] && vs[k].m == vs[i].m
    decreases j - i
  {
    hide LeftOf, CompletedBy, IsChain, IsVisit;
    LeftShrinks(b, p, vs, i, j);
    ChainStep(b, p, vs, i);
    ChainStep(b, p, vs, i + 1);
    VisitDoesPart(b, vs[i]);
    if i + 1 == j {
    } else {
      RepeatsUnfinished(b, p, vs, i + 1, j);
    }
  }

  /** A chain with nothing of its platform counted in between counts each visit once, but for the one that rederives. */
  lemma {:induction false} EachCounted(b: Bucket, p: Platform, vs: seq<Visit>, from: nat)
    requires Sorted(b.keys) && IsChain(b, p, vs)
    requires CountOf(vs[0].counted, p) == from
    requires forall i :: 0 < i < |vs| ==> CountOf(vs[i].counted, p) == CountOf(vs[i - 1].counted', p)
    ensures CountOf(vs[|vs| - 1].counted', p) == from + |vs| - if vs[|vs| - 1].next == Some(Rederive(p)) then 1 else 0
    decreases |vs|
  {
    hide HeldOn, IsChain, IsVisit, CountOf;
    ChainPrefix(b, p, vs);
    var init, last := vs[..|vs| - 1], vs[|vs| - 1];
    ChainStep(b, p, vs, |vs| - 1);
    VisitCounts(b, last);
    if |vs| == 1 {
    } else {
      EachCounted(b, p, init, from);
      ChainWritesInOrder(b, p, init);
    }
  }

  function CountOf(counted: map<Platform, nat>, p: Platform): nat {
    if p in counted then counted[p] else 0
  }

  lemma VisitCounts(b: Bucket, v: Visit)
    requires Sorted(b.keys) && IsVisit(b, v)
    ensures CountOf(v.counted', v.m.platform)
      == CountOf(v.counted, v.m.platform) + if v.next == Some(Rederive(v.m.platform)) then 0 else 1
    ensures forall p :: p != v.m.platform ==> CountOf(v.counted', p) == CountOf(v.counted, p)
  {
    hide HeldOn;
  }

  /** Profile rows only being added, a chain is no longer than its records, their missing profile rows and its rederive. */
  lemma {:induction false} ChainEnds(b: Bucket, p: Platform, vs: seq<Visit>)
    requires Sorted(b.keys) && IsChain(b, p, vs)
    requires forall i :: 0 < i < |vs| ==> vs[i - 1].profiles' <= vs[i].profiles
    ensures |vs| + RecordsWork(b, vs[|vs| - 1].profiles', LeftOf(b, vs[|vs| - 1].next))
      <= RecordsWork(b, vs[0].profiles, AllHeld(b.keys, b.isRecord, p))
         + if vs[|vs| - 1].next == Some(Rederive(p)) then 1 else 0
    decreases |vs|
  {
    hide HeldOn, RecordsWork, LeftOf, IsChain, IsVisit;
    ChainPrefix(b, p, vs);
    var init, last := vs[..|vs| - 1], vs[|vs| - 1];
    ChainStep(b, p, vs, |vs| - 1);
    VisitWorks(b, last);
    if |vs| == 1 {
      FromStart(b, p);
    } else {
      ChainEnds(b, p, init);
      ChainStep(b, p, vs, |vs| - 2);
      ChainWritesInOrder(b, p, vs);
      RecordsWorkShrinks(b, vs[|vs| - 2].profiles', last.profiles, LeftOf(b, Some(last.m)));
    }
  }

  /** A visit leaves less to do, unless nothing was left. */
  lemma VisitWorks(b: Bucket, v: Visit)
    requires Sorted(b.keys) && IsVisit(b, v)
    ensures var before := RecordsWork(b, v.profiles, LeftOf(b, Some(v.m)));
      var after := RecordsWork(b, v.profiles', LeftOf(b, v.next));
      if v.next == Some(Rederive(v.m.platform)) then before == after == 0 else after < before
  {
    hide HeldOn;
    var left := LeftOf(b, Some(v.m));
    VisitDoesPart(b, v);
    if left != [] {
      NewRow(b.norms(left[0]), v.profiles, v.profiles');
      MissingShrinks(b.norms(left[0]), v.profiles, v.profiles');
      RecordsWorkShrinks(b, v.profiles, v.profiles', left[1..]);
      HeldOnNext(b.keys, b.isRecord, v.m.platform, v.m.after);
    }
  }

  /** A visit adds the record it wrote whole to its platform's facts, and nothing else to any. */
  lemma VisitFacts(b: Bucket, v: Visit)
    requires IsVisit(b, v)
    ensures KnownIn(v.facts', v.m.platform) == KnownIn(v.facts, v.m.platform) + ToSet(CompletedBy(b, v))
    ensures forall p :: p != v.m.platform ==> KnownIn(v.facts', p) == KnownIn(v.facts, p)
  {
    hide HeldOn;
  }

  lemma NoneDone(b: Bucket)
    ensures Completed(b, []) == []
  {
  }

  lemma CompletedMore(b: Bucket, vs: seq<Visit>)
    requires vs != []
    ensures Completed(b, vs) == Completed(b, vs[..|vs| - 1]) + CompletedBy(b, vs[|vs| - 1])
  {
  }

  /** No facts being dropped in between, a chain leaves its platform's facts with every record it wrote whole. */
  lemma {:induction false} FactsWritten(b: Bucket, p: Platform, vs: seq<Visit>)
    requires Sorted(b.keys) && IsChain(b, p, vs)
    requires forall i :: 0 < i < |vs| ==> KnownIn(vs[i - 1].facts', p) <= KnownIn(vs[i].facts, p)
    ensures KnownIn(vs[0].facts, p) + ToSet(Completed(b, vs)) <= KnownIn(vs[|vs| - 1].facts', p)
    decreases |vs|
  {
    hide HeldOn, IsChain, IsVisit, KnownIn, CompletedBy, Completed, ToSet, LeftOf;
    ChainPrefix(b, p, vs);
    var init, last := vs[..|vs| - 1], vs[|vs| - 1];
    ChainStep(b, p, vs, |vs| - 1);
    VisitFacts(b, last);
    CompletedMore(b, vs);
    ToSetBoth(Completed(b, init), CompletedBy(b, last));
    if |vs| == 1 {
      assert init == [];
      NoneDone(b);
      ToSetBoth<Record>([], []);
    } else {
      FactsWritten(b, p, init);
      ChainWritesInOrder(b, p, init);
    }
  }

  /** The records a chain's last message has left to write, and its message itself. */
  ghost function ChainWork(b: Bucket, profiles: set<Sha>, m: Message): nat {
    RecordsWork(b, profiles, LeftOf(b, Some(m))) + if m.Reindex? then 1 else 0
  }

  lemma ChainGoesOn(b: Bucket, p: Platform, vs: seq<Visit>, v: Visit)
    requires Sorted(b.keys) && IsVisit(b, v)
    requires if vs == [] then v.m == Reindex(p, None) else IsChain(b, p, vs) && vs[|vs| - 1].next == Some(v.m)
    ensures IsChain(b, p, vs + [v]) && Completed(b, vs + [v]) == Completed(b, vs) + CompletedBy(b, v)
  {
    hide IsVisit, HeldOn, CompletedBy;
    assert (vs + [v])[..|vs|] == vs;
  }

  /** What a further visit of a chain adds to it. */
  lemma VisitAdds(b: Bucket, p: Platform, v: Visit, before: set<Record>, done: seq<Record>, from: nat)
    requires Sorted(b.keys) && IsVisit(b, v) && v.m.platform == p
    requires KnownIn(v.facts, p) == before + ToSet(done) && CountOf(v.counted, p) == from
    ensures KnownIn(v.facts', p) == before + ToSet(done + CompletedBy(b, v))
    ensures CountOf(v.counted', p) == from + if v.next == Some(Rederive(p)) then 0 else 1
    ensures v.next.Some? && (if v.next.value.Reindex? then v.next.value.platform == p else v.next.value == Rederive(p))
    ensures ChainWork(b, v.profiles', v.next.value) < ChainWork(b, v.profiles, v.m)
  {
    hide IsVisit, HeldOn, CompletedBy, LeftOf, KnownIn, CountOf;
    VisitFacts(b, v);
    VisitCounts(b, v);
    VisitDoesPart(b, v);
    VisitWorks(b, v);
    ToSetBoth(done, CompletedBy(b, v));
  }

  /** Consumes the one message queued, a chain's. */
  method VisitOne<R>(index: Index<R>) returns (ghost v: Visit)
    requires index.Valid() && index.consumer == Idle && |index.queue| == 1 && index.queue[0].Reindex?
    requires Readable(index.queue[0])
    modifies index
    ensures index.Valid() && index.GoesOn() && index.consumer == Idle
    ensures v.next.Some? && index.queue == [v.next.value] && Readable(index.queue[0])
    ensures IsVisit(index.bucket, v) && v.m == old(index.queue[0])
    ensures (v.profiles, v.facts, v.counted) == old((index.profiles, index.facts, index.counted))
    ensures (v.profiles', v.facts', v.counted') == (index.profiles, index.facts, index.counted)
  {
    hide index.Valid, HeldStep, NextCounted, HeldOn, Readable;
    var _, next := index.Consume(0);
    v := Visit(old(index.queue[0]), old(index.profiles), old(index.facts), old(index.counted),
               index.profiles, index.facts, index.counted, next);
    index.ValidSays();
    VisitDoesPart(index.bucket, v);
    KeepsReadable(index.w, index.bucket, old(index.queue), 0, old(index.profiles), old(index.facts),
                  index.profiles, index.facts, next, index.queue);
  }

  /** A queue of only a platform's first reindex message comes to hold only its rederive, every held record indexed. */
  method Reindexed<R>(index: Index<R>, p: Platform) returns (ghost vs: seq<Visit>)
    requires index.Valid() && index.consumer == Idle && index.queue == [Reindex(p, None)]
    modifies index
    ensures index.Valid() && index.GoesOn() && index.consumer == Idle && index.queue == [Rederive(p)]
    ensures IsChain(index.bucket, p, vs) && vs[|vs| - 1].next == Some(Rederive(p))
    ensures KnownIn(index.facts, p)
      == KnownIn(old(index.facts), p) + ToSet(AllHeld(index.bucket.keys, index.bucket.isRecord, p))
    ensures forall r :: r in KnownIn(index.facts, p) <==>
      r in KnownIn(old(index.facts), p) || (r in index.bucket.keys && index.bucket.isRecord(r) && Owns(p, r))
    ensures CountOf(index.counted, p) == CountOf(old(index.counted), p) + |vs| - 1
  {
    hide IsChain, IsVisit, HeldOn, Completed, CompletedBy, ChainWork, KnownIn, CountOf, AllHeld, Owns;
    vs := [];
    NoneDone(index.bucket);
    index.ValidSays();
    while index.queue[0].Reindex?
      invariant index.Valid() && index.GoesOn() && index.consumer == Idle && |index.queue| == 1 && Readable(index.queue[0])
      invariant if index.queue[0].Reindex? then index.queue[0].platform == p else index.queue[0] == Rederive(p)
      invariant if vs == [] then index.queue[0] == Reindex(p, None)
        else IsChain(index.bucket, p, vs) && vs[|vs| - 1].next == Some(index.queue[0])
      invariant KnownIn(index.facts, p) == KnownIn(old(index.facts), p) + ToSet(Completed(index.bucket, vs))
      invariant CountOf(index.counted, p) == CountOf(old(index.counted), p) + |vs| - if index.queue[0].Reindex? then 0 else 1
      decreases ChainWork(index.bucket, index.profiles, index.queue[0])
    {
      ghost var v := VisitOne(index);
      VisitAdds(index.bucket, p, v, KnownIn(old(index.facts), p), Completed(index.bucket, vs), CountOf(v.counted, p));
      ChainGoesOn(index.bucket, p, vs, v);
      vs := vs + [v];
    }
    ChainWritesInOrder(index.bucket, p, vs);
    ListingIs(index.bucket, p);
  }
}
