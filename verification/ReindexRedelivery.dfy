/**
 * A platform's reindex when its messages are delivered more than once (apps/extractor/src/indexing.ts, queues.ts): a
 * delivery cut off before its message is acknowledged leaves the message queued, and one cut off after it handed on
 * leaves what it handed on queued as well.
 */
module ReindexRedelivery {
  import opened HeldRecords
  import opened IndexConsumer
  import opened IndexProtocol
  import opened IndexWork
  import opened Options
  import opened ReindexChain
  import opened Sequences

  /** Cut off before anything is handed on, cut off after it, or acknowledged. */
  datatype Ending = Broken | Repeated | Acknowledged

  /** A delivery of the k-th queued message. */
  datatype Delivery = Delivery(k: nat, v: Visit, ending: Ending)

  function QueuedAfter(q: seq<Message>, d: Delivery): seq<Message> {
    var more := if !d.ending.Broken? && d.v.next.Some? then q + [d.v.next.value] else q;
    if d.ending.Acknowledged? && d.k < |more| then Without(more, d.k) else more
  }

  /** What a platform's first reindex message came to in the queue, rederives left there. */
  function Pending(p: Platform, ds: seq<Delivery>): seq<Message> {
    if ds == [] then [Reindex(p, None)] else QueuedAfter(Pending(p, ds[..|ds| - 1]), ds[|ds| - 1])
  }

  /** A delivery cut off may have written anything. */
  ghost predicate Adds(p: Platform, v: Visit) {
    v.profiles <= v.profiles' && KnownIn(v.facts, p) <= KnownIn(v.facts', p)
  }

  ghost predicate Delivers(b: Bucket, p: Platform, q: seq<Message>, d: Delivery) {
    && d.k < |q| && q[d.k] == d.v.m && d.v.m.Reindex?
    && if d.ending.Broken? then Adds(p, d.v) else IsVisit(b, d.v)
  }

  function ProfilesAfter(start: set<Sha>, ds: seq<Delivery>): set<Sha> {
    if ds == [] then start else ds[|ds| - 1].v.profiles'
  }

  function FactsAfter(p: Platform, ds: seq<Delivery>): set<Record> {
    if ds == [] then {} else KnownIn(ds[|ds| - 1].v.facts', p)
  }

  /**
   * Deliveries of what a platform's first reindex message led to, in any order. Whatever else is handled in between only
   * adds profile rows and facts.
   */
  ghost predicate AreDeliveries(b: Bucket, p: Platform, start: set<Sha>, ds: seq<Delivery>) {
    ds != [] ==>
      var init, d := ds[..|ds| - 1], ds[|ds| - 1];
      && AreDeliveries(b, p, start, init) && Delivers(b, p, Pending(p, init), d)
      && ProfilesAfter(start, init) <= d.v.profiles && FactsAfter(p, init) <= KnownIn(d.v.facts, p)
  }

  /** The records deliveries wrote whole before they handed on. */
  ghost function Written(b: Bucket, ds: seq<Delivery>): set<Record> {
    if ds == [] then {}
    else
      var d := ds[|ds| - 1];
      Written(b, ds[..|ds| - 1]) + if d.ending.Broken? then {} else ToSet(CompletedBy(b, d.v))
  }

  function CountOfEnding(ds: seq<Delivery>, e: Ending): nat {
    if ds == [] then 0
    else CountOfEnding(ds[..|ds| - 1], e) + if ds[|ds| - 1].ending == e then 1 else 0
  }

  lemma LastDelivery(b: Bucket, p: Platform, start: set<Sha>, ds: seq<Delivery>)
    requires AreDeliveries(b, p, start, ds) && ds != []
    ensures var init, d := ds[..|ds| - 1], ds[|ds| - 1];
      && AreDeliveries(b, p, start, init) && Delivers(b, p, Pending(p, init), d)
      && ProfilesAfter(start, init) <= d.v.profiles && FactsAfter(p, init) <= KnownIn(d.v.facts, p)
      && Pending(p, ds) == QueuedAfter(Pending(p, init), d)
      && ProfilesAfter(start, ds) == d.v.profiles' && FactsAfter(p, ds) == KnownIn(d.v.facts', p)
  {
  }

  // Nothing is lost.

  /**
   * What a queued message still leads to: of a platform's records, those not written are left to it, and no more is to
   * do than `bound`.
   */
  ghost predicate Leads(b: Bucket, p: Platform, profiles: set<Sha>, written: set<Record>, bound: nat, m: Message) {
    && (m == Rederive(p) || (m.Reindex? && m.platform == p))
    && ToSet(AllHeld(b.keys, b.isRecord, p)) <= written + ToSet(LeftOf(b, Some(m)))
    && ChainWork(b, profiles, m) <= bound
  }

  lemma StillLeads(b: Bucket, p: Platform, profiles: set<Sha>, more: set<Sha>, written: set<Record>, others: set<Record>,
                   bound: nat, m: Message)
    requires Leads(b, p, profiles, written, bound, m) && profiles <= more
    ensures Leads(b, p, more, written + others, bound, m) && ChainWork(b, more, m) <= ChainWork(b, profiles, m)
  {
    hide LeftOf, AllHeld;
    RecordsWorkShrinks(b, profiles, more, LeftOf(b, Some(m)));
  }

  /** What a visit hands on leads to what its message led to, but for the record it wrote; and is less to do. */
  lemma NextLeads(b: Bucket, p: Platform, v: Visit, written: set<Record>, bound: nat)
    requires Sorted(b.keys) && IsVisit(b, v) && Leads(b, p, v.profiles, written, bound, v.m)
    ensures v.next.Some? && Leads(b, p, v.profiles', written + ToSet(CompletedBy(b, v)), bound, v.next.value)
    ensures ChainWork(b, v.profiles', v.next.value) < ChainWork(b, v.profiles, v.m)
  {
    hide LeftOf, AllHeld, CompletedBy, IsVisit, RecordsWork, ToSet;
    VisitDoesPart(b, v);
    VisitWorks(b, v);
    ToSetBoth(CompletedBy(b, v), LeftOf(b, v.next));
  }

  lemma VisitAddsOnly(b: Bucket, p: Platform, v: Visit)
    requires IsVisit(b, v) && v.m.platform == p
    ensures Adds(p, v) && KnownIn(v.facts', p) == KnownIn(v.facts, p) + ToSet(CompletedBy(b, v))
  {
    VisitFacts(b, v);
    hide HeldOn;
  }

  lemma QueuedFrom(q: seq<Message>, d: Delivery, m: Message)
    requires d.k < |q| && m in QueuedAfter(q, d)
    ensures m in q || (!d.ending.Broken? && d.v.next == Some(m))
  {
  }

  /** Every queued message leads to all records not written. */
  lemma {:induction false} DeliveriesLead(b: Bucket, p: Platform, start: set<Sha>, ds: seq<Delivery>)
    requires Sorted(b.keys) && AreDeliveries(b, p, start, ds)
    ensures forall m :: m in Pending(p, ds) ==>
      Leads(b, p, ProfilesAfter(start, ds), Written(b, ds), ChainWork(b, start, Reindex(p, None)), m)
    decreases |ds|
  {
    hide AllHeld, CompletedBy, ChainWork, LeftOf, AreDeliveries, IsVisit, Leads, QueuedAfter, KnownIn;
    if ds == [] {
      FirstLeads(b, p, start);
    } else {
      var init, d := ds[..|ds| - 1], ds[|ds| - 1];
      var bound := ChainWork(b, start, Reindex(p, None));
      LastDelivery(b, p, start, ds);
      DeliveriesLead(b, p, start, init);
      forall m | m in Pending(p, ds)
        ensures Leads(b, p, ProfilesAfter(start, ds), Written(b, ds), bound, m)
      {
        QueuedFrom(Pending(p, init), d, m);
        DeliveryLeads(b, p, ProfilesAfter(start, init), Written(b, init), Pending(p, init), d, bound, m);
      }
    }
  }

  lemma FirstLeads(b: Bucket, p: Platform, start: set<Sha>)
    ensures Leads(b, p, start, {}, ChainWork(b, start, Reindex(p, None)), Reindex(p, None))
  {
    hide AllHeld, LeftOf;
    FromStart(b, p);
  }

  lemma DeliveryLeads(b: Bucket, p: Platform, profiles: set<Sha>, written: set<Record>, q: seq<Message>, d: Delivery,
                      bound: nat, m: Message)
    requires Sorted(b.keys) && Delivers(b, p, q, d) && profiles <= d.v.profiles
    requires forall m :: m in q ==> Leads(b, p, profiles, written, bound, m)
    requires m in q || (!d.ending.Broken? && d.v.next == Some(m))
    ensures Leads(b, p, d.v.profiles', written + (if d.ending.Broken? then {} else ToSet(CompletedBy(b, d.v))), bound, m)
  {
    hide AllHeld, CompletedBy, ChainWork, LeftOf, IsVisit, Leads;
    var done := if d.ending.Broken? then {} else ToSet(CompletedBy(b, d.v));
    StillLeads(b, p, profiles, d.v.profiles, written, {}, bound, d.v.m);
    assert written + {} == written;
    if !d.ending.Broken? {
      LeadsTo(b, p, d.v.profiles, written, bound, d.v.m);
      VisitAddsOnly(b, p, d.v);
      NextLeads(b, p, d.v, written, bound);
    }
    if m in q {
      StillLeads(b, p, profiles, d.v.profiles', written, done, bound, m);
    }
  }

  lemma LeadsTo(b: Bucket, p: Platform, profiles: set<Sha>, written: set<Record>, bound: nat, m: Message)
    requires Leads(b, p, profiles, written, bound, m)
    ensures m.Rederive? || m.Reindex?
    ensures m.platform == p && ChainWork(b, profiles, m) <= bound
    ensures m.Rederive? ==> ToSet(AllHeld(b.keys, b.isRecord, p)) <= written
  {
    hide AllHeld;
  }

  /** The platform's facts have every record deliveries wrote whole. */
  lemma {:induction false} WrittenKept(b: Bucket, p: Platform, start: set<Sha>, ds: seq<Delivery>)
    requires Sorted(b.keys) && AreDeliveries(b, p, start, ds)
    ensures Written(b, ds) <= FactsAfter(p, ds)
    decreases |ds|
  {
    hide AllHeld, CompletedBy, AreDeliveries, IsVisit, KnownIn, ToSet, Pending, QueuedAfter, ChainWork;
    if ds == [] {
    } else {
      var init, d := ds[..|ds| - 1], ds[|ds| - 1];
      LastDelivery(b, p, start, ds);
      WrittenKept(b, p, start, init);
      if !d.ending.Broken? {
        DeliveriesLead(b, p, start, init);
        assert d.v.m in Pending(p, init);
        LeadsTo(b, p, ProfilesAfter(start, init), Written(b, init), ChainWork(b, start, Reindex(p, None)), d.v.m);
        VisitAddsOnly(b, p, d.v);
      }
    }
  }

  /**
   * However often messages are delivered again, a rederive is handed on only once every held record is written whole, and
   * they are all in the platform's facts.
   */
  lemma RederivedOnceWritten(b: Bucket, p: Platform, start: set<Sha>, ds: seq<Delivery>, m: Message)
    requires Sorted(b.keys) && AreDeliveries(b, p, start, ds) && m in Pending(p, ds) && !m.Reindex?
    ensures m == Rederive(p) && ToSet(AllHeld(b.keys, b.isRecord, p)) <= Written(b, ds) <= FactsAfter(p, ds)
  {
    DeliveriesLead(b, p, start, ds);
    WrittenKept(b, p, start, ds);
    hide AllHeld, AreDeliveries, Written, FactsAfter, Pending, ChainWork;
    assert LeftOf(b, Some(m)) == [];
  }

  // Redeliveries bound what is done.

  /** Each delivery cut off after it handed on leaves one message more. */
  lemma {:induction false} PendingMore(b: Bucket, p: Platform, start: set<Sha>, ds: seq<Delivery>)
    requires Sorted(b.keys) && AreDeliveries(b, p, start, ds)
    ensures |Pending(p, ds)| == 1 + CountOfEnding(ds, Repeated)
    decreases |ds|
  {
    hide IsVisit, KnownIn, AreDeliveries;
    if ds == [] {
    } else {
      var init, d := ds[..|ds| - 1], ds[|ds| - 1];
      LastDelivery(b, p, start, ds);
      PendingMore(b, p, start, init);
      if !d.ending.Broken? {
        VisitDoesPart(b, d.v);
      }
    }
  }

  /** The work the chain's queued messages have left. */
  ghost function TotalLeft(b: Bucket, profiles: set<Sha>, q: seq<Message>): nat {
    if q == [] then 0 else TotalLeft(b, profiles, q[..|q| - 1]) + ChainWork(b, profiles, q[|q| - 1])
  }

  lemma TotalLeftMore(b: Bucket, profiles: set<Sha>, q: seq<Message>, m: Message)
    ensures TotalLeft(b, profiles, q + [m]) == TotalLeft(b, profiles, q) + ChainWork(b, profiles, m)
  {
    hide ChainWork;
    assert (q + [m])[..|q|] == q;
  }

  lemma TotalLeftOne(b: Bucket, profiles: set<Sha>, m: Message)
    ensures TotalLeft(b, profiles, [m]) == ChainWork(b, profiles, m)
  {
    hide ChainWork;
  }

  lemma {:induction false} TotalLeftWithout(b: Bucket, profiles: set<Sha>, q: seq<Message>, k: nat)
    requires k < |q|
    ensures TotalLeft(b, profiles, q) == TotalLeft(b, profiles, Without(q, k)) + ChainWork(b, profiles, q[k])
  {
    hide ChainWork;
    if k == |q| - 1 {
      assert Without(q, k) == q[..k];
    } else {
      TotalLeftWithout(b, profiles, q[..|q| - 1], k);
      assert Without(q, k)[..|q| - 2] == Without(q[..|q| - 1], k);
    }
  }

  lemma {:induction false} TotalLeftShrinks(b: Bucket, profiles: set<Sha>, more: set<Sha>, q: seq<Message>)
    requires profiles <= more
    ensures TotalLeft(b, more, q) <= TotalLeft(b, profiles, q)
  {
    hide LeftOf;
    if q == [] {
    } else {
      TotalLeftShrinks(b, profiles, more, q[..|q| - 1]);
      RecordsWorkShrinks(b, profiles, more, LeftOf(b, Some(q[|q| - 1])));
    }
  }

  /** A delivery leaves less to do; one cut off after it handed on leaves as much again as its message had, less one. */
  lemma DeliveryWorks(b: Bucket, p: Platform, profiles: set<Sha>, written: set<Record>, q: seq<Message>, d: Delivery,
                      bound: nat)
    requires Sorted(b.keys) && Delivers(b, p, q, d) && profiles <= d.v.profiles
    requires Leads(b, p, profiles, written, bound, d.v.m)
    ensures TotalLeft(b, d.v.profiles', QueuedAfter(q, d)) + 1
      <= TotalLeft(b, profiles, q) + match d.ending case Broken => 1 case Repeated => bound case Acknowledged => 0
  {
    hide AllHeld, CompletedBy, ChainWork, LeftOf, IsVisit, Leads, KnownIn, TotalLeft, Without;
    var left, now, m := Without(q, d.k), d.v.profiles', d.v.m;
    if d.ending.Broken? {
      TotalLeftShrinks(b, profiles, now, q);
      return;
    }
    StillLeads(b, p, profiles, d.v.profiles, written, {}, bound, m);
    LeadsTo(b, p, d.v.profiles, written + {}, bound, m);
    VisitAddsOnly(b, p, d.v);
    NextLeads(b, p, d.v, written + {}, bound);
    TotalLeftShrinks(b, profiles, now, q);
    if d.ending.Repeated? {
      TotalLeftMore(b, now, q, d.v.next.value);
    } else {
      AcknowledgedWork(b, profiles, now, q, d.k, d.v.next.value);
    }
  }

  lemma AcknowledgedWork(b: Bucket, profiles: set<Sha>, now: set<Sha>, q: seq<Message>, k: nat, next: Message)
    requires k < |q| && profiles <= now
    ensures TotalLeft(b, now, Without(q + [next], k)) + ChainWork(b, profiles, q[k])
      <= TotalLeft(b, profiles, q) + ChainWork(b, now, next)
  {
    hide ChainWork, TotalLeft;
    assert Without(q + [next], k) == Without(q, k) + [next];
    TotalLeftMore(b, now, Without(q, k), next);
    TotalLeftWithout(b, profiles, q, k);
    TotalLeftShrinks(b, profiles, now, Without(q, k));
  }

  /**
   * There are no more deliveries than the chain's work once, again for each cut off after it handed on, and those cut
   * off before.
   */
  lemma {:induction false} DeliveriesEnd(b: Bucket, p: Platform, start: set<Sha>, ds: seq<Delivery>)
    requires Sorted(b.keys) && AreDeliveries(b, p, start, ds)
    ensures |ds| + TotalLeft(b, ProfilesAfter(start, ds), Pending(p, ds))
      <= ChainWork(b, start, Reindex(p, None)) * (1 + CountOfEnding(ds, Repeated)) + CountOfEnding(ds, Broken)
    decreases |ds|
  {
    hide ChainWork, AreDeliveries, Delivers, Leads, QueuedAfter, KnownIn, TotalLeft;
    var work := ChainWork(b, start, Reindex(p, None));
    if ds == [] {
      TotalLeftOne(b, start, Reindex(p, None));
    } else {
      var init, d := ds[..|ds| - 1], ds[|ds| - 1];
      LastDelivery(b, p, start, ds);
      DeliveriesEnd(b, p, start, init);
      DeliveriesLead(b, p, start, init);
      DeliveredQueued(b, p, Pending(p, init), d);
      DeliveryWorks(b, p, ProfilesAfter(start, init), Written(b, init), Pending(p, init), d, work);
      OneMoreTimes(work, CountOfEnding(init, Repeated));
    }
  }

  lemma DeliveredQueued(b: Bucket, p: Platform, q: seq<Message>, d: Delivery)
    requires Delivers(b, p, q, d)
    ensures d.v.m in q
  {
    hide IsVisit;
  }

  /** Once no reindex message is pending, every held record is indexed, and the rederives pending are as many as told. */
  lemma AllDone(b: Bucket, p: Platform, start: set<Sha>, ds: seq<Delivery>)
    requires Sorted(b.keys) && AreDeliveries(b, p, start, ds)
    requires !exists i :: 0 <= i < |Pending(p, ds)| && Pending(p, ds)[i].Reindex?
    ensures |Pending(p, ds)| == 1 + CountOfEnding(ds, Repeated)
    ensures forall i :: 0 <= i < |Pending(p, ds)| ==> Pending(p, ds)[i] == Rederive(p)
    ensures ToSet(AllHeld(b.keys, b.isRecord, p)) <= FactsAfter(p, ds)
    ensures |ds| <= ChainWork(b, start, Reindex(p, None)) * (1 + CountOfEnding(ds, Repeated)) + CountOfEnding(ds, Broken)
  {
    hide AreDeliveries, Pending, CountOfEnding, AllHeld, FactsAfter, ChainWork, ToSet;
    PendingMore(b, p, start, ds);
    DeliveriesEnd(b, p, start, ds);
    forall i | 0 <= i < |Pending(p, ds)|
      ensures Pending(p, ds)[i] == Rederive(p) && ToSet(AllHeld(b.keys, b.isRecord, p)) <= FactsAfter(p, ds)
    {
      RederivedOnceWritten(b, p, start, ds, Pending(p, ds)[i]);
    }
    assert Pending(p, ds)[0] == Rederive(p);
  }

  lemma OneMoreTimes(work: nat, n: nat)
    ensures work * (1 + (n + 1)) == work * (1 + n) + work
  {
  }

  // The code.

  ghost predicate OfChain(q: seq<Message>, p: Platform) {
    forall i :: 0 <= i < |q| ==> q[i] == Rederive(p) || (q[i].Reindex? && q[i].platform == p && Readable(q[i]))
  }

  /** Handles a queued message of the chain, deciding what it hands on. */
  method Handle<R>(index: Index<R>, p: Platform, k: nat) returns (m: Message, next: Option<Message>, ghost v: Visit)
    requires index.Valid() && index.consumer == Idle && OfChain(index.queue, p)
    requires k < |index.queue| && index.queue[k].Reindex?
    modifies index
    ensures index.GoesOn() && index.Handling(m, Decided(next)) && index.queue == old(index.queue)
    ensures m == index.queue[k] && v.m == m && v.next == next && IsVisit(index.bucket, v)
    ensures (v.profiles, v.facts, v.counted) == old((index.profiles, index.facts, index.counted))
    ensures (v.profiles', v.facts', v.counted') == (index.profiles, index.facts, index.counted)
  {
    hide index.Valid, index.Handling, HeldStep, NextCounted, HeldOn, Readable;
    m := index.Receive(k);
    var ok;
    ok, next := index.IndexUnit(m);
    v := Visit(m, old(index.profiles), old(index.facts), old(index.counted),
               index.profiles, index.facts, index.counted, next);
  }

  /** Delivers a queued message of the chain, cut off or not. */
  method Deliver<R>(index: Index<R>, p: Platform, k: nat, ending: Ending) returns (ghost d: Delivery)
    requires index.Valid() && index.consumer == Idle && OfChain(index.queue, p)
    requires k < |index.queue| && index.queue[k].Reindex?
    modifies index
    ensures index.Valid() && index.GoesOn() && index.consumer == Idle && OfChain(index.queue, p)
    ensures d.k == k && d.ending == ending && d.v.m == old(index.queue[k]) && IsVisit(index.bucket, d.v)
    ensures d.v.m.platform == p
    ensures (d.v.profiles, d.v.facts, d.v.counted) == old((index.profiles, index.facts, index.counted))
    ensures (d.v.profiles', d.v.facts', d.v.counted') == (index.profiles, index.facts, index.counted)
    ensures index.queue == QueuedAfter(old(index.queue), d)
  {
    hide index.Valid, index.Handling, IsVisit, Readable, OfChain, QueuedAfter;
    index.ValidSays();
    ChainMessage(index.queue, p, k);
    var m, next, v := Handle(index, p, k);
    d := Delivery(k, v, ending);
    match ending {
      case Broken =>
        index.BreakOff(m, Decided(next));
      case Repeated =>
        index.HandOver(m, next);
        index.BreakOff(m, HandedOn(next));
      case Acknowledged =>
        index.Finish(m, next, k);
    }
    QueuedIs(old(index.queue), d);
    StaysOfChain(index.bucket, p, old(index.queue), d);
  }

  lemma ChainMessage(q: seq<Message>, p: Platform, k: nat)
    requires OfChain(q, p) && k < |q| && q[k].Reindex?
    ensures q[k].platform == p
  {
  }

  lemma QueuedIs(q: seq<Message>, d: Delivery)
    requires d.k < |q|
    ensures QueuedAfter(q, d)
      == match d.ending
         case Broken => q
         case Repeated => if d.v.next.Some? then q + [d.v.next.value] else q
         case Acknowledged => Without(if d.v.next.Some? then q + [d.v.next.value] else q, d.k)
  {
  }

  /** A reindex message hands on one that goes on from a record, which is under one of its platform's prefixes. */
  lemma StaysOfChain(b: Bucket, p: Platform, q: seq<Message>, d: Delivery)
    requires Sorted(b.keys) && OfChain(q, p) && d.k < |q| && q[d.k] == d.v.m && IsVisit(b, d.v)
    ensures OfChain(QueuedAfter(q, d), p)
  {
    hide HeldOn;
    var left := Held(b, d.v.m.platform, d.v.m.after).value;
    if left != [] {
      HeldOnNext(b.keys, b.isRecord, d.v.m.platform, d.v.m.after);
    }
    forall i | 0 <= i < |QueuedAfter(q, d)|
      ensures var m := QueuedAfter(q, d)[i]; m == Rederive(p) || (m.Reindex? && m.platform == p && Readable(m))
    {
      QueuedFrom(q, d, QueuedAfter(q, d)[i]);
    }
  }

  lemma VisitDelivers(b: Bucket, p: Platform, q: seq<Message>, d: Delivery)
    requires Sorted(b.keys) && IsVisit(b, d.v) && d.v.m.platform == p && d.k < |q| && q[d.k] == d.v.m
    ensures Delivers(b, p, q, d)
  {
    hide IsVisit;
    VisitDoesPart(b, d.v);
    VisitAddsOnly(b, p, d.v);
  }

  lemma DeliveriesGoOn(b: Bucket, p: Platform, start: set<Sha>, ds: seq<Delivery>, d: Delivery)
    requires Sorted(b.keys) && AreDeliveries(b, p, start, ds) && IsVisit(b, d.v) && d.v.m.platform == p
    requires d.k < |Pending(p, ds)| && Pending(p, ds)[d.k] == d.v.m
    requires ProfilesAfter(start, ds) == d.v.profiles && FactsAfter(p, ds) <= KnownIn(d.v.facts, p)
    ensures AreDeliveries(b, p, start, ds + [d]) && Pending(p, ds + [d]) == QueuedAfter(Pending(p, ds), d)
    ensures ProfilesAfter(start, ds + [d]) == d.v.profiles' && FactsAfter(p, ds + [d]) == KnownIn(d.v.facts', p)
  {
    hide IsVisit, QueuedAfter, KnownIn, Pending, AreDeliveries;
    assert (ds + [d])[..|ds|] == ds;
    VisitDelivers(b, p, Pending(p, ds), d);
    GoOn(b, p, start, ds + [d]);
  }

  lemma GoOn(b: Bucket, p: Platform, start: set<Sha>, ds: seq<Delivery>)
    requires ds != []
    ensures Pending(p, ds) == QueuedAfter(Pending(p, ds[..|ds| - 1]), ds[|ds| - 1])
    ensures
      var init, d := ds[..|ds| - 1], ds[|ds| - 1];
      AreDeliveries(b, p, start, ds) <==>
        && AreDeliveries(b, p, start, init) && Delivers(b, p, Pending(p, init), d)
        && ProfilesAfter(start, init) <= d.v.profiles && FactsAfter(p, init) <= KnownIn(d.v.facts, p)
  {
    hide Delivers, KnownIn;
  }

  /**
   * A queue of only a platform's first reindex message, its i-th delivery ending as told and each later one acknowledged,
   * comes to one rederive, and one more for each delivery cut off after it handed on; every held record is indexed.
   */
  method ReindexedDespite<R>(index: Index<R>, p: Platform, endings: seq<Ending>) returns (ghost ds: seq<Delivery>)
    requires index.Valid() && index.consumer == Idle && index.queue == [Reindex(p, None)]
    modifies index
    ensures index.Valid() && index.GoesOn() && index.consumer == Idle
    ensures forall i :: 0 <= i < |index.queue| ==> index.queue[i] == Rederive(p)
    ensures |index.queue| == 1 + CountOfEnding(ds, Repeated)
    ensures AreDeliveries(index.bucket, p, old(index.profiles), ds)
    ensures forall i :: 0 <= i < |ds| ==> ds[i].ending == if i < |endings| then endings[i] else Acknowledged
    ensures forall r :: r in KnownIn(index.facts, p) <==>
      r in KnownIn(old(index.facts), p) || (r in index.bucket.keys && index.bucket.isRecord(r) && Owns(p, r))
    ensures |ds| <= ChainWork(index.bucket, old(index.profiles), Reindex(p, None)) * (1 + CountOfEnding(ds, Repeated))
                    + CountOfEnding(ds, Broken)
  {
    hide AreDeliveries, IsVisit, Pending, QueuedAfter, ChainWork, KnownIn, AllHeld, TotalLeft, CountOfEnding, ToSet;
    hide index.Valid, OfChain, ProfilesAfter, FactsAfter;
    ds := [];
    ghost var b, start := index.bucket, index.profiles;
    index.ValidSays();
    Start(b, p, start);
    var n: nat := 0;
    while exists k :: 0 <= k < |index.queue| && index.queue[k].Reindex?
      invariant index.Valid() && index.GoesOn() && index.consumer == Idle && OfChain(index.queue, p)
      invariant n == |ds| && AreDeliveries(b, p, start, ds) && index.queue == Pending(p, ds)
      invariant ProfilesAfter(start, ds) == index.profiles && FactsAfter(p, ds) <= KnownIn(index.facts, p)
      invariant KnownIn(old(index.facts), p) <= KnownIn(index.facts, p)
        <= KnownIn(old(index.facts), p) + ToSet(AllHeld(b.keys, b.isRecord, p))
      invariant forall i :: 0 <= i < |ds| ==> ds[i].ending == if i < |endings| then endings[i] else Acknowledged
      decreases if n < |endings| then |endings| - n else 0, TotalLeft(b, index.profiles, index.queue)
    {
      var k: nat :| k < |index.queue| && index.queue[k].Reindex?;
      ghost var q, profiles := index.queue, index.profiles;
      ghost var d := Deliver(index, p, k, if n < |endings| then endings[n] else Acknowledged);
      DeliveriesGoOn(b, p, start, ds, d);
      Progress(b, p, start, ds, d);
      VisitOwn(b, p, d.v);
      ds, n := ds + [d], n + 1;
    }
    AllDone(b, p, start, ds);
    FactsOwn(b, p, KnownIn(old(index.facts), p), KnownIn(index.facts, p));
  }

  /** A visit adds only records of the platform's own. */
  lemma VisitOwn(b: Bucket, p: Platform, v: Visit)
    requires Sorted(b.keys) && IsVisit(b, v) && v.m.platform == p
    ensures KnownIn(v.facts, p) <= KnownIn(v.facts', p) <= KnownIn(v.facts, p) + ToSet(AllHeld(b.keys, b.isRecord, p))
  {
    hide IsVisit, AllHeld, HeldOn, Owns, KnownIn;
    VisitAddsOnly(b, p, v);
    VisitDoesPart(b, v);
    HeldOnIsLater(b.keys, b.isRecord, p, v.m.after);
  }

  lemma FactsOwn(b: Bucket, p: Platform, was: set<Record>, now: set<Record>)
    requires Sorted(b.keys)
    requires now == was + ToSet(AllHeld(b.keys, b.isRecord, p))
    ensures forall r :: r in now <==> r in was || (r in b.keys && b.isRecord(r) && Owns(p, r))
  {
    hide Owns, AllHeld;
    ListingIs(b, p);
  }

  lemma Start(b: Bucket, p: Platform, start: set<Sha>)
    ensures AreDeliveries(b, p, start, []) && Pending(p, []) == [Reindex(p, None)] && OfChain(Pending(p, []), p)
    ensures ProfilesAfter(start, []) == start && FactsAfter(p, []) == {}
  {
  }

  lemma Progress(b: Bucket, p: Platform, start: set<Sha>, ds: seq<Delivery>, d: Delivery)
    requires Sorted(b.keys) && AreDeliveries(b, p, start, ds) && IsVisit(b, d.v) && d.v.m.platform == p
    requires d.k < |Pending(p, ds)| && Pending(p, ds)[d.k] == d.v.m && ProfilesAfter(start, ds) == d.v.profiles
    ensures d.ending.Acknowledged? ==>
      TotalLeft(b, d.v.profiles', QueuedAfter(Pending(p, ds), d)) < TotalLeft(b, d.v.profiles, Pending(p, ds))
  {
    hide IsVisit, QueuedAfter, Pending, AreDeliveries, ChainWork, Leads, TotalLeft, Delivers;
    DeliveriesLead(b, p, start, ds);
    VisitDelivers(b, p, Pending(p, ds), d);
    DeliveryWorks(b, p, d.v.profiles, Written(b, ds), Pending(p, ds), d, ChainWork(b, start, Reindex(p, None)));
  }
}
