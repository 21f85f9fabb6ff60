/**
 * The index queue's consumer without crashes (apps/extractor/src/indexing.ts, queues.ts): its handlers update the index
 * effect by effect, every effect a step of the protocol, and the queue drains.
 */
module IndexConsumer {
  import DeriveChain
  import opened HeldRecords
  import opened IndexProtocol
  import opened IndexWork
  import opened Options
  import opened Sequences

  class Index<R> {
    const w: World<set<Record>, R>
    const bucket: Bucket
    /** The sources whose identity deriving changes. */
    const relinks: set<Source>

    // The index.
    var profiles: set<Sha>
    var facts: map<Platform, set<Record>>
    var counted: map<Platform, nat>
    var rows: map<Source, R>

    // The queue, in any order.
    var queue: seq<Message>

    /** What deriving did, links and releases' changes among it. */
    ghost var effects: seq<DeriveChain.Effect>

    // What the consumer is at, and the run that led here.
    ghost var consumer: Consumer
    ghost var states: seq<State<set<Record>, R>>
    ghost var events: seq<Event<set<Record>, R>>

    ghost function Abs(): State<set<Record>, R>
      reads this`facts, this`counted, this`rows, this`queue, this`consumer
    {
      State(facts, counted, rows, multiset(queue), consumer)
    }

    /** The index is where a run of the protocol led. */
    ghost predicate Valid()
      reads this`facts, this`counted, this`rows, this`queue, this`consumer, this`states, this`events
    {
      && IsRun(w, states, events) && states[|states| - 1] == Abs()
      && w.derivedSources > 0 && w.changedReleases > 0 && bucket.profileRows > 0
      && (forall fs :: w.sources(fs) == Copies(bucket, fs))
      && Sorted(bucket.keys)
    }

    lemma ValidSays()
      requires Valid()
      ensures w.derivedSources > 0 && w.changedReleases > 0 && Sorted(bucket.keys)
      ensures forall fs :: w.sources(fs) == Copies(bucket, fs)
    {
    }

    /** The run went on from what it was. */
    twostate predicate GoesOn()
      reads this`states, this`events
    {
      old(states) <= states && old(events) <= events
    }

    constructor (w: World<set<Record>, R>, bucket: Bucket, relinks: set<Source>)
      requires w.derivedSources > 0 && w.changedReleases > 0 && bucket.profileRows > 0
      requires forall fs :: w.sources(fs) == Copies(bucket, fs)
      requires Sorted(bucket.keys)
      ensures Valid() && consumer == Idle && queue == [] && this.w == w && this.bucket == bucket && this.relinks == relinks
    {
      this.w, this.bucket, this.relinks := w, bucket, relinks;
      effects := [];
      profiles, facts, counted, rows, queue := {}, map[], map[], map[], [];
      consumer := Idle;
      events := [];
      states := [State(map[], map[], map[], multiset{}, Idle)];
    }

    /** Records the step an effect just took. */
    ghost method Took(e: Event<set<Record>, R>)
      requires IsRun(w, states, events) && Next(w, states[|states| - 1], e, Abs())
      modifies this`states, this`events
      ensures IsRun(w, states, events) && states[|states| - 1] == Abs() && GoesOn()
    {
      RunExtends(w, states, events, e, Abs());
      states, events := states + [Abs()], events + [e];
    }

    /**
     * Profile rows for the shas of `norm` that have none, read CONNECTIONS at a time until NORM_BYTES_PER_MESSAGE are
     * read: all of them, or at least one more. None is read once that many bytes are, and none is left before.
     */
    method PutNew(norm: seq<Sha>) returns (wrote: bool, done: bool, ghost written: seq<Sha>)
      requires bucket.profileRows > 0
      modifies this`profiles
      ensures old(profiles) <= profiles <= old(profiles) + ToSet(norm)
      ensures wrote <==> profiles != old(profiles)
      ensures done <==> ToSet(norm) <= profiles
      ensures !done ==> wrote
      ensures Distinct(written) && profiles == old(profiles) + ToSet(written) && ToSet(written) !! old(profiles)
      ensures forall g: nat :: CONNECTIONS * g < |written| ==>
        Total(written[..CONNECTIONS * g], bucket.size) < NORM_BYTES_PER_MESSAGE
      ensures !done ==> Total(written, bucket.size) >= NORM_BYTES_PER_MESSAGE
    {
      hide Total, Distinct, WithinBudget;
      var wanted := Wanted(norm, profiles);
      var unwritten: seq<Sha> := [];
      var read, put := 0, 0;
      ghost var groups: nat := 0;
      NoneTotal(wanted, bucket.size);
      while put < |wanted| && read < NORM_BYTES_PER_MESSAGE
        invariant put == if CONNECTIONS * groups <= |wanted| then CONNECTIONS * groups else |wanted|
        invariant profiles + ToSet(unwritten) == old(profiles) + ToSet(wanted[..put])
        invariant read == Total(wanted[..put], bucket.size)
        invariant WithinBudget(wanted, put, bucket.size)
      {
        var group := wanted[put..if put + CONNECTIONS <= |wanted| then put + CONNECTIONS else |wanted|];
        var more := ReadGroup(group);
        GroupRead(wanted, put, |group|, bucket.size);
        BudgetMore(wanted, groups, |group|, bucket.size);
        ToSetBoth(unwritten, group);
        unwritten, read, put, groups := unwritten + group, read + more, put + |group|, groups + 1;
        if |unwritten| >= bucket.profileRows {
          profiles, unwritten := profiles + ToSet(unwritten), [];
        }
      }
      if |unwritten| > 0 {
        profiles := profiles + ToSet(unwritten);
      }
      wrote, done := put > 0, put == |wanted|;
      written := wanted[..put];
      PutProgress(norm, old(profiles), profiles, wanted, put);
      BudgetKept(wanted, put, bucket.size);
    }

    /** The bytes of a group's records. */
    method ReadGroup(group: seq<Sha>) returns (read: nat)
      ensures read == Total(group, bucket.size)
    {
      read := 0;
      for i := 0 to |group|
        invariant read == Total(group[..i], bucket.size)
      {
        assert group[..i + 1] == group[..i] + [group[i]];
        TotalMore(group[..i], group[i], bucket.size);
        read := read + bucket.size(group[i]);
      }
      assert group[..|group|] == group;
    }

    // The handlers. Each starts with its message delivered and ends with what it hands on decided.

    /** A message is being handled; what only the queue's receiver changes is as it was. */
    ghost predicate Handling(m: Message, at: Progress)
      reads this`facts, this`counted, this`rows, this`queue, this`consumer, this`states, this`events
    {
      Valid() && consumer == Busy(m, at)
    }

    /** The handler is done. */
    ghost method Conclude(m: Message, at: Progress, next: Option<Message>)
      requires Handling(m, at)
      requires Decides(w, Abs(), m, if m.Derive? && at.Started? then Deriving(0, false) else at, next)
      modifies this`consumer, this`states, this`events
      ensures Handling(m, Decided(next)) && GoesOn()
    {
      hide IsRun, Decides;
      consumer := Busy(m, Decided(next));
      Took(Decide(next));
    }

    /** Counts a unit, deciding its settle, or a record about to be written. */
    method Count(m: Message) returns (n: nat)
      requires Handling(m, Started) && Handles(m)
      modifies this`counted, this`consumer, this`states, this`events
      ensures counted == old(Abs().CountFacts(m.platform).counted) && n == counted[m.platform]
      ensures Handling(m, if m.Unit? then Decided(Some(Settle(m.platform, n))) else Counted) && GoesOn()
    {
      hide IsRun, Copies, Sorted;
      n := if m.platform in counted then counted[m.platform] + 1 else 1;
      counted := counted[m.platform := n];
      consumer := Busy(m, if m.Unit? then Decided(Some(Settle(m.platform, n))) else Counted);
      Took(if m.Unit? then CountUnit else CountRecord);
    }

    /** A unit's or record's facts: its profile rows, then, once they are all written, its own. */
    method RecordRows(m: Message, record: Record, at: Progress) returns (done: bool)
      requires Handling(m, at) && ((m.Unit? && at.Started?) || (m.Reindex? && at.Counted?))
      modifies this`profiles, this`facts, this`states, this`events
      ensures Handling(m, at) && GoesOn()
      ensures done <==> ToSet(bucket.norms(record)) <= profiles
      ensures old(profiles) <= profiles <= old(profiles) + ToSet(bucket.norms(record))
      ensures !done ==> profiles != old(profiles) && facts == old(facts)
      ensures done ==> facts == old(facts)[m.platform := KnownIn(old(facts), m.platform) + {record}]
    {
      hide IsRun, Copies, Sorted;
      var wrote;
      ghost var written;
      wrote, done, written := PutNew(bucket.norms(record));
      if done {
        WriteRecord(m, record, at);
      }
    }

    method WriteRecord(m: Message, record: Record, at: Progress)
      requires Handling(m, at) && ((m.Unit? && at.Started?) || (m.Reindex? && at.Counted?))
      modifies this`facts, this`states, this`events
      ensures Handling(m, at) && GoesOn()
      ensures facts == old(facts)[m.platform := KnownIn(old(facts), m.platform) + {record}]
    {
      hide IsRun, Copies, Sorted;
      facts := facts[m.platform := KnownIn(facts, m.platform) + {record}];
      Took(WriteFacts(facts[m.platform]));
    }

    /** A unit's facts, then its settle, numbered; a unit written in part carries on as itself. */
    method IndexFacts(m: Message) returns (next: Option<Message>)
      requires Handling(m, Started) && m.Unit?
      modifies this`profiles, this`facts, this`counted, this`consumer, this`states, this`events
      ensures Handling(m, Decided(next)) && GoesOn()
      ensures UnitStep(bucket, m, old(profiles), old(facts), profiles, facts, next)
      ensures counted == NextCounted(bucket, m, next, old(counted))
      ensures next != Some(m) ==> next == Some(Settle(m.platform, old(Abs()).LastFacts(m.platform) + 1))
    {
      hide IsRun, Next;
      var done := RecordRows(m, m.unit, Started);
      if !done {
        next := Some(m);
        Conclude(m, Started, next);
      } else {
        var n := Count(m);
        next := Some(Settle(m.platform, n));
      }
    }

    /** A settle derives its platform if nothing was counted since it was numbered. */
    method IndexSettle(m: Message) returns (next: Option<Message>)
      requires Handling(m, Started) && m.Settle?
      modifies this`consumer, this`states, this`events
      ensures Handling(m, Decided(next)) && GoesOn()
      ensures next == if old(Abs()).LastFacts(m.platform) == m.facts then Some(Rederive(m.platform)) else None
    {
      hide IsRun, Next;
      var last := if m.platform in counted then counted[m.platform] else 0;
      next := if last == m.facts then Some(Rederive(m.platform)) else None;
      Conclude(m, Started, next);
    }

    /** Every source and release of a platform, to be derived. */
    method IndexRederive(m: Message) returns (next: Option<Message>)
      requires Handling(m, Started) && m.Rederive?
      modifies this`consumer, this`states, this`events
      ensures Handling(m, Decided(next)) && GoesOn()
      ensures next.Some? && next.value.Derive?
      ensures Distinct(next.value.sources) && Distinct(next.value.changes)
      ensures var known := KnownIn(facts, m.platform);
        var sources, changes := Sources(w, bucket, known, m.platform), Releases(bucket, known);
        && ToSet(next.value.sources) == sources && |next.value.sources| == |sources|
        && ToSet(next.value.changes) == changes && |next.value.changes| == |changes|
      ensures forall s :: s in next.value.sources <==>
        w.platformOf(s) == m.platform && exists r :: r in KnownIn(facts, m.platform) && s in bucket.copies(r)
      ensures forall r :: r in next.value.changes <==> r in KnownIn(facts, m.platform) && bucket.isRelease(r)
      ensures LeadsToListed(w, facts, m, next.value.sources)
    {
      hide IsRun, Next;
      var known := if m.platform in facts then facts[m.platform] else {};
      var sources := Listing(Sources(w, bucket, known, m.platform));
      var changes := Listing(Releases(bucket, known));
      next := Some(Derive(sources, changes));
      Conclude(m, Started, next);
      assert forall s :: s in sources ==> s in ToSet(sources);
    }

    /** The first sources of a derive message, each from its platform's facts; the rest are handed on. */
    method IndexDerive(m: Message) returns (next: Option<Message>)
      requires Handling(m, Started) && m.Derive?
      requires forall s :: s in m.sources ==> HasCopy(w, facts, s)
      modifies this`rows, this`effects, this`consumer, this`states, this`events
      ensures Handling(m, Decided(next)) && GoesOn()
      ensures next == AfterDerive(w, m)
      ensures (effects, next) == (old(effects) + DeriveChain.Derived(w, m, relinks).0, DeriveChain.Derived(w, m, relinks).1)
      ensures next.Some? ==> LeadsToListed(w, facts, m, next.value.sources)
      ensures forall i :: 0 <= i < Min(w.derivedSources, |m.sources|) ==> Abs().Fresh(w, m.sources[i])
      ensures forall s :: s !in m.sources[..Min(w.derivedSources, |m.sources|)] ==>
        (s in rows <==> s in old(rows)) && (s in rows ==> rows[s] == old(rows)[s])
    {
      hide IsRun, Next, DeriveChain.Derived;
      var now := Min(w.derivedSources, |m.sources|);
      var relink := DeriveSources(m, now);
      next := AfterDerive(w, m);
      DeriveRest(m, relink, next, old(effects));
      Conclude(m, if now == 0 then Started else Deriving(now, false), next);
    }

    /** A message's first sources, one by one; whether any of them changed identity. */
    method DeriveSources(m: Message, now: nat) returns (relink: bool)
      requires Handling(m, Started) && m.Derive? && now == Min(w.derivedSources, |m.sources|)
      requires forall s :: s in m.sources ==> HasCopy(w, facts, s)
      modifies this`rows, this`effects, this`consumer, this`states, this`events
      ensures Handling(m, if now == 0 then Started else Deriving(now, false)) && GoesOn()
      ensures forall i :: 0 <= i < now ==> Abs().Fresh(w, m.sources[i])
      ensures forall s :: s !in m.sources[..now] ==>
        (s in rows <==> s in old(rows)) && (s in rows ==> rows[s] == old(rows)[s])
      ensures effects == old(effects) + DeriveChain.SourceEffects(m.sources[..now])
      ensures relink <==> exists s :: s in m.sources[..now] && s in relinks
    {
      hide IsRun, Next, Valid, DeriveChain.SourceEffects;
      relink := false;
      DeriveChain.Effectless();
      for i := 0 to now
        invariant Handling(m, if i == 0 then Started else Deriving(i, false)) && GoesOn()
        invariant forall j :: 0 <= j < i ==> Abs().Fresh(w, m.sources[j])
        invariant forall s :: s !in m.sources[..i] ==>
          (s in rows <==> s in old(rows)) && (s in rows ==> rows[s] == old(rows)[s])
        invariant effects == old(effects) + DeriveChain.SourceEffects(m.sources[..i])
        invariant relink <==> exists s :: s in m.sources[..i] && s in relinks
      {
        assert m.sources[..i + 1] == m.sources[..i] + [m.sources[i]];
        assert m.sources[i] in m.sources;
        DeriveOne(m, i);
        effects := effects + [DeriveChain.DeriveSource(m.sources[i])];
        DeriveChain.SourceEffectsMore(m.sources[..i], m.sources[i]);
        relink := relink || m.sources[i] in relinks;
      }
    }

    /** The releases' changes once no source is left, and linking. */
    method DeriveRest(m: Message, relink: bool, next: Option<Message>, ghost before: seq<DeriveChain.Effect>)
      requires m.Derive? && next == AfterDerive(w, m)
      requires var now := Min(w.derivedSources, |m.sources|);
        && effects == before + DeriveChain.SourceEffects(m.sources[..now])
        && (relink <==> exists s :: s in m.sources[..now] && s in relinks)
      modifies this`effects
      ensures (effects, next) == (before + DeriveChain.Derived(w, m, relinks).0, DeriveChain.Derived(w, m, relinks).1)
    {
      hide DeriveChain.SourceEffects, DeriveChain.ChangeEffects, DeriveChain.Derived;
      var now := Min(w.derivedSources, |m.sources|);
      var releases := DeriveChain.ReleasesNow(now, |m.sources|, w.changedReleases, |m.changes|);
      ghost var derived := effects;
      DeriveChain.Effectless();
      for i := 0 to releases
        invariant effects == derived + DeriveChain.ChangeEffects(m.changes[..i])
      {
        assert m.changes[..i + 1] == m.changes[..i] + [m.changes[i]];
        effects := effects + [DeriveChain.DeriveChanges(m.changes[i])];
        DeriveChain.ChangeEffectsMore(m.changes[..i], m.changes[i]);
      }
      var links := relink || (now == |m.sources| && releases == |m.changes| && |m.changes| > 0);
      effects := effects + if links then [DeriveChain.Link] else [];
      DeriveChain.DerivedIs(w, m, relinks, before, relink, next);
    }

    /** One source's rows. */
    method DeriveOne(m: Message, i: nat)
      requires Handling(m, if i == 0 then Started else Deriving(i, false))
      requires m.Derive? && i < Min(w.derivedSources, |m.sources|) && HasCopy(w, facts, m.sources[i])
      modifies this`rows, this`consumer, this`states, this`events
      ensures Handling(m, Deriving(i + 1, false)) && GoesOn()
      ensures rows == old(rows)[m.sources[i] := w.derived(m.sources[i], facts[w.platformOf(m.sources[i])])]
    {
      hide IsRun, Copies, Sorted, Next;
      WriteSource(m, i);
      ghost var st := Abs();
      consumer := Busy(m, Deriving(i + 1, false));
      FinishNext(w, st, m, i);
      Took(FinishSource);
    }

    method WriteSource(m: Message, i: nat)
      requires Handling(m, if i == 0 then Started else Deriving(i, false))
      requires m.Derive? && i < Min(w.derivedSources, |m.sources|) && HasCopy(w, facts, m.sources[i])
      modifies this`rows, this`consumer, this`states, this`events
      ensures Handling(m, Deriving(i, true)) && GoesOn()
      ensures rows == old(rows)[m.sources[i] := w.derived(m.sources[i], facts[w.platformOf(m.sources[i])])]
    {
      hide IsRun, Copies, Sorted;
      var s := m.sources[i];
      var derived := w.derived(s, facts[w.platformOf(s)]);
      rows := rows[s := derived];
      consumer := Busy(m, Deriving(i, true));
      Took(WriteRows(derived));
    }

    /**
     * The next held record's facts, counted before they are written; past the last one, the platform's rederive. It fails,
     * having done nothing, on an `after` under none of the platform's prefixes.
     */
    method IndexHeld(m: Message) returns (ok: bool, next: Option<Message>)
      requires Handling(m, Started) && m.Reindex?
      modifies this`profiles, this`facts, this`counted, this`consumer, this`states, this`events
      ensures ok <==> Placed(m.platform, m.after)
      ensures !ok ==> Handling(m, Started) && profiles == old(profiles) && facts == old(facts) && counted == old(counted)
      ensures GoesOn() && (ok ==> Handling(m, Decided(next)))
      ensures ok ==> HeldStep(bucket, m, old(profiles), old(facts), profiles, facts, next)
      ensures ok && (forall k :: !IsLeftOf(bucket, m.platform, m.after, k)) ==>
        next == Some(Rederive(m.platform)) && facts == old(facts) && counted == old(counted)
      ensures ok ==> forall r :: IsNextOf(bucket, m.platform, m.after, r) ==>
        && counted == old(CountedOnce(counted, m.platform))
        && if ToSet(bucket.norms(r)) <= profiles then
             && facts == old(facts)[m.platform := KnownIn(old(facts), m.platform) + {r}]
             && next == Some(Reindex(m.platform, Some(r)))
           else facts == old(facts) && next == Some(m)
      ensures ok ==> counted == NextCounted(bucket, m, next, old(counted))
    {
      hide IsRun, Next, HeldOn, Placed, HeldStep, ToSet, NextCounted, IsLeftOf, IsNextOf, Sorted, KnownIn;
      ValidSays();
      var held := Records(bucket.keys, RecordPrefixes(Some(m.platform)), m.after, bucket.isRecord);
      HeldOnIs(bucket.keys, bucket.isRecord, m.platform, m.after, held);
      if held == None {
        return false, None;
      }
      ok := true;
      if held.value == [] {
        next := Some(Rederive(m.platform));
        Conclude(m, Started, next);
      } else {
        next := IndexRecord(m, held.value[0]);
      }
      StepIs(bucket, m, held.value, old(profiles), old(facts), old(counted), profiles, facts, next);
      HeldStepIs(bucket, m, old(profiles), old(facts), profiles, facts, next);
      CountedIs(bucket, m, next, old(counted));
    }

    /** A held record's facts: the message goes on from the record once they are written, else it carries on as itself. */
    method IndexRecord(m: Message, record: Record) returns (next: Option<Message>)
      requires Handling(m, Started) && m.Reindex?
      modifies this`profiles, this`facts, this`counted, this`consumer, this`states, this`events
      ensures GoesOn() && Handling(m, Decided(next))
      ensures old(profiles) <= profiles <= old(profiles) + ToSet(bucket.norms(record))
      ensures counted == old(CountedOnce(counted, m.platform))
      ensures if ToSet(bucket.norms(record)) <= profiles then
          && facts == old(facts)[m.platform := KnownIn(old(facts), m.platform) + {record}]
          && next == Some(Reindex(m.platform, Some(record)))
        else profiles != old(profiles) && facts == old(facts) && next == Some(m)
    {
      hide IsRun, Next, Decides, ToSet, Copies, Sorted, KnownIn, Valid;
      var n := Count(m);
      var done := RecordRows(m, record, Counted);
      next := if done then Some(Reindex(m.platform, Some(record))) else Some(m);
      RecordDecides(w, Abs(), m, record, next);
      Conclude(m, Counted, next);
    }

    /** One message's share of the index. It fails on a reindex message that goes on from outside its platform's records. */
    method IndexUnit(m: Message) returns (ok: bool, next: Option<Message>)
      requires Handling(m, Started)
      requires m.Derive? ==> forall s :: s in m.sources ==> HasCopy(w, facts, s)
      modifies this`profiles, this`facts, this`counted, this`rows, this`effects, this`consumer, this`states, this`events
      ensures ok <==> Readable(m)
      ensures GoesOn() && Handling(m, if ok then Decided(next) else Started)
      ensures !ok ==> profiles == old(profiles) && facts == old(facts) && counted == old(counted) && rows == old(rows)
      ensures ok ==> Handled(w, bucket, m, old(profiles), old(facts), profiles, facts, next) && Grows(old(facts), facts)
      ensures ok ==> counted == NextCounted(bucket, m, next, old(counted))
      ensures ok && next.Some? && next.value.Derive? ==> LeadsToListed(w, facts, m, next.value.sources)
      ensures effects == old(effects) + if m.Derive? then DeriveChain.Derived(w, m, relinks).0 else []
    {
      hide *;
      ok := true;
      ReadableIs(m);
      match m
      case Unit(_, u) =>
        next := IndexFacts(m);
        UnitHandled(w, bucket, m, old(profiles), old(facts), profiles, facts, next);
      case Reindex(p, after) =>
        ok, next := IndexHeld(m);
        if ok {
          RecordHandled(w, bucket, m, old(profiles), old(facts), profiles, facts, next);
        }
      case Settle(_, _) =>
        next := IndexSettle(m);
        StoresKept(w, bucket, m, profiles, facts, counted, next);
      case Rederive(_) =>
        next := IndexRederive(m);
        StoresKept(w, bucket, m, profiles, facts, counted, next);
      case Derive(_, _) =>
        next := IndexDerive(m);
        StoresKept(w, bucket, m, profiles, facts, counted, next);
      case Routes(_) =>
        next := None;
        NoMore(m);
        StoresKept(w, bucket, m, profiles, facts, counted, next);
    }

    method NoMore(m: Message)
      requires Handling(m, Started) && m.Routes?
      modifies this`consumer, this`states, this`events
      ensures Handling(m, Decided(None)) && GoesOn()
    {
      hide IsRun, Copies, Sorted;
      Conclude(m, Started, None);
    }

    /** Every source a derive message lists has a copy. */
    ghost predicate ListedOnly()
      reads this`facts, this`queue
    {
      ListedIn(w, facts, queue)
    }

    /** Every reindex message goes on from a key of its platform's records. */
    ghost predicate ReadableOnly()
      reads this`queue
    {
      forall k :: 0 <= k < |queue| ==> Readable(queue[k])
    }

    // The queue.

    /** A message sent from outside, or delivered again. */
    method Send(m: Message)
      requires Valid() && ListedOnly()
      requires m.Derive? ==> forall s :: s in m.sources ==> HasCopy(w, facts, s)
      modifies this`queue, this`states, this`events
      ensures Valid() && GoesOn() && ListedOnly() && queue == old(queue) + [m]
    {
      hide IsRun, Copies, Sorted;
      queue := queue + [m];
      Took(Arrive(m));
    }

    method Receive(k: nat) returns (m: Message)
      requires Valid() && consumer == Idle && ListedOnly() && k < |queue|
      modifies this`consumer, this`states, this`events
      ensures m == queue[k] && Handling(m, Started) && GoesOn()
      ensures m.Derive? ==> forall s :: s in m.sources ==> HasCopy(w, facts, s)
    {
      hide IsRun, Copies, Sorted;
      m := queue[k];
      consumer := Busy(m, Started);
      Took(Deliver(m));
    }

    method HandOver(m: Message, next: Option<Message>)
      requires Handling(m, Decided(next))
      modifies this`queue, this`consumer, this`states, this`events
      ensures Handling(m, HandedOn(next)) && GoesOn()
      ensures queue == if next.Some? then old(queue) + [next.value] else old(queue)
    {
      hide IsRun, Copies, Sorted;
      if next.Some? {
        queue := queue + [next.value];
      }
      consumer := Busy(m, HandedOn(next));
      Took(HandOn);
    }

    method Ack(m: Message, next: Option<Message>, k: nat)
      requires Handling(m, HandedOn(next)) && k < |queue| && queue[k] == m
      modifies this`queue, this`consumer, this`states, this`events
      ensures Valid() && GoesOn() && consumer == Idle && queue == Without(old(queue), k)
    {
      hide IsRun, Copies, Sorted;
      WithoutMultiset(queue, k);
      queue := Without(queue, k);
      consumer := Idle;
      Took(Acknowledge);
    }

    method Finish(m: Message, next: Option<Message>, k: nat)
      requires Handling(m, Decided(next)) && k < |queue| && queue[k] == m
      modifies this`queue, this`consumer, this`states, this`events
      ensures Valid() && GoesOn() && consumer == Idle
      ensures queue == Without(if next.Some? then old(queue) + [next.value] else old(queue), k)
    {
      hide Valid, Handling;
      HandOver(m, next);
      Ack(m, next, k);
    }

    /** The consumer fails or is cut off; its message stays in the queue, and what was done stays done. */
    ghost method BreakOff(m: Message, at: Progress)
      requires Handling(m, at)
      modifies this`consumer, this`states, this`events
      ensures Valid() && GoesOn() && consumer == Idle
    {
      hide IsRun, Copies, Sorted;
      consumer := Idle;
      Took(Crash);
    }

    /**
     * The k-th queued message: indexed, what it hands on queued, and only then acknowledged. One that fails stays queued
     * and changes nothing.
     */
    method Consume(k: nat) returns (ok: bool, next: Option<Message>)
      requires Valid() && consumer == Idle && ListedOnly() && k < |queue|
      modifies this
      ensures Valid() && GoesOn() && consumer == Idle && ListedOnly()
      ensures ok <==> Readable(old(queue[k]))
      ensures !ok ==> queue == old(queue) && profiles == old(profiles) && facts == old(facts) && rows == old(rows)
      ensures !ok ==> counted == old(counted)
      ensures ok ==> queue == Without(if next.Some? then old(queue) + [next.value] else old(queue), k)
      ensures ok ==> Handled(w, bucket, old(queue[k]), old(profiles), old(facts), profiles, facts, next)
      ensures ok ==> counted == NextCounted(bucket, old(queue[k]), next, old(counted))
      ensures old(queue[k]).Derive? ==> effects == old(effects) + DeriveChain.Derived(w, old(queue[k]), relinks).0
      ensures !old(queue[k]).Derive? ==> effects == old(effects)
      ensures ok ==> (TotalFacts(bucket, profiles, queue) < old(TotalFacts(bucket, profiles, queue))
                      || (TotalFacts(bucket, profiles, queue) == old(TotalFacts(bucket, profiles, queue))
                          && TotalDerive(w, bucket, facts, queue) < old(TotalDerive(w, bucket, facts, queue))))
    {
      hide Valid, Handling, Abs, Handled, NextCounted, TotalFacts, TotalDerive, Copies, Sorted;
      hide LeadsToListed, ListedIn, Readable;
      ValidSays();
      var m := Receive(k);
      ok, next := IndexUnit(m);
      if !ok {
        BreakOff(m, Started);
        return;
      }
      Finish(m, next, k);
      QueueShrinks(w, bucket, old(queue), k, old(profiles), old(facts), profiles, facts, next, queue);
      KeepsListed(w, bucket, old(queue), k, old(facts), facts, next, queue);
    }

    /** Consumes until the queue is empty, in any order: every source is then derived from the facts as they are. */
    method Drain()
      requires Valid() && consumer == Idle && ListedOnly() && ReadableOnly()
      modifies this
      ensures Valid() && GoesOn() && queue == []
      ensures forall s :: Abs().Fresh(w, s)
    {
      while queue != []
        invariant Valid() && GoesOn() && consumer == Idle && ListedOnly() && ReadableOnly()
        decreases TotalFacts(bucket, profiles, queue), TotalDerive(w, bucket, facts, queue)
      {
        var k: nat :| k < |queue|;
        ghost var q, p, f := queue, profiles, facts;
        var _, next := Consume(k);
        KeepsReadable(w, bucket, q, k, p, f, profiles, facts, next, queue);
      }
      forall s
        ensures Abs().Fresh(w, s)
      {
        DrainedIsDerived(w, states, events, |states| - 1, s);
      }
    }
  }

  lemma FinishNext<F, R>(w: World<F, R>, st: State<F, R>, m: Message, i: nat)
    requires st.consumer == Busy(m, Deriving(i, true)) && m.Derive? && i < |m.sources| && st.Listed(w, m.sources[i])
    requires m.sources[i] in st.rows && st.rows[m.sources[i]] == w.derived(m.sources[i], st.facts[w.platformOf(m.sources[i])])
    ensures Next(w, st, FinishSource, st.(consumer := Busy(m, Deriving(i + 1, false))))
  {
    var s := m.sources[i];
    assert st.rows == st.rows[s := w.derived(s, st.facts[w.platformOf(s)])];
  }

  lemma RecordDecides<F, R>(w: World<F, R>, st: State<F, R>, m: Message, record: Record, next: Option<Message>)
    requires m.Reindex? && (next == Some(m) || next == Some(Reindex(m.platform, Some(record))))
    ensures Decides(w, st, m, Counted, next)
  {
  }

  predicate Readable(m: Message) {
    m.Reindex? ==> Placed(m.platform, m.after)
  }

  lemma ReadableIs(m: Message)
    ensures Readable(m) <==> m.Reindex? ==> Placed(m.platform, m.after)
  {
  }

  /** A reindex message hands on one that goes on from a record, which is under one of its platform's prefixes. */
  lemma KeepsReadable<R>(w: World<set<Record>, R>, b: Bucket, q: seq<Message>, k: nat,
                         profiles: set<Sha>, facts: map<Platform, set<Record>>,
                         profiles': set<Sha>, facts': map<Platform, set<Record>>, next: Option<Message>, q': seq<Message>)
    requires k < |q| && Sorted(b.keys) && forall i :: 0 <= i < |q| ==> Readable(q[i])
    requires Handled(w, b, q[k], profiles, facts, profiles', facts', next)
    requires q' == Without(if next.Some? then q + [next.value] else q, k)
    ensures forall i :: 0 <= i < |q'| ==> Readable(q'[i])
  {
    if q[k].Reindex? && Held(b, q[k].platform, q[k].after).value != [] {
      HeldOnNext(b.keys, b.isRecord, q[k].platform, q[k].after);
    }
    assert next.Some? ==> Readable(next.value);
  }

  /** Every source a queued derive message lists has a copy. */
  ghost predicate ListedIn<R>(w: World<set<Record>, R>, facts: map<Platform, set<Record>>, q: seq<Message>) {
    forall k, s :: 0 <= k < |q| && q[k].Derive? && s in q[k].sources ==> HasCopy(w, facts, s)
  }

  predicate HasCopy<R>(w: World<set<Record>, R>, facts: map<Platform, set<Record>>, s: Source) {
    w.platformOf(s) in facts && s in w.sources(facts[w.platformOf(s)])
  }

  /** The sources a message hands on to derive have copies, or were its own. */
  ghost predicate LeadsToListed<R>(w: World<set<Record>, R>, facts: map<Platform, set<Record>>, m: Message,
                                   sources: seq<Source>) {
    forall s :: s in sources ==> HasCopy(w, facts, s) || (m.Derive? && s in m.sources)
  }

  lemma KeepsListed<R>(w: World<set<Record>, R>, b: Bucket, q: seq<Message>, k: nat, facts: map<Platform, set<Record>>,
                       facts': map<Platform, set<Record>>, next: Option<Message>, q': seq<Message>)
    requires k < |q| && ListedIn(w, facts, q) && Grows(facts, facts')
    requires forall fs :: w.sources(fs) == Copies(b, fs)
    requires next.Some? && next.value.Derive? ==> LeadsToListed(w, facts', q[k], next.value.sources)
    requires q' == Without(if next.Some? then q + [next.value] else q, k)
    ensures ListedIn(w, facts', q')
  {
    forall i, s | 0 <= i < |q'| && q'[i].Derive? && s in q'[i].sources
      ensures HasCopy(w, facts', s)
    {
      if next.Some? && i == |q'| - 1 {
        if !HasCopy(w, facts', s) {
          CopyKept(w, b, facts, facts', s);
        }
      } else {
        var j := if i < k then i else i + 1;
        assert q'[i] == q[j];
        CopyKept(w, b, facts, facts', s);
      }
    }
  }

  lemma CopyKept<R>(w: World<set<Record>, R>, b: Bucket, facts: map<Platform, set<Record>>,
                    facts': map<Platform, set<Record>>, s: Source)
    requires HasCopy(w, facts, s) && Grows(facts, facts') && forall fs :: w.sources(fs) == Copies(b, fs)
    ensures HasCopy(w, facts', s)
  {
  }

  lemma WithoutMultiset<T>(q: seq<T>, k: nat)
    requires k < |q|
    ensures multiset(Without(q, k)) == multiset(q) - multiset{q[k]}
  {
    assert q == q[..k] + [q[k]] + q[k + 1..];
  }

  lemma UnitHandled<R>(w: World<set<Record>, R>, b: Bucket, m: Message, profiles: set<Sha>, facts: map<Platform, set<Record>>,
                       profiles': set<Sha>, facts': map<Platform, set<Record>>, next: Option<Message>)
    requires m.Unit? && UnitStep(b, m, profiles, facts, profiles', facts', next)
    ensures Handled(w, b, m, profiles, facts, profiles', facts', next) && Grows(facts, facts')
    ensures next.Some? && !next.value.Derive?
  {
  }

  lemma StepIs(b: Bucket, m: Message, held: seq<Record>, profiles: set<Sha>, facts: map<Platform, set<Record>>,
               counted: map<Platform, nat>, profiles': set<Sha>, facts': map<Platform, set<Record>>, next: Option<Message>)
    requires m.Reindex? && Held(b, m.platform, m.after) == Some(held)
    requires held == [] ==> next == Some(Rederive(m.platform)) && profiles' == profiles && facts' == facts
    requires held != [] ==>
      var norm := ToSet(b.norms(held[0]));
      && profiles <= profiles' <= profiles + norm
      && if norm <= profiles' then
           && facts' == facts[m.platform := KnownIn(facts, m.platform) + {held[0]}]
           && next == Some(Reindex(m.platform, Some(held[0])))
         else profiles' != profiles && facts' == facts && next == Some(m)
    ensures HeldStep(b, m, profiles, facts, profiles', facts', next)
    ensures NextCounted(b, m, next, counted) == if held == [] then counted else CountedOnce(counted, m.platform)
  {
    hide HeldOn;
  }

  lemma CountedIs(b: Bucket, m: Message, next: Option<Message>, counted: map<Platform, nat>)
    requires m.Reindex?
    ensures NextCounted(b, m, next, counted) == if IsCounted(b, m, next) then CountedOnce(counted, m.platform) else counted
    ensures (forall k :: !IsLeftOf(b, m.platform, m.after, k)) || exists k :: IsLeftOf(b, m.platform, m.after, k)
    ensures forall r :: IsNextOf(b, m.platform, m.after, r) ==> IsLeftOf(b, m.platform, m.after, r)
  {
  }

  lemma RecordHandled<R>(w: World<set<Record>, R>, b: Bucket, m: Message, profiles: set<Sha>, facts: map<Platform, set<Record>>,
                         profiles': set<Sha>, facts': map<Platform, set<Record>>, next: Option<Message>)
    requires m.Reindex? && HeldStep(b, m, profiles, facts, profiles', facts', next)
    ensures Handled(w, b, m, profiles, facts, profiles', facts', next) && Grows(facts, facts')
    ensures next.Some? && !next.value.Derive?
  {
  }

  lemma StoresKept<R>(w: World<set<Record>, R>, b: Bucket, m: Message, profiles: set<Sha>, facts: map<Platform, set<Record>>,
                      counted: map<Platform, nat>, next: Option<Message>)
    requires m.Settle? ==> next == None || next == Some(Rederive(m.platform))
    requires m.Rederive? ==>
      && next.Some? && next.value.Derive?
      && |next.value.sources| == |Sources(w, b, KnownIn(facts, m.platform), m.platform)|
      && |next.value.changes| == |Releases(b, KnownIn(facts, m.platform))|
    requires m.Derive? ==> next == AfterDerive(w, m)
    requires m.Routes? ==> next == None
    requires !m.Unit? && !m.Reindex?
    ensures Handled(w, b, m, profiles, facts, profiles, facts, next) && Grows(facts, facts)
    ensures NextCounted(b, m, next, counted) == counted
  {
  }

  ghost predicate Grows(facts: map<Platform, set<Record>>, facts': map<Platform, set<Record>>) {
    forall p :: p in facts ==> p in facts' && facts[p] <= facts'[p]
  }

  /** How many bytes shas' records have. */
  function Total(shas: seq<Sha>, size: Sha -> nat): nat {
    if shas == [] then 0 else Total(shas[..|shas| - 1], size) + size(shas[|shas| - 1])
  }

  lemma TotalMore(shas: seq<Sha>, sha: Sha, size: Sha -> nat)
    ensures Total(shas + [sha], size) == Total(shas, size) + size(sha)
  {
    assert (shas + [sha])[..|shas|] == shas;
  }

  lemma NoneTotal(wanted: seq<Sha>, size: Sha -> nat)
    ensures Total(wanted[..0], size) == 0 && ToSet(wanted[..0]) == {} && WithinBudget(wanted, 0, size)
  {
  }

  lemma {:induction false} TotalBoth(a: seq<Sha>, b: seq<Sha>, size: Sha -> nat)
    ensures Total(a + b, size) == Total(a, size) + Total(b, size)
  {
    if b == [] {
      assert a + b == a;
    } else {
      assert (a + b)[..|a + b| - 1] == a + b[..|b| - 1];
      TotalBoth(a, b[..|b| - 1], size);
    }
  }

  lemma GroupRead(wanted: seq<Sha>, put: nat, n: nat, size: Sha -> nat)
    requires put + n <= |wanted|
    ensures Total(wanted[..put + n], size) == Total(wanted[..put], size) + Total(wanted[put..put + n], size)
    ensures ToSet(wanted[..put + n]) == ToSet(wanted[..put]) + ToSet(wanted[put..put + n])
  {
    assert wanted[..put + n] == wanted[..put] + wanted[put..put + n];
    TotalBoth(wanted[..put], wanted[put..put + n], size);
    ToSetBoth(wanted[..put], wanted[put..put + n]);
  }

  /** When each group of the first `put` was begun, less than the bytes of one message were read. */
  ghost predicate WithinBudget(wanted: seq<Sha>, put: nat, size: Sha -> nat) {
    forall g: nat :: CONNECTIONS * g < put <= |wanted| ==> Total(wanted[..CONNECTIONS * g], size) < NORM_BYTES_PER_MESSAGE
  }

  lemma BudgetMore(wanted: seq<Sha>, groups: nat, n: nat, size: Sha -> nat)
    requires CONNECTIONS * groups + n <= |wanted| && n <= CONNECTIONS && WithinBudget(wanted, CONNECTIONS * groups, size)
    requires Total(wanted[..CONNECTIONS * groups], size) < NORM_BYTES_PER_MESSAGE
    ensures WithinBudget(wanted, CONNECTIONS * groups + n, size)
  {
    hide Total;
  }

  lemma BudgetKept(wanted: seq<Sha>, put: nat, size: Sha -> nat)
    requires put <= |wanted| && WithinBudget(wanted, put, size)
    ensures forall g: nat :: CONNECTIONS * g < put ==>
      Total(wanted[..put][..CONNECTIONS * g], size) < NORM_BYTES_PER_MESSAGE
  {
    hide Total;
    forall g: nat | CONNECTIONS * g < put
      ensures Total(wanted[..put][..CONNECTIONS * g], size) < NORM_BYTES_PER_MESSAGE
    {
      assert wanted[..put][..CONNECTIONS * g] == wanted[..CONNECTIONS * g];
    }
  }

  lemma PutProgress(norm: seq<Sha>, before: set<Sha>, after: set<Sha>, wanted: seq<Sha>, put: nat)
    requires Distinct(wanted) && put <= |wanted| && (put == 0 ==> wanted == [])
    requires forall sha :: sha in wanted <==> sha in Missing(norm, before)
    requires after == before + ToSet(wanted[..put])
    ensures before <= after <= before + ToSet(norm)
    ensures put > 0 <==> after != before
    ensures put == |wanted| <==> ToSet(norm) <= after
    ensures Distinct(wanted[..put]) && ToSet(wanted[..put]) !! before
  {
    assert forall sha :: sha in wanted[..put] ==> sha in wanted;
    if put > 0 {
      assert wanted[0] in wanted && wanted[0] in wanted[..put];
    }
    if put == |wanted| {
      assert wanted[..put] == wanted;
    } else {
      assert wanted[put] in wanted && wanted[put] !in wanted[..put];
      assert wanted[put] in ToSet(norm);
    }
  }

  lemma RunExtends<F, R>(w: World<F, R>, states: seq<State<F, R>>, events: seq<Event<F, R>>, e: Event<F, R>, st: State<F, R>)
    requires IsRun(w, states, events) && Next(w, states[|states| - 1], e, st)
    ensures IsRun(w, states + [st], events + [e])
  {
  }
}
