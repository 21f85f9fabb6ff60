/** What the index's bucket holds, and how much work the queue's messages still make. */
module IndexWork {
  import opened HeldRecords
  import opened IndexProtocol
  import opened Options
  import opened Sequences
  import opened Text

  type Sha = string

  /** How many objects are read at a time, and how many bytes one message reads for new profile rows. */
  const CONNECTIONS: nat := 6
  const NORM_BYTES_PER_MESSAGE: nat := 96_000_000

  /** What the bucket holds: its keys in order, those that name records, and what each record refers to. */
  datatype Bucket = Bucket(
    keys: seq<string>,
    isRecord: string -> bool,
    norms: Record -> seq<Sha>,
    size: Sha -> nat,
    copies: Record -> set<Source>,
    isRelease: Record -> bool,
    profileRows: nat)

  function Copies(b: Bucket, facts: set<Record>): set<Source> {
    set r, s | r in facts && s in b.copies(r) :: s
  }

  // Measures of the work left.

  function Missing(norm: seq<Sha>, profiles: set<Sha>): set<Sha> {
    set sha | sha in norm && sha !in profiles
  }

  /** A platform's records after `after`. None is the error of an `after` under none of its prefixes. */
  function Held(b: Bucket, p: Platform, after: Option<Record>): Option<seq<Record>> {
    HeldOn(b.keys, b.isRecord, p, after)
  }

  ghost function RecordsWork(b: Bucket, profiles: set<Sha>, records: seq<Record>): nat {
    if records == [] then 0
    else 1 + |Missing(b.norms(records[0]), profiles)| + RecordsWork(b, profiles, records[1..])
  }

  /** Facts messages still to come of a message. */
  ghost function FactsWork(b: Bucket, profiles: set<Sha>, m: Message): nat {
    match m
    case Unit(_, u) => 1 + |Missing(b.norms(u), profiles)|
    case Reindex(p, after) =>
      (match Held(b, p, after)
       case None => 0
       case Some(left) => RecordsWork(b, profiles, left))
    case _ => 0
  }

  /** A platform's sources: those its records hold a copy of. */
  function Sources<R>(w: World<set<Record>, R>, b: Bucket, known: set<Record>, p: Platform): set<Source> {
    set s | s in Copies(b, known) && w.platformOf(s) == p
  }

  function Releases(b: Bucket, known: set<Record>): set<Release> {
    set r | r in known && b.isRelease(r)
  }

  function KnownIn(facts: map<Platform, set<Record>>, p: Platform): set<Record> {
    if p in facts then facts[p] else {}
  }

  /** Derive messages still to come of a message, from the facts as they are. */
  ghost function DeriveWork<R>(w: World<set<Record>, R>, b: Bucket, facts: map<Platform, set<Record>>, m: Message): nat {
    match m
    case Derive(sources, changes) => 1 + |sources| + |changes|
    case Routes(_) => 1
    case Unit(_, _) => 0
    case Rederive(p) => 2 + |Sources(w, b, KnownIn(facts, p), p)| + |Releases(b, KnownIn(facts, p))|
    case Settle(p, _) => 3 + |Sources(w, b, KnownIn(facts, p), p)| + |Releases(b, KnownIn(facts, p))|
    case Reindex(p, _) => 3 + |Sources(w, b, KnownIn(facts, p), p)| + |Releases(b, KnownIn(facts, p))|
  }

  ghost function TotalDerive<R>(w: World<set<Record>, R>, b: Bucket, facts: map<Platform, set<Record>>,
                                q: seq<Message>): nat {
    if q == [] then 0 else TotalDerive(w, b, facts, q[..|q| - 1]) + DeriveWork(w, b, facts, q[|q| - 1])
  }

  lemma MissingShrinks(norm: seq<Sha>, profiles: set<Sha>, more: set<Sha>)
    requires profiles <= more
    ensures |Missing(norm, more)| <= |Missing(norm, profiles)|
    ensures (exists sha :: sha in norm && sha in more && sha !in profiles) ==>
      |Missing(norm, more)| < |Missing(norm, profiles)|
  {
    Subset(Missing(norm, more), Missing(norm, profiles));
    if exists sha :: sha in norm && sha in more && sha !in profiles {
      var sha :| sha in norm && sha in more && sha !in profiles;
      assert sha in Missing(norm, profiles) && sha !in Missing(norm, more);
      Subset(Missing(norm, more), Missing(norm, profiles) - {sha});
    }
  }

  lemma {:induction false} Subset<T>(a: set<T>, b: set<T>)
    requires a <= b
    ensures |a| <= |b|
  {
    if a == {} {
    } else {
      var x :| x in a;
      Subset(a - {x}, b - {x});
    }
  }

  lemma {:induction false} RecordsWorkShrinks(b: Bucket, profiles: set<Sha>, more: set<Sha>, records: seq<Record>)
    requires profiles <= more
    ensures RecordsWork(b, more, records) <= RecordsWork(b, profiles, records)
  {
    if records == [] {
    } else {
      MissingShrinks(b.norms(records[0]), profiles, more);
      RecordsWorkShrinks(b, profiles, more, records[1..]);
    }
  }

  ghost function TotalFacts(b: Bucket, profiles: set<Sha>, q: seq<Message>): nat {
    if q == [] then 0 else TotalFacts(b, profiles, q[..|q| - 1]) + FactsWork(b, profiles, q[|q| - 1])
  }

  lemma {:induction false} TotalFactsShrinks(b: Bucket, profiles: set<Sha>, more: set<Sha>, q: seq<Message>)
    requires profiles <= more
    ensures TotalFacts(b, more, q) <= TotalFacts(b, profiles, q)
  {
    if q == [] {
    } else {
      TotalFactsShrinks(b, profiles, more, q[..|q| - 1]);
      match q[|q| - 1]
      case Unit(_, u) => MissingShrinks(b.norms(u), profiles, more);
      case Reindex(p, after) =>
        if Held(b, p, after).Some? {
          RecordsWorkShrinks(b, profiles, more, Held(b, p, after).value);
        }
      case _ =>
    }
  }

  function Without<T>(q: seq<T>, k: nat): (r: seq<T>)
    requires k < |q|
    ensures |r| == |q| - 1
  {
    q[..k] + q[k + 1..]
  }

  lemma {:induction false} TotalFactsWithout(b: Bucket, profiles: set<Sha>, q: seq<Message>, k: nat)
    requires k < |q|
    ensures TotalFacts(b, profiles, q) == TotalFacts(b, profiles, Without(q, k)) + FactsWork(b, profiles, q[k])
  {
    hide FactsWork;
    if k == |q| - 1 {
      assert Without(q, k) == q[..k];
    } else {
      TotalFactsWithout(b, profiles, q[..|q| - 1], k);
      assert Without(q, k)[..|q| - 2] == Without(q[..|q| - 1], k);
    }
  }

  /** A set's elements, each once. */
  method Listing(s: set<string>) returns (q: seq<string>)
    ensures |q| == |s| && Distinct(q)
    ensures forall x :: x in q <==> x in s
  {
    q := [];
    var left := s;
    while left != {}
      invariant |q| + |left| == |s| && Distinct(q)
      invariant forall x :: x in s <==> x in q || x in left
      invariant forall x :: x in q ==> x !in left
      decreases left
    {
      var x :| x in left;
      q, left := q + [x], left - {x};
    }
  }

  /** The shas of `norm` the index has no rows for, each once, in order. */
  method Wanted(norm: seq<Sha>, profiles: set<Sha>) returns (wanted: seq<Sha>)
    ensures Distinct(wanted)
    ensures forall sha :: sha in wanted <==> sha in Missing(norm, profiles)
  {
    wanted := [];
    for i := 0 to |norm|
      invariant Distinct(wanted)
      invariant forall sha :: sha in wanted <==> sha in Missing(norm[..i], profiles)
    {
      assert norm[..i + 1] == norm[..i] + [norm[i]];
      if norm[i] !in profiles && norm[i] !in wanted {
        wanted := wanted + [norm[i]];
      }
    }
    assert norm[..|norm|] == norm;
  }

  lemma {:induction false} TotalDeriveWithout<R>(w: World<set<Record>, R>, b: Bucket, facts: map<Platform, set<Record>>,
                                                 q: seq<Message>, k: nat)
    requires k < |q|
    ensures TotalDerive(w, b, facts, q) == TotalDerive(w, b, facts, Without(q, k)) + DeriveWork(w, b, facts, q[k])
  {
    hide DeriveWork;
    if k == |q| - 1 {
      assert Without(q, k) == q[..k];
    } else {
      TotalDeriveWithout(w, b, facts, q[..|q| - 1], k);
      assert Without(q, k)[..|q| - 2] == Without(q[..|q| - 1], k);
    }
  }

  /** What handling a unit does: its profile rows, some or all, and once they are all written its own. */
  ghost predicate UnitStep(b: Bucket, m: Message, profiles: set<Sha>, facts: map<Platform, set<Record>>,
                           profiles': set<Sha>, facts': map<Platform, set<Record>>, next: Option<Message>)
    requires m.Unit?
  {
    && profiles <= profiles' <= profiles + ToSet(b.norms(m.unit))
    && if next == Some(m) then profiles' != profiles && facts' == facts
       else
         && facts' == facts[m.platform := KnownIn(facts, m.platform) + {m.unit}]
         && ToSet(b.norms(m.unit)) <= profiles' && next.Some? && next.value.Settle? && next.value.platform == m.platform
  }

  /** What handling a reindex message does to the next held record, past the last of them only handing on a rederive. */
  ghost predicate HeldStep(b: Bucket, m: Message, profiles: set<Sha>, facts: map<Platform, set<Record>>,
                           profiles': set<Sha>, facts': map<Platform, set<Record>>, next: Option<Message>)
    requires m.Reindex?
  {
    var left := Held(b, m.platform, m.after);
    && left.Some?
    && if left.value == [] then next == Some(Rederive(m.platform)) && profiles' == profiles && facts' == facts
       else
         var norm := ToSet(b.norms(left.value[0]));
         && profiles <= profiles' <= profiles + norm
         && if norm <= profiles' then
              && facts' == facts[m.platform := KnownIn(facts, m.platform) + {left.value[0]}]
              && next == Some(Reindex(m.platform, Some(left.value[0])))
            else profiles' != profiles && facts' == facts && next == Some(m)
  }

  /** A held record of the platform's own, after `after`. */
  predicate IsLeftOf(b: Bucket, p: Platform, after: Option<Record>, k: Record) {
    IsLeft(b.keys, b.isRecord, p, after, k)
  }

  /** The next of them, in key order. */
  ghost predicate IsNextOf(b: Bucket, p: Platform, after: Option<Record>, r: Record) {
    IsLeftOf(b, p, after, r) && forall k :: IsLeftOf(b, p, after, k) ==> k == r || Less(r, k)
  }

  /**
   * A reindex message goes to the next held record of its platform's own after where it left off: it writes its facts,
   * whole or in part, and those of nothing else; with none left it hands on the rederive.
   */
  lemma HeldStepIs(b: Bucket, m: Message, profiles: set<Sha>, facts: map<Platform, set<Record>>,
                   profiles': set<Sha>, facts': map<Platform, set<Record>>, next: Option<Message>)
    requires m.Reindex? && Sorted(b.keys) && HeldStep(b, m, profiles, facts, profiles', facts', next)
    ensures Placed(m.platform, m.after)
    ensures (forall k :: !IsLeftOf(b, m.platform, m.after, k)) ==>
      next == Some(Rederive(m.platform)) && profiles' == profiles && facts' == facts
    ensures forall r :: IsNextOf(b, m.platform, m.after, r) ==>
      if ToSet(b.norms(r)) <= profiles' then
        && facts' == facts[m.platform := KnownIn(facts, m.platform) + {r}]
        && next == Some(Reindex(m.platform, Some(r)))
      else profiles' != profiles && facts' == facts && next == Some(m)
    ensures forall k :: IsLeftOf(b, m.platform, m.after, k) ==> exists r :: IsNextOf(b, m.platform, m.after, r)
    ensures IsCounted(b, m, next) <==> exists k :: IsLeftOf(b, m.platform, m.after, k)
  {
    hide IsLeft, HeldOn, Placed, Less;
    HeldOnIsLeft(b.keys, b.isRecord, m.platform, m.after);
    var left := Held(b, m.platform, m.after).value;
    if left == [] {
      assert forall k :: IsLeftOf(b, m.platform, m.after, k) ==> k in left;
    } else {
      assert left[0] in left;
      assert IsNextOf(b, m.platform, m.after, left[0]);
      forall r | IsNextOf(b, m.platform, m.after, r)
        ensures r == left[0]
      {
        LessNotBoth(r, left[0]);
      }
    }
  }

  lemma LessNotBoth(a: string, b: string)
    ensures !(Less(a, b) && Less(b, a))
  {
    if Less(a, b) && Less(b, a) {
      LessTransitive(a, b, a);
      LessIrreflexive(a);
    }
  }

  /** What handling a message does to the profiles and facts, and what it hands on. */
  ghost predicate Handled<R>(w: World<set<Record>, R>, b: Bucket, m: Message,
                             profiles: set<Sha>, facts: map<Platform, set<Record>>,
                             profiles': set<Sha>, facts': map<Platform, set<Record>>, next: Option<Message>)
  {
    && (!m.Unit? && !m.Reindex? ==> profiles' == profiles && facts' == facts)
    && match m
       case Unit(_, _) => UnitStep(b, m, profiles, facts, profiles', facts', next)
       case Reindex(_, _) => HeldStep(b, m, profiles, facts, profiles', facts', next)
       case Settle(p, _) => next == None || next == Some(Rederive(p))
       case Rederive(p) =>
         && next.Some? && next.value.Derive?
         && |next.value.sources| == |Sources(w, b, KnownIn(facts, p), p)|
         && |next.value.changes| == |Releases(b, KnownIn(facts, p))|
       case Derive(_, _) => next == AfterDerive(w, m)
       case Routes(_) => next == None
  }

  /** Whether handling a message counts it: a unit once its facts are written, a reindex message while a record is left. */
  predicate IsCounted(b: Bucket, m: Message, next: Option<Message>) {
    match m
    case Unit(_, _) => next != Some(m)
    case Reindex(p, after) => Held(b, p, after).Some? && Held(b, p, after).value != []
    case _ => false
  }

  function CountedOnce(counted: map<Platform, nat>, p: Platform): map<Platform, nat> {
    counted[p := (if p in counted then counted[p] else 0) + 1]
  }

  /** The counts once a message is handled: its platform's one more if it is counted. */
  function NextCounted(b: Bucket, m: Message, next: Option<Message>, counted: map<Platform, nat>): map<Platform, nat> {
    if IsCounted(b, m, next) then CountedOnce(counted, m.platform) else counted
  }

  ghost function NextFacts(b: Bucket, profiles: set<Sha>, next: Option<Message>): nat {
    if next.Some? then FactsWork(b, profiles, next.value) else 0
  }

  ghost function NextDerive<R>(w: World<set<Record>, R>, b: Bucket, facts: map<Platform, set<Record>>,
                               next: Option<Message>): nat {
    if next.Some? then DeriveWork(w, b, facts, next.value) else 0
  }

  lemma NewRow(norm: seq<Sha>, profiles: set<Sha>, more: set<Sha>)
    requires profiles <= more <= profiles + ToSet(norm)
    ensures more != profiles ==> exists sha :: sha in norm && sha in more && sha !in profiles
  {
    if more != profiles {
      var sha :| sha in more && sha !in profiles;
      assert sha in norm;
    }
  }

  /** What a message hands on is less work than the message. */
  lemma HandledIsLess<R>(w: World<set<Record>, R>, b: Bucket, m: Message,
                         profiles: set<Sha>, facts: map<Platform, set<Record>>,
                         profiles': set<Sha>, facts': map<Platform, set<Record>>, next: Option<Message>)
    requires Handled(w, b, m, profiles, facts, profiles', facts', next)
    requires w.derivedSources > 0 && w.changedReleases > 0
    requires Sorted(b.keys)
    ensures profiles <= profiles'
    ensures NextFacts(b, profiles', next) < FactsWork(b, profiles, m)
      || (NextFacts(b, profiles', next) == FactsWork(b, profiles, m) && profiles' == profiles && facts' == facts
          && NextDerive(w, b, facts, next) < DeriveWork(w, b, facts, m))
  {
    match m
    case Unit(_, u) =>
      NewRow(b.norms(u), profiles, profiles');
      MissingShrinks(b.norms(u), profiles, profiles');
    case Reindex(p, after) =>
      var left := Held(b, p, after).value;
      if left != [] {
        NewRow(b.norms(left[0]), profiles, profiles');
        MissingShrinks(b.norms(left[0]), profiles, profiles');
        RecordsWorkShrinks(b, profiles, profiles', left[1..]);
        HeldOnNext(b.keys, b.isRecord, p, after);
      }
    case _ =>
  }

  /** Handling a message leaves less work in the queue. */
  lemma QueueShrinks<R>(w: World<set<Record>, R>, b: Bucket, q: seq<Message>, k: nat,
                        profiles: set<Sha>, facts: map<Platform, set<Record>>,
                        profiles': set<Sha>, facts': map<Platform, set<Record>>, next: Option<Message>, q': seq<Message>)
    requires k < |q| && Handled(w, b, q[k], profiles, facts, profiles', facts', next)
    requires w.derivedSources > 0 && w.changedReleases > 0
    requires Sorted(b.keys)
    requires q' == Without(if next.Some? then q + [next.value] else q, k)
    ensures TotalFacts(b, profiles', q') < TotalFacts(b, profiles, q)
      || (TotalFacts(b, profiles', q') == TotalFacts(b, profiles, q)
          && TotalDerive(w, b, facts', q') < TotalDerive(w, b, facts, q))
  {
    hide Handled, FactsWork, DeriveWork;
    HandledIsLess(w, b, q[k], profiles, facts, profiles', facts', next);
    TotalFactsWithout(b, profiles, q, k);
    TotalDeriveWithout(w, b, facts, q, k);
    TotalFactsShrinks(b, profiles, profiles', Without(q, k));
    if next.Some? {
      assert q' == Without(q, k) + [next.value];
      assert q'[..|q'| - 1] == Without(q, k);
    }
  }
}
