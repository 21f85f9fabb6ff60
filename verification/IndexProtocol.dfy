/**
 * The index queue as a state machine (apps/extractor/src/indexing.ts, queues.ts; packages/db/src/facts-written.ts).
 * Messages are delivered at least once, in any order, one at a time; each effect of a message is a step of its own, and
 * the consumer may crash between any two. Whatever happens, a source whose facts changed since it was last derived
 * has a message pending that leads to its derivation.
 */
module IndexProtocol {
  import opened Options

  datatype Platform = Ios | Android | Samsung

  type Source = string
  type Release = string
  type Record = string

  /**
   * What deriving reads, F being a platform's facts in the index and R a source's derived rows: the sources some copy
   * is of, and a source's rows as its platform's facts state them.
   */
  datatype World<!F, !R> = World(
    platformOf: Source -> Platform,
    sources: F -> set<Source>,
    derived: (Source, F) -> R,
    derivedSources: nat,
    changedReleases: nat)

  datatype Message =
    | Unit(platform: Platform, unit: string)
    | Settle(platform: Platform, facts: nat)
    | Rederive(platform: Platform)
    | Reindex(platform: Platform, after: Option<Record>)
    | Derive(sources: seq<Source>, changes: seq<Release>)
    | Routes(manifest: string)

  /** How far the consumer is with the message it holds. */
  datatype Progress =
    | Started
    | Counted
    /** Deriving its i-th source, whose rows are partly written while `within`. */
    | Deriving(i: nat, within: bool)
    /** The handler is done; what it hands on is not queued yet. */
    | Decided(next: Option<Message>)
    | HandedOn(next: Option<Message>)

  datatype Consumer = Idle | Busy(message: Message, at: Progress)

  datatype State<F, R> = State(
    facts: map<Platform, F>,
    counted: map<Platform, nat>,
    rows: map<Source, R>,
    queue: multiset<Message>,
    consumer: Consumer)
  {
    /** The number of the platform's last counted message; 0 before its first. */
    function LastFacts(p: Platform): nat {
      if p in counted then counted[p] else 0
    }

    function CountFacts(p: Platform): State<F, R> {
      this.(counted := counted[p := LastFacts(p) + 1])
    }

    predicate Listed(w: World<F, R>, s: Source) {
      w.platformOf(s) in facts && s in w.sources(facts[w.platformOf(s)])
    }

    ghost predicate Fresh(w: World<F, R>, s: Source) {
      Listed(w, s) ==> s in rows && rows[s] == w.derived(s, facts[w.platformOf(s)])
    }
  }

  // What happens.

  datatype Event<F, R> =
    /** A message is sent from outside, or delivered again. */
    | Arrive(message: Message)
    | Deliver(message: Message)
    | Crash
    | WriteFacts(facts: F)
    | CountUnit
    | CountRecord
    | Decide(next: Option<Message>)
    | WriteRows(rows: R)
    | FinishSource
    | HandOn
    | Acknowledge

  predicate Handles(m: Message) {
    m.Unit? || m.Reindex?
  }

  function Min(a: nat, b: nat): nat {
    if a < b then a else b
  }

  /** What a derive message hands on, its first `now` sources derived. */
  function AfterDerive<F, R>(w: World<F, R>, m: Message): Option<Message>
    requires m.Derive?
  {
    var now := Min(w.derivedSources, |m.sources|);
    if now < |m.sources| then Some(Derive(m.sources[now..], m.changes))
    else
      var releases := Min(w.changedReleases, |m.changes|);
      if releases < |m.changes| then Some(Derive([], m.changes[releases..])) else None
  }

  /** What a message may hand on when its handler is done. */
  ghost predicate Decides<F, R>(w: World<F, R>, st: State<F, R>, m: Message, at: Progress, next: Option<Message>) {
    match m
    // A unit or record written only in part carries on as itself.
    case Unit(_, _) => at.Started? && next == Some(m)
    case Reindex(p, _) =>
      if at.Counted? then next == Some(m) || exists r :: next == Some(Reindex(p, Some(r)))
      else at.Started? && next == Some(Rederive(p))
    case Settle(p, n) => at.Started? && next == if st.LastFacts(p) == n then Some(Rederive(p)) else None
    case Rederive(p) =>
      && at.Started? && next.Some? && next.value.Derive?
      && forall s :: s in next.value.sources <==> st.Listed(w, s) && w.platformOf(s) == p
    case Derive(sources, _) =>
      at == Deriving(Min(w.derivedSources, |sources|), false) && next == AfterDerive(w, m)
    case Routes(_) => at.Started? && next == None
  }

  /** One effect of the consumer on the message it holds. */
  ghost predicate Works<F, R>(w: World<F, R>, st: State<F, R>, e: Event<F, R>, st': State<F, R>)
    requires st.consumer.Busy?
  {
    var m, at := st.consumer.message, st.consumer.at;
    match e
    case Crash => st' == st.(consumer := Idle)
    case WriteFacts(f) =>
      && ((m.Unit? && at.Started?) || (m.Reindex? && at.Counted?))
      && st' == st.(facts := st.facts[m.platform := f])
    case CountUnit =>
      && m.Unit? && at.Started?
      && st' == st.CountFacts(m.platform).(
           consumer := Busy(m, Decided(Some(Settle(m.platform, st.LastFacts(m.platform) + 1)))))
    case CountRecord =>
      && m.Reindex? && at.Started?
      && st' == st.CountFacts(m.platform).(consumer := Busy(m, Counted))
    case WriteRows(r) =>
      && m.Derive? && (at.Deriving? || at.Started?)
      && var i := if at.Deriving? then at.i else 0;
         && i < Min(w.derivedSources, |m.sources|) && st.Listed(w, m.sources[i])
         && st' == st.(rows := st.rows[m.sources[i] := r], consumer := Busy(m, Deriving(i, true)))
    case FinishSource =>
      && m.Derive? && at.Deriving? && at.within && at.i < |m.sources| && st.Listed(w, m.sources[at.i])
      && var s := m.sources[at.i];
         st' == st.(rows := st.rows[s := w.derived(s, st.facts[w.platformOf(s)])],
                    consumer := Busy(m, Deriving(at.i + 1, false)))
    case Decide(next) =>
      && Decides(w, st, m, if m.Derive? && at.Started? then Deriving(0, false) else at, next)
      && st' == st.(consumer := Busy(m, Decided(next)))
    case HandOn =>
      && at.Decided?
      && st' == st.(queue := if at.next.Some? then st.queue + multiset{at.next.value} else st.queue,
                    consumer := Busy(m, HandedOn(at.next)))
    case Acknowledge =>
      at.HandedOn? && st' == st.(queue := st.queue - multiset{m}, consumer := Idle)
    case _ => false
  }

  ghost predicate Next<F, R>(w: World<F, R>, st: State<F, R>, e: Event<F, R>, st': State<F, R>) {
    match e
    case Arrive(m) => st' == st.(queue := st.queue + multiset{m})
    case Deliver(m) => st.consumer.Idle? && m in st.queue && st' == st.(consumer := Busy(m, Started))
    case _ => st.consumer.Busy? && Works(w, st, e, st')
  }

  // What every run keeps.

  /** Whether a pending message leads to a source's derivation from the facts as they are. */
  predicate Covers<F, R>(w: World<F, R>, st: State<F, R>, m: Message, s: Source) {
    match m
    case Unit(p, _) => p == w.platformOf(s)
    case Reindex(p, _) => p == w.platformOf(s)
    case Settle(p, n) => p == w.platformOf(s) && n == st.LastFacts(p)
    case Rederive(p) => p == w.platformOf(s)
    case Derive(sources, _) => s in sources
    case Routes(_) => false
  }

  ghost predicate Covered<F, R>(w: World<F, R>, st: State<F, R>, s: Source) {
    exists m :: m in st.queue && Covers(w, st, m, s)
  }

  /** Once a message's handler is done, what it hands on leads to every stale source the message itself led to. */
  ghost predicate Relieves<F, R>(w: World<F, R>, st: State<F, R>, m: Message, next: Option<Message>) {
    forall s :: Covers(w, st, m, s) && !st.Fresh(w, s) ==> next.Some? && Covers(w, st, next.value, s)
  }

  /** A derive message's first `count` sources are derived, but for the one it is at. */
  ghost predicate Derived<F, R>(w: World<F, R>, st: State<F, R>, m: Message, count: nat, within: bool)
    requires m.Derive? && count <= |m.sources|
  {
    forall j :: 0 <= j < count ==>
      st.Fresh(w, m.sources[j]) || (within && count < |m.sources| && m.sources[j] == m.sources[count])
  }

  ghost predicate ConsumerOk<F, R>(w: World<F, R>, st: State<F, R>) {
    st.consumer.Busy? ==>
      var m, at := st.consumer.message, st.consumer.at;
      && m in st.queue
      && (at.Deriving? ==>
            && m.Derive? && at.i <= Min(w.derivedSources, |m.sources|)
            && (at.within ==> at.i < Min(w.derivedSources, |m.sources|))
            && Derived(w, st, m, at.i, at.within))
      && (at.Decided? ==> Relieves(w, st, m, at.next))
      && (at.HandedOn? ==>
            && Relieves(w, st, m, at.next)
            && (at.next.Some? ==> at.next.value in st.queue && (at.next.value == m ==> st.queue[m] >= 2)))
  }

  /** Every source is derived from the facts as they are, or will be. */
  ghost predicate Safe<F, R>(w: World<F, R>, st: State<F, R>) {
    forall s :: !st.Fresh(w, s) ==> Covered(w, st, s)
  }

  ghost predicate Inv<F, R>(w: World<F, R>, st: State<F, R>) {
    Safe(w, st) && ConsumerOk(w, st)
  }

  ghost predicate Init<F, R>(st: State<F, R>) {
    st.facts == map[] && st.consumer.Idle?
  }

  lemma InitKeeps<F, R>(w: World<F, R>, st: State<F, R>)
    requires Init(st)
    ensures Inv(w, st)
  {
  }

  /** Adding messages uncovers nothing. */
  lemma MoreMessages<F, R>(w: World<F, R>, st: State<F, R>, m: Message, s: Source)
    requires Covered(w, st, s)
    ensures Covered(w, st.(queue := st.queue + multiset{m}), s)
  {
    var c :| c in st.queue && Covers(w, st, c, s);
    var st' := st.(queue := st.queue + multiset{m});
    assert c in st'.queue && Covers(w, st', c, s);
  }

  lemma ArriveKeeps<F, R>(w: World<F, R>, st: State<F, R>, m: Message)
    requires Inv(w, st)
    ensures Inv(w, st.(queue := st.queue + multiset{m}))
  {
    var st' := st.(queue := st.queue + multiset{m});
    forall s | !st'.Fresh(w, s)
      ensures Covered(w, st', s)
    {
      MoreMessages(w, st, m, s);
    }
    if st.consumer.Busy? && (st.consumer.at.Decided? || st.consumer.at.HandedOn?) {
      RelievesSame(w, st, st', st.consumer.message, st.consumer.at.next);
    }
  }

  /** Relief is a matter of facts, counts and rows alone. */
  lemma RelievesSame<F, R>(w: World<F, R>, st: State<F, R>, st': State<F, R>, m: Message, next: Option<Message>)
    requires st'.facts == st.facts && st'.counted == st.counted && st'.rows == st.rows
    requires Relieves(w, st, m, next)
    ensures Relieves(w, st', m, next)
  {
    forall s | Covers(w, st', m, s) && !st'.Fresh(w, s)
      ensures next.Some? && Covers(w, st', next.value, s)
    {
      assert Covers(w, st, m, s) && !st.Fresh(w, s);
    }
  }

  /** While a unit or a record of a platform is pending, all its platform's sources are covered. */
  lemma FactsKeep<F, R>(w: World<F, R>, st: State<F, R>, st': State<F, R>, m: Message)
    requires Inv(w, st) && st.consumer.Busy? && st.consumer.message == m && Handles(m)
    requires st'.rows == st.rows && st'.queue == st.queue
    requires forall p :: p != m.platform ==>
      (p in st'.facts <==> p in st.facts) && (p in st.facts ==> st'.facts[p] == st.facts[p]) &&
      st'.LastFacts(p) == st.LastFacts(p)
    ensures Safe(w, st')
  {
    forall s | !st'.Fresh(w, s)
      ensures Covered(w, st', s)
    {
      if w.platformOf(s) == m.platform {
        assert m in st'.queue && Covers(w, st', m, s);
      } else {
        assert !st.Fresh(w, s);
        var c :| c in st.queue && Covers(w, st, c, s);
        assert c in st'.queue && Covers(w, st', c, s);
      }
    }
  }

  lemma RowsKeep<F, R>(w: World<F, R>, st: State<F, R>, r: R, st': State<F, R>)
    requires Inv(w, st) && st.consumer.Busy? && Works(w, st, WriteRows(r), st')
    ensures Inv(w, st')
  {
    var m, i := st'.consumer.message, st'.consumer.at.i;
    var at := m.sources[i];
    forall s | !st'.Fresh(w, s)
      ensures Covered(w, st', s)
    {
      if s == at {
        assert m in st'.queue && Covers(w, st', m, s);
      } else {
        assert !st.Fresh(w, s);
        var c :| c in st.queue && Covers(w, st, c, s);
        assert c in st'.queue && Covers(w, st', c, s);
      }
    }
  }

  lemma FinishKeeps<F, R>(w: World<F, R>, st: State<F, R>, st': State<F, R>)
    requires Inv(w, st) && st.consumer.Busy? && Works(w, st, FinishSource, st')
    ensures Inv(w, st')
  {
    var m, i := st.consumer.message, st.consumer.at.i;
    forall s | !st'.Fresh(w, s)
      ensures Covered(w, st', s)
    {
      assert s != m.sources[i] && !st.Fresh(w, s);
      var c :| c in st.queue && Covers(w, st, c, s);
      assert c in st'.queue && Covers(w, st', c, s);
    }
  }

  lemma DecideKeeps<F, R>(w: World<F, R>, st: State<F, R>, next: Option<Message>, st': State<F, R>)
    requires Inv(w, st) && st.consumer.Busy? && Works(w, st, Decide(next), st')
    ensures Inv(w, st')
  {
    SameStores(w, st, st');
    DecisionRelieves(w, st, st.consumer.message, st.consumer.at, next);
    RelievesSame(w, st, st', st.consumer.message, next);
  }

  lemma SameStores<F, R>(w: World<F, R>, st: State<F, R>, st': State<F, R>)
    requires Safe(w, st) && st' == st.(consumer := st'.consumer)
    ensures Safe(w, st')
  {
    forall s | !st'.Fresh(w, s)
      ensures Covered(w, st', s)
    {
      assert !st.Fresh(w, s);
      var c :| c in st.queue && Covers(w, st, c, s);
      assert c in st'.queue && Covers(w, st', c, s);
    }
  }

  lemma DecisionRelieves<F, R>(w: World<F, R>, st: State<F, R>, m: Message, at: Progress, next: Option<Message>)
    requires st.consumer == Busy(m, at) && ConsumerOk(w, st)
    requires Decides(w, st, m, if m.Derive? && at.Started? then Deriving(0, false) else at, next)
    ensures Relieves(w, st, m, next)
  {
    forall s | Covers(w, st, m, s) && !st.Fresh(w, s)
      ensures next.Some? && Covers(w, st, next.value, s)
    {
      if m.Rederive? {
        assert st.Listed(w, s);
      } else if m.Derive? {
        var now := Min(w.derivedSources, |m.sources|);
        var j :| 0 <= j < |m.sources| && m.sources[j] == s;
        assert j >= now;
        assert m.sources[now..][j - now] == s;
        assert s in m.sources[now..];
      }
    }
  }

  lemma HandOnKeeps<F, R>(w: World<F, R>, st: State<F, R>, st': State<F, R>)
    requires Inv(w, st) && st.consumer.Busy? && Works(w, st, HandOn, st')
    ensures Inv(w, st')
  {
    var m, next := st.consumer.message, st.consumer.at.next;
    forall s | !st'.Fresh(w, s)
      ensures Covered(w, st', s)
    {
      assert !st.Fresh(w, s);
      var c :| c in st.queue && Covers(w, st, c, s);
      assert c in st'.queue && Covers(w, st', c, s);
    }
    RelievesSame(w, st, st', m, next);
  }

  lemma AcknowledgeKeeps<F, R>(w: World<F, R>, st: State<F, R>, st': State<F, R>)
    requires Inv(w, st) && st.consumer.Busy? && Works(w, st, Acknowledge, st')
    ensures Inv(w, st')
  {
    var m, next := st.consumer.message, st.consumer.at.next;
    forall s | !st'.Fresh(w, s)
      ensures Covered(w, st', s)
    {
      assert !st.Fresh(w, s);
      var c :| c in st.queue && Covers(w, st, c, s);
      var d := if c == m then next.value else c;
      assert d in st'.queue && Covers(w, st', d, s);
    }
  }

  lemma CrashKeeps<F, R>(w: World<F, R>, st: State<F, R>, st': State<F, R>)
    requires Inv(w, st) && st' == st.(consumer := st'.consumer)
    requires st'.consumer.Busy? ==> st'.consumer.at.Started? && st'.consumer.message in st.queue
    ensures Inv(w, st')
  {
    SameStores(w, st, st');
  }

  /** Every step keeps the invariant. */
  lemma NextKeeps<F, R>(w: World<F, R>, st: State<F, R>, e: Event<F, R>, st': State<F, R>)
    requires Inv(w, st) && Next(w, st, e, st')
    ensures Inv(w, st')
  {
    match e
    case Arrive(m) => ArriveKeeps(w, st, m);
    case Deliver(m) => CrashKeeps(w, st, st');
    case Crash => CrashKeeps(w, st, st');
    case WriteFacts(f) => FactsKeep(w, st, st', st.consumer.message);
    case CountUnit => FactsKeep(w, st, st', st.consumer.message);
    case CountRecord => FactsKeep(w, st, st', st.consumer.message);
    case Decide(next) => DecideKeeps(w, st, next, st');
    case WriteRows(r) => RowsKeep(w, st, r, st');
    case FinishSource => FinishKeeps(w, st, st');
    case HandOn => HandOnKeeps(w, st, st');
    case Acknowledge => AcknowledgeKeeps(w, st, st');
  }

  /** A run: its states, and the events between them. */
  ghost predicate IsRun<F, R>(w: World<F, R>, states: seq<State<F, R>>, events: seq<Event<F, R>>) {
    && |states| == |events| + 1 && Init(states[0])
    && forall i :: 0 <= i < |events| ==> Next(w, states[i], events[i], states[i + 1])
  }

  /** In every state of every run, each source is derived from its platform's facts or has a message pending. */
  lemma {:induction false} RunsAreSafe<F, R>(w: World<F, R>, states: seq<State<F, R>>, events: seq<Event<F, R>>, i: nat)
    requires IsRun(w, states, events) && i < |states|
    ensures Inv(w, states[i])
  {
    if i == 0 {
      InitKeeps(w, states[0]);
    } else {
      RunsAreSafe(w, states, events, i - 1);
      NextKeeps(w, states[i - 1], events[i - 1], states[i]);
    }
  }

  /** Whenever the queue is empty, every source is derived from the facts as they are. */
  lemma DrainedIsDerived<F, R>(w: World<F, R>, states: seq<State<F, R>>, events: seq<Event<F, R>>, i: nat, s: Source)
    requires IsRun(w, states, events) && i < |states| && states[i].queue == multiset{}
    ensures states[i].Fresh(w, s)
  {
    RunsAreSafe(w, states, events, i);
  }

  // The debounce: counting since a settle was numbered.

  ghost predicate Counts<F, R>(st: State<F, R>, e: Event<F, R>, p: Platform) {
    (e.CountUnit? || e.CountRecord?) && st.consumer.Busy? && Handles(st.consumer.message) && st.consumer.message.platform == p
  }

  /** How many messages of a platform are counted by events i to j. */
  ghost function CountedIn<F, R>(states: seq<State<F, R>>, events: seq<Event<F, R>>, i: nat, j: nat, p: Platform): nat
    requires |states| == |events| + 1 && i <= j <= |events|
  {
    if i == j then 0 else CountedIn(states, events, i, j - 1, p) + if Counts(states[j - 1], events[j - 1], p) then 1 else 0
  }

  lemma {:induction false} CountAdds<F, R>(w: World<F, R>, states: seq<State<F, R>>, events: seq<Event<F, R>>,
                                           i: nat, j: nat, p: Platform)
    requires IsRun(w, states, events) && i <= j <= |events|
    ensures states[j].LastFacts(p) == states[i].LastFacts(p) + CountedIn(states, events, i, j, p)
  {
    hide IsRun, Next, Counts;
    if i == j {
    } else {
      CountAdds(w, states, events, i, j - 1, p);
      RunStep(w, states, events, j - 1);
      NextCounts(w, states[j - 1], events[j - 1], states[j], p);
    }
  }

  lemma RunStep<F, R>(w: World<F, R>, states: seq<State<F, R>>, events: seq<Event<F, R>>, i: nat)
    requires IsRun(w, states, events) && i < |events|
    ensures |states| == |events| + 1 && Next(w, states[i], events[i], states[i + 1])
  {
  }

  lemma NextCounts<F, R>(w: World<F, R>, st: State<F, R>, e: Event<F, R>, st': State<F, R>, p: Platform)
    requires Next(w, st, e, st')
    ensures st'.LastFacts(p) == st.LastFacts(p) + if Counts(st, e, p) then 1 else 0
  {
  }

  /**
   * A settle numbered by event i and decided by event j hands on its platform's rederive exactly when nothing of the
   * platform was counted in between; otherwise it hands on nothing.
   */
  lemma SettleDebounces<F, R>(w: World<F, R>, states: seq<State<F, R>>, events: seq<Event<F, R>>, i: nat, j: nat,
                              p: Platform, next: Option<Message>)
    requires IsRun(w, states, events) && i < j < |events|
    requires events[i].CountUnit? && Counts(states[i], events[i], p)
    requires var n := states[i].LastFacts(p) + 1;
      && states[i + 1].consumer.Busy? && states[i + 1].consumer.at == Decided(Some(Settle(p, n)))
      && states[j].consumer.Busy? && states[j].consumer.message == Settle(p, n) && events[j] == Decide(next)
    ensures next == if CountedIn(states, events, i + 1, j, p) == 0 then Some(Rederive(p)) else None
  {
    hide IsRun;
    CountAdds(w, states, events, i + 1, j, p);
    RunStep(w, states, events, i);
    RunStep(w, states, events, j);
  }
}
