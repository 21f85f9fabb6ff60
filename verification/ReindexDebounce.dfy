/**
 * Settles decided while a reindex goes on (apps/extractor/src/indexing.ts): each of its records counts, but nothing is
 * counted while its next message waits.
 */
module ReindexDebounce {
  import opened IndexProtocol
  import opened Options

  /** A reindex message that waits, or was only delivered. */
  ghost predicate Waits<F, R>(st: State<F, R>, m: Message) {
    m in st.queue && (st.consumer.Busy? && st.consumer.message == m ==> st.consumer.at.Started?)
  }

  /** The step at which a reindex message finds no record left. */
  ghost predicate FindsNoneLeft<F, R>(st: State<F, R>, e: Event<F, R>, m: Message) {
    st.consumer.Busy? && st.consumer.message == m && e.Decide? && m.Reindex? && e.next == Some(Rederive(m.platform))
  }

  lemma StepWaits<F, R>(w: World<F, R>, st: State<F, R>, e: Event<F, R>, st': State<F, R>, m: Message)
    requires Next(w, st, e, st') && m.Reindex? && Waits(st, m)
    requires !Counts(st, e, m.platform) && !FindsNoneLeft(st, e, m)
    ensures Waits(st', m)
  {
    match e
    case Arrive(_) =>
    case Deliver(_) =>
    case Acknowledge => assert st.consumer.message != m;
    case _ =>
  }

  /** While nothing of its platform is counted, a reindex message with a record left stays queued. */
  lemma {:induction false} ReindexStays<F, R>(w: World<F, R>, states: seq<State<F, R>>, events: seq<Event<F, R>>,
                                              i: nat, j: nat, m: Message)
    requires IsRun(w, states, events) && i <= j <= |events| && m.Reindex?
    requires Waits(states[i], m) && CountedIn(states, events, i, j, m.platform) == 0
    requires forall k :: i <= k < j ==> !FindsNoneLeft(states[k], events[k], m)
    ensures Waits(states[j], m)
  {
    hide IsRun, Next, Counts, Waits, FindsNoneLeft;
    if i == j {
    } else {
      ReindexStays(w, states, events, i, j - 1, m);
      RunStep(w, states, events, j - 1);
      StepWaits(w, states[j - 1], events[j - 1], states[j], m);
    }
  }

  /**
   * A settle numbered by event i, while a reindex message of its platform with a record left is queued, and decided by
   * event j derives the platform exactly if nothing of it was counted in between; that message is then still queued.
   */
  lemma SettleDuringReindex<F, R>(w: World<F, R>, states: seq<State<F, R>>, events: seq<Event<F, R>>, i: nat, j: nat,
                                  p: Platform, after: Option<Record>, next: Option<Message>)
    requires IsRun(w, states, events) && i < j < |events|
    requires events[i].CountUnit? && Counts(states[i], events[i], p)
    requires var n := states[i].LastFacts(p) + 1;
      && states[i + 1].consumer.Busy? && states[i + 1].consumer.at == Decided(Some(Settle(p, n)))
      && states[j].consumer.Busy? && states[j].consumer.message == Settle(p, n) && events[j] == Decide(next)
    requires Reindex(p, after) in states[i].queue
    requires forall k :: i < k < j ==> !FindsNoneLeft(states[k], events[k], Reindex(p, after))
    ensures next == Some(Rederive(p)) <==> CountedIn(states, events, i + 1, j, p) == 0
    ensures next == Some(Rederive(p)) ==> Reindex(p, after) in states[j + 1].queue
  {
    hide IsRun;
    SettleDebounces(w, states, events, i, j, p, next);
    RunStep(w, states, events, i);
    RunStep(w, states, events, j);
    if CountedIn(states, events, i + 1, j, p) == 0 {
      ReindexStays(w, states, events, i + 1, j, Reindex(p, after));
    }
  }

  // A run in which a settle derives its platform before a reindex of it is over.

  const NOTHING_LISTED: World<int, int> := World(_ => Ios, _ => {}, (_, _) => 0, 1, 1)

  function At(n: nat, queue: multiset<Message>, consumer: Consumer): State<int, int> {
    State(map[], if n == 0 then map[] else map[Ios := n], map[], queue, consumer)
  }

  /** A first record is indexed, then a unit, and the unit's settle comes before the reindex's next message. */
  function EarlySettle(): (run: (seq<State<int, int>>, seq<Event<int, int>>))
    ensures |run.0| == 14 && |run.1| == 13
  {
    var first, second := Reindex(Ios, None), Reindex(Ios, Some("releases/ios/1.json"));
    var unit, settle := Unit(Ios, "releases/ios/2.json"), Settle(Ios, 2);
    var sent := multiset{} + multiset{first};
    var both := sent + multiset{second};
    var waiting := both - multiset{first};
    var withUnit := waiting + multiset{unit};
    var settling := withUnit + multiset{settle};
    var settled := settling - multiset{unit};
    ([At(0, multiset{}, Idle),
      At(0, sent, Idle),
      At(0, sent, Busy(first, Started)),
      At(1, sent, Busy(first, Counted)),
      At(1, sent, Busy(first, Decided(Some(second)))),
      At(1, both, Busy(first, HandedOn(Some(second)))),
      At(1, waiting, Idle),
      At(1, withUnit, Idle),
      At(1, withUnit, Busy(unit, Started)),
      At(2, withUnit, Busy(unit, Decided(Some(settle)))),
      At(2, settling, Busy(unit, HandedOn(Some(settle)))),
      At(2, settled, Idle),
      At(2, settled, Busy(settle, Started)),
      At(2, settled, Busy(settle, Decided(Some(Rederive(Ios)))))],
     [Arrive(first), Deliver(first), CountRecord, Decide(Some(second)), HandOn, Acknowledge,
      Arrive(unit), Deliver(unit), CountUnit, HandOn, Acknowledge, Deliver(settle), Decide(Some(Rederive(Ios)))])
  }

  lemma RecordStep(i: nat)
    requires i < 6
    ensures var (states, events) := EarlySettle(); Next(NOTHING_LISTED, states[i], events[i], states[i + 1])
  {
  }

  lemma UnitStep(i: nat)
    requires 6 <= i < 10
    ensures var (states, events) := EarlySettle(); Next(NOTHING_LISTED, states[i], events[i], states[i + 1])
  {
  }

  lemma SettleStep(i: nat)
    requires 10 <= i < 13
    ensures var (states, events) := EarlySettle(); Next(NOTHING_LISTED, states[i], events[i], states[i + 1])
  {
  }

  /** A settle derives its platform although a reindex of it is not over. */
  lemma SettleBeforeLast()
    ensures var (states, events) := EarlySettle();
      && IsRun(NOTHING_LISTED, states, events)
      && states[12].consumer.Busy? && states[12].consumer.message.Settle? && events[12] == Decide(Some(Rederive(Ios)))
      && exists after :: Reindex(Ios, after) in states[13].queue
  {
    hide Next;
    var (states, events) := EarlySettle();
    forall i | 0 <= i < 13
      ensures Next(NOTHING_LISTED, states[i], events[i], states[i + 1])
    {
      if i < 6 {
        RecordStep(i);
      } else if i < 10 {
        UnitStep(i);
      } else {
        SettleStep(i);
      }
    }
    assert Reindex(Ios, Some("releases/ios/1.json")) in states[13].queue;
  }
}
