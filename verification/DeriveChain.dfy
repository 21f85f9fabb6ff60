/**
 * A rederive's chain of derive messages (apps/extractor/src/indexing.ts): a bounded number of sources or releases each,
 * sources first.
 */
module DeriveChain {
  import opened IndexProtocol
  import opened Options
  import opened Sequences

  datatype Effect =
    | DeriveSource(source: Source)
    | DeriveChanges(release: Release)
    | Link

  function SourceEffects(sources: seq<Source>): (es: seq<Effect>)
    ensures |es| == |sources|
  {
    seq(|sources|, i requires 0 <= i < |sources| => DeriveSource(sources[i]))
  }

  function ChangeEffects(releases: seq<Release>): (es: seq<Effect>)
    ensures |es| == |releases|
  {
    seq(|releases|, i requires 0 <= i < |releases| => DeriveChanges(releases[i]))
  }

  lemma SourceEffectsMore(sources: seq<Source>, s: Source)
    ensures SourceEffects(sources + [s]) == SourceEffects(sources) + [DeriveSource(s)]
  {
  }

  lemma ChangeEffectsMore(releases: seq<Release>, r: Release)
    ensures ChangeEffects(releases + [r]) == ChangeEffects(releases) + [DeriveChanges(r)]
  {
  }

  /** How many of a message's releases it derives: none while sources are left. */
  function ReleasesNow(sourcesNow: nat, sources: nat, changed: nat, changes: nat): (n: nat)
    requires sourcesNow <= sources
    ensures n <= changes
  {
    if sourcesNow < sources then 0 else Min(changed, changes)
  }

  /** What one derive message does, and what it hands on. `relinks` says which sources' identities change. */
  function Derived<F, R>(w: World<F, R>, m: Message, relinks: set<Source>): (r: (seq<Effect>, Option<Message>))
    requires m.Derive?
  {
    var now := Min(w.derivedSources, |m.sources|);
    var releases := ReleasesNow(now, |m.sources|, w.changedReleases, |m.changes|);
    var last := now == |m.sources| && releases == |m.changes|;
    var relink := exists s :: s in m.sources[..now] && s in relinks;
    (SourceEffects(m.sources[..now]) + ChangeEffects(m.changes[..releases])
       + (if relink || (last && |m.changes| > 0) then [Link] else []),
     if now < |m.sources| then Some(Derive(m.sources[now..], m.changes))
     else if last then None
     else Some(Derive([], m.changes[releases..])))
  }

  /** What a message did after what was done before. */
  lemma DerivedIs<F, R>(w: World<F, R>, m: Message, relinks: set<Source>, before: seq<Effect>, relink: bool,
                        next: Option<Message>)
    requires m.Derive? && next == AfterDerive(w, m)
    requires relink <==> exists s :: s in m.sources[..Min(w.derivedSources, |m.sources|)] && s in relinks
    ensures var now := Min(w.derivedSources, |m.sources|);
      var releases := ReleasesNow(now, |m.sources|, w.changedReleases, |m.changes|);
      var links := relink || (now == |m.sources| && releases == |m.changes| && |m.changes| > 0);
      && before + SourceEffects(m.sources[..now]) + ChangeEffects(m.changes[..releases])
         + (if links then [Link] else []) == before + Derived(w, m, relinks).0
      && next == Derived(w, m, relinks).1
  {
    hide SourceEffects, ChangeEffects;
  }

  /** A message and all it leads to. */
  function Chain<F, R>(w: World<F, R>, m: Message, relinks: set<Source>): seq<Effect>
    requires m.Derive? && w.derivedSources > 0 && w.changedReleases > 0
    decreases |m.sources| + |m.changes|
  {
    var (effects, next) := Derived(w, m, relinks);
    match next
    case None => effects
    case Some(later) => effects + Chain(w, later, relinks)
  }

  function Unlinked(es: seq<Effect>): seq<Effect> {
    if es == [] then [] else (if es[0] == Link then [] else [es[0]]) + Unlinked(es[1..])
  }

  lemma {:induction false} UnlinkedConcat(a: seq<Effect>, b: seq<Effect>)
    ensures Unlinked(a + b) == Unlinked(a) + Unlinked(b)
  {
    if a == [] {
      assert a + b == b;
    } else {
      assert (a + b)[1..] == a[1..] + b;
      UnlinkedConcat(a[1..], b);
    }
  }

  lemma {:induction false} UnlinkedSame(es: seq<Effect>)
    requires Link !in es
    ensures Unlinked(es) == es
  {
    if es == [] {
    } else {
      UnlinkedSame(es[1..]);
    }
  }

  predicate EndsInLink(es: seq<Effect>) {
    es != [] && es[|es| - 1] == Link
  }

  /** What is left of a message's listing once it is handled. */
  function Left(next: Option<Message>): Message {
    match next
    case Some(Derive(sources, changes)) => Derive(sources, changes)
    case _ => Derive([], [])
  }

  function Work(m: Message): seq<Effect>
    requires m.Derive?
  {
    SourceEffects(m.sources) + ChangeEffects(m.changes)
  }

  /** One message does a first part of the listed work, and hands on the rest; only a last one hands on nothing. */
  lemma MessageDoesPart<F, R>(w: World<F, R>, m: Message, relinks: set<Source>)
    requires m.Derive? && w.derivedSources > 0 && w.changedReleases > 0
    ensures var (effects, next) := Derived(w, m, relinks);
      && next == AfterDerive(w, m)
      && (next.Some? ==> next.value.Derive? && (next.value.changes == [] ==> m.changes == []))
      && Unlinked(effects) + Work(Left(next)) == Work(m)
      && (next == None && m.changes != [] ==> EndsInLink(effects))
  {
    var now := Min(w.derivedSources, |m.sources|);
    var releases := ReleasesNow(now, |m.sources|, w.changedReleases, |m.changes|);
    var sources, changes := m.sources[..now], m.changes[..releases];
    PartLinked(sources, changes, true);
    PartLinked(sources, changes, false);
    SplitEffects(m.sources, now, m.changes, releases);
  }

  /**
   * A message derives as many of its sources as one may, and of its releases once no source is left. It links, last, if
   * one of those sources changed identity or the last releases' changes are derived.
   */
  lemma MessageLinks<F, R>(w: World<F, R>, m: Message, relinks: set<Source>)
    requires m.Derive?
    ensures var (effects, next) := Derived(w, m, relinks);
      && (Link in effects <==>
            (exists s :: s in relinks && DeriveSource(s) in effects) || (next == None && m.changes != []))
      && (Link in effects ==> effects[|effects| - 1] == Link && Link !in effects[..|effects| - 1])
      && (next.Some? ==>
            && |next.value.sources| == (if |m.sources| > w.derivedSources then |m.sources| - w.derivedSources else 0)
            && (|m.sources| > w.derivedSources ==> next.value.changes == m.changes)
            && (|m.sources| <= w.derivedSources ==> |m.changes| == |next.value.changes| + w.changedReleases))
      && (next == None ==> |m.sources| <= w.derivedSources && |m.changes| <= w.changedReleases)
  {
    var (effects, next) := Derived(w, m, relinks);
    var now := Min(w.derivedSources, |m.sources|);
    var releases := ReleasesNow(now, |m.sources|, w.changedReleases, |m.changes|);
    var work := SourceEffects(m.sources[..now]) + ChangeEffects(m.changes[..releases]);
    WorkHolds(m.sources[..now], m.changes[..releases]);
    hide SourceEffects, ChangeEffects;
    forall s
      ensures DeriveSource(s) in effects <==> s in m.sources[..now]
    {
      assert DeriveSource(s) in effects <==> DeriveSource(s) in work;
    }
    if Link in effects {
      assert effects == work + [Link];
    }
  }

  lemma WorkHolds(sources: seq<Source>, releases: seq<Release>)
    ensures var work := SourceEffects(sources) + ChangeEffects(releases);
      Link !in work && forall s :: DeriveSource(s) in work <==> s in sources
  {
    var work := SourceEffects(sources) + ChangeEffects(releases);
    forall s | s in sources
      ensures DeriveSource(s) in work
    {
      var i :| 0 <= i < |sources| && sources[i] == s;
      assert work[i] == DeriveSource(s);
    }
  }

  /** A source that changed identity is followed by a link, in its own message or a later one. */
  lemma {:induction false} RelinkedIsLinked<F, R>(w: World<F, R>, m: Message, relinks: set<Source>, i: nat)
    requires m.Derive? && w.derivedSources > 0 && w.changedReleases > 0
    requires var es := Chain(w, m, relinks); i < |es| && es[i].DeriveSource? && es[i].source in relinks
    ensures var es := Chain(w, m, relinks); exists j :: i < j < |es| && es[j] == Link
    decreases |m.sources| + |m.changes|
  {
    hide Derived;
    DerivedShrinks(w, m, relinks);
    var (effects, next) := Derived(w, m, relinks);
    var es := Chain(w, m, relinks);
    MessageLinks(w, m, relinks);
    if i < |effects| {
      assert es[i] == effects[i] && DeriveSource(effects[i].source) in effects;
      assert es[|effects| - 1] == Link;
    } else {
      var later := next.value;
      var rest := Chain(w, later, relinks);
      assert es == effects + rest && rest[i - |effects|] == es[i];
      RelinkedIsLinked(w, later, relinks, i - |effects|);
      var j :| i - |effects| < j < |rest| && rest[j] == Link;
      assert es[j + |effects|] == Link;
    }
  }

  lemma DerivedShrinks<F, R>(w: World<F, R>, m: Message, relinks: set<Source>)
    requires m.Derive? && w.derivedSources > 0 && w.changedReleases > 0
    ensures var next := Derived(w, m, relinks).1;
      next.Some? ==> next.value.Derive? && |next.value.sources| + |next.value.changes| < |m.sources| + |m.changes|
  {
    hide SourceEffects, ChangeEffects;
  }

  lemma PartLinked(sources: seq<Source>, releases: seq<Release>, link: bool)
    ensures var work := SourceEffects(sources) + ChangeEffects(releases);
      Unlinked(work + (if link then [Link] else [])) == work
  {
    var work := SourceEffects(sources) + ChangeEffects(releases);
    UnlinkedConcat(work, if link then [Link] else []);
    UnlinkedSame(work);
    assert Unlinked([Link]) == [] + Unlinked([]);
  }

  lemma Effectless()
    ensures SourceEffects([]) == [] && ChangeEffects([]) == []
  {
  }

  lemma SplitEffects(sources: seq<Source>, now: nat, changes: seq<Release>, releases: nat)
    requires now <= |sources| && releases <= |changes| && (now < |sources| ==> releases == 0)
    ensures (SourceEffects(sources[..now]) + ChangeEffects(changes[..releases]))
      + (SourceEffects(sources[now..]) + ChangeEffects(changes[releases..]))
      == SourceEffects(sources) + ChangeEffects(changes)
  {
    assert SourceEffects(sources) == SourceEffects(sources[..now]) + SourceEffects(sources[now..]);
    assert ChangeEffects(changes) == ChangeEffects(changes[..releases]) + ChangeEffects(changes[releases..]);
    Effectless();
    var first, rest := SourceEffects(sources[..now]), SourceEffects(sources[now..]);
    var changed, left := ChangeEffects(changes[..releases]), ChangeEffects(changes[releases..]);
    hide SourceEffects, ChangeEffects;
    if now < |sources| {
      assert changes[..0] == [] && first + changed == first;
      assert changed + left == left;
      Associate(first, rest, left);
    } else {
      assert sources[now..] == [] && rest + left == left && first + rest == first;
      Associate(first, changed, left);
    }
  }

  /**
   * The chain derives every source it lists once, in order, before any release's changes, each release once and in
   * order; and links in its last message if there were changes.
   */
  lemma {:induction false} ChainDoesAll<F, R>(w: World<F, R>, m: Message, relinks: set<Source>)
    requires m.Derive? && w.derivedSources > 0 && w.changedReleases > 0
    ensures Unlinked(Chain(w, m, relinks)) == SourceEffects(m.sources) + ChangeEffects(m.changes)
    ensures m.changes != [] ==> EndsInLink(Chain(w, m, relinks))
    decreases |m.sources| + |m.changes|
  {
    hide SourceEffects, ChangeEffects, Unlinked;
    var (effects, next) := Derived(w, m, relinks);
    MessageDoesPart(w, m, relinks);
    match next
    case None =>
    case Some(later) =>
      ChainDoesAll(w, later, relinks);
      UnlinkedConcat(effects, Chain(w, later, relinks));
  }

}
