/** The workflow's own event list beside the session's: when a torn persist sets them apart, and when that
    makes the aggregate hold two events under one id. */
module Aggregate {
  import opened Basics
  import opened Identifiers
  import opened StateMachine
  import opened History

  const RESUMED := "session-001"

  // ------------------------------------------------------- the two lists

  predicate Agree(w: World) {
    w.driver.aggregate == w.driver.events && w.stored.aggregate == w.stored.events
  }

  /** The step writes the workflow document and dies before the snapshot, while the driver holds events that the
      stored snapshot lacks. */
  predicate Tears(w: World, s: Step) {
    match s
    case AdvanceStep(target, torn) =>
      torn && CanTransition(w.driver.state, target) && w.driver.events != w.stored.events
    case PersistStep(torn) => torn && w.driver.events != w.stored.events
    case _ => false
  }

  /** Both lists have come apart, in memory and in store. */
  predicate Gap(w: World) {
    |w.driver.events| < |w.driver.aggregate| && |w.stored.events| < |w.stored.aggregate|
  }

  predicate TearsAt(w: World, ss: seq<Step>, k: nat)
    requires k < |ss|
  {
    Tears(Exec(w, ss[..k]), ss[k])
  }

  lemma NextAgrees(w: World, s: Step)
    requires Extends(w.driver, w.stored) && Agree(w)
    ensures Agree(Next(w, s)) <==> !Tears(w, s)
    ensures Tears(w, s) ==> Gap(Next(w, s))
  {
    hide EventId, LegalTargets, Submitted, Enter;
  }

  lemma NextKeepsGap(w: World, s: Step)
    requires Extends(w.driver, w.stored) && Gap(w)
    ensures Gap(Next(w, s))
  {
    hide EventId, LegalTargets, Submitted, Enter;
  }

  /** The lists agree exactly when no step of the run tore them apart: a torn persist with nothing unsnapshotted is
      harmless, and nothing ever closes the gap. The lengths in memory tell. */
  lemma {:induction false} AgreeExactly(w: World, ss: seq<Step>)
    requires Initial(w)
    ensures Agree(Exec(w, ss)) <==> forall k :: 0 <= k < |ss| ==> !TearsAt(w, ss, k)
    ensures Agree(Exec(w, ss)) || Gap(Exec(w, ss))
    ensures Agree(Exec(w, ss)) <==> |Exec(w, ss).driver.aggregate| == |Exec(w, ss).driver.events|
  {
    if ss != [] {
      var n := |ss| - 1;
      var prior := Exec(w, ss[..n]);
      AgreeExactly(w, ss[..n]);
      RunExtends(w, ss[..n]);
      forall k | 0 <= k < n ensures TearsAt(w, ss, k) == TearsAt(w, ss[..n], k) {
        assert ss[..n][..k] == ss[..k];
      }
      assert TearsAt(w, ss, n) == Tears(prior, ss[n]);
      hide Next, Tears, Exec;
      if Agree(prior) {
        NextAgrees(prior, ss[n]);
      } else {
        NextKeepsGap(prior, ss[n]);
      }
    }
  }

  // ------------------------------------------------------- ids of the aggregate

  predicate Distinct(events: seq<Event>) {
    forall i, j :: 0 <= i < j < |events| ==> events[i].id != events[j].id
  }

  lemma EventIdInjective(s: string, m: nat, t: string, n: nat)
    requires EventId(s, m) == EventId(t, n)
    ensures s == t && m == n
  {
    SplitLast("vev-" + s, "vev-" + t, '-', ZeroPad(m, 3), ZeroPad(n, 3));
    assert ("vev-" + s)[4..] == s && ("vev-" + t)[4..] == t;
    ZeroPadInjective(m, n, 3);
  }

  /** Every id of `a` is the next number of session `s`. */
  predicate NumberedBy(a: seq<Event>, s: string) {
    forall k :: 0 <= k < |a| ==> NumberedByAt(a, k, s, 0)
  }

  /** The `k`-th id, counted from 1, is number `k + shift` of session `s`. */
  predicate NumberedByAt(a: seq<Event>, k: nat, s: string, shift: int)
    requires k < |a|
  {
    k + shift + 1 >= 0 && a[k].id == EventId(s, k + shift + 1)
  }

  ghost predicate Foreign(e: Event) { forall n: nat :: e.id != EventId(RESUMED, n) }

  /** The first `c` ids are of another session; from there on they are numbers `lo + 1`, `lo + 2`, ... of the
      resumed one. */
  ghost predicate RunsUp(a: seq<Event>, c: nat, lo: nat) {
    && c <= |a|
    && (forall k :: 0 <= k < c ==> Foreign(a[k]))
    && NumberedFrom(a, c, lo - c)
  }

  predicate NumberedFrom(a: seq<Event>, c: nat, shift: int) {
    forall k :: c <= k < |a| ==> NumberedByAt(a, k, RESUMED, shift)
  }

  /** Before anybody took over. */
  predicate FirstDriver(w: World, s: string) {
    && s != RESUMED && w.driver.sessionId == s
    && w.driver.aggregate == w.driver.events && NumberedBy(w.driver.events, s)
    && w.stored.aggregate <= w.driver.aggregate && w.stored.events <= w.driver.events
  }

  /** While resumed sessions drive. */
  ghost predicate Resumed(w: World, c: nat, lo: nat) {
    && w.driver.sessionId == RESUMED
    && w.stored.aggregate <= w.driver.aggregate && c <= |w.stored.aggregate|
    && lo <= |w.stored.events| <= |w.driver.events|
    && |w.driver.events| <= lo + |w.driver.aggregate| - c
    && |w.stored.events| <= lo + |w.stored.aggregate| - c
    && (Distinct(w.driver.aggregate) ==> RunsUp(w.driver.aggregate, c, lo))
    && (Distinct(w.stored.aggregate) ==> RunsUp(w.stored.aggregate, c, lo))
  }

  /** The number that a resumed driver gives next is taken exactly when its list has fallen behind. */
  lemma NextNumberTaken(d: Driver, c: nat, lo: nat)
    requires d.sessionId == RESUMED && RunsUp(d.aggregate, c, lo)
    requires lo <= |d.events| <= lo + |d.aggregate| - c
    ensures (exists k :: 0 <= k < |d.aggregate| && d.aggregate[k].id == EventId(RESUMED, |d.events| + 1))
            <==> |d.events| < lo + |d.aggregate| - c
  {
    hide EventId;
    var n := |d.events| + 1;
    if n <= lo + |d.aggregate| - c {
      assert NumberedByAt(d.aggregate, c + n - lo - 1, RESUMED, lo - c);
    }
    if k :| 0 <= k < |d.aggregate| && d.aggregate[k].id == EventId(RESUMED, n) {
      assert k < c ==> Foreign(d.aggregate[k]);
      assert k >= c ==> NumberedByAt(d.aggregate, k, RESUMED, lo - c);
      if k >= c {
        EventIdInjective(RESUMED, n, RESUMED, lo + k - c + 1);
      }
    }
  }

  lemma DistinctAppended(a: seq<Event>, e: Event)
    ensures Distinct(a + [e]) <==> Distinct(a) && forall k :: 0 <= k < |a| ==> a[k].id != e.id
  {
    var b := a + [e];
    assert forall k :: 0 <= k < |a| ==> b[k] == a[k];
    assert b[|a|] == e;
    if Distinct(b) {
      forall k | 0 <= k < |a| ensures a[k].id != e.id {
        assert b[k].id != b[|a|].id;
      }
      forall i, j | 0 <= i < j < |a| ensures a[i].id != a[j].id {
        assert b[i].id != b[j].id;
      }
    }
  }

  lemma AdjudicateKeepsResumed(w: World, b: Boundary, c: nat, lo: nat)
    requires Resumed(w, c, lo)
    ensures Resumed(Next(w, AdjudicateStep(b)), c, lo)
  {
    hide EventId, LegalTargets, Submitted, Enter;
    var d := w.driver;
    if Records(d, b) {
      var e := Event(EventId(RESUMED, |d.events| + 1), b.submission, b.verdict);
      var longer := d.aggregate + [e];
      DistinctAppended(d.aggregate, e);
      if Distinct(longer) {
        NextNumberTaken(d, c, lo);
        var shift := lo - c;
        forall k | c <= k < |longer| ensures NumberedByAt(longer, k, RESUMED, shift) {
          assert k < |d.aggregate| ==> NumberedByAt(d.aggregate, k, RESUMED, shift);
        }
      }
    }
  }

  lemma NextKeepsResumed(w: World, s: Step, c: nat, lo: nat)
    requires Resumed(w, c, lo) && Extends(w.driver, w.stored)
    ensures Resumed(Next(w, s), c, lo)
  {
    if s.AdjudicateStep? {
      AdjudicateKeepsResumed(w, s.boundary, c, lo);
    } else {
      hide RunsUp, Distinct, LegalTargets, Enter;
    }
  }

  /** Taking over from a first driver: everything it numbered is foreign to the resumed session. */
  lemma TakeOverResumes(stored: Stored, occupied: seq<State>, s: string)
    requires s != RESUMED && NumberedBy(stored.aggregate, s)
    ensures Resumed(TakeOver(stored, occupied), |stored.aggregate|, |stored.events|)
  {
    hide EventId;
    var a := stored.aggregate;
    forall k | 0 <= k < |a| ensures Foreign(a[k]) {
      assert NumberedByAt(a, k, s, 0);
      forall n: nat ensures a[k].id != EventId(RESUMED, n) {
        if a[k].id == EventId(RESUMED, n) {
          EventIdInjective(s, k + 1, RESUMED, n);
        }
      }
    }
  }

  lemma PrefixNumbered(a: seq<Event>, b: seq<Event>, s: string)
    requires a <= b && NumberedBy(b, s)
    ensures NumberedBy(a, s)
  {
    forall k | 0 <= k < |a| ensures NumberedByAt(a, k, s, 0) {
      assert NumberedByAt(b, k, s, 0);
    }
  }

  lemma NextAfterFirst(w: World, s: Step, first: string)
    requires FirstDriver(w, first)
    ensures FirstDriver(Next(w, s), first) || exists c, lo :: Resumed(Next(w, s), c, lo)
  {
    hide EventId, LegalTargets, Submitted, Enter, Resumed, CanTransition;
    PrefixNumbered(w.stored.aggregate, w.driver.aggregate, first);
    match s
    case AdvanceStep(target, torn) =>
      if CanTransition(w.driver.state, target) && torn {
        TakeOverResumes(WriteWorkflow(w.stored, Advanced(w.driver, target)), Enter(w.occupied, target), first);
      }
    case PersistStep(torn) =>
      if torn {
        TakeOverResumes(WriteWorkflow(w.stored, w.driver), w.occupied, first);
      }
    case Hop => TakeOverResumes(w.stored, w.occupied, first);
    case AdjudicateStep(b) =>
      var after := Adjudicated(w.driver, b).events;
      forall k | 0 <= k < |after| ensures NumberedByAt(after, k, first, 0) {
        assert k < |w.driver.events| ==> NumberedByAt(w.driver.events, k, first, 0);
      }
  }

  lemma {:induction false} RunNumbersAggregate(w: World, ss: seq<Step>)
    requires Initial(w)
    ensures var t := Exec(w, ss);
            && (w.driver.sessionId == RESUMED ==> Resumed(t, 0, 0))
            && (FirstDriver(t, w.driver.sessionId) || exists c, lo :: Resumed(t, c, lo))
  {
    if ss != [] {
      var prior, s, first := Exec(w, ss[..|ss| - 1]), ss[|ss| - 1], w.driver.sessionId;
      RunNumbersAggregate(w, ss[..|ss| - 1]);
      RunExtends(w, ss[..|ss| - 1]);
      hide Next, Resumed, FirstDriver;
      if FirstDriver(prior, first) {
        NextAfterFirst(prior, s, first);
      } else {
        var c, lo :| Resumed(prior, c, lo);
        NextKeepsResumed(prior, s, c, lo);
      }
      if first == RESUMED {
        NextKeepsResumed(prior, s, 0, 0);
      }
    } else if w.driver.sessionId == RESUMED {
      assert Resumed(w, 0, 0);
    }
  }

  /** The driver's list has fallen behind the aggregate: the latest event of the aggregate carries a number of this
      session that the session has not reached. */
  ghost predicate Behind(d: Driver) {
    d.aggregate != [] && exists n: nat :: n > |d.events| && d.aggregate[|d.aggregate| - 1].id == EventId(d.sessionId, n)
  }

  lemma BehindWhenResumed(d: Driver, c: nat, lo: nat)
    requires d.sessionId == RESUMED && RunsUp(d.aggregate, c, lo)
    requires lo <= |d.events| <= lo + |d.aggregate| - c
    ensures Behind(d) <==> |d.events| < lo + |d.aggregate| - c
  {
    hide EventId;
    var last := |d.aggregate| - 1;
    if d.aggregate != [] {
      assert |d.aggregate| > c ==> NumberedByAt(d.aggregate, last, RESUMED, lo - c);
      assert |d.aggregate| == c ==> Foreign(d.aggregate[last]);
      forall n: nat | d.aggregate[last].id == EventId(RESUMED, n) ensures n == lo + last - c + 1 {
        EventIdInjective(RESUMED, n, RESUMED, lo + last - c + 1);
      }
    }
  }

  lemma FirstDriverIsNotBehind(d: Driver)
    requires d.aggregate == d.events && NumberedBy(d.events, d.sessionId)
    ensures !Behind(d)
    ensures forall k :: 0 <= k < |d.aggregate| ==> d.aggregate[k].id != EventId(d.sessionId, |d.events| + 1)
  {
    hide EventId;
    var n := |d.events|;
    forall k | 0 <= k < n ensures d.aggregate[k].id != EventId(d.sessionId, n + 1) {
      assert NumberedByAt(d.events, k, d.sessionId, 0);
      if d.aggregate[k].id == EventId(d.sessionId, n + 1) {
        EventIdInjective(d.sessionId, k + 1, d.sessionId, n + 1);
      }
    }
    if n > 0 {
      assert NumberedByAt(d.events, n - 1, d.sessionId, 0);
      forall m: nat | d.aggregate[n - 1].id == EventId(d.sessionId, m) ensures m == n {
        EventIdInjective(d.sessionId, m, d.sessionId, n);
      }
    }
  }

  /** Adjudicating a new event keeps the aggregate's ids distinct exactly when the driver's list has not fallen
      behind, in every run and whatever session it began with. */
  lemma IdRepeatsExactly(w: World, ss: seq<Step>, b: Boundary)
    requires Initial(w) && Records(Exec(w, ss).driver, b) && Distinct(Exec(w, ss).driver.aggregate)
    ensures var d := Exec(w, ss).driver; Distinct(Adjudicated(d, b).aggregate) <==> !Behind(d)
  {
    RunNumbersAggregate(w, ss);
    var t := Exec(w, ss);
    var d := t.driver;
    hide Exec, EventId, Behind, LegalTargets, Submitted, NumberedBy, RunsUp, Distinct;
    DistinctAppended(d.aggregate, Event(EventId(d.sessionId, |d.events| + 1), b.submission, b.verdict));
    if FirstDriver(t, w.driver.sessionId) {
      FirstDriverIsNotBehind(d);
    } else {
      var c, lo :| Resumed(t, c, lo);
      BehindWhenResumed(d, c, lo);
      NextNumberTaken(d, c, lo);
    }
  }

  /** For a workflow whose every driver calls its session by the same name, the two lengths say it. */
  lemma IdRepeatsByLength(w: World, ss: seq<Step>, b: Boundary)
    requires Initial(w) && w.driver.sessionId == RESUMED
    requires Records(Exec(w, ss).driver, b) && Distinct(Exec(w, ss).driver.aggregate)
    ensures var d := Exec(w, ss).driver; Distinct(Adjudicated(d, b).aggregate) <==> |d.aggregate| == |d.events|
  {
    RunNumbersAggregate(w, ss);
    IdRepeatsExactly(w, ss, b);
    hide Exec, EventId, Behind, Records, Adjudicated, RunsUp, Distinct;
    BehindWhenResumed(Exec(w, ss).driver, 0, 0);
  }

  // ------------------------------------------------------- submissions of the aggregate

  /** Adjudicating keeps every submission single in the aggregate exactly when the aggregate does not hold it yet;
      the code looks only in the session's list once that has an event. */
  lemma SubmissionRepeatsExactly(d: Driver, b: Boundary)
    requires Records(d, b) && Counted(d.aggregate)
    ensures Counted(Adjudicated(d, b).aggregate) <==> !Submitted(d.aggregate, b.submission)
  {
    hide EventId, LegalTargets;
    var after := Adjudicated(d, b).aggregate;
    assert after[|d.aggregate|].submission == b.submission;
    assert forall k :: 0 <= k < |d.aggregate| ==> after[k] == d.aggregate[k];
    if Submitted(d.aggregate, b.submission) {
      var k :| 0 <= k < |d.aggregate| && d.aggregate[k].submission == b.submission;
      assert after[k].submission == after[|d.aggregate|].submission;
    }
  }

  /** While no step tore the lists apart, a submission is adjudicated once in the workflow document too. */
  lemma UntornCountsOnce(w: World, ss: seq<Step>)
    requires Initial(w) && forall k :: 0 <= k < |ss| ==> !TearsAt(w, ss, k)
    ensures Counted(Exec(w, ss).driver.aggregate) && Counted(Exec(w, ss).stored.aggregate)
  {
    AgreeExactly(w, ss);
    SubmissionsCountOnce(w, ss);
  }

  /** And while the lists agree, a submission that the code takes for new is new to the aggregate. */
  lemma AgreeingDriverAbsorbs(w: World, ss: seq<Step>, b: Boundary)
    requires Initial(w) && Records(Exec(w, ss).driver, b)
    requires |Exec(w, ss).driver.aggregate| == |Exec(w, ss).driver.events|
    ensures !Submitted(Exec(w, ss).driver.aggregate, b.submission)
  {
    AgreeExactly(w, ss);
    hide Exec;
  }

  /** The five advances that bring a fresh workflow to field verification. */
  const TO_VERIFICATION: seq<State> :=
    [ImpactDetermined, RemediationPending, RemediationCompleted, FrontlineDeliveryCompleted, AwaitingFieldVerification]

  function Advances(targets: seq<State>): seq<Step> {
    if targets == [] then []
    else Advances(targets[..|targets| - 1]) + [AdvanceStep(targets[|targets| - 1], false)]
  }

  /** A failed verdict on submission `a`, and a persist torn after the workflow document. */
  function TornAfterA(): seq<Step> {
    Advances(TO_VERIFICATION) + [AdjudicateStep(Accepted("a", Fail))] + [PersistStep(true)]
  }

  lemma TornAfterALeaves(w: World)
    requires Initial(w) && w.driver.sessionId == RESUMED
    ensures var d := Exec(w, TornAfterA()).driver;
            && d.aggregate == [Event(EventId(RESUMED, 1), "a", Fail)] && d.events == []
            && d.state == VerificationFailed && d.sessionId == RESUMED
  {
    hide EventId, Exec, Enter;
    var s5 := Advances(TO_VERIFICATION);
    ReachesVerification(w);
    ExecOne(w, s5, AdjudicateStep(Accepted("a", Fail)));
    ExecOne(w, s5 + [AdjudicateStep(Accepted("a", Fail))], PersistStep(true));
  }

  /** One torn persist is enough to make the aggregate hold two events under one id, in a run of its own. */
  lemma TornPersistRepeatsAnId(w: World)
    requires Initial(w) && w.driver.sessionId == RESUMED
    ensures var t := Exec(w, TornAfterA() + [AdjudicateStep(Accepted("b", Fail))]).driver.aggregate;
            |t| == 2 && t[0] != t[1] && t[0].id == t[1].id
  {
    hide EventId, Exec, Enter, TornAfterA;
    TornAfterALeaves(w);
    ExecOne(w, TornAfterA(), AdjudicateStep(Accepted("b", Fail)));
    assert "a"[0] != "b"[0];
  }

  /** And enough to have one submission adjudicated twice: after the tear the session knows only what came since,
      so the first submission, sent again, is no duplicate to it. */
  lemma TornPersistRepeatsASubmission(w: World)
    requires Initial(w) && w.driver.sessionId == RESUMED
    ensures var t := Exec(w, TornAfterA() + [AdjudicateStep(Accepted("b", Fail))] + [AdjudicateStep(Accepted("a", Fail))])
                     .driver.aggregate;
            |t| == 3 && t[0].submission == "a" && t[2].submission == "a"
  {
    hide EventId, Exec, Enter, TornAfterA;
    TornAfterALeaves(w);
    assert "a"[0] != "b"[0];
    ExecOne(w, TornAfterA(), AdjudicateStep(Accepted("b", Fail)));
    var d := Exec(w, TornAfterA() + [AdjudicateStep(Accepted("b", Fail))]).driver;
    assert d.events == [Event(EventId(RESUMED, 1), "b", Fail)] && d.state == VerificationFailed;
    ExecOne(w, TornAfterA() + [AdjudicateStep(Accepted("b", Fail))], AdjudicateStep(Accepted("a", Fail)));
  }

  lemma ReachesVerification(w: World)
    requires Initial(w)
    ensures var t := Exec(w, Advances(TO_VERIFICATION));
            && t.driver.state == AwaitingFieldVerification && t.driver.sessionId == w.driver.sessionId
            && t.driver.events == [] && t.driver.aggregate == [] && t.stored.events == []
            && t.driver.history == [ChangeReceived, ImpactDetermined, RemediationPending, RemediationCompleted, FrontlineDeliveryCompleted]
  {
    hide Exec, Advances;
    AdvancesAlong(w, TO_VERIFICATION);
  }

  /** Advancing along a path of the matrix arrives at its end, leaves every state before it on record and records no
      verification event. */
  lemma {:induction false} AdvancesAlong(w: World, targets: seq<State>)
    requires Initial(w)
    requires forall k :: 0 <= k < |targets| ==> CanTransition(Before(targets, k), targets[k])
    ensures var t := Exec(w, Advances(targets));
            && t.driver.state == Before(targets, |targets|) && t.driver.sessionId == w.driver.sessionId
            && t.driver.events == [] && t.driver.aggregate == [] && t.stored.events == []
            && t.driver.history == ([ChangeReceived] + targets)[..|targets|]
  {
    hide LegalTargets;
    if targets != [] {
      var n := |targets| - 1;
      AdvancesAlong(w, targets[..n]);
      assert CanTransition(Before(targets, n), targets[n]);
      assert Before(targets[..n], n) == Before(targets, n);
      ExecOne(w, Advances(targets[..n]), AdvanceStep(targets[n], false));
      assert Advances(targets) == Advances(targets[..n]) + [AdvanceStep(targets[n], false)];
      hide Exec, Advances;
      var all := [ChangeReceived] + targets;
      assert [ChangeReceived] + targets[..n] == all[..n + 1] && all[n] == Before(targets, n);
      assert all[..n + 1] == all[..n] + [all[n]];
    }
  }

  /** The way to a proof can be gone: five advances, one passing observation, and the last advance, after which the
      document and the snapshot say so. */
  lemma ProofIsReached(w: World)
    requires Initial(w) && w.driver.sessionId == RESUMED
    ensures var ss := Advances(TO_VERIFICATION) + [AdjudicateStep(Accepted("a", Pass))] + [AdvanceStep(ProofComplete, false)];
            var t, e := Exec(w, ss), Event("vev-" + RESUMED + "-" + ZeroPad(1, 3), "a", Pass);
            && t.stored == Stored(ProofComplete,
                                  [ChangeReceived, ImpactDetermined, RemediationPending, RemediationCompleted,
                                   FrontlineDeliveryCompleted, VerificationPassed], [e], [e])
            && t.driver == Driver(RESUMED, ProofComplete, t.stored.history, [e], [e])
  {
    hide Exec, Enter, ZeroPad, Adjudicated, Advanced;
    var s5 := Advances(TO_VERIFICATION);
    ReachesVerification(w);
    ExecOne(w, s5, AdjudicateStep(Accepted("a", Pass)));
    AdjudicatedExactly(Exec(w, s5).driver, Accepted("a", Pass));
    var s6 := s5 + [AdjudicateStep(Accepted("a", Pass))];
    ExecOne(w, s6, AdvanceStep(ProofComplete, false));
    AdvancedExactly(Exec(w, s6).driver, ProofComplete);
  }

  function Before(targets: seq<State>, k: nat): State
    requires k <= |targets|
  {
    if k == 0 then ChangeReceived else targets[k - 1]
  }
}
