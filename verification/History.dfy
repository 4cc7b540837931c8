/** The durable history of one workflow: states and verification events across use cases, crashes and
    resume hops, for one driver at a time. */
module History {
  import opened Basics
  import opened Identifiers
  import opened StateMachine

  datatype Verdict = Pass | Fail | Inconclusive

  datatype Event = Event(id: string, submission: string, verdict: Verdict)

  /** What the boundary and the evidence checks hand to adjudication. */
  datatype Boundary = NotValidated | EvidenceRefused | Accepted(submission: string, verdict: Verdict)

  /** The session of the process that drives the workflow. `aggregate` is the workflow's own event list. */
  datatype Driver = Driver(
    sessionId: string,
    state: State,
    history: seq<State>,
    events: seq<Event>,
    aggregate: seq<Event>
  )

  /** The workflow document (state, history, aggregate) and the resume snapshot (events). */
  datatype Stored = Stored(state: State, history: seq<State>, aggregate: seq<Event>, events: seq<Event>)

  function EventId(sessionId: string, n: nat): string {
    "vev-" + sessionId + ['-'] + ZeroPad(n, 3)
  }

  function VerdictState(v: Verdict): State {
    match v
    case Pass => VerificationPassed
    case Fail => VerificationFailed
    case Inconclusive => VerificationInconclusive
  }

  // ------------------------------------------------------- operations

  function Advanced(d: Driver, target: State): Driver {
    if CanTransition(d.state, target) then d.(history := d.history + [d.state], state := target) else d
  }

  function Reopened(d: Driver): Driver {
    if CanTransition(d.state, AwaitingFieldVerification) then d.(state := AwaitingFieldVerification) else d
  }

  predicate Submitted(events: seq<Event>, submission: string) {
    exists k :: 0 <= k < |events| && events[k].submission == submission
  }

  /** The events that adjudication looks for duplicates in. */
  function Known(d: Driver): seq<Event> { if d.events != [] then d.events else d.aggregate }

  predicate Records(d: Driver, b: Boundary) {
    b.Accepted? && Reopened(d).state.AwaitingFieldVerification? && !Submitted(Known(d), b.submission)
  }

  function Adjudicated(d: Driver, b: Boundary): Driver {
    var r := Reopened(d);
    if !Records(d, b) then r
    else
      var e := Event(EventId(d.sessionId, |d.events| + 1), b.submission, b.verdict);
      r.(state := VerdictState(b.verdict), events := d.events + [e], aggregate := d.aggregate + [e])
  }

  /** What adjudicating does, in full. An accepted observation of a workflow that awaits verification, or can return
      to awaiting it, whose submission is not in the list consulted, adds one event of that submission and verdict to
      both lists and enters the state of the verdict. Anything else adds nothing and at most reopens. */
  lemma AdjudicatedExactly(d: Driver, b: Boundary)
    ensures var after := Adjudicated(d, b);
            var opens := d.state in {AwaitingFieldVerification, FrontlineDeliveryCompleted, VerificationFailed, VerificationInconclusive};
            var consulted := if |d.events| > 0 then d.events else d.aggregate;
            && after.history == d.history && after.sessionId == d.sessionId
            && if b.Accepted? && opens && forall k :: 0 <= k < |consulted| ==> consulted[k].submission != b.submission
               then
                 var e := Event("vev-" + d.sessionId + "-" + ZeroPad(|d.events| + 1, 3), b.submission, b.verdict);
                 && after.events == d.events + [e] && after.aggregate == d.aggregate + [e]
                 && (b.verdict.Pass? ==> after.state == VerificationPassed)
                 && (b.verdict.Fail? ==> after.state == VerificationFailed)
                 && (b.verdict.Inconclusive? ==> after.state == VerificationInconclusive)
               else
                 && after.events == d.events && after.aggregate == d.aggregate
                 && after.state == if opens then AwaitingFieldVerification else d.state
  {
    hide ZeroPad;
    assert ['-'] == "-";
  }

  /** Advancing records the state it leaves exactly when the target is legal, and otherwise does nothing at all. */
  lemma AdvancedExactly(d: Driver, target: State)
    ensures var after := Advanced(d, target);
            if Enters(d.state, target)
            then after == Driver(d.sessionId, target, d.history + [d.state], d.events, d.aggregate)
            else after == d
  {
    TransitionsExactly(d.state, target);
  }

  function WriteWorkflow(stored: Stored, d: Driver): Stored {
    stored.(state := d.state, history := d.history, aggregate := d.aggregate)
  }

  function WriteSnapshot(stored: Stored, d: Driver): Stored { stored.(events := d.events) }

  function Rehydrated(stored: Stored): Driver {
    Driver("session-001", stored.state, stored.history, stored.events, stored.aggregate)
  }

  /** The collections behind the sink. */
  class Durable {
    var state: State
    var history: seq<State>
    var aggregate: seq<Event>
    var events: seq<Event>

    function View(): Stored
      reads this
    {
      Stored(state, history, aggregate, events)
    }

    constructor (d: Driver)
      ensures View() == Stored(d.state, d.history, d.aggregate, [])
    {
      state, history, aggregate, events := d.state, d.history, d.aggregate, [];
    }
  }

  class ConsoleSession {
    var sessionId: string
    var state: State
    var stateHistory: seq<State>
    var verificationEvents: seq<Event>
    var aggregate: seq<Event>

    function View(): Driver
      reads this
    {
      Driver(sessionId, state, stateHistory, verificationEvents, aggregate)
    }

    /** A session over a source change just received. */
    constructor New(sessionId: string)
      ensures View() == Driver(sessionId, ChangeReceived, [], [], [])
    {
      this.sessionId, state, stateHistory, verificationEvents, aggregate := sessionId, ChangeReceived, [], [], [];
    }

    /** The session another process rebuilds from durable storage. */
    constructor Rehydrate(store: Durable)
      ensures View() == Rehydrated(store.View())
    {
      sessionId := "session-001";
      state, stateHistory, aggregate := store.state, store.history, store.aggregate;
      verificationEvents := store.events;
    }

    method Persist(store: Durable)
      modifies store
      ensures store.View() == WriteSnapshot(WriteWorkflow(old(store.View()), View()), View())
    {
      store.state, store.history, store.aggregate := state, stateHistory, aggregate;
      store.events := verificationEvents;
    }

    method Advance(target: State, store: Durable)
      modifies this, store
      ensures View() == Advanced(old(View()), target)
      ensures store.View() == if CanTransition(old(state), target)
                              then WriteSnapshot(WriteWorkflow(old(store.View()), View()), View())
                              else old(store.View())
    {
      if !CanTransition(state, target) {
        return;
      }
      stateHistory := stateHistory + [state];
      state := target;
      Persist(store);
    }

    method Adjudicate(b: Boundary)
      modifies this
      ensures View() == Adjudicated(old(View()), b)
    {
      if CanTransition(state, AwaitingFieldVerification) {
        state := AwaitingFieldVerification;
      }
      if b.NotValidated? || state != AwaitingFieldVerification || b.EvidenceRefused? {
        return;
      }
      var existing := if verificationEvents != [] then verificationEvents else aggregate;
      var k := 0;
      while k < |existing|
        invariant 0 <= k <= |existing|
        invariant forall j :: 0 <= j < k ==> existing[j].submission != b.submission
      {
        if existing[k].submission == b.submission {
          return;
        }
        k := k + 1;
      }
      var e := Event(EventId(sessionId, |verificationEvents| + 1), b.submission, b.verdict);
      state := VerdictState(b.verdict);
      verificationEvents := verificationEvents + [e];
      aggregate := aggregate + [e];
    }
  }

  // ------------------------------------------------------- runs

  /** A persist that is torn writes the workflow document and not the snapshot; the process is then gone. */
  datatype Step =
    | AdvanceStep(target: State, torn: bool)
    | AdjudicateStep(boundary: Boundary)
    | PersistStep(torn: bool)
    | Hop

  /** `occupied` lists the states the workflow was in, in the memory of whichever process drove it. */
  datatype World = World(driver: Driver, stored: Stored, occupied: seq<State>)

  predicate Initial(w: World) {
    && w.driver == Driver(w.driver.sessionId, ChangeReceived, [], [], [])
    && w.stored == Stored(ChangeReceived, [], [], [])
    && w.occupied == [ChangeReceived]
  }

  function Enter(occupied: seq<State>, state: State): seq<State> { occupied + [state] }

  /** The next process takes over from what is stored. */
  function TakeOver(stored: Stored, occupied: seq<State>): World {
    World(Rehydrated(stored), stored, Enter(occupied, stored.state))
  }

  function Flush(d: Driver, stored: Stored, occupied: seq<State>, torn: bool): World {
    if torn then TakeOver(WriteWorkflow(stored, d), occupied)
    else World(d, WriteSnapshot(WriteWorkflow(stored, d), d), occupied)
  }

  function Next(w: World, s: Step): World {
    match s
    case AdvanceStep(target, torn) =>
      if CanTransition(w.driver.state, target)
      then Flush(Advanced(w.driver, target), w.stored, Enter(w.occupied, target), torn)
      else w
    case AdjudicateStep(b) =>
      var d := Adjudicated(w.driver, b);
      World(d, w.stored, Enter(Enter(w.occupied, Reopened(w.driver).state), d.state))
    case PersistStep(torn) => Flush(w.driver, w.stored, w.occupied, torn)
    case Hop => TakeOver(w.stored, w.occupied)
  }

  function Exec(w: World, ss: seq<Step>): World {
    if ss == [] then w else Next(Exec(w, ss[..|ss| - 1]), ss[|ss| - 1])
  }

  // ------------------------------------------------------- growth

  predicate Extends(d: Driver, stored: Stored) {
    stored.history <= d.history && stored.events <= d.events && stored.aggregate <= d.aggregate
  }

  /** Nothing stored is gone: neither a state, nor an event of the snapshot, nor one of the workflow document. */
  predicate Grows(before: Stored, after: Stored) {
    before.history <= after.history && before.events <= after.events && before.aggregate <= after.aggregate
  }

  lemma NextExtends(w: World, s: Step)
    requires Extends(w.driver, w.stored)
    ensures Extends(Next(w, s).driver, Next(w, s).stored)
    ensures Grows(w.stored, Next(w, s).stored)
  {
    hide EventId, LegalTargets, Submitted;
  }

  lemma {:induction false} RunExtends(w: World, ss: seq<Step>)
    requires Initial(w)
    ensures Extends(Exec(w, ss).driver, Exec(w, ss).stored)
  {
    if ss != [] {
      RunExtends(w, ss[..|ss| - 1]);
      NextExtends(Exec(w, ss[..|ss| - 1]), ss[|ss| - 1]);
    }
  }

  /** Whatever was persisted at any moment of a run is a prefix of what is persisted at any later one:
      neither a use case nor a crash nor a resume takes a state or an event away. */
  lemma {:induction false} DurableHistoryGrows(w: World, ss: seq<Step>, more: seq<Step>)
    requires Initial(w)
    ensures var a, b := Exec(w, ss).stored, Exec(w, ss + more).stored;
            Grows(a, b)
  {
    if more == [] {
      assert ss + more == ss;
    } else {
      var all := ss + more;
      assert all[..|all| - 1] == ss + more[..|more| - 1] && all[|all| - 1] == more[|more| - 1];
      DurableHistoryGrows(w, ss, more[..|more| - 1]);
      RunExtends(w, all[..|all| - 1]);
      NextExtends(Exec(w, all[..|all| - 1]), all[|all| - 1]);
    }
  }

  // ------------------------------------------------------- event ids

  predicate NumberedAt(events: seq<Event>, k: nat)
    requires k < |events|
  {
    var tail := ['-'] + ZeroPad(k + 1, 3);
    |tail| <= |events[k].id| && events[k].id[|events[k].id| - |tail|..] == tail
  }

  predicate Numbered(events: seq<Event>) {
    forall k :: 0 <= k < |events| ==> NumberedAt(events, k)
  }

  lemma EventIdEnds(sessionId: string, n: nat)
    ensures var id, tail := EventId(sessionId, n), ['-'] + ZeroPad(n, 3);
            |tail| <= |id| && id[|id| - |tail|..] == tail
  {
  }

  lemma {:induction false} RunNumbers(w: World, ss: seq<Step>)
    requires Initial(w)
    ensures Numbered(Exec(w, ss).driver.events) && Numbered(Exec(w, ss).stored.events)
  {
    if ss != [] {
      var before := Exec(w, ss[..|ss| - 1]);
      RunNumbers(w, ss[..|ss| - 1]);
      NextNumbers(before, ss[|ss| - 1]);
    }
  }

  lemma NextNumbers(w: World, s: Step)
    requires Numbered(w.driver.events) && Numbered(w.stored.events)
    ensures Numbered(Next(w, s).driver.events) && Numbered(Next(w, s).stored.events)
  {
    if s.AdjudicateStep? && Records(w.driver, s.boundary) {
      var after := Adjudicated(w.driver, s.boundary).events;
      EventIdEnds(w.driver.sessionId, |w.driver.events| + 1);
      hide EventId;
      forall k | 0 <= k < |after| ensures NumberedAt(after, k) {
        if k < |w.driver.events| {
          assert NumberedAt(w.driver.events, k);
        }
      }
    }
  }

  lemma SameTail(id: string, p: string, q: string)
    requires '-' !in p && '-' !in q && |p| < |id| && |q| < |id|
    requires id[|id| - |p| - 1..] == ['-'] + p && id[|id| - |q| - 1..] == ['-'] + q
    ensures p == q
  {
    var x, y := id[..|id| - |p| - 1], id[..|id| - |q| - 1];
    assert id == x + ['-'] + p && id == y + ['-'] + q;
    SplitLast(x, y, '-', p, q);
  }

  /** An id with a given number at its end has no other, whatever session minted it. */
  lemma NumbersApart(a: seq<Event>, i: nat, j: nat)
    requires Numbered(a) && i < j < |a|
    ensures a[i].id != a[j].id
  {
    hide ZeroPad;
    assert NumberedAt(a, i) && NumberedAt(a, j);
    if a[i].id == a[j].id {
      SameTail(a[i].id, ZeroPad(i + 1, 3), ZeroPad(j + 1, 3));
      ZeroPadInjective(i + 1, j + 1, 3);
    }
  }

  /** Event ids stay distinct through every run, because the numbering goes on from the restored list. */
  lemma EventIdsDistinct(w: World, ss: seq<Step>)
    requires Initial(w)
    ensures var t := Exec(w, ss);
            && (forall i, j :: 0 <= i < j < |t.driver.events| ==> t.driver.events[i].id != t.driver.events[j].id)
            && (forall i, j :: 0 <= i < j < |t.stored.events| ==> t.stored.events[i].id != t.stored.events[j].id)
  {
    RunNumbers(w, ss);
    var t := Exec(w, ss);
    forall i, j | 0 <= i < j < |t.driver.events| ensures t.driver.events[i].id != t.driver.events[j].id {
      NumbersApart(t.driver.events, i, j);
    }
    forall i, j | 0 <= i < j < |t.stored.events| ensures t.stored.events[i].id != t.stored.events[j].id {
      NumbersApart(t.stored.events, i, j);
    }
  }

  // ------------------------------------------------------- verdicts and submissions

  predicate Counted(events: seq<Event>) {
    forall i, j :: 0 <= i < j < |events| ==> events[i].submission != events[j].submission
  }

  /** A submission is adjudicated once: the session never holds two events for it, through every run. */
  lemma {:induction false} SubmissionsCountOnce(w: World, ss: seq<Step>)
    requires Initial(w)
    ensures Counted(Exec(w, ss).driver.events) && Counted(Exec(w, ss).stored.events)
  {
    if ss != [] {
      var before := Exec(w, ss[..|ss| - 1]);
      SubmissionsCountOnce(w, ss[..|ss| - 1]);
      RunExtends(w, ss[..|ss| - 1]);
      hide Exec, EventId, LegalTargets, Enter;
      var d, s := before.driver, ss[|ss| - 1];
      if s.AdjudicateStep? && Records(d, s.boundary) {
        assert forall k :: 0 <= k < |d.events| ==> d.events[k].submission != s.boundary.submission;
      }
    }
  }

  /** The last verdict on record. */
  predicate LastVerdict(events: seq<Event>, v: Verdict) {
    events != [] && events[|events| - 1].verdict == v
  }

  /** The workflow document answers for its state with its own latest event. */
  predicate Answers(state: State, aggregate: seq<Event>) {
    && (state.VerificationPassed? || state.ProofComplete? ==> LastVerdict(aggregate, Pass))
    && (state.VerificationFailed? ==> LastVerdict(aggregate, Fail))
    && (state.VerificationInconclusive? ==> LastVerdict(aggregate, Inconclusive))
  }

  /** Use cases ask for these states by name; verdict states come from adjudication alone. */
  predicate AsksOnly(ss: seq<Step>) {
    forall k :: 0 <= k < |ss| && ss[k].AdvanceStep? ==>
      ss[k].target !in {VerificationPassed, VerificationFailed, VerificationInconclusive}
  }

  /** No run, however it crashes and resumes, brings a workflow to PASSED or to a completed proof unless the
      latest event it stores is a PASS. */
  lemma {:induction false} PassedOnlyByPass(w: World, ss: seq<Step>)
    requires Initial(w) && AsksOnly(ss)
    ensures var t := Exec(w, ss);
            Answers(t.driver.state, t.driver.aggregate) && Answers(t.stored.state, t.stored.aggregate)
  {
    if ss != [] {
      assert forall k :: 0 <= k < |ss| - 1 ==> ss[..|ss| - 1][k] == ss[k];
      PassedOnlyByPass(w, ss[..|ss| - 1]);
      NextAnswers(Exec(w, ss[..|ss| - 1]), ss[|ss| - 1]);
    }
  }

  lemma AdvancedAnswers(d: Driver, target: State)
    requires Answers(d.state, d.aggregate) && CanTransition(d.state, target)
    requires target !in {VerificationPassed, VerificationFailed, VerificationInconclusive}
    ensures Answers(target, d.aggregate)
  {
  }

  lemma AdjudicatedAnswers(d: Driver, b: Boundary)
    requires Answers(d.state, d.aggregate)
    ensures Answers(Adjudicated(d, b).state, Adjudicated(d, b).aggregate)
  {
    hide EventId, Submitted, LegalTargets;
  }

  lemma NextAnswers(w: World, s: Step)
    requires Answers(w.driver.state, w.driver.aggregate) && Answers(w.stored.state, w.stored.aggregate)
    requires s.AdvanceStep? ==> s.target !in {VerificationPassed, VerificationFailed, VerificationInconclusive}
    ensures var t := Next(w, s);
            Answers(t.driver.state, t.driver.aggregate) && Answers(t.stored.state, t.stored.aggregate)
  {
    if s.AdvanceStep? && CanTransition(w.driver.state, s.target) {
      AdvancedAnswers(w.driver, s.target);
    } else if s.AdjudicateStep? {
      AdjudicatedAnswers(w.driver, s.boundary);
    }
    hide Answers, Adjudicated, CanTransition, Enter;
  }

  lemma ExecOne(w: World, ss: seq<Step>, s: Step)
    ensures Exec(w, ss + [s]) == Next(Exec(w, ss), s)
  {
    assert (ss + [s])[..|ss + [s]| - 1] == ss;
  }

  // ------------------------------------------------------- the state history

  /** `a` is obtained from `b` by leaving entries out. */
  predicate Subsequence(a: seq<State>, b: seq<State>) {
    if b == [] then a == []
    else
      || Subsequence(a, b[..|b| - 1])
      || (a != [] && a[|a| - 1] == b[|b| - 1] && Subsequence(a[..|a| - 1], b[..|b| - 1]))
  }

  lemma SubsequenceOfMore(a: seq<State>, b: seq<State>, x: State)
    requires Subsequence(a, b)
    ensures Subsequence(a, b + [x]) && Subsequence(a + [x], b + [x])
  {
    assert (b + [x])[..|b|] == b && (a + [x])[..|a|] == a;
  }

  /** Leaving the last entry out keeps a subsequence. */
  lemma {:induction false} DropLast(a: seq<State>, b: seq<State>)
    requires Subsequence(a, b) && a != []
    ensures Subsequence(a[..|a| - 1], b)
  {
    if b != [] && Subsequence(a, b[..|b| - 1]) {
      DropLast(a, b[..|b| - 1]);
    }
  }

  /** The states on record, the current one last. */
  function Chain(history: seq<State>, state: State): seq<State> { history + [state] }

  /** From `s` the matrix leads to `t` in one step or more. */
  ghost predicate Leads(s: State, t: State, path: seq<State>) {
    && |path| >= 2 && path[0] == s && path[|path| - 1] == t
    && forall k :: 0 <= k < |path| - 1 ==> CanTransition(path[k], path[k + 1])
  }

  ghost predicate LeadsTo(s: State, t: State) { exists path :: Leads(s, t, path) }

  ghost predicate ConnectedAt(chain: seq<State>, k: nat)
    requires k + 1 < |chain|
  {
    LeadsTo(chain[k], chain[k + 1])
  }

  ghost predicate Connected(chain: seq<State>) {
    forall k :: 0 <= k < |chain| - 1 ==> ConnectedAt(chain, k)
  }

  ghost predicate OnRecord(w: World) {
    && Subsequence(Chain(w.driver.history, w.driver.state), w.occupied)
    && Subsequence(Chain(w.stored.history, w.stored.state), w.occupied)
    && Connected(Chain(w.driver.history, w.driver.state))
    && Connected(Chain(w.stored.history, w.stored.state))
  }

  lemma LeadsFurther(a: State, s: State, t: State)
    requires LeadsTo(a, s) && CanTransition(s, t)
    ensures LeadsTo(a, t)
  {
    hide LegalTargets;
    var path :| Leads(a, s, path);
    assert Leads(a, t, path + [t]);
  }

  lemma ConnectedByOne(history: seq<State>, s: State, t: State)
    requires Connected(Chain(history, s)) && CanTransition(s, t)
    ensures Connected(Chain(history + [s], t)) && Connected(Chain(history, t))
  {
    hide LegalTargets;
    var n, chain, moved, longer := |history|, Chain(history, s), Chain(history, t), Chain(history + [s], t);
    forall k | 0 <= k < |moved| - 1 ensures ConnectedAt(moved, k) {
      assert ConnectedAt(chain, k);
      if k == n - 1 {
        LeadsFurther(chain[k], s, t);
      }
    }
    forall k | 0 <= k < |longer| - 1 ensures ConnectedAt(longer, k) {
      if k == n {
        assert Leads(s, t, [s, t]);
      } else {
        assert ConnectedAt(chain, k);
      }
    }
  }

  /** Moving on without recording: the chain ends in the new state instead. */
  lemma MoveOn(history: seq<State>, s: State, t: State, occupied: seq<State>)
    requires Subsequence(Chain(history, s), occupied) && Connected(Chain(history, s)) && (s == t || CanTransition(s, t))
    ensures Subsequence(Chain(history, t), Enter(occupied, t)) && Connected(Chain(history, t))
  {
    DropLast(Chain(history, s), occupied);
    assert Chain(history, s)[..|history|] == history;
    SubsequenceOfMore(history, occupied, t);
    if s != t {
      ConnectedByOne(history, s, t);
    }
  }

  lemma NextOnRecord(w: World, s: Step)
    requires OnRecord(w)
    ensures OnRecord(Next(w, s))
  {
    hide Connected, Subsequence, LegalTargets, EventId, Submitted;
    var d, chain, stored := w.driver, Chain(w.driver.history, w.driver.state), Chain(w.stored.history, w.stored.state);
    match s
    case AdvanceStep(target, _) =>
      if CanTransition(d.state, target) {
        ConnectedByOne(d.history, d.state, target);
        SubsequenceOfMore(chain, w.occupied, target);
        SubsequenceOfMore(chain + [target], Enter(w.occupied, target), target);
        SubsequenceOfMore(stored, w.occupied, target);
        SubsequenceOfMore(stored, Enter(w.occupied, target), target);
      }
    case AdjudicateStep(b) =>
      var r, a := Reopened(d).state, Adjudicated(d, b).state;
      AdjudicatedState(d, b);
      MoveOn(d.history, d.state, r, w.occupied);
      MoveOn(d.history, r, a, Enter(w.occupied, r));
      SubsequenceOfMore(stored, w.occupied, r);
      SubsequenceOfMore(stored, Enter(w.occupied, r), a);
    case PersistStep(_) =>
      SubsequenceOfMore(chain, w.occupied, d.state);
    case Hop =>
      SubsequenceOfMore(stored, w.occupied, w.stored.state);
  }

  lemma AdjudicatedState(d: Driver, b: Boundary)
    ensures var r, a := Reopened(d), Adjudicated(d, b);
            && r.history == d.history && a.history == d.history
            && (r.state == d.state || CanTransition(d.state, r.state))
            && (a.state == r.state || CanTransition(r.state, a.state))
  {
  }

  lemma {:induction false} RunOnRecord(w: World, ss: seq<Step>)
    requires Initial(w)
    ensures OnRecord(Exec(w, ss))
  {
    if ss == [] {
      assert Chain([], ChangeReceived) == [ChangeReceived] && w.occupied[..0] == [];
      assert Subsequence([], []) && Chain([], ChangeReceived)[..0] == [];
    } else {
      RunOnRecord(w, ss[..|ss| - 1]);
      NextOnRecord(Exec(w, ss[..|ss| - 1]), ss[|ss| - 1]);
    }
  }

  /** The state history is a subsequence of the states the workflow occupied, with the current state at its end;
      the matrix leads from each entry to the next, and no terminal state is ever in it. */
  lemma HistoryIsSubsequence(w: World, ss: seq<Step>)
    requires Initial(w)
    ensures var t := Exec(w, ss);
            && Subsequence(t.stored.history, t.occupied) && Subsequence(t.driver.history, t.occupied)
            && Connected(Chain(t.stored.history, t.stored.state)) && Connected(Chain(t.driver.history, t.driver.state))
            && (forall k :: 0 <= k < |t.stored.history| ==> !Terminal(t.stored.history[k]))
  {
    RunOnRecord(w, ss);
    hide Exec, LegalTargets, Connected;
    var t := Exec(w, ss);
    LeaveLastOut(t.stored.history, t.stored.state, t.occupied);
    LeaveLastOut(t.driver.history, t.driver.state, t.occupied);
    forall k | 0 <= k < |t.stored.history| ensures !Terminal(t.stored.history[k]) {
      NotTerminal(t.stored.history, t.stored.state, k);
    }
  }

  lemma LeaveLastOut(history: seq<State>, state: State, occupied: seq<State>)
    requires Subsequence(Chain(history, state), occupied)
    ensures Subsequence(history, occupied)
  {
    DropLast(Chain(history, state), occupied);
    assert Chain(history, state)[..|history|] == history;
  }

  lemma NotTerminal(history: seq<State>, state: State, k: nat)
    requires Connected(Chain(history, state)) && k < |history|
    ensures !Terminal(history[k])
  {
    assert ConnectedAt(Chain(history, state), k);
    var path :| Leads(Chain(history, state)[k], Chain(history, state)[k + 1], path);
    assert CanTransition(path[0], path[1]);
  }

  /** Reopening moves a delivered workflow too, not only one whose verification failed or was inconclusive,
      and it leaves no entry in the history: the record is not a full path. */
  lemma ReopensExactly(d: Driver)
    ensures Reopened(d).state != d.state
            <==> d.state in {FrontlineDeliveryCompleted, VerificationFailed, VerificationInconclusive}
    ensures Reopened(d) == d.(state := Reopened(d).state)
  {
  }
}
