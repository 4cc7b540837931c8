/** Resuming persisted workflows: who may, under which lease, and what the lease then excludes. */
module Resume {
  import opened Basics
  import opened Identifiers
  import opened DocumentStore
  import opened StateMachine
  import Leases
  import History

  // ------------------------------------------------------- eligibility

  datatype Category = Progressive | BlockingRecoverable | BlockingGate | TerminalSuccess | TerminalNonSuccess

  function CategoryOf(s: State): Category {
    match s
    case VerificationFailed => BlockingRecoverable
    case VerificationInconclusive => BlockingRecoverable
    case ReviewRequired => BlockingGate
    case ProofComplete => TerminalSuccess
    case Superseded => TerminalNonSuccess
    case Failed => TerminalNonSuccess
    case _ => Progressive
  }

  predicate Eligible(s: State) {
    !CategoryOf(s).TerminalSuccess? && !CategoryOf(s).TerminalNonSuccess? && !CategoryOf(s).BlockingGate?
  }

  /** How many transitions a proof is away. */
  function Distance(s: State): nat {
    match s
    case ChangeReceived => 7
    case ImpactDetermined => 6
    case RemediationPending => 5
    case RemediationCompleted => 4
    case FrontlineDeliveryCompleted => 3
    case VerificationFailed => 3
    case VerificationInconclusive => 3
    case AwaitingFieldVerification => 2
    case VerificationPassed => 1
    case _ => 0
  }

  function Onward(s: State): State {
    match s
    case ChangeReceived => ImpactDetermined
    case ImpactDetermined => RemediationPending
    case RemediationPending => RemediationCompleted
    case RemediationCompleted => FrontlineDeliveryCompleted
    case FrontlineDeliveryCompleted => AwaitingFieldVerification
    case AwaitingFieldVerification => VerificationPassed
    case VerificationPassed => ProofComplete
    case _ => AwaitingFieldVerification
  }

  lemma {:induction false} EligibleLeads(s: State)
    requires Eligible(s)
    ensures History.LeadsTo(s, ProofComplete)
    decreases Distance(s)
  {
    var next := Onward(s);
    assert CanTransition(s, next);
    if next == ProofComplete {
      assert History.Leads(s, ProofComplete, [s, ProofComplete]);
    } else {
      EligibleLeads(next);
      var path :| History.Leads(next, ProofComplete, path);
      assert History.Leads(s, ProofComplete, [s] + path);
    }
  }

  lemma DeadEnd(s: State, path: seq<State>)
    requires !Eligible(s)
    ensures !History.Leads(s, ProofComplete, path)
  {
    if |path| >= 2 && path[0] == s && CanTransition(s, path[1]) {
      assert path[1] in {Superseded, Failed};
      assert |path| > 2 ==> !CanTransition(path[1], path[2]);
    }
  }

  /** The categories and the transition matrix agree: a state is eligible exactly when the matrix leads from it
      to a completed proof. */
  lemma EligibleExactly(s: State)
    ensures Eligible(s) <==> History.LeadsTo(s, ProofComplete)
  {
    if Eligible(s) {
      EligibleLeads(s);
    } else {
      forall path ensures !History.Leads(s, ProofComplete, path) {
        DeadEnd(s, path);
      }
    }
  }

  // ------------------------------------------------------- operations

  /** What durable storage holds of a workflow, and whether the rebuild succeeds. */
  datatype Readiness = NoRecord | InState(state: State, hasInput: bool, rebuilds: bool)

  datatype Refusal = NotFound | NotResumable | HeldElsewhere(holder: Option<string>) | Rejected(reason: Rejection) | RebuildFailed

  /** Whether the service was there already or was rebuilt. */
  datatype Outcome = Attached | Rebuilt

  datatype Process = Process(services: set<string>, held: map<string, Leases.Lease>)

  type LeaseDocs = map<string, Leases.LeaseDoc>

  function RefusedFor(r: Leases.Refusal): Refusal {
    match r
    case Rejected(reason) => Rejected(reason)
    case Denied(holder) => HeldElsewhere(holder)
  }

  function ResumeOp(docs: LeaseDocs, p: Process, w: string, owner: string, now: int, token: string, ttl: int, r: Readiness)
    : (LeaseDocs, Process, Result<Outcome, Refusal>)
  {
    if w in p.services then (docs, p, Ok(Attached))
    else if r.NoRecord? then (docs, p, Err(NotFound))
    else if !Eligible(r.state) || !r.hasInput then (docs, p, Err(NotResumable))
    else
      var (locked, lease) := Leases.AcquireOp(docs, w, owner, token, now, ttl);
      if lease.Err? then (locked, p, Err(RefusedFor(lease.error)))
      else if !r.rebuilds then (Leases.ReleaseOp(locked, lease.value).0, p, Err(RebuildFailed))
      else (locked, Process(p.services + {w}, p.held[w := lease.value]), Ok(Rebuilt))
  }

  function ReleaseOp(docs: LeaseDocs, p: Process, w: string): (LeaseDocs, Process, bool) {
    if w !in p.held then (docs, p, false)
    else
      var (freed, released) := Leases.ReleaseOp(docs, p.held[w]);
      (freed, p.(held := p.held - {w}), released)
  }

  /** Every answer and what it leaves: attaching and refusing change nothing, a failed rebuild leaves the workflow free
      for anybody, a rebuild leaves the process driving under its own lease. */
  lemma ResumeExactly(docs: LeaseDocs, p: Process, w: string, owner: string, now: int, token: string, ttl: int, r: Readiness)
    ensures var (after, q, answer) := ResumeOp(docs, p, w, owner, now, token, ttl, r);
            var ready := w !in p.services && r.InState? && Eligible(r.state) && r.hasInput;
            var free := w in docs ==> docs[w].expiresAt.None? || now >= docs[w].expiresAt.value;
            && (answer == Ok(Attached) <==> w in p.services)
            && (answer == Err(NotFound) <==> w !in p.services && r == NoRecord)
            && (answer == Err(NotResumable) <==> w !in p.services && r.InState? && (!Eligible(r.state) || !r.hasInput))
            && (ready && !Safe(w) ==> answer == Err(Rejected(SafeIdentifier(w).error)))
            && (ready && Safe(w) && !free <==> answer.Err? && answer.error.HeldElsewhere?)
            && (ready && Safe(w) && !free ==> answer.error.holder == Some(docs[w].owner))
            && (answer == Err(RebuildFailed) <==> ready && Safe(w) && free && !r.rebuilds)
            && (answer == Ok(Rebuilt) <==> ready && Safe(w) && free && r.rebuilds)
            && (answer != Ok(Rebuilt) ==> q == p && after == if answer == Err(RebuildFailed) then docs - {w} else docs)
            && (answer == Ok(Rebuilt) ==>
                  && q.services == p.services + {w} && w in q.held && q.held - {w} == p.held - {w}
                  && q.held[w] == Leases.Lease(w, owner, token, now + ttl)
                  && w in after && after[w].token == token && after - {w} == docs - {w})
  {
    hide Eligible;
    Leases.AcquireExactly(docs, w, owner, token, now, ttl);
    var locked := Leases.AcquireOp(docs, w, owner, token, now, ttl).0;
    hide Safe;
    assert locked - {w} == docs - {w};
    assert p.held[w := Leases.Lease(w, owner, token, now + ttl)] - {w} == p.held - {w};
  }

  class ResumeRuntime {
    const leases: Leases.ResumeLeases
    var services: set<string>
    var leasesHeld: map<string, Leases.Lease>

    function View(): Process
      reads this
    {
      Process(services, leasesHeld)
    }

    constructor (leases: Leases.ResumeLeases)
      ensures this.leases == leases && View() == Process({}, map[])
    {
      this.leases := leases;
      services, leasesHeld := {}, map[];
    }

    method Resume(w: string, owner: string, now: int, token: string, readiness: Readiness)
      returns (r: Result<Outcome, Refusal>)
      modifies this, leases.leases
      ensures (leases.leases.docs, View(), r)
              == ResumeOp(old(leases.leases.docs), old(View()), w, owner, now, token, leases.ttl, readiness)
    {
      if w in services {
        return Ok(Attached);
      }
      if readiness.NoRecord? {
        return Err(NotFound);
      }
      if !Eligible(readiness.state) {
        return Err(NotResumable);
      }
      if !readiness.hasInput {
        return Err(NotResumable);
      }
      var lease := leases.Acquire(w, owner, now, token);
      if lease.Err? {
        return Err(RefusedFor(lease.error));
      }
      if !readiness.rebuilds {
        var _ := leases.Release(lease.value);
        return Err(RebuildFailed);
      }
      services := services + {w};
      leasesHeld := leasesHeld[w := lease.value];
      return Ok(Rebuilt);
    }

    method Release(w: string) returns (released: bool)
      modifies this, leases.leases
      ensures (leases.leases.docs, View(), released) == ReleaseOp(old(leases.leases.docs), old(View()), w)
    {
      if w !in leasesHeld {
        return false;
      }
      var lease := leasesHeld[w];
      leasesHeld := leasesHeld - {w};
      released := leases.Release(lease);
    }
  }

  // ------------------------------------------------------- runs

  datatype Step =
    | Resuming(p: nat, w: string, owner: string, token: string, readiness: Readiness)
    | Releasing(p: nat, w: string)
    | Starting(p: nat, w: string)
    | Crash(p: nat)
    | Tick(now: int)

  /** `trace` is the run of the lease protocol that the processes have produced between them; `exempt` the
      processes that started a workflow themselves or have given its lease up. */
  datatype World = World(docs: LeaseDocs, clock: int, tokens: set<string>, procs: map<nat, Process>,
                         trace: seq<Leases.Event>, exempt: set<(nat, string)>)

  const IDLE := Process({}, map[])

  function ProcessOf(s: World, p: nat): Process { if p in s.procs then s.procs[p] else IDLE }

  /** The lease operations that a resume amounts to. */
  function ResumeTrace(s: World, e: Step, ttl: int): seq<Leases.Event>
    requires e.Resuming?
  {
    var r := e.readiness;
    if e.w in ProcessOf(s, e.p).services || r.NoRecord? || !Eligible(r.state) || !r.hasInput then []
    else
      var lease := Leases.AcquireOp(s.docs, e.w, e.owner, e.token, s.clock, ttl).1;
      [Leases.Acquire(e.w, e.owner, e.token)] + (if lease.Ok? && !r.rebuilds then [Leases.Release(lease.value)] else [])
  }

  predicate Enabled(s: World, e: Step) {
    match e
    case Resuming(_, _, _, token, _) => token !in s.tokens
    case Tick(now) => now >= s.clock
    case _ => true
  }

  function Next(s: World, e: Step, ttl: int): World {
    if !Enabled(s, e) then s
    else
      match e
      case Resuming(p, w, owner, token, readiness) =>
        var (docs, after, r) := ResumeOp(s.docs, ProcessOf(s, p), w, owner, s.clock, token, ttl, readiness);
        var more := ResumeTrace(s, e, ttl);
        s.(docs := docs, procs := s.procs[p := after], trace := s.trace + more,
           tokens := if more == [] then s.tokens else s.tokens + {token})
      case Releasing(p, w) =>
        var (docs, after, r) := ReleaseOp(s.docs, ProcessOf(s, p), w);
        var held := ProcessOf(s, p).held;
        s.(docs := docs, procs := s.procs[p := after],
           trace := if w in held then s.trace + [Leases.Release(held[w])] else s.trace,
           exempt := if w in held then s.exempt + {(p, w)} else s.exempt)
      case Starting(p, w) =>
        var here := ProcessOf(s, p);
        s.(procs := s.procs[p := here.(services := here.services + {w})], exempt := s.exempt + {(p, w)})
      case Crash(p) => s.(procs := s.procs - {p}, exempt := set x | x in s.exempt && x.0 != p)
      case Tick(now) => s.(clock := now, trace := s.trace + [Leases.Tick(now)])
  }

  function Exec(s: World, es: seq<Step>, ttl: int): World {
    if es == [] then s else Next(Exec(s, es[..|es| - 1], ttl), es[|es| - 1], ttl)
  }

  /** Whatever lease documents earlier deployments left, no process runs yet. */
  predicate Initial(s: World, l: Leases.World) {
    && Leases.Initial(l) && l.docs == s.docs && l.clock == s.clock && l.tokens == s.tokens
    && s.procs == map[] && s.trace == [] && s.exempt == {}
  }

  // ------------------------------------------------------- refinement of the lease protocol

  /** The lease run `t` is where the processes' own operations have brought the store. */
  predicate Tracks(s: World, t: Leases.World) {
    t.docs == s.docs && t.clock == s.clock && t.tokens == s.tokens
  }

  predicate HeldOk(s: World, t: Leases.World, p: nat, w: string)
    requires w in ProcessOf(s, p).held
  {
    var l := ProcessOf(s, p).held[w];
    l.workflow == w && l in t.issued && l !in t.released
  }

  ghost predicate AllHeldOk(s: World, t: Leases.World) {
    forall p, w :: w in ProcessOf(s, p).held ==> HeldOk(s, t, p, w)
  }

  /** No lease is held twice. */
  ghost predicate HeldApart(s: World) {
    forall p, q, w :: p != q && w in ProcessOf(s, p).held && w in ProcessOf(s, q).held ==>
      ProcessOf(s, p).held[w] != ProcessOf(s, q).held[w]
  }

  ghost predicate DrivingIsHolding(s: World) {
    forall p: nat, w :: w in ProcessOf(s, p).services ==> w in ProcessOf(s, p).held || (p, w) in s.exempt
  }

  ghost predicate Inv(s: World, t: Leases.World) {
    Tracks(s, t) && AllHeldOk(s, t) && HeldApart(s) && DrivingIsHolding(s)
  }

  /** Every operation on the trace was possible when it happened: tokens new, leases released by their
      holder, and once. */
  ghost predicate AllEnabled(l: Leases.World, trace: seq<Leases.Event>, ttl: int) {
    forall k :: 0 <= k < |trace| ==> Leases.Enabled(Leases.Exec(l, trace[..k], ttl), trace[k])
  }

  lemma ExecTwo(l: Leases.World, a: seq<Leases.Event>, b: seq<Leases.Event>, ttl: int)
    requires |b| <= 2
    ensures var t := Leases.Exec(l, a, ttl);
            Leases.Exec(l, a + b, ttl) == if b == [] then t
                                          else if |b| == 1 then Leases.Next(t, b[0], ttl)
                                          else Leases.Next(Leases.Next(t, b[0], ttl), b[1], ttl)
  {
    if b == [] {
      assert a + b == a;
    } else if |b| == 1 {
      assert (a + b)[..|a|] == a;
    } else {
      assert (a + b)[..|a| + 1] == a + [b[0]] && (a + [b[0]])[..|a|] == a;
    }
  }

  lemma TwoEnabled(l: Leases.World, a: seq<Leases.Event>, b: seq<Leases.Event>, ttl: int)
    requires |b| <= 2 && AllEnabled(l, a, ttl)
    requires var t := Leases.Exec(l, a, ttl);
             (b != [] ==> Leases.Enabled(t, b[0])) && (|b| == 2 ==> Leases.Enabled(Leases.Next(t, b[0], ttl), b[1]))
    ensures AllEnabled(l, a + b, ttl)
  {
    hide Leases.Exec, Leases.Enabled, Leases.Next;
    forall k | 0 <= k < |a + b| ensures Leases.Enabled(Leases.Exec(l, (a + b)[..k], ttl), (a + b)[k]) {
      if k < |a| {
        assert (a + b)[..k] == a[..k];
      } else {
        ExecTwo(l, a, b[..k - |a|], ttl);
        assert (a + b)[..k] == a + b[..k - |a|];
      }
    }
  }

  /** The lease events of one step. */
  function TraceOf(s: World, e: Step, ttl: int): seq<Leases.Event> {
    if !Enabled(s, e) then []
    else
      match e
      case Resuming(_, _, _, _, _) => ResumeTrace(s, e, ttl)
      case Releasing(p, w) =>
        if w in ProcessOf(s, p).held then [Leases.Release(ProcessOf(s, p).held[w])] else []
      case Tick(now) => [Leases.Tick(now)]
      case _ => []
  }

  function Follow(t: Leases.World, events: seq<Leases.Event>, ttl: int): Leases.World
    requires |events| <= 2
  {
    if events == [] then t
    else if |events| == 1 then Leases.Next(t, events[0], ttl)
    else Leases.Next(Leases.Next(t, events[0], ttl), events[1], ttl)
  }

  ghost predicate Possible(t: Leases.World, events: seq<Leases.Event>, ttl: int) {
    |events| <= 2
    && (events != [] ==> Leases.Enabled(t, events[0]))
    && (|events| == 2 ==> Leases.Enabled(Leases.Next(t, events[0], ttl), events[1]))
  }

  /** A lease under a new token is none of those around. */
  lemma NewLease(s: World, t: Leases.World, token: string)
    requires Inv(s, t) && Leases.TokensIdentify(t) && token !in s.tokens
    ensures forall p, w :: w in ProcessOf(s, p).held ==> ProcessOf(s, p).held[w].token != token
    ensures forall l :: l in t.issued || l in t.released ==> l.token != token
  {
    forall l | l in t.issued ensures l.token != token {
      var i :| 0 <= i < |t.issued| && t.issued[i] == l;
    }
    forall p, w | w in ProcessOf(s, p).held ensures ProcessOf(s, p).held[w].token != token {
      assert HeldOk(s, t, p, w);
    }
  }

  /** What a step of process `p` has to leave intact. */
  ghost predicate OnlyMoves(s: World, n: World, t': Leases.World, p: nat) {
    && (forall q: nat :: q != p ==> ProcessOf(n, q) == ProcessOf(s, q))
    && (forall q: nat, w :: q != p && w in ProcessOf(s, q).held ==> HeldOk(s, t', q, w))
    && (forall q: nat, w :: q != p && (q, w) in s.exempt ==> (q, w) in n.exempt)
  }

  ghost predicate OwnPart(s: World, n: World, t': Leases.World, p: nat) {
    && (forall w :: w in ProcessOf(n, p).held ==> HeldOk(n, t', p, w))
    && (forall q: nat, w :: q != p && w in ProcessOf(n, p).held && w in ProcessOf(s, q).held ==>
          ProcessOf(n, p).held[w] != ProcessOf(s, q).held[w])
    && (forall w :: w in ProcessOf(n, p).services ==> w in ProcessOf(n, p).held || (p, w) in n.exempt)
  }

  lemma MoveKeepsInv(s: World, n: World, t: Leases.World, t': Leases.World, p: nat)
    requires Inv(s, t) && Tracks(n, t') && OnlyMoves(s, n, t', p) && OwnPart(s, n, t', p)
    ensures Inv(n, t')
  {
    forall q, w | w in ProcessOf(n, q).held ensures HeldOk(n, t', q, w) {
      assert q != p ==> HeldOk(s, t', q, w);
    }
  }

  /** Leases around stay issued and unreleased while `t` becomes `t'`. */
  predicate Keeps(t: Leases.World, t': Leases.World) {
    (forall l :: l in t.issued ==> l in t'.issued) && (forall l :: l in t.issued && l !in t.released ==> l !in t'.released)
  }

  /** No process changed, and its leases are as good as before. */
  lemma StillKeepsInv(s: World, n: World, t: Leases.World, t': Leases.World)
    requires Inv(s, t) && Tracks(n, t') && Keeps(t, t') && n.exempt == s.exempt
    requires forall q: nat :: ProcessOf(n, q) == ProcessOf(s, q)
    ensures Inv(n, t')
  {
    forall q, w | w in ProcessOf(s, q).held ensures HeldOk(s, t', q, w) && HeldOk(n, t', q, w) {
      assert HeldOk(s, t, q, w);
    }
    MoveKeepsInv(s, n, t, t', 0);
  }

  lemma ResumeTracks(s: World, t: Leases.World, e: Step, ttl: int)
    requires Inv(s, t) && Leases.TokensIdentify(t) && e.Resuming? && Enabled(s, e)
    ensures var events := ResumeTrace(s, e, ttl);
            && Possible(t, events, ttl) && Tracks(Next(s, e, ttl), Follow(t, events, ttl)) && Keeps(t, Follow(t, events, ttl))
            && (ResumeOp(s.docs, ProcessOf(s, e.p), e.w, e.owner, s.clock, e.token, ttl, e.readiness).2 == Ok(Rebuilt) ==>
                  && Follow(t, events, ttl).released == t.released
                  && Leases.Lease(e.w, e.owner, e.token, s.clock + ttl) in Follow(t, events, ttl).issued)
  {
    NewLease(s, t, e.token);
    hide Eligible, Safe, AllHeldOk, HeldApart, DrivingIsHolding;
    var lease := Leases.Lease(e.w, e.owner, e.token, s.clock + ttl);
    assert (t.issued + [lease])[|t.issued|] == lease;
    assert t.docs == s.docs && t.clock == s.clock && t.tokens == s.tokens;
  }

  lemma ResumeKeepsInv(s: World, t: Leases.World, e: Step, ttl: int)
    requires Inv(s, t) && Leases.TokensIdentify(t) && e.Resuming? && Enabled(s, e)
    ensures Possible(t, ResumeTrace(s, e, ttl), ttl)
    ensures Inv(Next(s, e, ttl), Follow(t, ResumeTrace(s, e, ttl), ttl))
  {
    ResumeTracks(s, t, e, ttl);
    NewLease(s, t, e.token);
    var n, t' := Next(s, e, ttl), Follow(t, ResumeTrace(s, e, ttl), ttl);
    assert forall q :: q != e.p ==> ProcessOf(n, q) == ProcessOf(s, q);
    var (_, after, r) := ResumeOp(s.docs, ProcessOf(s, e.p), e.w, e.owner, s.clock, e.token, ttl, e.readiness);
    assert ProcessOf(n, e.p) == after;
    if r == Ok(Rebuilt) {
      RebuiltKeepsInv(s, n, t, t', e, Leases.Lease(e.w, e.owner, e.token, s.clock + ttl));
    } else {
      assert after == ProcessOf(s, e.p);
      hide Follow, ResumeTrace, ResumeOp, Next;
      StillKeepsInv(s, n, t, t');
    }
  }

  lemma RebuiltKeepsInv(s: World, n: World, t: Leases.World, t': Leases.World, e: Step, lease: Leases.Lease)
    requires Inv(s, t) && Tracks(n, t') && Keeps(t, t') && t'.released == t.released && e.Resuming?
    requires lease.workflow == e.w && lease.token == e.token && lease in t'.issued && n.exempt == s.exempt
    requires forall p, w :: w in ProcessOf(s, p).held ==> ProcessOf(s, p).held[w].token != e.token
    requires forall l :: l in t.released ==> l.token != e.token
    requires forall q :: q != e.p ==> ProcessOf(n, q) == ProcessOf(s, q)
    requires var here := ProcessOf(s, e.p); ProcessOf(n, e.p) == Process(here.services + {e.w}, here.held[e.w := lease])
    ensures Inv(n, t')
  {
    forall q, w | w in ProcessOf(s, q).held ensures HeldOk(s, t', q, w) {
      assert HeldOk(s, t, q, w);
    }
    forall w | w in ProcessOf(n, e.p).held ensures HeldOk(n, t', e.p, w) {
      assert w != e.w ==> HeldOk(s, t', e.p, w);
    }
    MoveKeepsInv(s, n, t, t', e.p);
  }

  lemma ReleaseKeepsInv(s: World, t: Leases.World, e: Step, ttl: int)
    requires Inv(s, t) && e.Releasing?
    ensures Possible(t, TraceOf(s, e, ttl), ttl)
    ensures Inv(Next(s, e, ttl), Follow(t, TraceOf(s, e, ttl), ttl))
  {
    var n, t' := Next(s, e, ttl), Follow(t, TraceOf(s, e, ttl), ttl);
    assert forall q :: q != e.p ==> ProcessOf(n, q) == ProcessOf(s, q);
    if e.w in ProcessOf(s, e.p).held {
      assert HeldOk(s, t, e.p, e.w);
      assert t'.issued == t.issued && t'.released == t.released + {ProcessOf(s, e.p).held[e.w]};
    }
    hide Leases.Next, Follow;
    forall q: nat, w | w in ProcessOf(s, q).held && (q, w) != (e.p, e.w) ensures HeldOk(s, t', q, w) {
      assert HeldOk(s, t, q, w);
    }
    forall w | w in ProcessOf(n, e.p).held ensures HeldOk(n, t', e.p, w) {
      assert HeldOk(s, t', e.p, w);
    }
    MoveKeepsInv(s, n, t, t', e.p);
  }

  lemma LocalKeepsInv(s: World, t: Leases.World, e: Step, ttl: int)
    requires Inv(s, t) && (e.Starting? || e.Crash?)
    ensures Inv(Next(s, e, ttl), t)
  {
    var n := Next(s, e, ttl);
    assert forall q :: q != e.p ==> ProcessOf(n, q) == ProcessOf(s, q);
    forall q, w | w in ProcessOf(s, q).held ensures HeldOk(s, t, q, w) {
    }
    forall w | w in ProcessOf(n, e.p).held ensures HeldOk(n, t, e.p, w) {
      assert HeldOk(s, t, e.p, w);
    }
    MoveKeepsInv(s, n, t, t, e.p);
  }

  lemma NextKeepsInv(s: World, t: Leases.World, e: Step, ttl: int)
    requires Inv(s, t) && Leases.TokensIdentify(t)
    ensures Possible(t, TraceOf(s, e, ttl), ttl)
    ensures Inv(Next(s, e, ttl), Follow(t, TraceOf(s, e, ttl), ttl))
  {
    if e.Resuming? && Enabled(s, e) {
      ResumeKeepsInv(s, t, e, ttl);
    } else if e.Releasing? {
      ReleaseKeepsInv(s, t, e, ttl);
    } else if e.Starting? || e.Crash? {
      LocalKeepsInv(s, t, e, ttl);
    } else {
      StillKeepsInv(s, Next(s, e, ttl), t, Follow(t, TraceOf(s, e, ttl), ttl));
    }
  }

  lemma TraceGrows(s: World, e: Step, ttl: int)
    ensures Next(s, e, ttl).trace == s.trace + TraceOf(s, e, ttl)
  {
    assert s.trace + [] == s.trace;
  }

  /** The runtimes refine the lease protocol: whatever they do, the store is where a run of that protocol
      takes it, and every operation of that run was enabled. */
  lemma {:induction false} RuntimesRefineLeases(s: World, l: Leases.World, es: seq<Step>, ttl: int)
    requires Initial(s, l)
    ensures var n := Exec(s, es, ttl);
            AllEnabled(l, n.trace, ttl) && Inv(n, Leases.Exec(l, n.trace, ttl))
  {
    hide Leases.Next, Leases.Enabled, Next, TraceOf;
    if es != [] {
      var before, e := Exec(s, es[..|es| - 1], ttl), es[|es| - 1];
      RuntimesRefineLeases(s, l, es[..|es| - 1], ttl);
      Leases.RunKeepsInv(l, before.trace, ttl);
      var t := Leases.Exec(l, before.trace, ttl);
      NextKeepsInv(before, t, e, ttl);
      TraceGrows(before, e, ttl);
      ExecTwo(l, before.trace, TraceOf(before, e, ttl), ttl);
      TwoEnabled(l, before.trace, TraceOf(before, e, ttl), ttl);
    }
  }

  // ------------------------------------------------------- exclusion

  /** At every reachable state at most one process holds an unexpired lease on a workflow. */
  lemma HeldExclusion(s: World, l: Leases.World, es: seq<Step>, ttl: int, p: nat, q: nat, w: string)
    requires Initial(s, l)
    requires var n := Exec(s, es, ttl);
             && w in ProcessOf(n, p).held && !Leases.Expired(ProcessOf(n, p).held[w], n.clock)
             && w in ProcessOf(n, q).held && !Leases.Expired(ProcessOf(n, q).held[w], n.clock)
    ensures p == q
  {
    RuntimesRefineLeases(s, l, es, ttl);
    var n := Exec(s, es, ttl);
    var t := Leases.Exec(l, n.trace, ttl);
    hide Exec, Leases.Exec;
    assert HeldOk(n, t, p, w) && HeldOk(n, t, q, w);
    Leases.LeaseExclusion(l, n.trace, ttl, ProcessOf(n, p).held[w], ProcessOf(n, q).held[w]);
  }

  predicate LetExpire(s: World, p: nat, w: string) {
    w in ProcessOf(s, p).held && Leases.Expired(ProcessOf(s, p).held[w], s.clock)
  }

  /** So when two processes drive the same workflow, one of them started it, gave up a lease it held, or let its
      lease expire. `SecondDriverExactly` says when a resume gets there. */
  lemma TwoDriversOnlyIf(s: World, l: Leases.World, es: seq<Step>, ttl: int, p: nat, q: nat, w: string)
    requires Initial(s, l) && p != q
    requires var n := Exec(s, es, ttl); w in ProcessOf(n, p).services && w in ProcessOf(n, q).services
    ensures var n := Exec(s, es, ttl);
            (p, w) in n.exempt || (q, w) in n.exempt || LetExpire(n, p, w) || LetExpire(n, q, w)
  {
    RuntimesRefineLeases(s, l, es, ttl);
    var n := Exec(s, es, ttl);
    hide Exec, Leases.Exec;
    if (p, w) !in n.exempt && (q, w) !in n.exempt && !LetExpire(n, p, w) && !LetExpire(n, q, w) {
      HeldExclusion(s, l, es, ttl, p, q, w);
    }
  }

  // ------------------------------------------------------- the second driver

  predicate Drives(s: World, p: nat, w: string) { w in ProcessOf(s, p).services }

  /** Durable storage holds all that a rebuild needs. */
  predicate Ready(r: Readiness) { r.InState? && Eligible(r.state) && r.hasInput && r.rebuilds }

  /** The stored lease document shuts others out: the guard that `acquire` goes by. */
  predicate Blocked(s: World, w: string) { w in s.docs && Leases.Blocks(s.docs[w], s.clock) }

  /** From an empty lease collection the guard is the promise itself: the workflow is blocked exactly while a lease
      of it is out, unreleased and unexpired. */
  lemma BlockedExactlyWhileLive(s: World, l: Leases.World, es: seq<Step>, ttl: int, w: string)
    requires Initial(s, l) && s.docs == map[] && Safe(w)
    ensures var n := Exec(s, es, ttl);
            Blocked(n, w) <==> exists x: Leases.Lease :: x.workflow == w && Leases.Live(Leases.Exec(l, n.trace, ttl), x)
  {
    RuntimesRefineLeases(s, l, es, ttl);
    var n := Exec(s, es, ttl);
    hide Exec, Leases.Exec, Safe;
    Leases.RefusedExactlyWhileLive(l, n.trace, ttl, w, "", "");
  }

  /** While one process drives a workflow, by whatever right, the resume of another makes a second driver exactly
      when the workflow is ready, its id is safe and no unexpired lease document lies on it; from an empty lease
      collection that is, exactly when no lease of it is live. */
  lemma SecondDriverExactly(s: World, l: Leases.World, es: seq<Step>, ttl: int, p: nat, q: nat, w: string,
                            owner: string, token: string, r: Readiness)
    requires Initial(s, l) && p != q && token !in Exec(s, es, ttl).tokens
    requires Drives(Exec(s, es, ttl), p, w) && !Drives(Exec(s, es, ttl), q, w)
    ensures var n := Exec(s, es, ttl);
            var m := Next(n, Resuming(q, w, owner, token, r), ttl);
            Drives(m, p, w) && Drives(m, q, w) <==> Ready(r) && Safe(w) && !Blocked(n, w)
    ensures s.docs == map[] ==>
              var n := Exec(s, es, ttl);
              var m := Next(n, Resuming(q, w, owner, token, r), ttl);
              Drives(m, p, w) && Drives(m, q, w)
              <==> Ready(r) && Safe(w)
                   && !exists x: Leases.Lease :: x.workflow == w && Leases.Live(Leases.Exec(l, n.trace, ttl), x)
  {
    hide Exec, Eligible, Safe, Leases.Exec;
    if s.docs == map[] && Safe(w) {
      BlockedExactlyWhileLive(s, l, es, ttl, w);
    }
  }

  /** The promise where it is kept: while a process holds an unexpired lease, no other process resumes. */
  lemma HeldLeaseShutsOut(s: World, l: Leases.World, es: seq<Step>, ttl: int, p: nat, q: nat, w: string,
                          owner: string, token: string, r: Readiness)
    requires Initial(s, l) && p != q && Ready(r) && Safe(w)
    requires var n := Exec(s, es, ttl);
             w in ProcessOf(n, p).held && !Leases.Expired(ProcessOf(n, p).held[w], n.clock) && !Drives(n, q, w)
    ensures var n := Exec(s, es, ttl);
            var (docs, after, answer) := ResumeOp(n.docs, ProcessOf(n, q), w, owner, n.clock, token, ttl, r);
            && docs == n.docs && after == ProcessOf(n, q)
            && w in n.docs && answer == Err(HeldElsewhere(Some(n.docs[w].owner)))
  {
    RuntimesRefineLeases(s, l, es, ttl);
    var n := Exec(s, es, ttl);
    Leases.RunKeepsInv(l, n.trace, ttl);
    var t := Leases.Exec(l, n.trace, ttl);
    hide Exec, Leases.Exec, Eligible, Safe;
    assert HeldOk(n, t, p, w);
    assert Leases.Live(t, ProcessOf(n, p).held[w]);
  }

  /** The ordinary way to two drivers: the process that accepted the change drives it without a lease. */
  lemma StarterDrivesWithoutLease(s: World, l: Leases.World, w: string, ttl: int)
    requires Initial(s, l) && Safe(w) && w !in s.docs && "b" !in s.tokens
    ensures var ready := InState(AwaitingFieldVerification, true, true);
            var n := Exec(s, [Starting(0, w)] + [Resuming(1, w, "p1", "b", ready)], ttl);
            Drives(n, 0, w) && Drives(n, 1, w) && w !in ProcessOf(n, 0).held && w in ProcessOf(n, 1).held
  {
    hide Safe;
    var ready := InState(AwaitingFieldVerification, true, true);
    ExecOne(s, [], Starting(0, w), ttl);
    assert [] + [Starting(0, w)] == [Starting(0, w)];
    ExecOne(s, [Starting(0, w)], Resuming(1, w, "p1", "b", ready), ttl);
  }

  /** And the slow one: a holder whose lease ran out goes on driving. */
  lemma ExpiredHolderDrives(s: World, l: Leases.World, w: string, ttl: int)
    requires Initial(s, l) && Safe(w) && w !in s.docs && "a" !in s.tokens && "b" !in s.tokens && ttl >= 0
    ensures var ready := InState(AwaitingFieldVerification, true, true);
            var n := Exec(s, [Resuming(0, w, "p0", "a", ready)] + [Tick(s.clock + ttl)] + [Resuming(1, w, "p1", "b", ready)], ttl);
            Drives(n, 0, w) && Drives(n, 1, w) && n.exempt == {}
  {
    hide Safe;
    var ready := InState(AwaitingFieldVerification, true, true);
    var e1, e2, e3 := Resuming(0, w, "p0", "a", ready), Tick(s.clock + ttl), Resuming(1, w, "p1", "b", ready);
    assert "a"[0] != "b"[0];
    ExecOne(s, [], e1, ttl);
    assert [] + [e1] == [e1];
    ExecOne(s, [e1], e2, ttl);
    var s2 := Exec(s, [e1] + [e2], ttl);
    assert Drives(s2, 0, w) && !Blocked(s2, w) && s2.exempt == {};
    ExecOne(s, [e1] + [e2], e3, ttl);
  }

  /** Giving the lease up is enough: the process keeps the live service, so its next resume attaches without a
      lease while another process holds it. */
  lemma ReleaseKeepsDriving(s: World, l: Leases.World, w: string, ttl: int)
    requires Initial(s, l) && Safe(w) && w !in s.docs && "a" !in s.tokens && "b" !in s.tokens && ttl > 0
    ensures var ready := InState(AwaitingFieldVerification, true, true);
            var es := [Resuming(0, w, "p0", "a", ready)] + [Releasing(0, w)] + [Resuming(1, w, "p1", "b", ready)];
            var n := Exec(s, es, ttl);
            && w in ProcessOf(n, 1).held && !Leases.Expired(ProcessOf(n, 1).held[w], n.clock)
            && ResumeOp(n.docs, ProcessOf(n, 0), w, "p0", n.clock, "c", ttl, ready) == (n.docs, ProcessOf(n, 0), Ok(Attached))
  {
    hide Safe;
    var ready := InState(AwaitingFieldVerification, true, true);
    var e1, e2, e3 := Resuming(0, w, "p0", "a", ready), Releasing(0, w), Resuming(1, w, "p1", "b", ready);
    assert "a"[0] != "b"[0];
    ExecOne(s, [], e1, ttl);
    assert [] + [e1] == [e1];
    var s1 := Exec(s, [e1], ttl);
    assert w in ProcessOf(s1, 0).held && s1.docs[w].token == "a";
    ExecOne(s, [e1], e2, ttl);
    var s2 := Exec(s, [e1] + [e2], ttl);
    assert w !in s2.docs;
    ExecOne(s, [e1] + [e2], e3, ttl);
  }

  lemma ExecOne(s: World, es: seq<Step>, e: Step, ttl: int)
    ensures Exec(s, es + [e], ttl) == Next(Exec(s, es, ttl), e, ttl)
  {
    assert (es + [e])[..|es + [e]| - 1] == es;
  }
}
