/** Every run of ingestion: any number of processes, interleaved at store calls, crashing anywhere. */
module IngestionRuns {
  import opened Basics
  import opened Identifiers
  import opened Ingestion

  /** A process and what it remembers of its current call: whether the change was already claimed
      in the store when that call began. */
  datatype Process = Process(local: Local, late: bool)

  datatype Report = Report(changeId: string, late: bool, answer: Answer)

  /** `namespaces` are all namespaces ever taken and `minted` all workflow ids ever built. */
  datatype World = World(
    store: Store,
    procs: map<nat, Process>,
    namespaces: set<string>,
    minted: set<string>,
    log: seq<Report>
  )

  datatype Event =
    | Boot(p: nat, namespace: string)
    | Crash(p: nat)
    | Begin(p: nat, payload: Payload)
    | Step(p: nat)
    | Resave(w: string, state: string)

  /** The key a delivered change is looked up under. */
  function LookupKey(changeId: string): string { Key(Strip(changeId)) }

  function Logged(s: World, changeId: string, late: bool, answer: Option<Answer>): seq<Report> {
    if answer.Some? then s.log + [Report(changeId, late, answer.value)] else s.log
  }

  function NextBegin(s: World, p: nat, payload: Payload): World
    requires p in s.procs
  {
    var late := LookupKey(payload.changeId) in s.store.claims;
    var (l, answer) := BeginCall(s.procs[p].local, payload);
    s.(procs := s.procs[p := Process(l, late)], log := Logged(s, payload.changeId, late, answer))
  }

  function NextStep(s: World, p: nat): World
    requires p in s.procs && !s.procs[p].local.call.Idle?
  {
    var Process(l, late) := s.procs[p];
    var (store, l', answer) := StepCall(s.store, l);
    World(store, s.procs[p := Process(l', late)], s.namespaces,
          if l.call.Building? then s.minted + {MintWorkflowId(l.namespace, l.sequence + 1)} else s.minted,
          Logged(s, l.call.payload.changeId, late, answer))
  }

  /** A boot takes a namespace nobody ever had; a use case may save a workflow again, under its own
      change. Events that are not enabled leave the world as it is. */
  function Next(s: World, e: Event): World {
    match e
    case Boot(p, namespace) =>
      if p in s.procs || namespace in s.namespaces then s
      else s.(procs := s.procs[p := Process(Local(namespace, 0, map[], {}, Idle), false)],
              namespaces := s.namespaces + {namespace})
    case Crash(p) => s.(procs := s.procs - {p})
    case Begin(p, payload) =>
      if p in s.procs && s.procs[p].local.call.Idle? then NextBegin(s, p, payload) else s
    case Step(p) =>
      if p in s.procs && !s.procs[p].local.call.Idle? then NextStep(s, p) else s
    case Resave(w, state) =>
      if w !in s.store.workflows then s
      else
        var d := s.store.workflows[w];
        s.(store := s.store.(workflows := s.store.workflows[w := WorkflowDoc(d.changeId, state, d.revision + 1)]))
  }

  function Exec(es: seq<Event>): World {
    if es == [] then World(Store(map[], map[], map[]), map[], {}, {}, [])
    else Next(Exec(es[..|es| - 1]), es[|es| - 1])
  }

  // ------------------------------------------------------- the invariant

  /** The workflow document, and the input, of `w` exist and carry `changeId`. */
  predicate HasDocument(st: Store, w: string, changeId: string) {
    w in st.workflows && st.workflows[w].changeId == changeId
  }

  predicate HasInput(st: Store, w: string, changeId: string) {
    w in st.inputs && st.inputs[w].changeId == changeId
  }

  predicate OwnerIsWritten(st: Store, key: string)
    requires key in st.claims
  {
    var w := st.claims[key];
    && w in st.workflows && w in st.inputs
    && Key(st.workflows[w].changeId) == key && Key(st.inputs[w].changeId) == key
  }

  /** The call has built its workflow and has not answered yet. */
  predicate Writing(c: Call) { c.Saving? || c.Noting? || c.Claiming? || c.Contested? }

  predicate Unclaimed(st: Store, w: string) {
    forall key :: key in st.claims ==> st.claims[key] != w
  }

  /** Ids: the namespace is taken and every id it will mint is still unused. */
  ghost predicate IdsOk(s: World, l: Local) {
    && l.namespace in s.namespaces
    && (forall n :: n > l.sequence ==> MintWorkflowId(l.namespace, n) !in s.minted)
  }

  /** Cache: an id the store could hold is cached only once the store holds it. */
  predicate CacheOk(st: Store, l: Local) {
    forall id :: id in l.known && Safe(Key(id)) ==> Key(id) in st.claims
  }

  /** Lookup: a call on its way to an answer knows the owner; a late call is on its way to one. */
  predicate LookupOk(st: Store, c: Call, late: bool)
    requires !c.Idle?
  {
    var key := LookupKey(c.payload.changeId);
    && !Blank(c.payload.changeId) && Safe(key)
    && (late ==> key in st.claims && (c.Looking? || c.Resolving?))
    && (c.Resolving? ==> key in st.claims && c.existing == st.claims[key])
  }

  /** Writing: the id being written is this call's own and unclaimed, and earlier writes stand. */
  ghost predicate WritingOk(s: World, l: Local) {
    var c := l.call;
    && (Writing(c) ==> c.w == MintWorkflowId(l.namespace, l.sequence) && c.w in s.minted && Unclaimed(s.store, c.w))
    && (c.Noting? || c.Claiming? || c.Contested? ==> HasDocument(s.store, c.w, c.payload.changeId))
    && (c.Claiming? || c.Contested? ==> HasInput(s.store, c.w, c.payload.changeId))
    && (c.Contested? ==> Key(c.payload.changeId) in s.store.claims)
  }

  /** What a process must satisfy against the shared store. */
  ghost predicate ProcessOk(s: World, p: nat)
    requires p in s.procs
  {
    var Process(l, late) := s.procs[p];
    && IdsOk(s, l) && CacheOk(s.store, l) && WritingOk(s, l)
    && (!l.call.Idle? ==> LookupOk(s.store, l.call, late))
  }

  /** What an answer promises about the store from then on. */
  predicate ReportOk(st: Store, r: Report) {
    && r.answer != Raised(WorkflowNotFound)
    && (r.answer.Returned? ==>
          LookupKey(r.changeId) in st.claims && st.claims[LookupKey(r.changeId)] == r.answer.workflow)
    && (r.late && Safe(LookupKey(r.changeId)) && !Blank(r.changeId) ==> r.answer.Returned? && !r.answer.isNew)
  }

  predicate IsNew(r: Report) { r.answer.Returned? && r.answer.isNew }

  ghost predicate ClaimsOk(s: World) {
    forall key :: key in s.store.claims ==> OwnerIsWritten(s.store, key) && s.store.claims[key] in s.minted
  }

  ghost predicate NamespacesOk(s: World) {
    && (forall ns, n :: MintWorkflowId(ns, n) in s.minted ==> ns in s.namespaces)
    && (forall p, q :: p in s.procs && q in s.procs && p != q ==>
          s.procs[p].local.namespace != s.procs[q].local.namespace)
  }

  ghost predicate LogOk(s: World) {
    && (forall i :: 0 <= i < |s.log| ==> ReportOk(s.store, s.log[i]))
    && (forall i, j :: 0 <= i < j < |s.log| && IsNew(s.log[i]) && IsNew(s.log[j]) ==>
          LookupKey(s.log[i].changeId) != LookupKey(s.log[j].changeId))
  }

  ghost predicate Inv(s: World) {
    && ClaimsOk(s) && NamespacesOk(s) && LogOk(s)
    && (forall p :: p in s.procs ==> ProcessOk(s, p))
  }

  lemma MintDiffers(ns: string, n: nat, ns': string, n': nat)
    requires ns != ns' || n != n'
    ensures MintWorkflowId(ns, n) != MintWorkflowId(ns', n')
  {
    if MintWorkflowId(ns, n) == MintWorkflowId(ns', n') {
      MintInjective(ns, n, ns', n');
    }
  }

  /** A key that passes the allow-list is the key its change is looked up under. */
  lemma SafeKeyIsLookupKey(changeId: string)
    ensures Safe(Key(changeId)) ==> LookupKey(changeId) == Key(changeId)
  {
    if Strip(changeId) != changeId {
      SpacedKeyUnsafe("change-", changeId);
    }
  }

  /** A cached id never points anywhere but to the durable owner. */
  lemma ExistingIsOwner(s: World, p: nat)
    requires Inv(s) && p in s.procs && s.procs[p].local.call.Looking?
    ensures var l := s.procs[p].local;
            var key := LookupKey(l.call.payload.changeId);
            && (Existing(s.store, l, l.call.payload.changeId).Some? <==> key in s.store.claims)
            && (key in s.store.claims ==> Existing(s.store, l, l.call.payload.changeId) == Some(s.store.claims[key]))
  {
    assert ProcessOk(s, p);
  }

  /** What a step of `p` may change, seen from anyone else: claims and minted ids only grow, by ids
      of `p`'s own namespace, and no document but those of `p`'s own ids is touched. */
  ghost predicate OnlyOwn(s: World, t: World, ns: string) {
    && s.namespaces <= t.namespaces && s.minted <= t.minted
    && (forall key :: key in s.store.claims ==> key in t.store.claims && t.store.claims[key] == s.store.claims[key])
    && (forall key :: key in t.store.claims && key !in s.store.claims ==> Own(t.store.claims[key], ns))
    && (forall w :: w in t.minted && w !in s.minted ==> Own(w, ns))
    && (forall w, id :: !Own(w, ns) && HasDocument(s.store, w, id) ==> HasDocument(t.store, w, id))
    && (forall w, id :: !Own(w, ns) && HasInput(s.store, w, id) ==> HasInput(t.store, w, id))
  }

  ghost predicate Own(w: string, ns: string) {
    exists n: nat :: w == MintWorkflowId(ns, n)
  }

  lemma OwnDiffers(ns: string, n: nat, ns': string)
    requires ns != ns'
    ensures !Own(MintWorkflowId(ns, n), ns')
  {
    if Own(MintWorkflowId(ns, n), ns') {
      var k: nat :| MintWorkflowId(ns, n) == MintWorkflowId(ns', k);
      MintInjective(ns, n, ns', k);
    }
  }

  /** So every other process keeps what it relies on. */
  lemma OthersKept(s: World, t: World, p: nat, q: nat)
    requires Inv(s) && p in s.procs && q in s.procs && q != p && q in t.procs && t.procs[q] == s.procs[q]
    requires OnlyOwn(s, t, s.procs[p].local.namespace)
    ensures ProcessOk(t, q)
  {
    hide MintWorkflowId, Safe, Blank;
    var ns := s.procs[p].local.namespace;
    var l := s.procs[q].local;
    assert ProcessOk(s, q);
    forall n | n > l.sequence ensures MintWorkflowId(l.namespace, n) !in t.minted {
      OwnDiffers(l.namespace, n, ns);
    }
    OwnDiffers(l.namespace, l.sequence, ns);
  }

  // ------------------------------------------------------- one step of a process

  lemma StepIsOwn(s: World, p: nat)
    requires p in s.procs && !s.procs[p].local.call.Idle? && WritingOk(s, s.procs[p].local)
    ensures OnlyOwn(s, NextStep(s, p), s.procs[p].local.namespace)
  {
    hide MintWorkflowId, Safe, Blank, Existing;
    var l := s.procs[p].local;
    assert Writing(l.call) ==> Own(l.call.w, l.namespace);
    assert Own(MintWorkflowId(l.namespace, l.sequence + 1), l.namespace);
  }

  lemma StepKeepsIds(s: World, p: nat)
    requires p in s.procs && !s.procs[p].local.call.Idle? && IdsOk(s, s.procs[p].local)
    ensures IdsOk(NextStep(s, p), NextStep(s, p).procs[p].local)
  {
    hide MintWorkflowId, Safe, Blank, Existing;
    var l := s.procs[p].local;
    forall n | n > l.sequence + 1 ensures MintWorkflowId(l.namespace, n) != MintWorkflowId(l.namespace, l.sequence + 1) {
      MintDiffers(l.namespace, n, l.namespace, l.sequence + 1);
    }
  }

  lemma StepKeepsCache(s: World, p: nat)
    requires p in s.procs && !s.procs[p].local.call.Idle? && CacheOk(s.store, s.procs[p].local)
    ensures CacheOk(NextStep(s, p).store, NextStep(s, p).procs[p].local)
  {
    hide MintWorkflowId, Safe, Blank, Existing;
  }

  lemma StepKeepsLookup(s: World, p: nat)
    requires Inv(s) && p in s.procs && !s.procs[p].local.call.Idle?
    ensures var Process(l, late) := NextStep(s, p).procs[p];
            !l.call.Idle? ==> LookupOk(NextStep(s, p).store, l.call, late)
  {
    assert ProcessOk(s, p);
    if s.procs[p].local.call.Looking? {
      ExistingIsOwner(s, p);
    }
    hide MintWorkflowId, Safe, Blank, Existing;
  }

  lemma StepKeepsWriting(s: World, p: nat)
    requires p in s.procs && !s.procs[p].local.call.Idle? && !s.procs[p].local.call.Building?
    requires WritingOk(s, s.procs[p].local)
    ensures WritingOk(NextStep(s, p), NextStep(s, p).procs[p].local)
  {
    hide MintWorkflowId, Safe, Blank, Existing, LookupKey;
  }

  lemma BuildStartsWriting(s: World, p: nat)
    requires p in s.procs && s.procs[p].local.call.Building? && IdsOk(s, s.procs[p].local)
    requires forall key :: key in s.store.claims ==> s.store.claims[key] in s.minted
    ensures WritingOk(NextStep(s, p), NextStep(s, p).procs[p].local)
  {
    hide MintWorkflowId, Safe, Blank, Existing, LookupKey;
  }

  lemma StepKeepsProcess(s: World, p: nat)
    requires Inv(s) && p in s.procs && !s.procs[p].local.call.Idle?
    ensures ProcessOk(NextStep(s, p), p)
    ensures OnlyOwn(s, NextStep(s, p), s.procs[p].local.namespace)
  {
    assert ProcessOk(s, p);
    StepKeepsLookup(s, p);
    hide NextStep;
    StepIsOwn(s, p);
    StepKeepsIds(s, p);
    StepKeepsCache(s, p);
    if s.procs[p].local.call.Building? {
      BuildStartsWriting(s, p);
    } else {
      StepKeepsWriting(s, p);
    }
  }

  lemma StepKeepsClaims(s: World, p: nat)
    requires ClaimsOk(s) && p in s.procs && !s.procs[p].local.call.Idle? && WritingOk(s, s.procs[p].local)
    ensures ClaimsOk(NextStep(s, p))
  {
    hide MintWorkflowId, Safe, Blank, Existing, LookupKey;
    var l, t := s.procs[p].local, NextStep(s, p);
    forall key | key in t.store.claims ensures OwnerIsWritten(t.store, key) && t.store.claims[key] in t.minted {
      if key in s.store.claims {
        assert OwnerIsWritten(s.store, key);
      }
    }
  }

  lemma StepKeepsNamespaces(s: World, p: nat)
    requires NamespacesOk(s) && p in s.procs && !s.procs[p].local.call.Idle? && IdsOk(s, s.procs[p].local)
    ensures NamespacesOk(NextStep(s, p))
  {
    hide Safe, Blank, Existing, LookupKey;
    var l, t := s.procs[p].local, NextStep(s, p);
    forall ns, n | MintWorkflowId(ns, n) in t.minted ensures ns in t.namespaces {
      if MintWorkflowId(ns, n) !in s.minted {
        MintInjective(ns, n, l.namespace, l.sequence + 1);
      }
    }
  }

  /** The answer a step gives, judged against the store the step leaves behind. */
  lemma StepAnswers(s: World, p: nat)
    requires Inv(s) && p in s.procs && !s.procs[p].local.call.Idle?
    ensures var t, c := NextStep(s, p), s.procs[p].local.call;
            t.log != s.log ==>
              && |t.log| == |s.log| + 1 && t.log[..|s.log|] == s.log
              && t.log[|s.log|].changeId == c.payload.changeId
              && ReportOk(t.store, t.log[|s.log|])
              && (IsNew(t.log[|s.log|]) ==> LookupKey(c.payload.changeId) !in s.store.claims)
  {
    assert ProcessOk(s, p);
    var c := s.procs[p].local.call;
    if c.Looking? {
      ExistingIsOwner(s, p);
    } else if c.Resolving? {
      assert OwnerIsWritten(s.store, LookupKey(c.payload.changeId));
    } else if c.Claiming? || c.Contested? {
      SafeKeyIsLookupKey(c.payload.changeId);
    }
    hide MintWorkflowId, Safe, Blank, Existing, LookupKey;
  }

  lemma LogGrows(s: World, t: World, ns: string)
    requires LogOk(s) && OnlyOwn(s, t, ns)
    requires t.log == s.log || (|t.log| == |s.log| + 1 && t.log[..|s.log|] == s.log)
    requires t.log != s.log ==> ReportOk(t.store, t.log[|s.log|])
    requires t.log != s.log && IsNew(t.log[|s.log|]) ==> LookupKey(t.log[|s.log|].changeId) !in s.store.claims
    ensures LogOk(t)
  {
    hide LookupKey, Safe, Blank;
    forall i | 0 <= i < |s.log| ensures t.log[i] == s.log[i] && ReportOk(t.store, s.log[i]) {
      assert t.log[..|s.log|][i] == s.log[i];
      assert ReportOk(s.store, s.log[i]);
    }
  }

  lemma StepKeepsInv(s: World, p: nat)
    requires Inv(s) && p in s.procs && !s.procs[p].local.call.Idle?
    ensures Inv(NextStep(s, p))
  {
    var t := NextStep(s, p);
    assert t.procs.Keys == s.procs.Keys && forall q :: q in s.procs && q != p ==> t.procs[q] == s.procs[q];
    hide NextStep;
    assert ProcessOk(s, p);
    StepKeepsProcess(s, p);
    StepKeepsClaims(s, p);
    StepKeepsNamespaces(s, p);
    StepAnswers(s, p);
    LogGrows(s, t, s.procs[p].local.namespace);
    forall q | q in t.procs ensures ProcessOk(t, q) {
      if q != p {
        OthersKept(s, t, p, q);
      }
    }
  }

  // ------------------------------------------------------- the other events

  /** Beginning a call touches no document, and answers at once only by refusing. */
  lemma BeginAnswers(s: World, p: nat, payload: Payload)
    requires p in s.procs && s.procs[p].local.call.Idle?
    ensures var t := NextBegin(s, p, payload);
            && t.store == s.store && t.minted == s.minted && t.namespaces == s.namespaces && t.procs.Keys == s.procs.Keys
            && (forall q :: q in s.procs && q != p ==> t.procs[q] == s.procs[q])
            && t.procs[p].local.(call := Idle) == s.procs[p].local
            && (t.log == s.log || (|t.log| == |s.log| + 1 && t.log[..|s.log|] == s.log
                                   && ReportOk(t.store, t.log[|s.log|]) && !IsNew(t.log[|s.log|])))
  {
    hide Existing;
  }

  lemma BeginKeepsLookup(s: World, p: nat, payload: Payload)
    requires p in s.procs && s.procs[p].local.call.Idle?
    ensures var Process(l, late) := NextBegin(s, p, payload).procs[p];
            !Writing(l.call) && (!l.call.Idle? ==> LookupOk(s.store, l.call, late))
  {
    hide Safe, Blank, Existing;
  }

  lemma BeginKeepsLog(s: World, p: nat, payload: Payload)
    requires LogOk(s) && p in s.procs && s.procs[p].local.call.Idle?
    ensures LogOk(NextBegin(s, p, payload))
  {
    var t := NextBegin(s, p, payload);
    BeginAnswers(s, p, payload);
    hide NextBegin, LookupKey, ReportOk;
    forall i | 0 <= i < |s.log| ensures t.log[i] == s.log[i] {
      assert t.log[..|s.log|][i] == s.log[i];
    }
  }

  lemma BeginKeepsProcess(s: World, p: nat, payload: Payload, q: nat)
    requires p in s.procs && s.procs[p].local.call.Idle? && q in s.procs && ProcessOk(s, q)
    ensures q in NextBegin(s, p, payload).procs && ProcessOk(NextBegin(s, p, payload), q)
  {
    BeginAnswers(s, p, payload);
    BeginKeepsLookup(s, p, payload);
    hide NextBegin, MintWorkflowId, LookupKey, Safe, Blank, ReportOk, LookupOk;
  }

  lemma BeginKeepsInv(s: World, p: nat, payload: Payload)
    requires Inv(s) && p in s.procs && s.procs[p].local.call.Idle?
    ensures Inv(NextBegin(s, p, payload))
  {
    var t := NextBegin(s, p, payload);
    BeginAnswers(s, p, payload);
    BeginKeepsLog(s, p, payload);
    hide NextBegin, MintWorkflowId, LogOk, ProcessOk, OwnerIsWritten;
    assert NamespacesOk(t);
    forall q | q in t.procs ensures ProcessOk(t, q) {
      BeginKeepsProcess(s, p, payload, q);
    }
    forall key | key in t.store.claims ensures OwnerIsWritten(t.store, key) {
      assert OwnerIsWritten(s.store, key);
    }
  }

  lemma ResaveKeepsInv(s: World, w: string, state: string)
    requires Inv(s)
    ensures Inv(Next(s, Resave(w, state)))
  {
    hide MintWorkflowId, Safe, Blank, Existing, LookupKey;
    var t := Next(s, Resave(w, state));
    forall q | q in t.procs ensures ProcessOk(t, q) {
      assert ProcessOk(s, q);
    }
    forall key | key in t.store.claims ensures OwnerIsWritten(t.store, key) {
      assert OwnerIsWritten(s.store, key);
    }
    assert forall i :: 0 <= i < |s.log| ==> ReportOk(s.store, s.log[i]);
  }

  lemma BootKeepsInv(s: World, p: nat, namespace: string)
    requires Inv(s)
    ensures Inv(Next(s, Boot(p, namespace)))
  {
    hide MintWorkflowId, Safe, Blank, Existing, LookupKey;
    var t := Next(s, Boot(p, namespace));
    forall q | q in t.procs ensures ProcessOk(t, q) {
      assert q in s.procs ==> ProcessOk(s, q);
    }
  }

  lemma NextKeepsInv(s: World, e: Event)
    requires Inv(s)
    ensures Inv(Next(s, e))
  {
    hide NextBegin, NextStep;
    match e
    case Boot(p, namespace) => BootKeepsInv(s, p, namespace);
    case Crash(p) =>
      forall q | q in Next(s, e).procs ensures ProcessOk(Next(s, e), q) {
        assert ProcessOk(s, q);
      }
    case Begin(p, payload) =>
      if p in s.procs && s.procs[p].local.call.Idle? {
        BeginKeepsInv(s, p, payload);
      }
    case Step(p) =>
      if p in s.procs && !s.procs[p].local.call.Idle? {
        StepKeepsInv(s, p);
      }
    case Resave(w, state) => ResaveKeepsInv(s, w, state);
  }

  lemma {:induction false} RunKeepsInv(es: seq<Event>)
    ensures Inv(Exec(es))
  {
    if es != [] {
      RunKeepsInv(es[..|es| - 1]);
      NextKeepsInv(Exec(es[..|es| - 1]), es[|es| - 1]);
    }
  }

  // ------------------------------------------------------- the theorems

  /** All calls that returned normally for one change returned the same workflow, its durable owner,
      and at most one of them reported a new logical change. */
  lemma ExactlyOnce(es: seq<Event>, i: nat, j: nat)
    requires i < j < |Exec(es).log|
    requires Exec(es).log[i].answer.Returned? && Exec(es).log[j].answer.Returned?
    requires LookupKey(Exec(es).log[i].changeId) == LookupKey(Exec(es).log[j].changeId)
    ensures Exec(es).log[i].answer.workflow == Exec(es).log[j].answer.workflow
    ensures !(Exec(es).log[i].answer.isNew && Exec(es).log[j].answer.isNew)
    ensures OwnerOf(Exec(es).store, LookupKey(Exec(es).log[i].changeId)) == Some(Exec(es).log[i].answer.workflow)
  {
    RunKeepsInv(es);
    hide Exec, LookupKey;
    assert ReportOk(Exec(es).store, Exec(es).log[i]) && ReportOk(Exec(es).store, Exec(es).log[j]);
  }

  /** By change: two calls that returned name one workflow exactly when they delivered one change, outer white space
      aside, and the workflow a call returns has a document and an input of the change delivered. */
  lemma OneWorkflowPerChange(es: seq<Event>, i: nat, j: nat)
    requires i < j < |Exec(es).log|
    requires Exec(es).log[i].answer.Returned? && Exec(es).log[j].answer.Returned?
    ensures Exec(es).log[i].answer.workflow == Exec(es).log[j].answer.workflow
            <==> Strip(Exec(es).log[i].changeId) == Strip(Exec(es).log[j].changeId)
  {
    ReturnedIsWritten(es, i);
    ReturnedIsWritten(es, j);
    hide Exec, Strip;
    if Strip(Exec(es).log[i].changeId) == Strip(Exec(es).log[j].changeId) {
      ExactlyOnce(es, i, j);
    }
  }

  lemma ReturnedIsWritten(es: seq<Event>, i: nat)
    requires i < |Exec(es).log| && Exec(es).log[i].answer.Returned?
    ensures var st, r := Exec(es).store, Exec(es).log[i]; var w := r.answer.workflow;
            && w in st.workflows && st.workflows[w].changeId == Strip(r.changeId)
            && w in st.inputs && st.inputs[w].changeId == Strip(r.changeId)
  {
    RunKeepsInv(es);
    var s := Exec(es);
    hide Exec, Strip, Safe, Blank;
    var r := s.log[i];
    assert ReportOk(s.store, r);
    var key, w := LookupKey(r.changeId), r.answer.workflow;
    assert OwnerIsWritten(s.store, key);
    KeyInjective(s.store.workflows[w].changeId, Strip(r.changeId));
    KeyInjective(s.store.inputs[w].changeId, Strip(r.changeId));
  }

  /** A call that began after the claim was stored returns the owner, and on its way there it never
      reaches a step that writes, whatever its process has cached. */
  lemma LateCallsResolve(es: seq<Event>, i: nat)
    requires i < |Exec(es).log| && Exec(es).log[i].late
    requires !Blank(Exec(es).log[i].changeId) && Safe(LookupKey(Exec(es).log[i].changeId))
    ensures var s, r := Exec(es), Exec(es).log[i];
            LookupKey(r.changeId) in s.store.claims
            && r.answer == Returned(s.store.claims[LookupKey(r.changeId)], false)
  {
    RunKeepsInv(es);
    hide Exec, LookupKey;
    assert ReportOk(Exec(es).store, Exec(es).log[i]);
  }

  lemma LateCallsWriteNothing(es: seq<Event>, p: nat)
    requires p in Exec(es).procs && !Exec(es).procs[p].local.call.Idle? && Exec(es).procs[p].late
    ensures StepCall(Exec(es).store, Exec(es).procs[p].local).0 == Exec(es).store
    ensures Exec(es).procs[p].local.call.Looking? || Exec(es).procs[p].local.call.Resolving?
  {
    RunKeepsInv(es);
    assert ProcessOk(Exec(es), p);
  }

  /** Crash-safe write order: at every step of every run the owner of a change has its workflow
      document and its stored input, both carrying that change. */
  lemma OwnerAlwaysWritten(es: seq<Event>, changeId: string)
    requires "change-" + changeId in Exec(es).store.claims
    ensures var st := Exec(es).store; var w := st.claims["change-" + changeId];
            && w in st.workflows && st.workflows[w].changeId == changeId
            && w in st.inputs && st.inputs[w].changeId == changeId
  {
    RunKeepsInv(es);
    var st := Exec(es).store;
    hide Exec;
    KeyInjective(changeId, changeId);
    var w := st.claims[Key(changeId)];
    assert OwnerIsWritten(st, Key(changeId));
    KeyInjective(st.workflows[w].changeId, changeId);
    KeyInjective(st.inputs[w].changeId, changeId);
  }

  /** So resolving a duplicate never ends in "no such workflow". */
  lemma DuplicatesAlwaysResolve(es: seq<Event>, i: nat)
    requires i < |Exec(es).log|
    ensures Exec(es).log[i].answer != Raised(WorkflowNotFound)
  {
    RunKeepsInv(es);
    hide Exec;
    assert ReportOk(Exec(es).store, Exec(es).log[i]);
  }

  // ------------------------------------------------------- the runtime's method is one such run

  /** Process `p` takes all the steps of its call while nobody else moves. */
  function RunOut(s: World, p: nat): (t: World)
    requires p in s.procs
    ensures p in t.procs
    decreases Rank(s.procs[p].local.call)
  {
    if s.procs[p].local.call.Idle? then s else RunOut(NextStep(s, p), p)
  }

  lemma {:induction false} RunOutCompletes(s: World, p: nat)
    requires p in s.procs && !s.procs[p].local.call.Idle?
    ensures var (store, l, answer) := Complete(s.store, s.procs[p].local);
            var t := RunOut(s, p);
            && t.store == store && t.procs[p].local == l
            && t.log == s.log + [Report(s.procs[p].local.call.payload.changeId, s.procs[p].late, answer)]
    decreases Rank(s.procs[p].local.call)
  {
    hide MintWorkflowId, Safe, Existing;
    var t := NextStep(s, p);
    if !t.procs[p].local.call.Idle? {
      RunOutCompletes(t, p);
    }
  }

  /** `AcceptOp`, which `ApiRuntime.AcceptChange` is proved to compute, is what an undisturbed call
      does in a run: same store, same local state, same answer. */
  lemma SoloCallIsAccept(s: World, p: nat, payload: Payload)
    requires p in s.procs && s.procs[p].local.call.Idle?
    ensures var (store, l, answer) := AcceptOp(s.store, s.procs[p].local, payload);
            var t := RunOut(NextBegin(s, p, payload), p);
            && t.store == store && t.procs[p].local == l
            && t.log == s.log + [Report(payload.changeId, LookupKey(payload.changeId) in s.store.claims, answer)]
  {
    var t := NextBegin(s, p, payload);
    if !t.procs[p].local.call.Idle? {
      RunOutCompletes(t, p);
    }
  }
}
