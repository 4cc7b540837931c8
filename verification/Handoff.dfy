/** Process handoff: what one process persists of a session, another rehydrates over a session built
    from the same source change. */
module Handoff {
  import opened Basics
  import opened Serialization
  import opened ResumeSnapshot
  import StateMachine

  // ------------------------------------------------------- the proof context

  datatype Manifest = Manifest(
    sourceRef: string,
    affectedRef: string,
    remediation: Remediation,
    deliveryRef: string,
    events: seq<VerificationEvent>,
    transitionRefs: seq<string>,
    rejectedRefs: seq<string>,
    sourceHash: string
  )

  datatype ProofContext = ProofContext(
    workflow: Workflow,
    change: Json,
    impact: Impact,
    remediation: Remediation,
    manifest: Manifest,
    events: seq<VerificationEvent>,
    history: seq<StateMachine.State>,
    receiptRef: string
  )

  datatype Gathered = Absent | ArtifactMissing | Gathered(context: ProofContext)

  function AffectedRef(s: Session): Option<string> {
    if s.qualifiedArtifactId.None? || s.qualifiedArtifactId.value == "" then Some("")
    else if s.qualifiedArtifactId.value in s.artifacts then Some(s.artifacts[s.qualifiedArtifactId.value].contentRef)
    else None
  }

  /** The proof inputs of a session: absent while a structural input is missing. */
  function ProofContextOf(s: Session): Gathered {
    if s.impact.None? || s.remediation.None? || s.receiptRef.None? || s.receiptRef.value == "" then Absent
    else if AffectedRef(s).None? then ArtifactMissing
    else
      Gathered(ProofContext(
        s.workflow, s.source.change, s.impact.value, s.remediation.value,
        Manifest(s.source.contentRef, AffectedRef(s).value, s.remediation.value, s.receiptRef.value, s.events,
                 Each(s.history, StateMachine.Name), s.rejectedRefs, s.source.contentHash),
        s.events, s.history, s.receiptRef.value))
  }

  /** The artifact that qualified can be read, or none did. */
  predicate AffectedReadable(s: Session) {
    Given(s.qualifiedArtifactId) ==> s.qualifiedArtifactId.value in s.artifacts
  }

  /** A name that is there and not empty. */
  predicate Given(name: Option<string>) { name.Some? && |name.value| > 0 }

  /** A context is gathered exactly when impact, remediation and a receipt are there and the affected artifact can
      be read; a missing artifact is noticed only once those three are. */
  lemma GatheredExactly(s: Session)
    ensures var inputs := s.impact.Some? && s.remediation.Some? && Given(s.receiptRef);
            && (ProofContextOf(s).Gathered? <==> inputs && AffectedReadable(s))
            && (ProofContextOf(s).ArtifactMissing? <==> inputs && !AffectedReadable(s))
            && (ProofContextOf(s).Absent? <==> !inputs)
  {
  }

  /** What a gathered context carries: the change and its hash from the source, the content ref of the artifact that
      qualified, and everything else from the session, complete and in order. */
  lemma ContextCarries(s: Session)
    requires ProofContextOf(s).Gathered?
    ensures var c := ProofContextOf(s).context; var m := c.manifest;
            && m.sourceRef == s.source.contentRef && m.sourceHash == s.source.contentHash && c.change == s.source.change
            && (Given(s.qualifiedArtifactId) ==> m.affectedRef == s.artifacts[s.qualifiedArtifactId.value].contentRef)
            && (!Given(s.qualifiedArtifactId) ==> m.affectedRef == "")
            && c.workflow == s.workflow && Some(c.impact) == s.impact
            && Some(c.remediation) == s.remediation && Some(m.remediation) == s.remediation
            && Some(c.receiptRef) == s.receiptRef && Some(m.deliveryRef) == s.receiptRef
            && c.events == s.events && m.events == s.events && m.rejectedRefs == s.rejectedRefs
            && c.history == s.history && |m.transitionRefs| == |s.history|
            && (forall k :: 0 <= k < |s.history| ==> StateMachine.Parse(m.transitionRefs[k]) == Some(s.history[k]))
  {
    forall k | 0 <= k < |s.history| ensures StateMachine.Parse(StateMachine.Name(s.history[k])) == Some(s.history[k]) {
      StateMachine.ParseName(s.history[k]);
    }
    hide StateMachine.Name, StateMachine.Parse;
  }

  /** Another content of the affected artifact moves the affected ref and nothing else. */
  lemma NewContentMovesAffectedOnly(s: Session, content: Artifact)
    requires ProofContextOf(s).Gathered? && Given(s.qualifiedArtifactId)
    ensures var t := s.(artifacts := s.artifacts[s.qualifiedArtifactId.value := content]);
            var c := ProofContextOf(s).context;
            ProofContextOf(t) == Gathered(c.(manifest := c.manifest.(affectedRef := content.contentRef)))
  {
    hide Each;
  }

  // ------------------------------------------------------- persisting and rehydrating

  /** The durable documents of one workflow. */
  datatype Records = Records(
    workflow: Option<map<string, Json>>,
    actions: map<string, map<string, Json>>,
    snapshot: Option<SnapshotDoc>
  )

  function EncodeLedger(m: Model<Action>, ledger: map<string, Action>): map<string, map<string, Json>> {
    map id | id in ledger :: EncodeAction(m, ledger[id])
  }

  /** What persisting a session leaves in the store: earlier ledger documents stay unless rewritten. */
  ghost function Persisted(ms: Models, s: Session, before: Records, revision: int): Records {
    Records(Some(EncodeWorkflow(ms.workflow, s.workflow, Each(s.history, StateMachine.Name), revision)),
            before.actions + EncodeLedger(ms.action, s.ledger),
            Some(Project(ms, s)))
  }

  function ReadLedger(m: Model<Action>, documents: map<string, map<string, Json>>): Option<map<string, Action>> {
    if exists id :: id in documents && DecodeWith(m, documents[id], "action").Err? then None
    else Some(map id | id in documents :: DecodeWith(m, documents[id], "action").value)
  }

  /** Rebuilding a session: the base is what the source change gives, the records overwrite it. A ledger
      document lies under its action id. */
  function Rehydrate(ms: Models, records: Records, base: Session): Result<Session, Failure> {
    if records.workflow.None? then Err(NoRecord)
    else
      match DecodeWorkflowRecord(ms.workflow, ms.conversions, records.workflow.value)
      case Err(e) => Err(MissingRecord(e))
      case Ok(record) =>
        var history := ReadAll(record.history, StateMachine.Parse);
        var ledger := ReadLedger(ms.action, records.actions);
        if history.None? || ledger.None? then Err(Unreadable)
        else
          var s := base.(workflow := record.workflow, history := history.value, ledger := base.ledger + ledger.value);
          if records.snapshot.None? then Ok(s) else Restore(ms, s, records.snapshot.value)
  }

  /** The documents `done` are reinstated in `restored`, over what `ledger` had. */
  ghost predicate Reinstated(m: Model<Action>, documents: map<string, map<string, Json>>, done: set<string>,
                             ledger: map<string, Action>, restored: map<string, Action>)
    requires done <= documents.Keys
  {
    && restored.Keys == ledger.Keys + done
    && (forall id :: id in done ==> DecodeWith(m, documents[id], "action") == Ok(restored[id]))
    && (forall id :: id in restored && id !in done ==> restored[id] == ledger[id])
  }

  lemma AllReinstated(m: Model<Action>, documents: map<string, map<string, Json>>, ledger: map<string, Action>,
                      restored: map<string, Action>)
    requires Reinstated(m, documents, documents.Keys, ledger, restored)
    ensures ReadLedger(m, documents).Some? && restored == ledger + ReadLedger(m, documents).value
  {
    hide DecodeWith;
    assert forall id :: id in documents ==> DecodeWith(m, documents[id], "action") == Ok(restored[id]);
  }

  lemma NoneReinstated(m: Model<Action>, documents: map<string, map<string, Json>>, ledger: map<string, Action>)
    ensures Reinstated(m, documents, {}, ledger, ledger)
  {
  }

  lemma OneMoreReinstated(m: Model<Action>, documents: map<string, map<string, Json>>, done: set<string>,
                          ledger: map<string, Action>, restored: map<string, Action>, id: string)
    requires done <= documents.Keys && Reinstated(m, documents, done, ledger, restored)
    requires id in documents && DecodeWith(m, documents[id], "action").Ok?
    ensures Reinstated(m, documents, done + {id}, ledger, restored[id := DecodeWith(m, documents[id], "action").value])
  {
    hide DecodeWith;
  }

  lemma UnreadableLedger(m: Model<Action>, documents: map<string, map<string, Json>>, id: string)
    requires id in documents && DecodeWith(m, documents[id], "action").Err?
    ensures ReadLedger(m, documents).None?
  {
    hide DecodeWith;
  }

  /** Reinstates the stored actions in a ledger, one document after another. */
  method RestoreLedger(m: Model<Action>, documents: map<string, map<string, Json>>, ledger: map<string, Action>)
    returns (r: Option<map<string, Action>>)
    ensures ReadLedger(m, documents).None? ==> r == None
    ensures ReadLedger(m, documents).Some? ==> r == Some(ledger + ReadLedger(m, documents).value)
  {
    hide DecodeWith, ReadLedger, Reinstated;
    var restored := ledger;
    var left := documents.Keys;
    NoneReinstated(m, documents, ledger);
    assert documents.Keys - left == {};
    while left != {}
      invariant left <= documents.Keys
      invariant Reinstated(m, documents, documents.Keys - left, ledger, restored)
      decreases |left|
    {
      var id :| id in left;
      var action := DecodeWith(m, documents[id], "action");
      if action.Err? {
        UnreadableLedger(m, documents, id);
        return None;
      }
      OneMoreReinstated(m, documents, documents.Keys - left, ledger, restored, id);
      restored := restored[id := action.value];
      assert documents.Keys - (left - {id}) == (documents.Keys - left) + {id};
      left := left - {id};
    }
    assert documents.Keys - left == documents.Keys;
    AllReinstated(m, documents, ledger, restored);
    return Some(restored);
  }

  /** `_rehydrate`, step by step on a live session. */
  method RehydrateSession(ms: Models, records: Records, base: Session) returns (r: Result<Session, Failure>)
    ensures r == Rehydrate(ms, records, base)
  {
    hide DecodeWorkflowRecord, ReadAll, ReadLedger, Restore;
    if records.workflow.None? {
      return Err(NoRecord);
    }
    var record := DecodeWorkflowRecord(ms.workflow, ms.conversions, records.workflow.value);
    if record.Err? {
      return Err(MissingRecord(record.error));
    }
    var session := new LiveSession(base);
    var history := ReadAll(record.value.history, StateMachine.Parse);
    if history.None? {
      return Err(Unreadable);
    }
    session.state := session.state.(workflow := record.value.workflow, history := history.value);
    var ledger := RestoreLedger(ms.action, records.actions, session.state.ledger);
    if ledger.None? {
      return Err(Unreadable);
    }
    session.state := session.state.(ledger := ledger.value);
    if records.snapshot.None? {
      return Ok(session.state);
    }
    var applied := session.ApplySnapshot(ms, records.snapshot.value);
    if applied.Err? {
      return Err(applied.error);
    }
    return Ok(session.state);
  }

  /** `base` is a session just built from the source change `source`. */
  predicate BuiltFrom(base: Session, source: Source) {
    base.source == source && base.artifacts == source.catalog && base.delta.None? && base.ledger == map[]
  }

  /** `s` is a session that began that way. Remediation rewrites artifacts of the catalog and adds none. */
  predicate BeganFrom(s: Session, source: Source) {
    s.source == source && s.artifacts.Keys == source.catalog.Keys
  }

  lemma LedgerRoundTrip(m: Model<Action>, ledger: map<string, Action>)
    requires Lawful(m)
    ensures ReadLedger(m, EncodeLedger(m, ledger)) == Some(ledger)
  {
    hide EncodeAction;
    var documents := EncodeLedger(m, ledger);
    forall id | id in documents ensures DecodeWith(m, documents[id], "action") == Ok(ledger[id]) {
      ActionRoundTrip(m, ledger[id]);
    }
    var read := map id | id in documents :: DecodeWith(m, documents[id], "action").value;
    assert read == ledger;
  }

  lemma HistoryRoundTrip(history: seq<StateMachine.State>)
    ensures ReadAll(Each(history, StateMachine.Name), StateMachine.Parse) == Some(history)
  {
    forall s ensures StateMachine.Parse(StateMachine.Name(s)) == Some(s) {
      StateMachine.ParseName(s);
    }
    ReadAllEach(history, StateMachine.Name, StateMachine.Parse);
  }

  /** What rehydrating finds when the last writer was `s`: everything of `s` but what its process kept to
      itself, with the base showing through a missing delta and an empty artifact store. */
  lemma RehydrateGives(ms: Models, s: Session, before: Records, revision: int, base: Session)
    requires Sound(ms) && before.actions.Keys <= s.ledger.Keys && base.ledger == map[]
    ensures Rehydrate(ms, Persisted(ms, s, before, revision), base)
            == Ok(Overlay(base, s).(workflow := s.workflow, history := s.history, ledger := s.ledger))
  {
    hide Project, Restore, EncodeWorkflow, DecodeWorkflowRecord, EncodeLedger, ReadLedger, ReadAll, Each,
         StateMachine.Name, StateMachine.Parse;
    var records := Persisted(ms, s, before, revision);
    WorkflowRoundTrip(ms.workflow, ms.conversions, s.workflow, Each(s.history, StateMachine.Name), revision);
    HistoryRoundTrip(s.history);
    LedgerRoundTrip(ms.action, s.ledger);
    OnlyThisLedger(ms.action, s.ledger, before);
    assert map[] + s.ledger == s.ledger;
    RestoreProjection(ms, base.(workflow := s.workflow, history := s.history, ledger := s.ledger), s);
  }

  /** With parts of the documents missing: no workflow, no session; no snapshot, and only workflow, history and ledger
      come from the store. */
  lemma PartsMissing(ms: Models, s: Session, before: Records, revision: int, base: Session)
    requires Sound(ms) && before.actions.Keys <= s.ledger.Keys && base.ledger == map[]
    ensures var records := Persisted(ms, s, before, revision);
            && Rehydrate(ms, records.(workflow := None), base) == Err(NoRecord)
            && Rehydrate(ms, records.(snapshot := None), base)
               == Ok(base.(workflow := s.workflow, history := s.history, ledger := s.ledger))
  {
    hide Project, Restore, EncodeWorkflow, DecodeWorkflowRecord, EncodeLedger, ReadLedger, ReadAll, Each,
         StateMachine.Name, StateMachine.Parse;
    WorkflowRoundTrip(ms.workflow, ms.conversions, s.workflow, Each(s.history, StateMachine.Name), revision);
    HistoryRoundTrip(s.history);
    LedgerRoundTrip(ms.action, s.ledger);
    OnlyThisLedger(ms.action, s.ledger, before);
    assert map[] + s.ledger == s.ledger;
  }

  lemma OnlyThisLedger(m: Model<Action>, ledger: map<string, Action>, before: Records)
    requires before.actions.Keys <= ledger.Keys
    ensures before.actions + EncodeLedger(m, ledger) == EncodeLedger(m, ledger)
  {
  }

  /** A resumed session is the session that was persisted, its process-local part aside: exactly when it is
      built from the same source change and nothing of the base shows through. */
  lemma HandoffExactly(ms: Models, s: Session, before: Records, revision: int, base: Session)
    requires Sound(ms) && before.actions.Keys <= s.ledger.Keys && base.ledger == map[]
    ensures Rehydrate(ms, Persisted(ms, s, before, revision), base) == Ok(s.(local := base.local))
            <==> && base.source == s.source
                 && (s.delta.Some? || base.delta.None?)
                 && (s.artifacts != map[] || base.artifacts == map[])
  {
    hide Rehydrate, Persisted;
    RehydrateGives(ms, s, before, revision, base);
  }

  /** Handoff preserves the proof inputs, and what the resumed process would persist again is what it read. */
  lemma HandoffPreservesProofInputs(ms: Models, s: Session, before: Records, revision: int, base: Session, source: Source)
    requires Sound(ms) && before.actions.Keys <= s.ledger.Keys
    requires BeganFrom(s, source) && BuiltFrom(base, source)
    ensures var records := Persisted(ms, s, before, revision);
            var r := Rehydrate(ms, records, base);
            && r == Ok(s.(local := base.local))
            && ProofContextOf(r.value) == ProofContextOf(s)
            && Persisted(ms, r.value, records, revision) == records
            && BeganFrom(r.value, source)
  {
    NothingShowsThrough(s, base, source);
    SameProofInputs(s, base.local);
    hide Rehydrate, Persisted, ProofContextOf, BuiltFrom, Sound;
    HandoffExactly(ms, s, before, revision, base);
    PersistAgain(ms, s, before, base.local, revision, revision);
  }

  lemma NothingShowsThrough(s: Session, base: Session, source: Source)
    requires BeganFrom(s, source) && BuiltFrom(base, source)
    ensures base.source == s.source && base.ledger == map[] && base.delta.None? && (s.artifacts != map[] || base.artifacts == map[])
  {
    assert s.artifacts == map[] ==> source.catalog.Keys == {};
  }

  /** The proof inputs do not depend on what a process keeps to itself. */
  lemma SameProofInputs(s: Session, local: Local)
    ensures ProofContextOf(s.(local := local)) == ProofContextOf(s)
  {
    hide Each;
  }

  /** Persisting a session again, from whatever process, changes nothing but the revision. */
  lemma PersistAgain(ms: Models, s: Session, before: Records, local: Local, revision: int, next: int)
    requires before.actions.Keys <= s.ledger.Keys
    ensures Persisted(ms, s.(local := local), Persisted(ms, s, before, revision), next) == Persisted(ms, s, before, next)
  {
    hide Project, EncodeLedger, EncodeWorkflow, Each;
    SameProjection(ms, s, local);
    OnlyThisLedger(ms.action, s.ledger, before);
    assert EncodeLedger(ms.action, s.ledger) + EncodeLedger(ms.action, s.ledger) == EncodeLedger(ms.action, s.ledger);
  }

  lemma SameProjection(ms: Models, s: Session, local: Local)
    ensures Project(ms, s.(local := local)) == Project(ms, s)
  {
    hide SortedIds, EncodeImpact, Each;
  }

  // ------------------------------------------------------- any number of hops

  /** `n` handoffs in a row: each process rehydrates over its own base and persists under the next revision. */
  ghost function Hops(ms: Models, records: Records, n: nat, bases: nat -> Session, revision: int): Result<Records, Failure> {
    if n == 0 then Ok(records)
    else
      match Hops(ms, records, n - 1, bases, revision)
      case Err(f) => Err(f)
      case Ok(read) =>
        match Rehydrate(ms, read, bases(n))
        case Err(f) => Err(f)
        case Ok(s) => Ok(Persisted(ms, s, read, revision + n))
  }

  /** After any number of hops the documents are those of the first process, revision count aside. */
  lemma {:induction false} HopsAreIdentity(ms: Models, s: Session, before: Records, n: nat, bases: nat -> Session,
                                           revision: int, source: Source)
    requires Sound(ms) && before.actions.Keys <= s.ledger.Keys && BeganFrom(s, source)
    requires forall k :: BuiltFrom(bases(k), source)
    ensures Hops(ms, Persisted(ms, s, before, revision), n, bases, revision) == Ok(Persisted(ms, s, before, revision + n))
  {
    hide Rehydrate, Persisted, BeganFrom, BuiltFrom, Sound, ProofContextOf;
    if n > 0 {
      HopsAreIdentity(ms, s, before, n - 1, bases, revision, source);
      var base := bases(n);
      assert BuiltFrom(base, source);
      HandoffPreservesProofInputs(ms, s, before, revision + n - 1, base, source);
      PersistAgain(ms, s, before, base.local, revision + n - 1, revision + n);
    }
  }
}
