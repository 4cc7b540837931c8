/** The resume snapshot: the session state beside the workflow, projected into a document and restored
    from it. A document with fixed keys is a record here, an absent key and a null both being `None`. */
module ResumeSnapshot {
  import opened Basics
  import opened Serialization
  import StateMachine

  // ------------------------------------------------------- data

  datatype Condition = OperationMatch | InstructionCorrespondence | ValueConflict | AuthorizedScope

  datatype ImpactOutcome = NoQualifiedTarget | SingleQualifiedTarget | MultipleQualifiedTargets

  datatype Qualification = Qualification(
    artifactId: string,
    qualified: bool,
    conditions: map<Condition, bool>,
    failed: seq<Condition>,
    proposed: bool,
    disagreed: bool
  )

  datatype Impact = Impact(
    outcome: ImpactOutcome,
    affected: Option<string>,
    qualifiedIds: seq<string>,
    candidates: seq<string>,
    qualifications: seq<Qualification>,
    reason: string,
    requiresReview: bool
  )

  datatype Remediation = Remediation(body: Json)
  datatype Delta = Delta(body: Json)
  datatype VerificationEvent = VerificationEvent(id: string, body: Json)
  datatype Artifact = Artifact(contentRef: string, body: Json)

  /** What the source change derives: the same for every session built from it. */
  datatype Source = Source(change: Json, contentRef: string, contentHash: string, catalog: map<string, Artifact>)

  /** What lives and dies with a process: its own session id, the re-derived delivery action, the views. */
  datatype Local = Local(sessionId: string, deliveryActionId: string, views: Json)

  datatype Session = Session(
    source: Source,
    workflow: Workflow,
    history: seq<StateMachine.State>,
    ledger: map<string, Action>,
    qualifiedArtifactId: Option<string>,
    impact: Option<Impact>,
    remediation: Option<Remediation>,
    receiptRef: Option<string>,
    delta: Option<Delta>,
    delivery: Json,
    rejectedRefs: seq<string>,
    events: seq<VerificationEvent>,
    submissions: set<string>,
    providerCalls: int,
    actionId: Option<string>,
    artifacts: map<string, Artifact>,
    local: Local
  )

  datatype QualificationDoc = QualificationDoc(
    artifactId: string,
    qualified: Json,
    conditions: map<string, Json>,
    failed: seq<string>,
    proposed: Json,
    disagreed: Json
  )

  datatype ImpactDoc = ImpactDoc(
    outcome: string,
    affected: Option<string>,
    qualifiedIds: seq<string>,
    candidates: seq<string>,
    qualifications: seq<QualificationDoc>,
    reason: string,
    requiresReview: Json
  )

  datatype SnapshotDoc = SnapshotDoc(
    version: Json,
    qualifiedArtifactId: Option<string>,
    impact: Option<ImpactDoc>,
    remediation: Json,
    receiptRef: Option<string>,
    delta: Json,
    delivery: Json,
    rejectedRefs: seq<string>,
    events: seq<Json>,
    submissions: seq<string>,
    providerCalls: int,
    actionId: Option<string>,
    artifacts: map<string, Json>
  )

  datatype Models = Models(
    workflow: Model<Workflow>,
    action: Model<Action>,
    remediation: Model<Remediation>,
    delta: Model<Delta>,
    event: Model<VerificationEvent>,
    artifact: Model<Artifact>,
    conversions: Conversions
  )

  ghost predicate Sound(ms: Models) {
    && Lawful(ms.workflow) && Lawful(ms.action) && Lawful(ms.remediation) && Lawful(ms.delta)
    && Lawful(ms.event) && Lawful(ms.artifact) && Faithful(ms.conversions)
  }

  /** `UnsupportedSnapshot` is the schema check; `Unreadable` any value that does not validate. */
  datatype Failure = UnsupportedSnapshot | Unreadable | MissingRecord(error: DocumentError) | NoRecord

  // ------------------------------------------------------- enumeration names

  function ConditionName(c: Condition): string {
    match c
    case OperationMatch => "operation_match"
    case InstructionCorrespondence => "instruction_correspondence"
    case ValueConflict => "value_conflict"
    case AuthorizedScope => "in_authorized_scope"
  }

  function ParseCondition(name: string): Option<Condition> {
    if name == ConditionName(OperationMatch) then Some(OperationMatch)
    else if name == ConditionName(InstructionCorrespondence) then Some(InstructionCorrespondence)
    else if name == ConditionName(ValueConflict) then Some(ValueConflict)
    else if name == ConditionName(AuthorizedScope) then Some(AuthorizedScope)
    else None
  }

  lemma ParseConditionName(c: Condition)
    ensures ParseCondition(ConditionName(c)) == Some(c)
  {
    assert |ConditionName(OperationMatch)| == 15 && |ConditionName(InstructionCorrespondence)| == 26;
    assert |ConditionName(ValueConflict)| == 14 && |ConditionName(AuthorizedScope)| == 19;
  }

  function OutcomeName(o: ImpactOutcome): string {
    match o
    case NoQualifiedTarget => "NO_QUALIFIED_TARGET"
    case SingleQualifiedTarget => "SINGLE_QUALIFIED_TARGET"
    case MultipleQualifiedTargets => "MULTIPLE_QUALIFIED_TARGETS"
  }

  function ParseOutcome(name: string): Option<ImpactOutcome> {
    if name == OutcomeName(NoQualifiedTarget) then Some(NoQualifiedTarget)
    else if name == OutcomeName(SingleQualifiedTarget) then Some(SingleQualifiedTarget)
    else if name == OutcomeName(MultipleQualifiedTargets) then Some(MultipleQualifiedTargets)
    else None
  }

  lemma ParseOutcomeName(o: ImpactOutcome)
    ensures ParseOutcome(OutcomeName(o)) == Some(o)
  {
    assert |OutcomeName(NoQualifiedTarget)| == 19 && |OutcomeName(SingleQualifiedTarget)| == 23;
    assert |OutcomeName(MultipleQualifiedTargets)| == 26;
  }

  /** The stored names of the four conditions and the three outcomes, read back. */
  lemma NamesRead()
    ensures ParseCondition("operation_match") == Some(OperationMatch)
    ensures ParseCondition("instruction_correspondence") == Some(InstructionCorrespondence)
    ensures ParseCondition("value_conflict") == Some(ValueConflict)
    ensures ParseCondition("in_authorized_scope") == Some(AuthorizedScope)
    ensures ParseOutcome("NO_QUALIFIED_TARGET") == Some(NoQualifiedTarget)
    ensures ParseOutcome("SINGLE_QUALIFIED_TARGET") == Some(SingleQualifiedTarget)
    ensures ParseOutcome("MULTIPLE_QUALIFIED_TARGETS") == Some(MultipleQualifiedTargets)
  {
    forall c ensures ParseCondition(ConditionName(c)) == Some(c) {
      ParseConditionName(c);
    }
    forall o ensures ParseOutcome(OutcomeName(o)) == Some(o) {
      ParseOutcomeName(o);
    }
    hide ParseCondition, ParseOutcome;
    assert ConditionName(OperationMatch) == "operation_match" && ConditionName(ValueConflict) == "value_conflict";
    assert ConditionName(InstructionCorrespondence) == "instruction_correspondence";
    assert ConditionName(AuthorizedScope) == "in_authorized_scope" && OutcomeName(NoQualifiedTarget) == "NO_QUALIFIED_TARGET";
    assert OutcomeName(SingleQualifiedTarget) == "SINGLE_QUALIFIED_TARGET";
    assert OutcomeName(MultipleQualifiedTargets) == "MULTIPLE_QUALIFIED_TARGETS";
  }

  // ------------------------------------------------------- lists

  function Each<A, B>(xs: seq<A>, f: A -> B): seq<B> {
    seq(|xs|, i requires 0 <= i < |xs| => f(xs[i]))
  }

  /** Reads every item, or fails at the first that does not read. */
  function ReadAll<A, B>(xs: seq<A>, read: A -> Option<B>): Option<seq<B>> {
    if xs == [] then Some([])
    else
      match read(xs[0])
      case None => None
      case Some(y) =>
        match ReadAll(xs[1..], read)
        case None => None
        case Some(ys) => Some([y] + ys)
  }

  lemma {:induction false} ReadAllEach<A, B>(xs: seq<B>, f: B -> A, read: A -> Option<B>)
    requires forall i :: 0 <= i < |xs| ==> read(f(xs[i])) == Some(xs[i])
    ensures ReadAll(Each(xs, f), read) == Some(xs)
  {
    if xs != [] {
      assert Each(xs, f)[1..] == Each(xs[1..], f);
      ReadAllEach(xs[1..], f, read);
      assert xs == [xs[0]] + xs[1..];
    }
  }

  ghost predicate First(x: string, ids: set<string>) {
    x in ids && forall y :: y in ids && y != x ==> TextLess(x, y)
  }

  /** The sorted list of a set of strings. */
  ghost function SortedIds(ids: set<string>): (r: seq<string>)
    decreases |ids|
  {
    if ids == {} then []
    else
      FirstExists(ids);
      var first :| First(first, ids);
      assert ids == (ids - {first}) + {first};
      [first] + SortedIds(ids - {first})
  }

  lemma {:induction false} FirstExists(ids: set<string>)
    requires ids != {}
    ensures exists x :: First(x, ids)
    decreases |ids|
  {
    var z :| z in ids;
    var rest := ids - {z};
    assert ids == rest + {z};
    if rest == {} {
      assert ids == {z} && First(z, ids);
    } else {
      FirstExists(rest);
      var x :| First(x, rest);
      FirstOfMore(x, rest, z);
    }
  }

  lemma FirstOfMore(x: string, ids: set<string>, z: string)
    requires First(x, ids) && z !in ids
    ensures First(x, ids + {z}) || First(z, ids + {z})
  {
    TextLessTrichotomy(x, z);
    hide TextLess;
    if TextLess(z, x) {
      forall y | y in ids ensures TextLess(z, y) {
        if y != x {
          TextLessTransitive(z, x, y);
        }
      }
    }
  }

  lemma {:induction false} SortedIdsHold(ids: set<string>)
    ensures forall x :: x in SortedIds(ids) <==> x in ids
    decreases |ids|
  {
    if ids != {} {
      var first := SortedIds(ids)[0];
      SortedIdsHold(ids - {first});
    }
  }

  /** The list is strictly ascending. */
  lemma {:induction false} SortedIdsAscend(ids: set<string>)
    ensures forall i, j :: 0 <= i < j < |SortedIds(ids)| ==> TextLess(SortedIds(ids)[i], SortedIds(ids)[j])
    decreases |ids|
  {
    if ids != {} {
      var first := SortedIds(ids)[0];
      SortedIdsAscend(ids - {first});
      SortedIdsHold(ids - {first});
      hide TextLess;
      assert First(first, ids);
      forall j | 0 < j < |SortedIds(ids)| ensures TextLess(first, SortedIds(ids)[j]) {
        assert SortedIds(ids)[j] == SortedIds(ids - {first})[j - 1];
        assert SortedIds(ids - {first})[j - 1] in SortedIds(ids - {first});
      }
    }
  }

  // ------------------------------------------------------- impact

  const CONDITIONS: set<Condition> := {OperationMatch, InstructionCorrespondence, ValueConflict, AuthorizedScope}

  const CONDITION_NAMES: set<string> :=
    {ConditionName(OperationMatch), ConditionName(InstructionCorrespondence), ConditionName(ValueConflict),
     ConditionName(AuthorizedScope)}

  function EncodeConditions(conditions: map<Condition, bool>): map<string, Json> {
    map name | name in CONDITION_NAMES && ParseCondition(name).Some? && ParseCondition(name).value in conditions
      :: Bool(conditions[ParseCondition(name).value])
  }

  function DecodeConditions(document: map<string, Json>): Option<map<Condition, bool>> {
    if exists name :: name in document && ParseCondition(name).None? then None else Some(KnownConditions(document))
  }

  function KnownConditions(document: map<string, Json>): map<Condition, bool> {
    map c | c in CONDITIONS && ConditionName(c) in document :: document[ConditionName(c)].Truthy()
  }

  lemma ConditionEncoded(conditions: map<Condition, bool>, c: Condition)
    ensures c in CONDITIONS
    ensures var document := EncodeConditions(conditions);
            && (ConditionName(c) in document <==> c in conditions)
            && (c in conditions ==> document[ConditionName(c)] == Bool(conditions[c]))
  {
    ParseConditionName(c);
    hide ConditionName, ParseCondition;
    match c
    case OperationMatch => assert ConditionName(OperationMatch) in CONDITION_NAMES;
    case InstructionCorrespondence => assert ConditionName(InstructionCorrespondence) in CONDITION_NAMES;
    case ValueConflict => assert ConditionName(ValueConflict) in CONDITION_NAMES;
    case AuthorizedScope => assert ConditionName(AuthorizedScope) in CONDITION_NAMES;
  }

  lemma KnownConditionsEncoded(conditions: map<Condition, bool>)
    ensures KnownConditions(EncodeConditions(conditions)) == conditions
  {
    hide ConditionName, ParseCondition, EncodeConditions;
    var known := KnownConditions(EncodeConditions(conditions));
    forall c: Condition
      ensures c in known <==> c in conditions
      ensures c in conditions ==> known[c] == conditions[c]
    {
      ConditionEncoded(conditions, c);
    }
  }

  lemma ConditionsRoundTrip(conditions: map<Condition, bool>)
    ensures DecodeConditions(EncodeConditions(conditions)) == Some(conditions)
  {
    hide KnownConditions, ConditionName, ParseCondition;
    KnownConditionsEncoded(conditions);
  }

  function EncodeQualification(q: Qualification): QualificationDoc {
    QualificationDoc(q.artifactId, Bool(q.qualified), EncodeConditions(q.conditions), Each(q.failed, ConditionName),
                     Bool(q.proposed), Bool(q.disagreed))
  }

  function DecodeQualification(d: QualificationDoc): Option<Qualification> {
    var conditions, failed := DecodeConditions(d.conditions), ReadAll(d.failed, ParseCondition);
    if conditions.None? || failed.None? then None
    else Some(Qualification(d.artifactId, d.qualified.Truthy(), conditions.value, failed.value,
                            d.proposed.Truthy(), d.disagreed.Truthy()))
  }

  function EncodeImpact(i: Impact): ImpactDoc {
    ImpactDoc(OutcomeName(i.outcome), i.affected, i.qualifiedIds, i.candidates,
              Each(i.qualifications, EncodeQualification), i.reason, Bool(i.requiresReview))
  }

  function DecodeImpact(d: ImpactDoc): Option<Impact> {
    var outcome, qualifications := ParseOutcome(d.outcome), ReadAll(d.qualifications, DecodeQualification);
    if outcome.None? || qualifications.None? then None
    else Some(Impact(outcome.value, d.affected, d.qualifiedIds, d.candidates, qualifications.value, d.reason,
                     d.requiresReview.Truthy()))
  }

  lemma QualificationRoundTrip(q: Qualification)
    ensures DecodeQualification(EncodeQualification(q)) == Some(q)
  {
    hide DecodeConditions, EncodeConditions;
    ConditionsRoundTrip(q.conditions);
    forall c ensures ParseCondition(ConditionName(c)) == Some(c) {
      ParseConditionName(c);
    }
    ReadAllEach(q.failed, ConditionName, ParseCondition);
  }

  /** Decoding an encoded impact resolution gives it back, enum-keyed mappings included. */
  lemma ImpactRoundTrip(i: Impact)
    ensures DecodeImpact(EncodeImpact(i)) == Some(i)
  {
    hide DecodeQualification, EncodeQualification;
    ParseOutcomeName(i.outcome);
    forall q ensures DecodeQualification(EncodeQualification(q)) == Some(q) {
      QualificationRoundTrip(q);
    }
    ReadAllEach(i.qualifications, EncodeQualification, DecodeQualification);
  }

  // ------------------------------------------------------- the snapshot

  function DumpOf<T>(m: Model<T>, o: Option<T>): Json {
    if o.Some? then m.dump(o.value) else Null
  }

  ghost function Project(ms: Models, s: Session): SnapshotDoc {
    SnapshotDoc(
      Num(1),
      s.qualifiedArtifactId,
      if s.impact.Some? then Some(EncodeImpact(s.impact.value)) else None,
      DumpOf(ms.remediation, s.remediation),
      s.receiptRef,
      DumpOf(ms.delta, s.delta),
      s.delivery,
      s.rejectedRefs,
      Each(s.events, ms.event.dump),
      SortedIds(s.submissions),
      s.providerCalls,
      s.actionId,
      map id | id in s.artifacts :: ms.artifact.dump(s.artifacts[id]))
  }

  /** An optional dump: read when truthy, `None` otherwise. */
  function ReadOptional<T>(m: Model<T>, j: Json): Option<Option<T>> {
    if !j.Truthy() then Some(None)
    else if m.validate(j).Some? then Some(m.validate(j))
    else None
  }

  function ReadImpact(d: Option<ImpactDoc>): Option<Option<Impact>> {
    if d.None? then Some(None)
    else if DecodeImpact(d.value).Some? then Some(DecodeImpact(d.value))
    else None
  }

  function ReadArtifacts(m: Model<Artifact>, document: map<string, Json>): Option<map<string, Artifact>> {
    if exists id :: id in document && m.validate(document[id]).None? then None
    else Some(map id | id in document :: m.validate(document[id]).value)
  }

  predicate Supported(d: SnapshotDoc) { IsVersion(d.version) }

  function Restore(ms: Models, base: Session, d: SnapshotDoc): Result<Session, Failure> {
    var impact := ReadImpact(d.impact);
    var remediation := ReadOptional(ms.remediation, d.remediation);
    var delta := ReadOptional(ms.delta, d.delta);
    var events := ReadAll(d.events, ms.event.validate);
    var artifacts := ReadArtifacts(ms.artifact, d.artifacts);
    if !Supported(d) then Err(UnsupportedSnapshot)
    else if impact.None? || remediation.None? || delta.None? || events.None? || artifacts.None? then Err(Unreadable)
    else
      Ok(base.(qualifiedArtifactId := d.qualifiedArtifactId, impact := impact.value, remediation := remediation.value,
                receiptRef := d.receiptRef, delta := if d.delta.Truthy() then delta.value else base.delta,
                delivery := d.delivery, rejectedRefs := d.rejectedRefs, events := events.value,
                submissions := (set x | x in d.submissions), providerCalls := d.providerCalls, actionId := d.actionId,
                artifacts := if d.artifacts != map[] then artifacts.value else base.artifacts))
  }

  /** `apply_snapshot` on a live session, field by field. */
  class LiveSession {
    var state: Session

    constructor (state: Session)
      ensures this.state == state
    {
      this.state := state;
    }

    /** A document of another version changes nothing; one that does not read is refused with the session
        partly overwritten, which the caller then drops. */
    method ApplySnapshot(ms: Models, d: SnapshotDoc) returns (r: Result<(), Failure>)
      modifies this
      ensures Restore(ms, old(state), d).Ok? ==> r == Ok(()) && state == Restore(ms, old(state), d).value
      ensures Restore(ms, old(state), d).Err? ==> r == Err(Restore(ms, old(state), d).error)
      ensures !Supported(d) ==> state == old(state)
      ensures state.source == old(state).source && state.workflow == old(state).workflow
              && state.history == old(state).history && state.ledger == old(state).ledger && state.local == old(state).local
    {
      hide ReadAll, ReadArtifacts, ReadImpact, ReadOptional;
      if !Supported(d) {
        return Err(UnsupportedSnapshot);
      }
      var impact := ReadImpact(d.impact);
      if impact.None? {
        return Err(Unreadable);
      }
      state := state.(impact := impact.value, qualifiedArtifactId := d.qualifiedArtifactId);
      var remediation := ReadOptional(ms.remediation, d.remediation);
      if remediation.None? {
        return Err(Unreadable);
      }
      state := state.(remediation := remediation.value, receiptRef := d.receiptRef);
      var delta := ReadOptional(ms.delta, d.delta);
      if delta.None? {
        return Err(Unreadable);
      }
      if d.delta.Truthy() {
        state := state.(delta := delta.value);
      }
      state := state.(delivery := d.delivery, rejectedRefs := d.rejectedRefs);
      var events := ReadAll(d.events, ms.event.validate);
      if events.None? {
        return Err(Unreadable);
      }
      state := state.(events := events.value, submissions := (set x | x in d.submissions),
                      providerCalls := d.providerCalls, actionId := d.actionId);
      var artifacts := ReadArtifacts(ms.artifact, d.artifacts);
      if artifacts.None? {
        return Err(Unreadable);
      }
      if d.artifacts != map[] {
        state := state.(artifacts := artifacts.value);
      }
      return Ok(());
    }
  }

  /** What a fresh session keeps of its own under the snapshot of `s`. */
  function Overlay(base: Session, s: Session): Session {
    s.(source := base.source, workflow := base.workflow, history := base.history, ledger := base.ledger,
       local := base.local,
       delta := if s.delta.Some? then s.delta else base.delta,
       artifacts := if s.artifacts != map[] then s.artifacts else base.artifacts)
  }

  lemma OptionalRoundTrip<T(!new)>(m: Model<T>, o: Option<T>)
    requires Lawful(m)
    ensures ReadOptional(m, DumpOf(m, o)) == Some(o) && (DumpOf(m, o).Truthy() <==> o.Some?)
  {
    if o.Some? {
      assert m.validate(m.dump(o.value)) == o;
    }
  }

  lemma EventsRoundTrip(m: Model<VerificationEvent>, events: seq<VerificationEvent>)
    requires Lawful(m)
    ensures ReadAll(Each(events, m.dump), m.validate) == Some(events)
  {
    forall i | 0 <= i < |events| ensures m.validate(m.dump(events[i])) == Some(events[i]) {
    }
    ReadAllEach(events, m.dump, m.validate);
  }

  lemma ArtifactsRoundTrip(m: Model<Artifact>, artifacts: map<string, Artifact>)
    requires Lawful(m)
    ensures ReadArtifacts(m, map id | id in artifacts :: m.dump(artifacts[id])) == Some(artifacts)
  {
    var document := map id | id in artifacts :: m.dump(artifacts[id]);
    forall id | id in document ensures m.validate(document[id]) == Some(artifacts[id]) {
      assert document[id] == m.dump(artifacts[id]);
    }
    var read := map id | id in document :: m.validate(document[id]).value;
    assert read == artifacts;
  }

  /** Restoring a projected session onto any fresh one gives the projected fields back, with two
      exceptions: a missing delta and an empty artifact store leave what the fresh session has. */
  lemma RestoreProjection(ms: Models, base: Session, s: Session)
    requires Sound(ms)
    ensures Restore(ms, base, Project(ms, s)) == Ok(Overlay(base, s))
  {
    hide ReadAll, ReadArtifacts, ReadOptional, EncodeImpact, DecodeImpact, DumpOf, Each, SortedIds, Lawful, Faithful;
    var d := Project(ms, s);
    if s.impact.Some? {
      ImpactRoundTrip(s.impact.value);
    }
    OptionalRoundTrip(ms.remediation, s.remediation);
    OptionalRoundTrip(ms.delta, s.delta);
    EventsRoundTrip(ms.event, s.events);
    ArtifactsRoundTrip(ms.artifact, s.artifacts);
    SortedIdsHold(s.submissions);
    assert (set x | x in d.submissions) == s.submissions;
    assert d.artifacts.Keys == s.artifacts.Keys;
    assert d.artifacts == map[] <==> s.artifacts == map[];
  }

  /** Re-encoding the restored session gives the same snapshot exactly when the two exceptions cannot bite. */
  lemma SnapshotRoundTripExactly(ms: Models, base: Session, s: Session)
    requires Sound(ms)
    ensures Project(ms, Overlay(base, s)) == Project(ms, s)
            <==> (s.delta.Some? || base.delta.None?) && (s.artifacts != map[] || base.artifacts == map[])
  {
    hide EncodeImpact, Each, SortedIds;
    var o := Overlay(base, s);
    OptionalRoundTrip(ms.delta, s.delta);
    OptionalRoundTrip(ms.delta, o.delta);
    ArtifactsRoundTrip(ms.artifact, s.artifacts);
    ArtifactsRoundTrip(ms.artifact, o.artifacts);
  }
}
