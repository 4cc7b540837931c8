/** Exactly-once ingestion of approved changes by any number of processes over one durable store.
    Every store call of `accept_change` is one step; a process may crash between any two. */
module Ingestion {
  import opened Basics
  import opened Identifiers
  import opened DocumentStore

  /** A delivered change. `acceptable` is the verdict of the fixture validation, which is not modelled. */
  datatype Payload = Payload(changeId: string, acceptable: bool, body: string)

  datatype WorkflowDoc = WorkflowDoc(changeId: string, state: string, revision: int)

  /** The three collections ingestion touches; `claims` maps a key to its owner. */
  datatype Store = Store(
    workflows: map<string, WorkflowDoc>,
    inputs: map<string, Payload>,
    claims: map<string, string>
  )

  datatype Failure = FixtureRejected | IdentifierRejected | ConflictingRecord | WorkflowNotFound

  datatype Answer = Returned(workflow: string, isNew: bool) | Raised(failure: Failure)

  /** Where a call stands: the store call it makes next. */
  datatype Call =
    | Idle
    | Looking(payload: Payload)
    | Resolving(payload: Payload, existing: string)
    | Building(payload: Payload)
    | Saving(payload: Payload, w: string, revision: int)
    | Noting(payload: Payload, w: string)
    | Claiming(payload: Payload, w: string)
    | Contested(payload: Payload, w: string)

  /** The fields of one runtime. */
  datatype Local = Local(namespace: string, sequence: nat, known: map<string, string>, live: set<string>, call: Call)

  function Key(changeId: string): string { "change-" + changeId }

  /** Changes share a key only when they are one change. */
  lemma KeyInjective(a: string, b: string)
    ensures Key(a) == Key(b) <==> a == b
    ensures Key(a) == "change-" + a
  {
    if Key(a) == Key(b) {
      assert Key(a)[7..] == a && Key(b)[7..] == b;
    }
  }

  function OwnerOf(st: Store, key: string): Option<string> {
    if key in st.claims then Some(st.claims[key]) else None
  }

  /** The call up to its first store call. */
  function BeginCall(l: Local, payload: Payload): (Local, Option<Answer>) {
    if Blank(payload.changeId) then (l, Some(Raised(FixtureRejected)))
    else if !Safe(Key(Strip(payload.changeId))) then (l, Some(Raised(IdentifierRejected)))
    else (l.(call := Looking(payload)), None)
  }

  /** The owner a duplicate is resolved to: the durable claim wins over the cache. */
  function Existing(st: Store, l: Local, changeId: string): Option<string> {
    var id := Strip(changeId);
    if Key(id) in st.claims then Some(st.claims[Key(id)])
    else if id in l.known then Some(l.known[id])
    else None
  }

  /** One store call, together with the local work that follows it. */
  function StepCall(st: Store, l: Local): (Store, Local, Option<Answer>)
    requires !l.call.Idle?
  {
    match l.call
    case Looking(payload) =>
      var existing := Existing(st, l, payload.changeId);
      if existing.Some? then (st, l.(call := Resolving(payload, existing.value)), None)
      else if !payload.acceptable then (st, l.(call := Idle), Some(Raised(FixtureRejected)))
      else (st, l.(call := Building(payload)), None)
    case Resolving(payload, existing) =>
      var found := existing in l.live || existing in st.workflows;
      (st, l.(call := Idle), Some(if found then Returned(existing, false) else Raised(WorkflowNotFound)))
    case Building(payload) =>
      var w := MintWorkflowId(l.namespace, l.sequence + 1);
      var built := l.(sequence := l.sequence + 1, live := l.live + {w});
      if !Safe(w) then (st, built.(call := Idle), Some(Raised(IdentifierRejected)))
      else
        var current := if w in st.workflows then st.workflows[w].revision else 0;
        (st, built.(call := Saving(payload, w, current)), None)
    case Saving(payload, w, revision) =>
      var document := WorkflowDoc(payload.changeId, "CHANGE_RECEIVED", revision + 1);
      (st.(workflows := st.workflows[w := document]), l.(call := Noting(payload, w)), None)
    case Noting(payload, w) =>
      (st.(inputs := st.inputs[w := payload]), l.(call := Claiming(payload, w)), None)
    case Claiming(payload, w) =>
      var cached := l.(known := l.known[payload.changeId := w]);
      var key := Key(payload.changeId);
      if !Safe(key) then (st, cached.(call := Idle), Some(Raised(IdentifierRejected)))
      else if key in st.claims then (st, cached.(call := Contested(payload, w)), None)
      else (st.(claims := st.claims[key := w]), cached.(call := Idle), Some(Returned(w, true)))
    case Contested(payload, w) =>
      var owner := OwnerOf(st, Key(payload.changeId));
      (st, l.(call := Idle), Some(if owner == Some(w) then Returned(w, true) else Raised(ConflictingRecord)))
  }

  // ------------------------------------------------------- one undisturbed call

  function Rank(c: Call): nat {
    match c
    case Idle => 0
    case Contested(_, _) => 1
    case Claiming(_, _) => 2
    case Noting(_, _) => 3
    case Saving(_, _, _) => 4
    case Building(_) => 5
    case Resolving(_, _) => 1
    case Looking(_) => 6
  }

  /** The rest of a call when no other process takes a step meanwhile. */
  function Complete(st: Store, l: Local): (Store, Local, Answer)
    requires !l.call.Idle?
    decreases Rank(l.call)
  {
    var (st', l', answer) := StepCall(st, l);
    if answer.Some? then (st', l', answer.value) else Complete(st', l')
  }

  function AcceptOp(st: Store, l: Local, payload: Payload): (Store, Local, Answer) {
    var (l', answer) := BeginCall(l, payload);
    if answer.Some? then (st, l', answer.value) else Complete(st, l')
  }

  /** The refusals that come before anything is written. */
  lemma RefusedOp(st: Store, l: Local, payload: Payload)
    requires l.call.Idle?
    ensures Blank(payload.changeId) ==> AcceptOp(st, l, payload) == (st, l, Raised(FixtureRejected))
    ensures !Blank(payload.changeId) && !Safe(Key(Strip(payload.changeId))) ==>
              AcceptOp(st, l, payload) == (st, l, Raised(IdentifierRejected))
    ensures !Blank(payload.changeId) && Safe(Key(Strip(payload.changeId)))
            && Existing(st, l, payload.changeId).None? && !payload.acceptable ==>
              AcceptOp(st, l, payload) == (st, l, Raised(FixtureRejected))
  {
    var l1 := l.(call := Looking(payload));
    assert l1.(call := Idle) == l;
  }

  /** An already accepted change is resolved to its owner and creates nothing. */
  lemma DuplicateOp(st: Store, l: Local, payload: Payload)
    requires l.call.Idle? && !Blank(payload.changeId) && Safe(Key(Strip(payload.changeId)))
    requires Existing(st, l, payload.changeId).Some?
    ensures var w := Existing(st, l, payload.changeId).value;
            AcceptOp(st, l, payload) ==
            (st, l, if w in l.live || w in st.workflows then Returned(w, false) else Raised(WorkflowNotFound))
  {
    var w := Existing(st, l, payload.changeId).value;
    var l1 := l.(call := Looking(payload));
    var l2 := l.(call := Resolving(payload, w));
    assert StepCall(st, l1) == (st, l2, None);
    assert Complete(st, l1) == Complete(st, l2);
  }

  /** The claim at the end of a call, undisturbed. */
  function Claimed(st: Store, l: Local, changeId: string, w: string): (Store, Local, Answer) {
    var key := Key(changeId);
    var cached := l.(known := l.known[changeId := w]);
    if !Safe(key) then (st, cached, Raised(IdentifierRejected))
    else if key !in st.claims then (st.(claims := st.claims[key := w]), cached, Returned(w, true))
    else (st, cached, if st.claims[key] == w then Returned(w, true) else Raised(ConflictingRecord))
  }

  /** The workflow and its input, written down. */
  function Recorded(st: Store, w: string, payload: Payload): Store {
    var revision := if w in st.workflows then st.workflows[w].revision else 0;
    st.(workflows := st.workflows[w := WorkflowDoc(payload.changeId, "CHANGE_RECEIVED", revision + 1)],
        inputs := st.inputs[w := payload])
  }

  /** A change nobody owns yet is written down first and claimed last. */
  function Started(st: Store, l: Local, payload: Payload): (Store, Local, Answer) {
    var w := MintWorkflowId(l.namespace, l.sequence + 1);
    var built := l.(sequence := l.sequence + 1, live := l.live + {w});
    if !Safe(w) then (st, built, Raised(IdentifierRejected))
    else Claimed(Recorded(st, w, payload), built, payload.changeId, w)
  }

  lemma ClaimingOp(st: Store, l: Local, payload: Payload, w: string)
    requires l.call == Claiming(payload, w)
    ensures Complete(st, l) == Claimed(st, l.(call := Idle), payload.changeId, w)
  {
    var key := Key(payload.changeId);
    if Safe(key) && key in st.claims {
      var l1 := l.(known := l.known[payload.changeId := w], call := Contested(payload, w));
      assert StepCall(st, l) == (st, l1, None);
    }
  }

  lemma NotingOp(st: Store, l: Local, payload: Payload, w: string)
    requires l.call == Noting(payload, w)
    ensures Complete(st, l) == Claimed(st.(inputs := st.inputs[w := payload]), l.(call := Idle), payload.changeId, w)
  {
    hide Claimed, Safe;
    var noted, l5 := st.(inputs := st.inputs[w := payload]), l.(call := Claiming(payload, w));
    assert StepCall(st, l) == (noted, l5, None);
    ClaimingOp(noted, l5, payload, w);
    assert Complete(st, l) == Complete(noted, l5);
  }

  lemma SavingOp(st: Store, l: Local, payload: Payload, w: string, revision: int)
    requires l.call == Saving(payload, w, revision)
    ensures Complete(st, l) ==
            Claimed(Store(st.workflows[w := WorkflowDoc(payload.changeId, "CHANGE_RECEIVED", revision + 1)],
                          st.inputs[w := payload], st.claims),
                    l.(call := Idle), payload.changeId, w)
  {
    hide Claimed, Safe;
    var saved := st.(workflows := st.workflows[w := WorkflowDoc(payload.changeId, "CHANGE_RECEIVED", revision + 1)]);
    var l4 := l.(call := Noting(payload, w));
    assert StepCall(st, l) == (saved, l4, None);
    NotingOp(saved, l4, payload, w);
    assert Complete(st, l) == Complete(saved, l4);
  }

  lemma CompleteStep(st: Store, l: Local, st': Store, l': Local)
    requires !l.call.Idle? && StepCall(st, l) == (st', l', None)
    ensures Complete(st, l) == Complete(st', l')
  {
  }

  /** The process after building: the number is used up and the service is live. */
  function Built(l: Local): Local {
    var w := MintWorkflowId(l.namespace, l.sequence + 1);
    l.(sequence := l.sequence + 1, live := l.live + {w}, call := Idle)
  }

  lemma BuildingStep(st: Store, l: Local, payload: Payload)
    requires l.call == Building(payload)
    ensures var w := MintWorkflowId(l.namespace, l.sequence + 1);
            var revision := if w in st.workflows then st.workflows[w].revision else 0;
            if Safe(w) then StepCall(st, l) == (st, Built(l).(call := Saving(payload, w, revision)), None)
            else StepCall(st, l) == (st, Built(l), Some(Raised(IdentifierRejected)))
  {
    hide MintWorkflowId, Safe;
  }

  /** Building, saving and noting, undisturbed. */
  lemma BuildingOp(st: Store, l: Local, payload: Payload)
    requires l.call == Building(payload)
    ensures Complete(st, l) == Started(st, l.(call := Idle), payload)
  {
    BuildingStep(st, l, payload);
    hide Claimed, Safe, MintWorkflowId, StepCall;
    var w := MintWorkflowId(l.namespace, l.sequence + 1);
    if Safe(w) {
      var revision := if w in st.workflows then st.workflows[w].revision else 0;
      var l3 := Built(l).(call := Saving(payload, w, revision));
      CompleteStep(st, l, st, l3);
      SavingOp(st, l3, payload, w, revision);
      hide Complete;
      assert l3.(call := Idle) == Built(l);
      assert Complete(st, l) == Claimed(Recorded(st, w, payload), Built(l), payload.changeId, w);
    }
  }

  lemma NewChangeOp(st: Store, l: Local, payload: Payload)
    requires l.call.Idle? && !Blank(payload.changeId) && Safe(Key(Strip(payload.changeId)))
    requires Existing(st, l, payload.changeId).None? && payload.acceptable
    ensures AcceptOp(st, l, payload) == Started(st, l, payload)
  {
    var l1, l2 := l.(call := Looking(payload)), l.(call := Building(payload));
    assert StepCall(st, l1) == (st, l2, None);
    assert l2.(call := Idle) == l;
    BuildingOp(st, l2, payload);
  }

  /** What a call answers, by what it finds: the owner that the store names for this very change, else the one the
      process remembers for it, else a new workflow. */
  lemma AnswersByChange(st: Store, l: Local, payload: Payload)
    requires l.call.Idle? && !Blank(payload.changeId) && Safe("change-" + Strip(payload.changeId))
    ensures var id := Strip(payload.changeId);
            var answer := AcceptOp(st, l, payload).2;
            && ("change-" + id in st.claims ==>
                  var w := st.claims["change-" + id];
                  answer == if w in l.live || w in st.workflows then Returned(w, false) else Raised(WorkflowNotFound))
            && ("change-" + id !in st.claims && id in l.known ==>
                  var w := l.known[id];
                  answer == if w in l.live || w in st.workflows then Returned(w, false) else Raised(WorkflowNotFound))
            && ("change-" + id !in st.claims && id !in l.known ==>
                  !(answer.Returned? && !answer.isNew) && answer != Raised(WorkflowNotFound))
  {
    var id := Strip(payload.changeId);
    KeyInjective(id, id);
    hide AcceptOp, Strip, Safe, Blank, MintWorkflowId, Key;
    if Existing(st, l, payload.changeId).Some? {
      DuplicateOp(st, l, payload);
    } else if payload.acceptable {
      NewChangeOp(st, l, payload);
    } else {
      RefusedOp(st, l, payload);
    }
  }

  // ------------------------------------------------------- ids with outer white space

  /** The call passes every check before its first write, and the id it mints can be stored. */
  predicate Writes(st: Store, l: Local, payload: Payload) {
    && l.call.Idle? && !Blank(payload.changeId) && Safe(Key(Strip(payload.changeId)))
    && Existing(st, l, payload.changeId).None? && payload.acceptable
    && Safe(MintWorkflowId(l.namespace, l.sequence + 1))
  }

  /** A change that is written down is claimed exactly when stripping its id changes nothing. Otherwise the call is
      refused after its writes, and the workflow document and its input stay behind without a claim. */
  lemma ClaimedExactlyWhenStripped(st: Store, l: Local, payload: Payload)
    requires Writes(st, l, payload)
    ensures var (t, after, answer) := AcceptOp(st, l, payload);
            var w := MintWorkflowId(l.namespace, l.sequence + 1);
            && w in t.workflows && t.workflows[w].changeId == payload.changeId
            && t.workflows[w].state == "CHANGE_RECEIVED"
            && w in t.inputs && t.inputs[w] == payload
            && (answer == Returned(w, true) <==> Strip(payload.changeId) == payload.changeId)
            && (Strip(payload.changeId) != payload.changeId ==>
                  answer == Raised(IdentifierRejected) && t.claims == st.claims
                  && after == l.(sequence := l.sequence + 1, live := l.live + {w}, known := l.known[payload.changeId := w]))
  {
    NewChangeOp(st, l, payload);
    if Strip(payload.changeId) != payload.changeId {
      SpacedKeyUnsafe("change-", payload.changeId);
    }
    hide AcceptOp, Complete, MintWorkflowId, Strip, SafeIdentifier;
  }

  /** Delivering such a change again leaves a further one: the cache was filled under the id as it came and is looked
      up under the stripped one. */
  lemma RedeliveryLeavesAnother(st: Store, l: Local, payload: Payload)
    requires Writes(st, l, payload) && Strip(payload.changeId) != payload.changeId
    requires Safe(MintWorkflowId(l.namespace, l.sequence + 2))
    ensures var (t, after, _) := AcceptOp(st, l, payload);
            var (u, _, answer) := AcceptOp(t, after, payload);
            var w, other := MintWorkflowId(l.namespace, l.sequence + 1), MintWorkflowId(l.namespace, l.sequence + 2);
            && w != other && w in u.workflows && other in u.workflows && w in u.inputs && other in u.inputs
            && u.claims == st.claims && answer == Raised(IdentifierRejected)
  {
    var (t, after, _) := AcceptOp(st, l, payload);
    ClaimedExactlyWhenStripped(st, l, payload);
    if MintWorkflowId(l.namespace, l.sequence + 1) == MintWorkflowId(l.namespace, l.sequence + 2) {
      MintInjective(l.namespace, l.sequence + 1, l.namespace, l.sequence + 2);
    }
    NewChangeOp(st, l, payload);
    assert Writes(t, after, payload);
    ClaimedExactlyWhenStripped(t, after, payload);
    NewChangeOp(t, after, payload);
    hide AcceptOp, Complete, MintWorkflowId, Strip, SafeIdentifier;
  }

  lemma FirstIdOfApi()
    ensures MintWorkflowId("api", 1) == "api-001-001" && Safe("api-001-001")
  {
    SafeApiId();
    hide Safe;
    assert Digits(1) == "1";
    assert Repeat('0', 2) == "00";
    assert ZeroPad(1, 3) == "001";
  }

  lemma SafeApiId()
    ensures Safe("api-001-001")
  {
    SafeExactly("api-001-001");
  }

  lemma SpacedC()
    ensures Strip("c ") == "c" && "c " != "c" && !Blank("c ") && Safe(Key(Strip("c ")))
  {
    assert "c "[..1] == "c" && |"c "| != |"c"|;
    assert Strip("c ") == "c";
    assert Key("c") == "change-c";
    SafeExactly("change-c");
  }

  /** A fresh runtime over an empty store, and a change called `c` with a space after it. */
  lemma SpacedChangeIsLeftBehind(st: Store, l: Local, payload: Payload)
    requires st == Store(map[], map[], map[]) && l == Local("api", 0, map[], {}, Idle) && payload == Payload("c ", true, "")
    ensures var (t, _, answer) := AcceptOp(st, l, payload);
            && answer == Raised(IdentifierRejected) && t.claims == map[]
            && "api-001-001" in t.workflows && "api-001-001" in t.inputs
  {
    FirstIdOfApi();
    SpacedC();
    hide MintWorkflowId, Strip, Safe, Blank, Key, AcceptOp;
    ClaimedExactlyWhenStripped(st, l, payload);
  }

  /** The runtime, one method call at a time; its store calls are those of `StepCall`, in order. */
  class ApiRuntime {
    const namespace: string
    const workflows: Collection<WorkflowDoc>
    const inputs: Collection<Payload>
    const claims: Collection<string>
    var sequence: nat
    var known: map<string, string>
    var live: set<string>

    constructor (namespace: string, workflows: Collection<WorkflowDoc>, inputs: Collection<Payload>,
                 claims: Collection<string>)
      requires workflows as object != inputs && workflows as object != claims && inputs as object != claims
      ensures Valid() && View() == Local(namespace, 0, map[], {}, Idle)
      ensures this.workflows == workflows && this.inputs == inputs && this.claims == claims
    {
      this.namespace, this.workflows, this.inputs, this.claims := namespace, workflows, inputs, claims;
      sequence, known, live := 0, map[], {};
    }

    ghost predicate Valid() {
      workflows as object != inputs && workflows as object != claims && inputs as object != claims
    }

    ghost function View(): Local
      reads this
    {
      Local(namespace, sequence, known, live, Idle)
    }

    ghost function Stored(): Store
      reads workflows, inputs, claims
    {
      Store(workflows.docs, inputs.docs, claims.docs)
    }

    method AcceptChange(payload: Payload) returns (answer: Answer)
      requires Valid()
      modifies this, workflows, inputs, claims
      ensures (Stored(), View(), answer) == AcceptOp(old(Stored()), old(View()), payload)
    {
      RefusedOp(Stored(), View(), payload);
      hide Complete, AcceptOp, MintWorkflowId, Safe;
      var changeId := Strip(payload.changeId);
      if changeId != "" {
        if !Safe(Key(changeId)) {
          return Raised(IdentifierRejected);
        }
        var existing := Classify(changeId);
        assert existing == Existing(Stored(), View(), payload.changeId);
        if existing.Some? {
          DuplicateOp(Stored(), View(), payload);
          answer := Resolve(existing.value);
          return;
        }
      }
      if changeId == "" || !payload.acceptable {
        return Raised(FixtureRejected);
      }
      NewChangeOp(Stored(), View(), payload);
      answer := StartWorkflow(payload);
    }

    /** `classify`: the durable claim if there is one, else the cache. */
    method Classify(changeId: string) returns (existing: Option<string>)
      ensures existing == if Key(changeId) in claims.docs then Some(claims.docs[Key(changeId)])
                          else if changeId in known then Some(known[changeId]) else None
    {
      var owner := claims.Get(Key(changeId));
      existing := if owner.Some? then owner else if changeId in known then Some(known[changeId]) else None;
    }

    /** Build the service, write it down, record its input, and claim the change. */
    method StartWorkflow(payload: Payload) returns (answer: Answer)
      requires Valid()
      modifies this, workflows, inputs, claims
      ensures (Stored(), View(), answer) == Started(old(Stored()), old(View()), payload)
    {
      hide MintWorkflowId, Safe;
      sequence := sequence + 1;
      var w := MintWorkflowId(namespace, sequence);
      live := live + {w};
      if !Safe(w) {
        return Raised(IdentifierRejected);
      }
      RecordChange(w, payload);
      answer := ClaimChange(payload.changeId, w);
    }

    /** `record_workflow` of the new workflow, then `_record_input` beside it. */
    method RecordChange(w: string, payload: Payload)
      requires Valid()
      modifies workflows, inputs
      ensures Stored() == Recorded(old(Stored()), w, payload)
    {
      var snapshot := workflows.Get(w);
      var revision := if snapshot.Some? then snapshot.value.revision else 0;
      workflows.Put(w, WorkflowDoc(payload.changeId, "CHANGE_RECEIVED", revision + 1));
      inputs.Put(w, payload);
    }

    /** `status` of an already accepted change: the live registry first, then the durable record. */
    method Resolve(existing: string) returns (answer: Answer)
      ensures answer == if existing in live || existing in workflows.docs then Returned(existing, false)
                        else Raised(WorkflowNotFound)
    {
      if existing in live {
        return Returned(existing, false);
      }
      var snapshot := workflows.Get(existing);
      answer := if snapshot.Some? then Returned(existing, false) else Raised(WorkflowNotFound);
    }

    /** `_claim`: the cache first, then the durable key. */
    method ClaimChange(changeId: string, w: string) returns (answer: Answer)
      requires Valid()
      modifies this`known, claims
      ensures (Stored(), View(), answer) == Claimed(old(Stored()), old(View()), changeId, w)
    {
      known := known[changeId := w];
      var key := Key(changeId);
      if !Safe(key) {
        return Raised(IdentifierRejected);
      }
      var created := claims.Create(key, w);
      if !created {
        var existing := claims.Get(key);
        if existing != Some(w) {
          return Raised(ConflictingRecord);
        }
      }
      return Returned(w, true);
    }
  }
}
