/** One set of documents, seen by several modules: ingestion looks at three fields of a workflow record, the store
    at whole records, a handoff at the documents of one workflow, and the history at states and events. Each view
    of an operation is the operation of that view. */
module Correspondence {
  import opened Basics
  import opened Identifiers
  import opened Serialization
  import Ingestion
  import WorkflowStore
  import ResumeSnapshot
  import Handoff
  import History
  import Overwrites
  import StateMachine

  // ------------------------------------------------------- ingestion and the store

  /** What ingestion sees of the workflow collection. */
  function IngestionView(docs: map<string, WorkflowRecord>): map<string, Ingestion.WorkflowDoc> {
    map id | id in docs :: Ingestion.WorkflowDoc(docs[id].workflow.changeId, docs[id].workflow.state, docs[id].revision)
  }

  /** Recording a new workflow in ingestion is the store's unconditional save of it. */
  lemma IngestionSavesToTheStore(docs: map<string, WorkflowRecord>, st: Ingestion.Store, w: Workflow, payload: Ingestion.Payload)
    requires Safe(w.id) && w.changeId == payload.changeId && w.state == "CHANGE_RECEIVED"
    requires st.workflows == IngestionView(docs)
    ensures IngestionView(WorkflowStore.SaveOp(docs, w, [], None).0) == Ingestion.Recorded(st, w.id, payload).workflows
  {
    hide Safe;
  }

  // ------------------------------------------------------- the store and a handoff

  type Durable = WorkflowStore.Durable<ResumeSnapshot.SnapshotDoc>

  function PathOf(w: string, id: string): string { Join(["workflows", w, "actions", id]) }

  /** `r` is what the store holds for workflow `w`. */
  ghost predicate Holds(ms: ResumeSnapshot.Models, d: Durable, w: string, r: Handoff.Records) {
    && r.workflow == (if w in d.workflows
                      then Some(EncodeWorkflow(ms.workflow, d.workflows[w].workflow, d.workflows[w].history, d.workflows[w].revision))
                      else None)
    && r.snapshot == (if w in d.snapshots then Some(d.snapshots[w]) else None)
    && HoldsLedger(ms, d.actions, w, r.actions)
  }

  ghost predicate HoldsLedger(ms: ResumeSnapshot.Models, actions: map<string, Action>, w: string,
                              documents: map<string, map<string, Json>>)
  {
    && (forall id :: id in documents ==> Safe(id))
    && (forall id :: Safe(id) ==> (id in documents <==> PathOf(w, id) in actions))
    && (forall id :: id in documents ==> documents[id] == EncodeAction(ms.action, actions[PathOf(w, id)]))
  }

  /** `entries` lists a ledger: each action once, under its own id, for workflow `w`. */
  ghost predicate Lists(entries: seq<Action>, ledger: map<string, Action>, w: string) {
    && (forall k :: 0 <= k < |entries| ==> entries[k].id in ledger && ledger[entries[k].id] == entries[k])
    && (forall k :: 0 <= k < |entries| ==> entries[k].workflowId == w)
    && (forall id :: id in ledger ==> exists k :: 0 <= k < |entries| && entries[k].id == id)
  }

  lemma PathsApart(w: string, id: string, other: string)
    requires Safe(w) && Safe(id) && Safe(other)
    ensures PathOf(w, id) == PathOf(w, other) ==> id == other
  {
    SafeExactly(w);
    SafeExactly(id);
    SafeExactly(other);
    if PathOf(w, id) == PathOf(w, other) {
      JoinInjective(["workflows", w, "actions", id], ["workflows", w, "actions", other]);
    }
  }

  /** The ledger without its `k`-th entry and later ones. */
  function LedgerOf(entries: seq<Action>): map<string, Action> {
    if entries == [] then map[]
    else LedgerOf(entries[..|entries| - 1])[entries[|entries| - 1].id := entries[|entries| - 1]]
  }

  lemma {:induction false} LedgerOfLists(entries: seq<Action>, ledger: map<string, Action>, w: string)
    requires Lists(entries, ledger, w)
    ensures LedgerOf(entries) == ledger
  {
    LedgerOfEntries(entries, ledger);
    forall id | id in ledger ensures id in LedgerOf(entries) {
      var k :| 0 <= k < |entries| && entries[k].id == id;
    }
  }

  lemma {:induction false} LedgerOfEntries(entries: seq<Action>, ledger: map<string, Action>)
    requires forall k :: 0 <= k < |entries| ==> entries[k].id in ledger && ledger[entries[k].id] == entries[k]
    ensures forall k :: 0 <= k < |entries| ==> entries[k].id in LedgerOf(entries)
    ensures forall id :: id in LedgerOf(entries) ==> id in ledger && LedgerOf(entries)[id] == ledger[id]
  {
    if entries != [] {
      LedgerOfEntries(entries[..|entries| - 1], ledger);
    }
  }

  lemma EncodeOneMore(m: Model<Action>, documents: map<string, map<string, Json>>, entries: seq<Action>)
    ensures entries == [] ==> documents + Handoff.EncodeLedger(m, LedgerOf(entries)) == documents
    ensures entries != [] ==>
              var shorter, last := entries[..|entries| - 1], entries[|entries| - 1];
              documents + Handoff.EncodeLedger(m, LedgerOf(entries))
              == (documents + Handoff.EncodeLedger(m, LedgerOf(shorter)))[last.id := EncodeAction(m, last)]
  {
    hide EncodeAction;
  }

  /** Flushing a ledger entry by entry leaves its documents over those that were there. */
  lemma {:induction false} FlushHolds(ms: ResumeSnapshot.Models, actions: map<string, Action>, w: string,
                                      documents: map<string, map<string, Json>>, entries: seq<Action>)
    requires Safe(w) && HoldsLedger(ms, actions, w, documents)
    requires forall k :: 0 <= k < |entries| ==> entries[k].workflowId == w
    requires WorkflowStore.RecordActions(actions, entries).1.Ok?
    ensures HoldsLedger(ms, WorkflowStore.RecordActions(actions, entries).0, w,
                        documents + Handoff.EncodeLedger(ms.action, LedgerOf(entries)))
  {
    hide Safe, EncodeAction, HoldsLedger, Handoff.EncodeLedger;
    EncodeOneMore(ms.action, documents, entries);
    if entries != [] {
      var shorter, last := entries[..|entries| - 1], entries[|entries| - 1];
      FlushHolds(ms, actions, w, documents, shorter);
      var before := documents + Handoff.EncodeLedger(ms.action, LedgerOf(shorter));
      SafelyRecorded(last);
      OneMoreHolds(ms, WorkflowStore.RecordActions(actions, shorter).0, w, before, last);
    }
  }

  lemma SafelyRecorded(a: Action)
    requires WorkflowStore.CheckAction(a).Ok?
    ensures Safe(a.id)
  {
  }

  lemma OneMoreHolds(ms: ResumeSnapshot.Models, actions: map<string, Action>, w: string,
                     documents: map<string, map<string, Json>>, a: Action)
    requires Safe(w) && Safe(a.id) && a.workflowId == w && HoldsLedger(ms, actions, w, documents)
    ensures HoldsLedger(ms, actions[WorkflowStore.ActionPath(a) := a], w, documents[a.id := EncodeAction(ms.action, a)])
  {
    hide Safe, EncodeAction, Join;
    forall id | Safe(id) && id != a.id ensures PathOf(w, id) != PathOf(w, a.id) {
      PathsApart(w, id, a.id);
    }
  }

  /** A flush that goes through leaves in the store exactly what a handoff calls persisted. */
  lemma PersistIsPersisted(ms: ResumeSnapshot.Models, d: Durable, revisions: map<string, int>, s: ResumeSnapshot.Session,
                           entries: seq<Action>, before: Handoff.Records)
    requires Holds(ms, d, s.workflow.id, before) && Lists(entries, s.ledger, s.workflow.id)
    requires var session := WorkflowStore.Session(s.workflow, ResumeSnapshot.Each(s.history, StateMachine.Name), entries,
                                                  ResumeSnapshot.Project(ms, s));
             WorkflowStore.PersistOp(d, revisions, session).2.Ok?
    ensures var session := WorkflowStore.Session(s.workflow, ResumeSnapshot.Each(s.history, StateMachine.Name), entries,
                                                 ResumeSnapshot.Project(ms, s));
            Holds(ms, WorkflowStore.PersistOp(d, revisions, session).0, s.workflow.id,
                  Handoff.Persisted(ms, s, before, WorkflowStore.StoredRevision(d.workflows, s.workflow.id) + 1))
  {
    hide Safe, ResumeSnapshot.Project, EncodeWorkflow, HoldsLedger, Handoff.EncodeLedger, ResumeSnapshot.Each;
    LedgerOfLists(entries, s.ledger, s.workflow.id);
    FlushHolds(ms, d.actions, s.workflow.id, before.actions, entries);
  }

  // ------------------------------------------------------- a handoff and the history

  /** How the history reads a workflow and a verification event. */
  datatype Reading = Reading(
    state: Workflow -> StateMachine.State,
    aggregate: Workflow -> seq<History.Event>,
    event: ResumeSnapshot.VerificationEvent -> History.Event
  )

  function DriverOf(rd: Reading, s: ResumeSnapshot.Session): History.Driver {
    History.Driver(s.local.sessionId, rd.state(s.workflow), s.history, ResumeSnapshot.Each(s.events, rd.event),
                   rd.aggregate(s.workflow))
  }

  /** The session a handoff rebuilds is, to the history, the driver rehydrated from what was written. */
  lemma HandoffIsRehydrated(rd: Reading, ms: ResumeSnapshot.Models, s: ResumeSnapshot.Session, before: Handoff.Records,
                            revision: int, base: ResumeSnapshot.Session, source: ResumeSnapshot.Source, stored: History.Stored)
    requires ResumeSnapshot.Sound(ms) && before.actions.Keys <= s.ledger.Keys
    requires Handoff.BeganFrom(s, source) && Handoff.BuiltFrom(base, source) && base.local.sessionId == "session-001"
    ensures var r := Handoff.Rehydrate(ms, Handoff.Persisted(ms, s, before, revision), base);
            var d := DriverOf(rd, s);
            r.Ok? && DriverOf(rd, r.value) == History.Rehydrated(History.WriteSnapshot(History.WriteWorkflow(stored, d), d))
  {
    hide Handoff.Rehydrate, Handoff.Persisted, Handoff.ProofContextOf, ResumeSnapshot.Sound, ResumeSnapshot.Each;
    Handoff.HandoffPreservesProofInputs(ms, s, before, revision, base, source);
  }

  /** The revision check that decides which drivers overwrite each other is the store's own: a seat's flush is accepted
      exactly when saving against what its sink remembers is, and both count one revision on. */
  lemma FlushIsASave(docs: map<string, WorkflowRecord>, w: Workflow, history: seq<string>, t: Overwrites.World, p: nat)
    requires p in t.seats && Safe(w.id) && WorkflowStore.StoredRevision(docs, w.id) == |t.writers|
    ensures var (after, r) := WorkflowStore.SaveOp(docs, w, history, t.seats[p].expected);
            var u := Overwrites.Flush(t, p, false);
            && (r.Ok? <==> Overwrites.Accepts(t, p))
            && WorkflowStore.StoredRevision(after, w.id) == |u.writers|
            && (r.Ok? ==> u.seats[p].expected == Some(r.value) && u.writers == t.writers + [p])
            && (r.Err? ==> u == t)
  {
    hide Safe;
  }
}
