/** Revision-checked workflow writes: the store's `save`, the per-process sink that turns successive
    saves into compare-and-set, and the application's `_persist` on top of it. */
module WorkflowStore {
  import opened Basics
  import opened Identifiers
  import opened DocumentStore
  import opened Serialization

  datatype SaveError = Rejected(reason: Rejection) | Conflict(expected: int, stored: int)

  function StoredRevision(docs: map<string, WorkflowRecord>, id: string): int {
    if id in docs then docs[id].revision else 0
  }

  /** One `save`: unconditional without an expected revision, compare-and-set with one. */
  function SaveOp(docs: map<string, WorkflowRecord>, w: Workflow, history: seq<string>, expected: Option<int>)
    : (map<string, WorkflowRecord>, Result<int, SaveError>)
  {
    var current := StoredRevision(docs, w.id);
    if !Safe(w.id) then (docs, Err(Rejected(SafeIdentifier(w.id).error)))
    else if expected.Some? && current != expected.value then (docs, Err(Conflict(expected.value, current)))
    else (docs[w.id := WorkflowRecord(w, history, current + 1)], Ok(current + 1))
  }

  function ActionPath(a: Action): string {
    Join(["workflows", a.workflowId, "actions", a.id])
  }

  /** The action ids that a ledger accepts as path segments. */
  function CheckAction(a: Action): Result<string, Rejection> {
    match SafeIdentifier(a.workflowId)
    case Err(e) => Err(e)
    case Ok(_) =>
      match SafeIdentifier(a.id)
      case Err(e) => Err(e)
      case Ok(_) => Ok(ActionPath(a))
  }

  /** What `_persist` writes for one session. */
  datatype Session<S> = Session(workflow: Workflow, history: seq<string>, ledger: seq<Action>, snapshot: S)

  datatype Durable<S> = Durable(
    workflows: map<string, WorkflowRecord>,
    actions: map<string, Action>,
    snapshots: map<string, S>
  )

  function RecordActions(actions: map<string, Action>, ledger: seq<Action>)
    : (map<string, Action>, Result<(), SaveError>)
  {
    if ledger == [] then (actions, Ok(()))
    else
      var (before, r) := RecordActions(actions, ledger[..|ledger| - 1]);
      var last := ledger[|ledger| - 1];
      if r.Err? then (before, r)
      else if CheckAction(last).Err? then (before, Err(Rejected(CheckAction(last).error)))
      else (before[ActionPath(last) := last], Ok(()))
  }

  function Remember(revisions: map<string, int>, id: string, r: Result<int, SaveError>): map<string, int> {
    if r.Ok? then revisions[id := r.value] else revisions
  }

  function Expected(revisions: map<string, int>, id: string): Option<int> {
    if id in revisions then Some(revisions[id]) else None
  }

  /** The whole of `_persist`: the workflow first, then the ledger, then the snapshot. */
  function PersistOp<S>(d: Durable<S>, revisions: map<string, int>, s: Session<S>)
    : (Durable<S>, map<string, int>, Result<(), SaveError>)
  {
    var (workflows, saved) := SaveOp(d.workflows, s.workflow, s.history, Expected(revisions, s.workflow.id));
    if saved.Err? then (d, revisions, Err(saved.error))
    else
      var known := Remember(revisions, s.workflow.id, saved);
      var (actions, r) := RecordActions(d.actions, s.ledger);
      if r.Err? then (Durable(workflows, actions, d.snapshots), known, r)
      else (Durable(workflows, actions, d.snapshots[s.workflow.id := s.snapshot]), known, Ok(()))
  }

  /** A save either changes nothing or puts the workflow and its history under the next revision, 1 for the first. */
  lemma SaveStores(docs: map<string, WorkflowRecord>, w: Workflow, history: seq<string>, expected: Option<int>)
    ensures var (after, r) := SaveOp(docs, w, history, expected);
            && after - {w.id} == docs - {w.id}
            && (r.Err? ==> after == docs)
            && (r.Ok? ==>
                  && w.id in after && after[w.id].workflow == w && after[w.id].history == history
                  && r.value == after[w.id].revision == (if w.id in docs then docs[w.id].revision + 1 else 1))
            && (r.Err? && Safe(w.id) ==>
                  r.error == Conflict(expected.value, if w.id in docs then docs[w.id].revision else 0))
  {
    hide Safe;
  }

  /** A ledger is accepted exactly when the ids of all its entries are safe. */
  lemma {:induction false} LedgerAccepted(actions: map<string, Action>, ledger: seq<Action>)
    ensures RecordActions(actions, ledger).1.Ok? <==>
            forall k :: 0 <= k < |ledger| ==> Safe(ledger[k].workflowId) && Safe(ledger[k].id)
  {
    hide ActionPath, SafeIdentifier;
    if ledger != [] {
      LedgerAccepted(actions, ledger[..|ledger| - 1]);
    }
  }

  /** No later entry has the path of entry `k`. */
  predicate LastUnder(ledger: seq<Action>, k: nat)
    requires k < |ledger|
  {
    forall j :: k < j < |ledger| ==> ActionPath(ledger[j]) != ActionPath(ledger[k])
  }

  /** What an accepted ledger stores under the path of an entry is the last entry of that path. */
  lemma {:induction false} LedgerStored(actions: map<string, Action>, ledger: seq<Action>, k: nat)
    requires RecordActions(actions, ledger).1.Ok? && k < |ledger| && LastUnder(ledger, k)
    ensures var after := RecordActions(actions, ledger).0;
            ActionPath(ledger[k]) in after && after[ActionPath(ledger[k])] == ledger[k]
  {
    hide ActionPath, CheckAction;
    if k < |ledger| - 1 {
      LedgerStored(actions, ledger[..|ledger| - 1], k);
    }
  }

  /** Documents under no path of the ledger stay as they were, accepted or not. */
  lemma {:induction false} LedgerLeaves(actions: map<string, Action>, ledger: seq<Action>, path: string)
    requires forall k :: 0 <= k < |ledger| ==> ActionPath(ledger[k]) != path
    ensures var after := RecordActions(actions, ledger).0;
            (path in after <==> path in actions) && (path in after ==> after[path] == actions[path])
  {
    hide ActionPath, CheckAction;
    if ledger != [] {
      LedgerLeaves(actions, ledger[..|ledger| - 1], path);
    }
  }

  lemma ActionPathIs(a: Action)
    ensures ActionPath(a) == "workflows" + "/" + a.workflowId + "/" + "actions" + "/" + a.id
  {
    JoinOfFour("workflows", a.workflowId, "actions", a.id);
    hide Join;
  }

  /** A flush leaves every other workflow alone; one that succeeds stores workflow, history and snapshot of this one and
      remembers the revision it stored. */
  lemma PersistExactly<S>(d: Durable<S>, revisions: map<string, int>, s: Session<S>)
    ensures var (after, known, r) := PersistOp(d, revisions, s); var id := s.workflow.id;
            && after.workflows - {id} == d.workflows - {id} && after.snapshots - {id} == d.snapshots - {id}
            && known - {id} == revisions - {id}
            && (r.Err? ==> after.snapshots == d.snapshots)
            && (r.Ok? ==>
                  && id in after.workflows && after.workflows[id].workflow == s.workflow && after.workflows[id].history == s.history
                  && id in known && known[id] == after.workflows[id].revision
                  && id in after.snapshots && after.snapshots[id] == s.snapshot
                  && after.actions == RecordActions(d.actions, s.ledger).0 && RecordActions(d.actions, s.ledger).1.Ok?)
  {
    var id := s.workflow.id;
    var (workflows, saved) := SaveOp(d.workflows, s.workflow, s.history, Expected(revisions, id));
    SaveStores(d.workflows, s.workflow, s.history, Expected(revisions, id));
    hide RecordActions, SaveOp;
    assert d.snapshots[id := s.snapshot] - {id} == d.snapshots - {id};
    assert saved.Ok? ==> revisions[id := saved.value] - {id} == revisions - {id};
  }

  class FirestoreSink<S> {
    const workflows: Collection<WorkflowRecord>
    const actions: Collection<Action>
    const snapshots: Collection<S>
    var revisions: map<string, int>

    constructor (workflows: Collection<WorkflowRecord>, actions: Collection<Action>, snapshots: Collection<S>)
      requires workflows as object != actions && workflows as object != snapshots && actions as object != snapshots
      ensures this.workflows == workflows && this.actions == actions && this.snapshots == snapshots
      ensures Valid() && revisions == map[]
    {
      this.workflows := workflows;
      this.actions := actions;
      this.snapshots := snapshots;
      this.revisions := map[];
    }

    /** The three collections of the store are different collections. */
    ghost predicate Valid() {
      workflows as object != actions && workflows as object != snapshots && actions as object != snapshots
    }

    function Stored(): Durable<S>
      reads workflows, actions, snapshots
    {
      Durable(workflows.docs, actions.docs, snapshots.docs)
    }

    /** `FirestoreWorkflowStore.save`. */
    method Save(w: Workflow, history: seq<string>, expected: Option<int>) returns (r: Result<int, SaveError>)
      modifies workflows
      ensures (workflows.docs, r) == SaveOp(old(workflows.docs), w, history, expected)
    {
      var id := SafeIdentifier(w.id);
      if id.Err? {
        return Err(Rejected(id.error));
      }
      var snapshot := workflows.Get(w.id);
      var current := if snapshot.Some? then snapshot.value.revision else 0;
      if expected.Some? && current != expected.value {
        return Err(Conflict(expected.value, current));
      }
      var revision := current + 1;
      workflows.Put(w.id, WorkflowRecord(w, history, revision));
      return Ok(revision);
    }

    method RecordWorkflow(w: Workflow, history: seq<string>) returns (r: Result<int, SaveError>)
      modifies this, workflows
      ensures (workflows.docs, r) == SaveOp(old(workflows.docs), w, history, Expected(old(revisions), w.id))
      ensures revisions == Remember(old(revisions), w.id, r)
    {
      r := Save(w, history, if w.id in revisions then Some(revisions[w.id]) else None);
      if r.Ok? {
        revisions := revisions[w.id := r.value];
      }
    }

    method RecordAction(a: Action) returns (r: Result<(), SaveError>)
      modifies actions
      ensures CheckAction(a).Ok? ==> r == Ok(()) && actions.docs == old(actions.docs)[ActionPath(a) := a]
      ensures CheckAction(a).Err? ==> r == Err(Rejected(CheckAction(a).error)) && actions.docs == old(actions.docs)
    {
      var path := CheckAction(a);
      if path.Err? {
        return Err(Rejected(path.error));
      }
      actions.Put(path.value, a);
      return Ok(());
    }

    method Persist(s: Session<S>) returns (r: Result<(), SaveError>)
      requires Valid()
      modifies this, workflows, actions, snapshots
      ensures (Stored(), revisions, r) == PersistOp(old(Stored()), old(revisions), s)
    {
      var saved := RecordWorkflow(s.workflow, s.history);
      if saved.Err? {
        return Err(saved.error);
      }
      for i := 0 to |s.ledger|
        invariant actions.docs == RecordActions(old(actions.docs), s.ledger[..i]).0
        invariant RecordActions(old(actions.docs), s.ledger[..i]).1.Ok?
        invariant workflows.docs == SaveOp(old(workflows.docs), s.workflow, s.history,
                                           Expected(old(revisions), s.workflow.id)).0
        invariant revisions == Remember(old(revisions), s.workflow.id, saved)
        invariant snapshots.docs == old(snapshots.docs)
      {
        assert s.ledger[..i + 1][..i] == s.ledger[..i];
        var recorded := RecordAction(s.ledger[i]);
        if recorded.Err? {
          RecordActionsStops(old(actions.docs), s.ledger, i + 1);
          return recorded;
        }
      }
      assert s.ledger[..|s.ledger|] == s.ledger;
      snapshots.Put(s.workflow.id, s.snapshot);
      return Ok(());
    }
  }

  /** A refused ledger entry ends the flush: later entries are not written. */
  lemma {:induction false} RecordActionsStops(actions: map<string, Action>, ledger: seq<Action>, i: nat)
    requires i <= |ledger| && RecordActions(actions, ledger[..i]).1.Err?
    ensures RecordActions(actions, ledger) == RecordActions(actions, ledger[..i])
    decreases |ledger|
  {
    if i < |ledger| {
      assert ledger[..|ledger| - 1][..i] == ledger[..i];
      RecordActionsStops(actions, ledger[..|ledger| - 1], i);
    } else {
      assert ledger[..i] == ledger;
    }
  }

  // ------------------------------------------------------- runs of many sinks

  /** One successful workflow write, as it happened. */
  datatype Write = Write(sink: nat, workflow: string, revision: int)

  datatype World<S> = World(stored: Durable<S>, sinks: map<nat, map<string, int>>, log: seq<Write>)

  /** `accept_change` records the bare workflow; every use case persists its session. */
  datatype Event<S> = RecordEvent(sink: nat, session: Session<S>) | PersistEvent(sink: nat, session: Session<S>)

  function RevisionsOf<S>(t: World<S>, sink: nat): map<string, int> {
    if sink in t.sinks then t.sinks[sink] else map[]
  }

  /** The save that an event starts with. */
  function SaveOf<S>(t: World<S>, e: Event<S>): (map<string, WorkflowRecord>, Result<int, SaveError>) {
    SaveOp(t.stored.workflows, e.session.workflow, e.session.history,
           Expected(RevisionsOf(t, e.sink), e.session.workflow.id))
  }

  function Next<S>(t: World<S>, e: Event<S>): World<S> {
    var (workflows, saved) := SaveOf(t, e);
    var known := Remember(RevisionsOf(t, e.sink), e.session.workflow.id, saved);
    World(
      if e.RecordEvent? then t.stored.(workflows := workflows)
      else PersistOp(t.stored, RevisionsOf(t, e.sink), e.session).0,
      t.sinks[e.sink := known],
      if saved.Ok? then t.log + [Write(e.sink, e.session.workflow.id, saved.value)] else t.log)
  }

  function Exec<S>(es: seq<Event<S>>): World<S> {
    if es == [] then World(Durable(map[], map[], map[]), map[], [])
    else Next(Exec(es[..|es| - 1]), es[|es| - 1])
  }

  /** The writes to one workflow document, in order. */
  function WritesTo(log: seq<Write>, w: string): (ws: seq<Write>)
    ensures forall i :: 0 <= i < |ws| ==> ws[i].workflow == w
  {
    if log == [] then []
    else
      var last := log[|log| - 1];
      WritesTo(log[..|log| - 1], w) + (if last.workflow == w then [last] else [])
  }

  predicate HasWritten(ws: seq<Write>, sink: nat) {
    exists i :: 0 <= i < |ws| && ws[i].sink == sink
  }

  predicate IsLastWriter(ws: seq<Write>, sink: nat) {
    ws != [] && ws[|ws| - 1].sink == sink
  }

  /** The revision of the last write of `sink` among `ws`. */
  function LastRevision(ws: seq<Write>, sink: nat): int
    requires HasWritten(ws, sink)
  {
    var last := ws[|ws| - 1];
    if last.sink == sink then last.revision
    else
      assert HasWritten(ws[..|ws| - 1], sink) by {
        var i :| 0 <= i < |ws| && ws[i].sink == sink;
        assert ws[..|ws| - 1][i].sink == sink;
      }
      LastRevision(ws[..|ws| - 1], sink)
  }

  /** Revisions run 1, 2, 3, ... and every sink's writes form one block. */
  ghost predicate Numbered(ws: seq<Write>) {
    forall i :: 0 <= i < |ws| ==> ws[i].revision == i + 1
  }

  ghost predicate Contiguous(ws: seq<Write>) {
    forall i, j, k :: 0 <= i < j < k < |ws| && ws[i].sink == ws[k].sink ==> ws[j].sink == ws[i].sink
  }

  ghost predicate InvFor<S>(t: World<S>, w: string) {
    var ws := WritesTo(t.log, w);
    && Numbered(ws) && Contiguous(ws)
    && StoredRevision(t.stored.workflows, w) == |ws|
    && (forall sink: nat :: w in RevisionsOf(t, sink) <==> HasWritten(ws, sink))
    && (forall sink: nat :: HasWritten(ws, sink) ==> RevisionsOf(t, sink)[w] == LastRevision(ws, sink))
  }

  lemma {:induction false} LastRevisionIsCurrent(ws: seq<Write>, sink: nat)
    requires Numbered(ws) && HasWritten(ws, sink)
    ensures LastRevision(ws, sink) == |ws| <==> IsLastWriter(ws, sink)
    ensures LastRevision(ws, sink) <= |ws|
  {
    if !IsLastWriter(ws, sink) {
      var shorter := ws[..|ws| - 1];
      var i :| 0 <= i < |ws| && ws[i].sink == sink;
      assert shorter[i].sink == sink;
      LastRevisionIsCurrent(shorter, sink);
    }
  }

  /** A block grows at its end: the writer is new or wrote last. */
  lemma ContiguousExtends(ws: seq<Write>, x: Write)
    requires Contiguous(ws) && (HasWritten(ws, x.sink) ==> IsLastWriter(ws, x.sink))
    ensures Contiguous(ws + [x])
  {
    var all := ws + [x];
    forall i, j, k | 0 <= i < j < k < |all| && all[i].sink == all[k].sink ensures all[j].sink == all[i].sink {
      if k == |ws| {
        assert HasWritten(ws, x.sink) by { assert ws[i].sink == x.sink; }
        assert ws[|ws| - 1].sink == ws[i].sink;
      }
    }
  }

  lemma AppendedWrites(ws: seq<Write>, x: Write)
    ensures forall sink: nat :: HasWritten(ws + [x], sink) <==> HasWritten(ws, sink) || x.sink == sink
    ensures forall sink: nat :: HasWritten(ws + [x], sink) ==>
              LastRevision(ws + [x], sink) == (if x.sink == sink then x.revision else LastRevision(ws, sink))
  {
    forall sink: nat
      ensures HasWritten(ws + [x], sink) <==> HasWritten(ws, sink) || x.sink == sink
      ensures HasWritten(ws + [x], sink) ==>
                LastRevision(ws + [x], sink) == (if x.sink == sink then x.revision else LastRevision(ws, sink))
    {
      AppendedWrite(ws, x, sink);
    }
  }

  lemma AppendedWrite(ws: seq<Write>, x: Write, sink: nat)
    ensures HasWritten(ws + [x], sink) <==> HasWritten(ws, sink) || x.sink == sink
    ensures HasWritten(ws + [x], sink) ==>
              LastRevision(ws + [x], sink) == (if x.sink == sink then x.revision else LastRevision(ws, sink))
  {
    var all := ws + [x];
    assert all[|ws|] == x && all[..|all| - 1] == ws;
    if HasWritten(ws, sink) {
      var i :| 0 <= i < |ws| && ws[i].sink == sink;
      assert all[i].sink == sink;
    }
  }

  /** The compare-and-set succeeds exactly for a sink that never wrote the document or wrote it last. */
  lemma SaveExactly<S>(t: World<S>, e: Event<S>)
    requires InvFor(t, e.session.workflow.id)
    ensures var ws := WritesTo(t.log, e.session.workflow.id);
            SaveOf(t, e).1.Ok? <==>
              Safe(e.session.workflow.id) && (HasWritten(ws, e.sink) ==> IsLastWriter(ws, e.sink))
  {
    var ws := WritesTo(t.log, e.session.workflow.id);
    if HasWritten(ws, e.sink) {
      LastRevisionIsCurrent(ws, e.sink);
    }
  }

  /** What one event does to the parts that the invariant of a document speaks of. */
  lemma NextInParts<S>(t: World<S>, e: Event<S>, w: string)
    ensures var u, saved := Next(t, e), SaveOf(t, e).1;
            var own := e.session.workflow.id == w && saved.Ok?;
            && u.stored.workflows == SaveOf(t, e).0
            && StoredRevision(u.stored.workflows, w) ==
                 (if own then saved.value else StoredRevision(t.stored.workflows, w))
            && WritesTo(u.log, w) == WritesTo(t.log, w) + (if own then [Write(e.sink, w, saved.value)] else [])
            && (forall sink: nat :: Expected(RevisionsOf(u, sink), w) ==
                  if own && sink == e.sink then Some(saved.value) else Expected(RevisionsOf(t, sink), w))
  {
    var u, saved := Next(t, e), SaveOf(t, e).1;
    if saved.Ok? {
      assert u.log[..|u.log| - 1] == t.log;
    }
  }

  lemma NextKeepsInv<S>(t: World<S>, e: Event<S>, w: string)
    requires InvFor(t, w)
    ensures InvFor(Next(t, e), w)
  {
    var u, ws, saved := Next(t, e), WritesTo(t.log, w), SaveOf(t, e).1;
    NextInParts(t, e, w);
    hide Next;
    if saved.Ok? && e.session.workflow.id == w {
      var x := Write(e.sink, w, saved.value);
      SaveExactly(t, e);
      ContiguousExtends(ws, x);
      AppendedWrites(ws, x);
    } else {
      assert WritesTo(u.log, w) == ws;
    }
    forall sink: nat
      ensures w in RevisionsOf(u, sink) <==> HasWritten(WritesTo(u.log, w), sink)
      ensures HasWritten(WritesTo(u.log, w), sink) ==>
                RevisionsOf(u, sink)[w] == LastRevision(WritesTo(u.log, w), sink)
    {
      assert Expected(RevisionsOf(u, sink), w).Some? <==> w in RevisionsOf(u, sink);
      assert Expected(RevisionsOf(t, sink), w).Some? <==> w in RevisionsOf(t, sink);
    }
  }

  lemma {:induction false} RunKeepsInv<S>(es: seq<Event<S>>, w: string)
    ensures InvFor(Exec(es), w)
    decreases |es|
  {
    if es == [] {
      assert WritesTo(Exec(es).log, w) == [];
    } else {
      var before, e := es[..|es| - 1], es[|es| - 1];
      RunKeepsInv(before, w);
      NextKeepsInv(Exec(before), e, w);
    }
  }

  /** Over every run of any number of sinks: no gap, no repeat, one block per sink. */
  lemma RevisionsRunInBlocks<S>(es: seq<Event<S>>, w: string)
    ensures var ws := WritesTo(Exec(es).log, w);
            Numbered(ws) && Contiguous(ws) && StoredRevision(Exec(es).stored.workflows, w) == |ws|
  {
    RunKeepsInv(es, w);
  }

  /** Another sink has written the document after `sink` did. */
  ghost predicate Overtaken(ws: seq<Write>, sink: nat) {
    exists i, j :: 0 <= i < j < |ws| && ws[i].sink == sink && ws[j].sink != sink
  }

  lemma OvertakenIsNotLast(ws: seq<Write>, sink: nat)
    requires Contiguous(ws)
    ensures Overtaken(ws, sink) <==> HasWritten(ws, sink) && !IsLastWriter(ws, sink)
  {
    if Overtaken(ws, sink) {
      var i, j :| 0 <= i < j < |ws| && ws[i].sink == sink && ws[j].sink != sink;
      assert IsLastWriter(ws, sink) ==> i < j < |ws| - 1;
    }
    if HasWritten(ws, sink) && !IsLastWriter(ws, sink) {
      var i :| 0 <= i < |ws| && ws[i].sink == sink;
      assert ws[|ws| - 1].sink != sink;
    }
  }

  /** Once another sink has written after it, a sink's every later `_persist` of that workflow is
      refused before it touches workflow, ledger or snapshot. */
  lemma FencedPersistTouchesNothing<S>(es: seq<Event<S>>, sink: nat, s: Session<S>)
    requires Overtaken(WritesTo(Exec(es).log, s.workflow.id), sink)
    ensures var t := Exec(es);
            var (stored, revisions, r) := PersistOp(t.stored, RevisionsOf(t, sink), s);
            r.Err? && stored == t.stored && revisions == RevisionsOf(t, sink)
  {
    RunKeepsInv(es, s.workflow.id);
    var t := Exec(es);
    hide Exec, RecordActions, WritesTo;
    OvertakenIsNotLast(WritesTo(t.log, s.workflow.id), sink);
    SaveExactly(t, PersistEvent(sink, s));
  }

  /** And only then: the last writer of a workflow is never refused its next revision. */
  lemma LastWriterIsNeverFenced<S>(es: seq<Event<S>>, sink: nat, s: Session<S>)
    requires IsLastWriter(WritesTo(Exec(es).log, s.workflow.id), sink)
    ensures var t := Exec(es);
            var r := SaveOf(t, PersistEvent(sink, s)).1;
            Safe(s.workflow.id) ==> r == Ok(|WritesTo(t.log, s.workflow.id)| + 1)
  {
    RunKeepsInv(es, s.workflow.id);
    SaveExactly(Exec(es), PersistEvent(sink, s));
  }
}
