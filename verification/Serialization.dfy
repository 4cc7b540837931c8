/** Durable documents: JSON values, versioned envelopes, and the workflow, action and proof records. */
module Serialization {
  import opened Basics

  datatype Json =
    | Null
    | Bool(flag: bool)
    | Num(number: int)
    | Str(text: string)
    | Arr(items: seq<Json>)
    | Obj(fields: map<string, Json>)
  {
    /** Python's truth value of the decoded document part. */
    predicate Truthy() {
      match this
      case Null => false
      case Bool(b) => b
      case Num(n) => n != 0
      case Str(s) => s != ""
      case Arr(xs) => xs != []
      case Obj(m) => m != map[]
    }
  }

  /** `document.get(key)` on a mapping, with `Null` standing for both absent and null. */
  function Field(document: map<string, Json>, key: string): Json {
    if key in document then document[key] else Null
  }

  /** A validated model: how it is dumped and how a dump is validated back. */
  datatype Model<!T> = Model(dump: T -> Json, validate: Json -> Option<T>)

  /** A dump is a non-empty mapping and validates back to what was dumped. */
  ghost predicate Lawful<T(!new)>(m: Model<T>) {
    forall x :: m.dump(x).Obj? && m.dump(x).Truthy() && m.validate(m.dump(x)) == Some(x)
  }

  /** The conversions `str(item)` and `int(value)` on values read back from a document. */
  datatype Conversions = Conversions(text: Json -> string, whole: Json -> Option<int>)

  ghost predicate Faithful(c: Conversions) {
    && (forall s :: c.text(Str(s)) == s)
    && (forall n :: c.whole(Num(n)) == Some(n))
  }

  datatype Workflow = Workflow(id: string, changeId: string, state: string, body: Json)
  datatype WorkflowRecord = WorkflowRecord(workflow: Workflow, history: seq<string>, revision: int)
  datatype Action = Action(id: string, workflowId: string, status: string, attempts: nat, body: Json)
  datatype Proof = Proof(id: string, workflowId: string, contentHash: string, body: Json)

  datatype DocumentError =
    | UnsupportedVersion | WrongKind | NoPayload | InvalidPayload | InvalidHistory | InvalidRevision
    | BytesDiffer | HashMismatch

  const DOCUMENT_SCHEMA_VERSION := 1

  /** Equality with the version number; Python's `True` equals 1. */
  predicate IsVersion(j: Json) {
    j == Num(DOCUMENT_SCHEMA_VERSION) || j == Bool(true)
  }

  function Envelope(kind: string, payload: Json): map<string, Json> {
    map["schema_version" := Num(DOCUMENT_SCHEMA_VERSION), "kind" := Str(kind), "payload" := payload]
  }

  function OpenEnvelope(document: map<string, Json>, kind: string): Result<Json, DocumentError> {
    if !IsVersion(Field(document, "schema_version")) then Err(UnsupportedVersion)
    else if Field(document, "kind") != Str(kind) then Err(WrongKind)
    else if !Field(document, "payload").Obj? then Err(NoPayload)
    else Ok(Field(document, "payload"))
  }

  function DecodeWith<T>(m: Model<T>, document: map<string, Json>, kind: string): Result<T, DocumentError> {
    match OpenEnvelope(document, kind)
    case Err(e) => Err(e)
    case Ok(payload) =>
      match m.validate(payload)
      case None => Err(InvalidPayload)
      case Some(x) => Ok(x)
  }

  /** A document written by this build opens under another version value exactly when that value is the number or
      `true`, which Python takes for 1. */
  lemma VersionAcceptedExactly(kind: string, payload: Json, version: Json)
    requires payload.Obj?
    ensures OpenEnvelope(Envelope(kind, payload)["schema_version" := version], kind) == Ok(payload)
            <==> version == Num(1) || version == Bool(true)
  {
    assert Field(Envelope(kind, payload)["schema_version" := version], "kind") == Str(kind);
    assert Field(Envelope(kind, payload)["schema_version" := version], "payload") == payload;
  }

  function Strings(xs: seq<string>): seq<Json> {
    seq(|xs|, i requires 0 <= i < |xs| => Str(xs[i]))
  }

  function Texts(c: Conversions, items: seq<Json>): seq<string> {
    seq(|items|, i requires 0 <= i < |items| => c.text(items[i]))
  }

  lemma TextsOfStrings(c: Conversions, xs: seq<string>)
    requires Faithful(c)
    ensures Texts(c, Strings(xs)) == xs
  {
  }

  // ------------------------------------------------------- workflows

  function EncodeWorkflow(m: Model<Workflow>, w: Workflow, history: seq<string>, revision: int): map<string, Json> {
    Envelope("workflow", m.dump(w))
    + map["state_history" := Arr(Strings(history)), "revision" := Num(revision),
          "workflow_id" := Str(w.id), "change_id" := Str(w.changeId), "state" := Str(w.state)]
  }

  function DecodeWorkflowRecord(m: Model<Workflow>, c: Conversions, document: map<string, Json>)
    : Result<WorkflowRecord, DocumentError>
  {
    match DecodeWith(m, document, "workflow")
    case Err(e) => Err(e)
    case Ok(w) =>
      var stored := Field(document, "state_history");
      var history := if stored.Truthy() then stored else Arr([]);
      var revision := if "revision" in document then c.whole(document["revision"]) else Some(0);
      if !history.Arr? then Err(InvalidHistory)
      else if revision.None? then Err(InvalidRevision)
      else
        Ok(WorkflowRecord(w, Texts(c, history.items), revision.value))
  }

  /** The envelope, the index fields and the recovery fields of a workflow document, under their stored names. */
  lemma WorkflowFields(m: Model<Workflow>, w: Workflow, history: seq<string>, revision: int)
    ensures var d := EncodeWorkflow(m, w, history, revision);
            && d.Keys == {"schema_version", "kind", "payload", "state_history", "revision", "workflow_id", "change_id", "state"}
            && d["schema_version"] == Num(1) && d["kind"] == Str("workflow") && d["payload"] == m.dump(w)
            && d["workflow_id"] == Str(w.id) && d["change_id"] == Str(w.changeId) && d["state"] == Str(w.state)
            && d["revision"] == Num(revision) && d["state_history"].Arr? && |d["state_history"].items| == |history|
            && forall k :: 0 <= k < |history| ==> d["state_history"].items[k] == Str(history[k])
  {
    var d := EncodeWorkflow(m, w, history, revision);
    assert |"state"| == 5 && |"state_history"| == 13;
    assert d["state_history"] == Arr(Strings(history));
  }

  /** A document from before the recovery fields reads as a workflow without history at revision 0. */
  lemma OldWorkflowReads(m: Model<Workflow>, c: Conversions, w: Workflow, history: seq<string>, revision: int)
    requires Lawful(m)
    ensures DecodeWorkflowRecord(m, c, EncodeWorkflow(m, w, history, revision) - {"state_history", "revision"})
            == Ok(WorkflowRecord(w, [], 0))
  {
    var document := EncodeWorkflow(m, w, history, revision) - {"state_history", "revision"};
    hide Strings;
    assert Field(document, "payload") == m.dump(w);
    assert DecodeWith(m, document, "workflow") == Ok(w);
    assert Field(document, "state_history") == Null && "revision" !in document;
    assert Texts(c, []) == [];
  }

  lemma WorkflowRoundTrip(m: Model<Workflow>, c: Conversions, w: Workflow, history: seq<string>, revision: int)
    requires Lawful(m) && Faithful(c)
    ensures DecodeWorkflowRecord(m, c, EncodeWorkflow(m, w, history, revision))
            == Ok(WorkflowRecord(w, history, revision))
  {
    var document := EncodeWorkflow(m, w, history, revision);
    TextsOfStrings(c, history);
    hide Strings, Texts;
    assert Field(document, "payload") == m.dump(w);
    assert DecodeWith(m, document, "workflow") == Ok(w);
    assert Field(document, "state_history") == Arr(Strings(history));
    assert Strings(history) == [] ==> Texts(c, []) == history;
  }

  // ------------------------------------------------------- actions

  function EncodeAction(m: Model<Action>, a: Action): map<string, Json> {
    Envelope("action", m.dump(a))
    + map["action_id" := Str(a.id), "workflow_id" := Str(a.workflowId), "status" := Str(a.status),
          "attempt_count" := Num(a.attempts)]
  }

  lemma ActionFields(m: Model<Action>, a: Action)
    ensures var d := EncodeAction(m, a);
            && d.Keys == {"schema_version", "kind", "payload", "action_id", "workflow_id", "status", "attempt_count"}
            && d["schema_version"] == Num(1) && d["kind"] == Str("action") && d["payload"] == m.dump(a)
            && d["action_id"] == Str(a.id) && d["workflow_id"] == Str(a.workflowId) && d["status"] == Str(a.status)
            && d["attempt_count"] == Num(a.attempts)
  {
    assert |"action_id"| == 9 && |"workflow_id"| == 11;
  }

  lemma ActionRoundTrip(m: Model<Action>, a: Action)
    requires Lawful(m)
    ensures DecodeWith(m, EncodeAction(m, a), "action") == Ok(a)
  {
    assert Field(EncodeAction(m, a), "payload") == m.dump(a);
  }

  // ------------------------------------------------------- proofs

  function EncodeProof(m: Model<Proof>, canonical: Json -> string, p: Proof): map<string, Json> {
    Envelope("proof", m.dump(p))
    + map["proof_id" := Str(p.id), "workflow_id" := Str(p.workflowId), "content_hash" := Str(p.contentHash),
          "canonical_bytes" := Str(canonical(m.dump(p)))]
  }

  function DecodeProof(m: Model<Proof>, canonical: Json -> string, document: map<string, Json>)
    : Result<Proof, DocumentError>
  {
    match DecodeWith(m, document, "proof")
    case Err(e) => Err(e)
    case Ok(p) =>
      var bytes := Field(document, "canonical_bytes");
      var hash := Field(document, "content_hash");
      if bytes != Null && bytes != Str(canonical(m.dump(p))) then Err(BytesDiffer)
      else if hash != Null && hash != Str(p.contentHash) then Err(HashMismatch)
      else Ok(p)
  }

  lemma ProofFields(m: Model<Proof>, canonical: Json -> string, p: Proof)
    ensures var d := EncodeProof(m, canonical, p);
            && d.Keys == {"schema_version", "kind", "payload", "proof_id", "workflow_id", "content_hash", "canonical_bytes"}
            && d["schema_version"] == Num(1) && d["kind"] == Str("proof") && d["payload"] == m.dump(p)
            && d["proof_id"] == Str(p.id) && d["workflow_id"] == Str(p.workflowId)
            && d["content_hash"] == Str(p.contentHash) && d["canonical_bytes"] == Str(canonical(m.dump(p)))
  {
    assert |"proof_id"| == 8 && |"workflow_id"| == 11 && |"content_hash"| == 12 && |"canonical_bytes"| == 15;
  }

  /** A stored proof under other bytes or another hash is refused exactly when the replacement is neither the right one
      nor missing; the bytes are looked at first. */
  lemma TamperedProofRefused(m: Model<Proof>, canonical: Json -> string, p: Proof, bytes: Json, hash: Json)
    requires Lawful(m)
    ensures var d := EncodeProof(m, canonical, p)["canonical_bytes" := bytes]["content_hash" := hash];
            DecodeProof(m, canonical, d) ==
              if bytes !in {Null, Str(canonical(m.dump(p)))} then Err(BytesDiffer)
              else if hash !in {Null, Str(p.contentHash)} then Err(HashMismatch)
              else Ok(p)
  {
    var d := EncodeProof(m, canonical, p)["canonical_bytes" := bytes]["content_hash" := hash];
    assert |"content_hash"| == 12 && |"canonical_bytes"| == 15;
    assert Field(d, "payload") == m.dump(p);
    assert DecodeWith(m, d, "proof") == Ok(p);
    assert Field(d, "canonical_bytes") == bytes && Field(d, "content_hash") == hash;
  }

  lemma ProofRoundTrip(m: Model<Proof>, canonical: Json -> string, p: Proof)
    requires Lawful(m)
    ensures DecodeProof(m, canonical, EncodeProof(m, canonical, p)) == Ok(p)
  {
    assert Field(EncodeProof(m, canonical, p), "payload") == m.dump(p);
  }

  /** No tampering with one part of an encoded proof goes unnoticed: whatever the decoder accepts
      under the stored bytes and hash of `p` carries exactly that canonical form and hash. */
  lemma AcceptedProofKeepsIdentity(m: Model<Proof>, canonical: Json -> string, p: Proof, payload: Json)
    requires Lawful(m)
    requires DecodeProof(m, canonical, EncodeProof(m, canonical, p)["payload" := payload]).Ok?
    ensures var q := DecodeProof(m, canonical, EncodeProof(m, canonical, p)["payload" := payload]).value;
            canonical(m.dump(q)) == canonical(m.dump(p)) && q.contentHash == p.contentHash
    ensures (forall x, y :: canonical(x) == canonical(y) ==> x == y) ==>
              DecodeProof(m, canonical, EncodeProof(m, canonical, p)["payload" := payload]) == Ok(p)
  {
    var document := EncodeProof(m, canonical, p)["payload" := payload];
    var q := DecodeProof(m, canonical, document).value;
    assert Field(document, "canonical_bytes") == Str(canonical(m.dump(p)));
    assert Field(document, "content_hash") == Str(p.contentHash);
    if m.dump(q) == m.dump(p) {
      assert Some(q) == m.validate(m.dump(q)) == Some(p);
    }
  }

  /** A document of another version or kind, or without a payload mapping, is refused by every
      decoder; one of the right version and kind is refused only for what it carries. */
  lemma ForeignDocumentsRefused<T(!new)>(m: Model<T>, document: map<string, Json>, kind: string)
    ensures DecodeWith(m, document, kind).Ok? <==>
              && IsVersion(Field(document, "schema_version"))
              && Field(document, "kind") == Str(kind)
              && Field(document, "payload").Obj?
              && m.validate(Field(document, "payload")).Some?
    ensures OpenEnvelope(document, kind).Ok? ==>
              forall other :: other != kind ==> OpenEnvelope(document, other) == Err(WrongKind)
  {
  }
}
