/** Write-once records: create, and on collision compare. One theorem over every interleaving of
    store calls, instantiated for proofs, idempotency keys and evidence objects. */
module WriteOnce {
  import opened Basics
  import opened Identifiers
  import opened DocumentStore
  import opened Serialization

  datatype Outcome = Created | Matched | Conflicting

  /** What one undisturbed call does; `content` is the part of a value the store compares. */
  function PutOp<V, C(==)>(docs: map<string, V>, key: string, value: V, content: V -> C): (map<string, V>, Outcome) {
    if key !in docs then (docs[key := value], Created)
    else if content(docs[key]) == content(value) then (docs, Matched)
    else (docs, Conflicting)
  }

  // ------------------------------------------------------- interleaved runs

  /** `Reporting` is the call whose create went through and that has yet to return. */
  datatype Pc<V> =
    | Idle
    | Creating(key: string, value: V)
    | Comparing(key: string, value: V)
    | Reporting(key: string, value: V)

  datatype Report<V> = Report(key: string, value: V, outcome: Outcome)

  /** `lost` are the keys whose creating call crashed before it returned. */
  datatype State<V> = State(docs: map<string, V>, procs: map<nat, Pc<V>>, log: seq<Report<V>>, lost: set<string>)

  datatype Event<V> = Begin(p: nat, key: string, value: V) | Step(p: nat) | Crash(p: nat)

  function PcOf<V>(s: State<V>, p: nat): Pc<V> { if p in s.procs then s.procs[p] else Idle }

  function Finish<V>(s: State<V>, p: nat, key: string, value: V, outcome: Outcome): State<V> {
    s.(procs := s.procs[p := Idle], log := s.log + [Report(key, value, outcome)])
  }

  function Next<V, C(==)>(s: State<V>, e: Event<V>, content: V -> C): State<V> {
    match e
    case Begin(p, key, value) =>
      if PcOf(s, p).Idle? then s.(procs := s.procs[p := Creating(key, value)]) else s
    case Step(p) =>
      (match PcOf(s, p)
       case Idle => s
       case Creating(key, value) =>
         if key in s.docs then s.(procs := s.procs[p := Comparing(key, value)])
         else s.(docs := s.docs[key := value], procs := s.procs[p := Reporting(key, value)])
       case Comparing(key, value) =>
         var same := key in s.docs && content(s.docs[key]) == content(value);
         Finish(s, p, key, value, if same then Matched else Conflicting)
       case Reporting(key, value) => Finish(s, p, key, value, Created))
    case Crash(p) =>
      s.(procs := s.procs[p := Idle],
         lost := if PcOf(s, p).Reporting? then s.lost + {PcOf(s, p).key} else s.lost)
  }

  function Exec<V, C(==)>(es: seq<Event<V>>, content: V -> C): State<V> {
    if es == [] then State(map[], map[], [], {}) else Next(Exec(es[..|es| - 1], content), es[|es| - 1], content)
  }

  /** How many calls for `key` reported that they created it. */
  function Creations<V>(log: seq<Report<V>>, key: string): nat {
    if log == [] then 0
    else
      var last := log[|log| - 1];
      Creations(log[..|log| - 1], key) + (if last.key == key && last.outcome.Created? then 1 else 0)
  }

  predicate ReportingKey<V>(s: State<V>, p: nat, key: string) {
    PcOf(s, p).Reporting? && PcOf(s, p).key == key
  }

  /** The call that created the key has not returned, or never will. */
  ghost predicate Unreported<V>(s: State<V>, key: string) {
    key in s.lost || exists p :: ReportingKey(s, p, key)
  }

  ghost predicate CreationsCount<V>(s: State<V>) {
    && (forall key :: Creations(s.log, key) == if key in s.docs && !Unreported(s, key) then 1 else 0)
    && (forall key :: Unreported(s, key) ==> key in s.docs)
    && (forall p, key :: ReportingKey(s, p, key) ==> key !in s.lost && s.docs[key] == PcOf(s, p).value)
    && (forall p, q, key :: ReportingKey(s, p, key) && ReportingKey(s, q, key) ==> p == q)
  }

  ghost predicate Inv<V, C>(s: State<V>, content: V -> C) {
    Comparable(s) && CreationsCount(s) && AllTruthful(s, content)
  }

  /** The report says what the stored record shows. */
  ghost predicate Truthful<V, C>(docs: map<string, V>, r: Report<V>, content: V -> C) {
    && r.key in docs
    && (r.outcome.Conflicting? <==> content(docs[r.key]) != content(r.value))
    && (r.outcome.Created? ==> docs[r.key] == r.value)
  }

  lemma CreationsAfter<V>(log: seq<Report<V>>, r: Report<V>)
    ensures forall key :: Creations(log + [r], key) ==
              Creations(log, key) + (if r.key == key && r.outcome.Created? then 1 else 0)
  {
    assert (log + [r])[..|log + [r]| - 1] == log;
  }

  /** A call that creates becomes the one that has yet to report it. */
  lemma CreateKeepsCount<V, C>(s: State<V>, p: nat, content: V -> C)
    requires CreationsCount(s) && PcOf(s, p).Creating? && PcOf(s, p).key !in s.docs
    ensures CreationsCount(Next(s, Step(p), content))
  {
    var t := Next(s, Step(p), content);
    var own := PcOf(s, p).key;
    hide Creations;
    assert forall q :: q != p ==> PcOf(t, q) == PcOf(s, q);
    assert ReportingKey(t, p, own);
    forall q, key | ReportingKey(t, q, key) ensures q == p || ReportingKey(s, q, key) {
    }
    forall key ensures Unreported(t, key) <==> key == own || Unreported(s, key) {
      if q :| ReportingKey(s, q, key) {
        assert ReportingKey(t, q, key);
      }
    }
  }

  /** It reports the creation, and no other call ever will. */
  lemma ReportKeepsCount<V, C>(s: State<V>, p: nat, content: V -> C)
    requires CreationsCount(s) && PcOf(s, p).Reporting?
    ensures CreationsCount(Next(s, Step(p), content))
  {
    var t := Next(s, Step(p), content);
    var own := PcOf(s, p).key;
    CreationsAfter(s.log, Report(own, PcOf(s, p).value, Created));
    hide Creations;
    assert ReportingKey(s, p, own);
    forall q ensures PcOf(t, q) == if q == p then Idle else PcOf(s, q) {
    }
    forall key ensures Unreported(t, key) <==> key != own && Unreported(s, key) {
      StillUnreported(s, t, p, key);
    }
    forall q, key | ReportingKey(t, q, key) ensures ReportingKey(s, q, key) {
    }
  }

  /** Only process `p` stopped waiting to report. */
  lemma StillUnreported<V>(s: State<V>, t: State<V>, p: nat, key: string)
    requires CreationsCount(s) && PcOf(s, p).Reporting? && t.lost == s.lost
    requires forall q :: PcOf(t, q) == if q == p then Idle else PcOf(s, q)
    ensures Unreported(t, key) <==> key != PcOf(s, p).key && Unreported(s, key)
  {
    hide Creations;
    assert ReportingKey(s, p, PcOf(s, p).key);
    if q :| ReportingKey(s, q, key) && q != p {
      assert ReportingKey(t, q, key);
    }
    if q :| ReportingKey(t, q, key) {
      assert ReportingKey(s, q, key);
    }
  }

  lemma CrashKeepsCount<V, C>(s: State<V>, p: nat, content: V -> C)
    requires CreationsCount(s)
    ensures CreationsCount(Next(s, Crash(p), content))
  {
    var t := Next(s, Crash(p), content);
    hide Creations;
    if PcOf(s, p).Reporting? {
      assert ReportingKey(s, p, PcOf(s, p).key);
    }
    forall q, key | ReportingKey(t, q, key) ensures q != p && ReportingKey(s, q, key) {
    }
    forall key ensures Unreported(t, key) <==> Unreported(s, key) {
      if q :| ReportingKey(s, q, key) {
        assert q != p ==> ReportingKey(t, q, key);
      }
    }
  }

  /** A call that began, compared or is about to compare has created nothing. */
  lemma OthersKeepCount<V>(s: State<V>, t: State<V>, p: nat)
    requires CreationsCount(s) && t.docs == s.docs && t.lost == s.lost
    requires !PcOf(s, p).Reporting? && !PcOf(t, p).Reporting? && forall q :: q != p ==> PcOf(t, q) == PcOf(s, q)
    requires t.log == s.log || (t.log != [] && t.log[..|t.log| - 1] == s.log && !t.log[|t.log| - 1].outcome.Created?)
    ensures CreationsCount(t)
  {
    forall key ensures Creations(t.log, key) == Creations(s.log, key) {
    }
    hide Creations;
    forall q, key ensures ReportingKey(t, q, key) <==> ReportingKey(s, q, key) {
    }
    forall key ensures Unreported(t, key) <==> Unreported(s, key) {
      if q :| ReportingKey(s, q, key) {
        assert ReportingKey(t, q, key);
      }
      if q :| ReportingKey(t, q, key) {
        assert ReportingKey(s, q, key);
      }
    }
  }

  lemma NextKeepsCount<V, C>(s: State<V>, e: Event<V>, content: V -> C)
    requires CreationsCount(s)
    ensures CreationsCount(Next(s, e, content))
  {
    hide CreationsCount;
    if e.Crash? {
      CrashKeepsCount(s, e.p, content);
    } else if e.Step? && PcOf(s, e.p).Reporting? {
      ReportKeepsCount(s, e.p, content);
    } else if e.Step? && PcOf(s, e.p).Creating? && PcOf(s, e.p).key !in s.docs {
      CreateKeepsCount(s, e.p, content);
    } else if e.Begin? && !PcOf(s, e.p).Idle? {
    } else {
      var t := Next(s, e, content);
      assert |t.log| > |s.log| ==> t.log[..|t.log| - 1] == s.log;
      OthersKeepCount(s, t, e.p);
    }
  }

  lemma NextKeepsDocs<V, C>(s: State<V>, e: Event<V>, content: V -> C)
    ensures forall key :: key in s.docs ==> key in Next(s, e, content).docs && Next(s, e, content).docs[key] == s.docs[key]
  {
  }

  ghost predicate Comparable<V>(s: State<V>) { forall p :: PcOf(s, p).Comparing? ==> PcOf(s, p).key in s.docs }

  ghost predicate AllTruthful<V, C>(s: State<V>, content: V -> C) {
    forall i :: 0 <= i < |s.log| ==> Truthful(s.docs, s.log[i], content)
  }

  lemma NextKeepsComparable<V, C>(s: State<V>, e: Event<V>, content: V -> C)
    requires Comparable(s)
    ensures Comparable(Next(s, e, content))
  {
    var t := Next(s, e, content);
    forall q | PcOf(t, q).Comparing? ensures PcOf(t, q).key in t.docs {
      assert q != e.p ==> PcOf(t, q) == PcOf(s, q);
    }
  }

  /** A call that returns reports what is stored. */
  lemma NextReports<V, C>(s: State<V>, e: Event<V>, content: V -> C)
    requires Comparable(s) && CreationsCount(s)
    ensures var t := Next(s, e, content);
            t.log == s.log || (t.docs == s.docs && |t.log| == |s.log| + 1 && t.log[..|s.log|] == s.log
                               && Truthful(t.docs, t.log[|s.log|], content))
  {
    hide Creations;
    if e.Step? && PcOf(s, e.p).Reporting? {
      assert ReportingKey(s, e.p, PcOf(s, e.p).key);
      assert Unreported(s, PcOf(s, e.p).key);
    }
  }

  lemma NextKeepsTruth<V, C>(s: State<V>, e: Event<V>, content: V -> C)
    requires Comparable(s) && CreationsCount(s) && AllTruthful(s, content)
    ensures AllTruthful(Next(s, e, content), content)
  {
    var t := Next(s, e, content);
    NextReports(s, e, content);
    NextKeepsDocs(s, e, content);
    hide Next, CreationsCount, Comparable;
    forall i | 0 <= i < |t.log| ensures Truthful(t.docs, t.log[i], content) {
      if i < |s.log| {
        assert Truthful(s.docs, s.log[i], content) && t.log[i] == s.log[i];
      }
    }
  }

  lemma NextKeepsInv<V, C>(s: State<V>, e: Event<V>, content: V -> C)
    requires Inv(s, content)
    ensures Inv(Next(s, e, content), content)
  {
    hide Next, CreationsCount, Comparable, AllTruthful;
    NextKeepsCount(s, e, content);
    NextKeepsComparable(s, e, content);
    NextKeepsTruth(s, e, content);
  }

  lemma {:induction false} RunKeepsInv<V, C>(es: seq<Event<V>>, content: V -> C)
    ensures Inv(Exec(es, content), content)
  {
    if es != [] {
      RunKeepsInv(es[..|es| - 1], content);
      NextKeepsInv(Exec(es[..|es| - 1], content), es[|es| - 1], content);
    }
  }

  /** The first successful create fixes the content of a key forever. */
  lemma {:induction false} FirstCreateIsForever<V, C>(es: seq<Event<V>>, more: seq<Event<V>>, content: V -> C, key: string)
    requires key in Exec(es, content).docs
    ensures key in Exec(es + more, content).docs
    ensures Exec(es + more, content).docs[key] == Exec(es, content).docs[key]
    decreases |more|
  {
    if more == [] {
      assert es + more == es;
    } else {
      hide Next;
      var all := es + more;
      FirstCreateIsForever(es, more[..|more| - 1], content, key);
      assert all[..|all| - 1] == es + more[..|more| - 1];
      NextKeepsDocs(Exec(all[..|all| - 1], content), all[|all| - 1], content);
    }
  }

  /** At most one call per key reports that it created it, and one does exactly when the key is stored and its
      creating call has returned; every call that returned normally carried the stored content, and every call
      that was refused carried another. */
  lemma WriteOnceLinearises<V, C>(es: seq<Event<V>>, content: V -> C, key: string)
    ensures var s := Exec(es, content);
            && (Creations(s.log, key) == if key in s.docs && !Unreported(s, key) then 1 else 0)
            && (forall r :: r in s.log && r.key == key ==>
                  key in s.docs && (r.outcome.Conflicting? <==> content(r.value) != content(s.docs[key])))
  {
    RunKeepsInv(es, content);
  }

  /** Undisturbed, the store calls add up to the single operation. */
  lemma SoloPut<V, C>(s: State<V>, p: nat, key: string, value: V, content: V -> C)
    requires PcOf(s, p).Idle?
    ensures var t := Next(Next(Next(s, Begin(p, key, value), content), Step(p), content), Step(p), content);
            var (docs, outcome) := PutOp(s.docs, key, value, content);
            t.docs == docs && t.log == s.log + [Report(key, value, outcome)] && PcOf(t, p).Idle?
  {
    var t1 := Next(s, Begin(p, key, value), content);
    var t2 := Next(t1, Step(p), content);
    assert PcOf(t2, p) == if key in s.docs then Comparing(key, value) else Reporting(key, value);
  }

  // ------------------------------------------------------- the three stores

  datatype PutError = Refused(reason: Rejection) | ConflictingRecord

  /** `created` tells a first write from an idempotent repetition. */
  function Answer(outcome: Outcome): Result<bool, PutError> {
    match outcome
    case Created => Ok(true)
    case Matched => Ok(false)
    case Conflicting => Err(ConflictingRecord)
  }

  datatype Object = Object(data: seq<bv8>, contentType: string)

  function ObjectContent(): Object -> seq<bv8> { (o: Object) => o.data }

  /** What the caller is told, and what is stored, as a question about the collection before the call. */
  lemma PutExactly<V, C>(docs: map<string, V>, key: string, value: V, content: V -> C)
    ensures var (after, outcome) := PutOp(docs, key, value, content);
            var same := key in docs && content(docs[key]) == content(value);
            && (Answer(outcome) == Ok(true) <==> key !in docs)
            && (Answer(outcome) == Ok(false) <==> same)
            && (Answer(outcome) == Err(ConflictingRecord) <==> key in docs && !same)
            && (key in docs ==> after == docs)
            && (key !in docs ==> key in after && after[key] == value && after - {key} == docs)
  {
  }

  /** Evidence is compared by its bytes alone, claims by their owner alone, proofs by their canonical bytes alone. */
  lemma ComparedExactly(o: Object, o': Object, c: Claim, c': Claim, m: Model<Proof>, canonical: Json -> string, p: Proof, p': Proof)
    ensures ObjectContent()(o) == ObjectContent()(o') <==> o.data == o'.data
    ensures ClaimOwner()(c) == ClaimOwner()(c') <==> c.owner == c'.owner
    ensures CanonicalBytes()(EncodeProof(m, canonical, p)) == CanonicalBytes()(EncodeProof(m, canonical, p'))
            <==> canonical(m.dump(p)) == canonical(m.dump(p'))
  {
    ProofFields(m, canonical, p);
    ProofFields(m, canonical, p');
    hide EncodeProof;
  }

  lemma ProofDocumentPathIs(p: Proof)
    ensures ProofDocumentPath(p) == "workflows" + "/" + p.workflowId + "/" + "proofs" + "/" + p.id
  {
    JoinOfFour("workflows", p.workflowId, "proofs", p.id);
    hide Join;
  }

  class GcsEvidenceStore {
    const objects: Collection<Object>

    constructor (objects: Collection<Object>)
      ensures this.objects == objects
    {
      this.objects := objects;
    }

    method Put(path: string, data: seq<bv8>, contentType: string) returns (r: Result<bool, PutError>)
      modifies objects
      ensures var (docs, outcome) := PutOp(old(objects.docs), path, Object(data, contentType), ObjectContent());
              objects.docs == docs && r == Answer(outcome)
    {
      var created := objects.Create(path, Object(data, contentType));
      if !created {
        var current := objects.Get(path);
        if current.Some? && current.value.data != data {
          return Err(ConflictingRecord);
        }
        return Ok(false);
      }
      return Ok(true);
    }

    method PutEvidence(workflowId: string, evidenceId: string, data: seq<bv8>, contentType: string)
      returns (r: Result<bool, PutError>)
      modifies objects
      ensures match EvidencePath(workflowId, evidenceId)
              case Err(e) => r == Err(Refused(e)) && objects.docs == old(objects.docs)
              case Ok(path) =>
                var (docs, outcome) := PutOp(old(objects.docs), path, Object(data, contentType), ObjectContent());
                objects.docs == docs && r == Answer(outcome)
    {
      var path := EvidencePath(workflowId, evidenceId);
      if path.Err? {
        return Err(Refused(path.error));
      }
      r := Put(path.value, data, contentType);
    }
  }

  datatype Claim = Claim(key: string, owner: string, claimedAt: int)

  function ClaimOwner(): Claim -> string { (c: Claim) => c.owner }

  class FirestoreIdempotencyKeys {
    const keys: Collection<Claim>

    constructor (keys: Collection<Claim>)
      ensures this.keys == keys
    {
      this.keys := keys;
    }

    method ClaimKey(key: string, owner: string, now: int) returns (r: Result<bool, PutError>)
      modifies keys
      ensures !Safe(key) ==> r == Err(Refused(SafeIdentifier(key).error)) && keys.docs == old(keys.docs)
      ensures Safe(key) ==>
                var (docs, outcome) := PutOp(old(keys.docs), key, Claim(key, owner, now), ClaimOwner());
                keys.docs == docs && r == Answer(outcome)
    {
      var id := SafeIdentifier(key);
      if id.Err? {
        return Err(Refused(id.error));
      }
      var created := keys.Create(key, Claim(key, owner, now));
      if !created {
        var existing := keys.Get(key);
        if existing.Some? && existing.value.owner == owner {
          return Ok(false);
        }
        return Err(ConflictingRecord);
      }
      return Ok(true);
    }

    method OwnerOf(key: string) returns (r: Result<Option<string>, PutError>)
      ensures r == if !Safe(key) then Err(Refused(SafeIdentifier(key).error))
                   else Ok(if key in keys.docs then Some(keys.docs[key].owner) else None)
    {
      var id := SafeIdentifier(key);
      if id.Err? {
        return Err(Refused(id.error));
      }
      var snapshot := keys.Get(key);
      return Ok(if snapshot.Some? then Some(snapshot.value.owner) else None);
    }
  }

  function CanonicalBytes(): map<string, Json> -> Json {
    (document: map<string, Json>) => Field(document, "canonical_bytes")
  }

  function ProofDocumentPath(p: Proof): string {
    Join(["workflows", p.workflowId, "proofs", p.id])
  }

  class FirestoreProofStore {
    const proofs: Collection<map<string, Json>>
    const model: Model<Proof>
    const canonical: Json -> string

    constructor (proofs: Collection<map<string, Json>>, model: Model<Proof>, canonical: Json -> string)
      ensures this.proofs == proofs && this.model == model && this.canonical == canonical
    {
      this.proofs := proofs;
      this.model := model;
      this.canonical := canonical;
    }

    method Record(p: Proof) returns (r: Result<bool, PutError>)
      modifies proofs
      ensures !Safe(p.workflowId) || !Safe(p.id) ==> r.Err? && proofs.docs == old(proofs.docs)
      ensures Safe(p.workflowId) && Safe(p.id) ==>
                var (docs, outcome) := PutOp(old(proofs.docs), ProofDocumentPath(p),
                                             EncodeProof(model, canonical, p), CanonicalBytes());
                proofs.docs == docs && r == Answer(outcome)
    {
      var document := EncodeProof(model, canonical, p);
      var w := SafeIdentifier(p.workflowId);
      if w.Err? {
        return Err(Refused(w.error));
      }
      var id := SafeIdentifier(p.id);
      if id.Err? {
        return Err(Refused(id.error));
      }
      var created := proofs.Create(ProofDocumentPath(p), document);
      if !created {
        var existing := proofs.Get(ProofDocumentPath(p));
        if existing.None? || Field(existing.value, "canonical_bytes") != Field(document, "canonical_bytes") {
          return Err(ConflictingRecord);
        }
        return Ok(false);
      }
      return Ok(true);
    }
  }

  /** Two claims of one key that both returned normally named the same owner. */
  lemma ClaimsAgree(es: seq<Event<Claim>>, r: Report<Claim>, q: Report<Claim>)
    requires r in Exec(es, ClaimOwner()).log && q in Exec(es, ClaimOwner()).log
    requires r.key == q.key && !r.outcome.Conflicting? && !q.outcome.Conflicting?
    ensures r.value.owner == q.value.owner
  {
    WriteOnceLinearises(es, ClaimOwner(), r.key);
  }

  /** Two evidence writes that both returned normally under one path were the same bytes for the
      same workflow and evidence id. */
  lemma EvidenceAgrees(es: seq<Event<Object>>, r: Report<Object>, q: Report<Object>,
                       w: string, e: string, w': string, e': string)
    requires r in Exec(es, ObjectContent()).log && q in Exec(es, ObjectContent()).log
    requires EvidencePath(w, e) == Ok(r.key) && EvidencePath(w', e') == Ok(q.key)
    requires r.key == q.key && !r.outcome.Conflicting? && !q.outcome.Conflicting?
    ensures r.value.data == q.value.data && w == w' && e == e'
  {
    WriteOnceLinearises(es, ObjectContent(), r.key);
    ObjectPathsDistinct(w, e, w', e', "", "");
  }

  /** Two proofs recorded normally under one path are the same proof, once canonical JSON tells
      documents apart. */
  lemma ProofsAgree(es: seq<Event<map<string, Json>>>, m: Model<Proof>, canonical: Json -> string,
                    r: Report<map<string, Json>>, q: Report<map<string, Json>>, p: Proof, p': Proof)
    requires Lawful(m) && forall x, y :: canonical(x) == canonical(y) ==> x == y
    requires r in Exec(es, CanonicalBytes()).log && q in Exec(es, CanonicalBytes()).log
    requires r.value == EncodeProof(m, canonical, p) && q.value == EncodeProof(m, canonical, p')
    requires r.key == q.key && !r.outcome.Conflicting? && !q.outcome.Conflicting?
    ensures p == p'
  {
    WriteOnceLinearises(es, CanonicalBytes(), r.key);
    assert Field(r.value, "canonical_bytes") == Str(canonical(m.dump(p)));
    assert Field(q.value, "canonical_bytes") == Str(canonical(m.dump(p')));
    assert Some(p) == m.validate(m.dump(p)) == m.validate(m.dump(p')) == Some(p');
  }
}
