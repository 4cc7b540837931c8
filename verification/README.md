# Verified model of the DRIFTZERO runtime

DRIFTZERO ingests approved procedure changes, drives each through a workflow, and ends with a proof that the
change reached the frontline. Several processes share one document store, any of them may crash between two
store calls, and a workflow may be handed from one process to the next. This project models the parts of the
repository that make this safe and proves what they promise:

- **Durability protocol** (`DocumentStore`, `WriteOnce`, `Leases`, `LeaseInterleaving`, `WorkflowStore`,
  `Ingestion`, `IngestionRuns`, `Resume`): write-once records, expiring resume leases, revision-checked workflow
  writes, exactly-once ingestion, and resuming under a lease. Every operation is a method over mutable collections,
  proved to compute a function of the old state; the theorems are about runs of that function by any number
  of processes. Claims, write-once puts, ingestion and lease takeover are broken into single store calls, and
  lemmas named `Solo...` show that undisturbed calls add up to the operation the method computes. The lease clock
  and the fencing theorems take `acquire`, `release`, `save` and `_persist` as one step each, because those
  operations read and then write.
- **Container metadata parser** (`Provenance`, `ProvenanceWriter`, `ProvenanceExtraction`, `GeneratedMedia`): the three
  offset loops over PNG, ISO-BMFF and JPEG bytes, against writers specified from the PNG Specification (section 5.3),
  ISO/IEC 14496-12 (section 4.2) and ITU-T T.81 (section B.1.1.4), and the detector that reads their result.
- **Process handoff** (`Serialization`, `StateMachine`, `ResumeSnapshot`, `Handoff`, `History`, `Aggregate`,
  `Overwrites`): documents that decode to what was encoded, a resumed process that sees the same proof inputs, and a
  durable history that only grows under one driver, with the exact cost of several. `Correspondence` shows that the
  views these modules take of one set of documents agree.
- **Capabilities and tokens** (`Broker`, `Base64`, `PilotCapability`), the **bounded retry loop** (`Retry`) and
  **durable agent sessions** (`SessionChronology`, `SessionService`).
- **Identifiers** (`Identifiers`, over the shared `Basics`): the allow-list, object paths and minted ids.

HMAC, SHA-256, JSON and pydantic validation enter as function-valued parameters; a lemma that needs one of their
laws (loading undoes dumping, a dump validates back) says so in its `requires`. Clocks, random suffixes and tokens
are parameters; a token or namespace is new when it is minted. Firestore calls are atomic and either take effect
or stop the process.

## What the code does not do

Where the code and its documentation, or the code and what its caller may expect, part ways. A broken promise has a
lemma with a concrete input and, beside it, the exact condition under which the promise holds.

- `leases.py:14-16` says an expired lease is taken over only with the expired holder's token. The code checks no
  token (`leases.py:92-104`): two processes that both read the expired document both take over
  (`LeaseInterleaving.TakeoverCanGrantTwice`). The write replaces the document that was judged expired exactly when the
  stored token is still the one that was read (`LeaseInterleaving.TakeoverReplacesJudgedExactly`). A takeover write is
  necessary for two leases to coexist (`LeaseInterleaving.CoexistenceNeedsTakeover`), not sufficient.
- `runtime.py:341-345` says two instances cannot both resume a workflow. A process that started it, released its
  lease or let it expire goes on driving (`Resume.StarterDrivesWithoutLease`, `Resume.ReleaseKeepsDriving`,
  `Resume.ExpiredHolderDrives`), and another resume succeeds exactly when no unexpired lease document lies on the
  workflow (`Resume.SecondDriverExactly`).
- Revisions fence a driver that was overtaken, and only that. A resumed sink has no revision until its first save, which
  is unconditional (`firestore.py:115-120`) and replaces whatever another driver stored since the rehydrate
  (`Overwrites.FirstSaveTakesBack`); no other persist loses anything (`Overwrites.LosesOnlyOverUnseen`).
- An ISO-BMFF file whose first box size is 0x89504E47 is parsed as PNG (`ProvenanceWriter.IsoRoundTripExactly`),
  and a JPEG whose bytes 4 to 8 spell `ftyp` is parsed as ISO-BMFF and yields nothing
  (`ProvenanceWriter.JpegRoundTripExactly`) while its coverage is reported FULL. So is the coverage of an ISO-BMFF file
  whose brand spells PNG or JPEG (`GeneratedMedia.FullCoverageExactly`, `GeneratedMedia.BrandCanClaimFull`).
- `_persist` writes the workflow document before the snapshot. A crash between the two can make the workflow's own
  event list hold two events under one id (`Aggregate.TornPersistRepeatsAnId`, exactly when by
  `Aggregate.IdRepeatsExactly`). It also loses the session's memory of what was submitted, so that one submission can be
  adjudicated twice in that list (`Aggregate.TornPersistRepeatsASubmission`, exactly when by
  `Aggregate.SubmissionRepeatsExactly`): duplicates are looked for in the session's list once it has an event. Without
  such a tear the two lists are one (`Aggregate.AgreeExactly`, `Aggregate.UntornCountsOnce`), and in the session's list
  neither ever happens (`History.EventIdsDistinct`, `History.SubmissionsCountOnce`).
- `reopen_for_new_evidence` documents two source states; the matrix lets it leave `FRONTLINE_DELIVERY_COMPLETED`
  too (`History.ReopensExactly`).
- An empty artifact map or a missing delta in a snapshot leaves what the new session has
  (`ResumeSnapshot.SnapshotRoundTripExactly`); with a session of the same source change nothing shows through.
- A `change_id` with outer white space is looked up stripped, written and claimed as it came. The claim is refused after
  the writes: workflow document and input stay behind unclaimed, and each redelivery adds another
  (`Ingestion.SpacedChangeIsLeftBehind`, `Ingestion.ClaimedExactlyWhenStripped`, `Ingestion.RedeliveryLeavesAnother`).
- A refused event id leaves the session state of its event saved (`SessionService.RefusedEventLeavesItsState`,
  `SessionService.AppendStoresExactly`).
- A denied request for an unknown tool is recorded as a request for `ARTIFACT_MUTATION`
  (`Broker.DenialNamesToolExactly`), and the signed payload alone does not separate its fields
  (`Broker.PayloadIsAmbiguous`); the registry comparison does.
- `firestore_session.py:50-61` makes one document id for the three parts of a session identity. Two identities share it
  when a double underscore moves the boundary (`SessionChronology.DoubleUnderscoreShares`), only when one stands in an
  application or user name (`SessionChronology.SessionKeysDistinct`), and are then one session
  (`SessionService.SharedKeyIsOneSession`).
- A stored schema version of `true` passes for 1, as Python compares them (`Serialization.VersionAcceptedExactly`).

## Model

| member | source | states |
|---|---|---|
| Identifiers.SafeExactly | src/driftzero_cloud/serialization.py:42-61 | the five checks accept exactly the strings of the allow-list pattern, spelled out character by character, without a parent reference; and which string is refused as empty, reserved or holding a separator |
| Identifiers.ObjectPathsDistinct | src/driftzero_cloud/gcs.py:73-90 | accepted evidence ids share an object path only when equal, and never with a proof |
| Identifiers.ProofPathsDistinct | src/driftzero_cloud/gcs.py:85-90 | accepted proof ids and file names share an object path only when equal |
| Identifiers.PathsAre | src/driftzero_cloud/gcs.py:73-90 | which ids make an evidence path or a proof path, and the exact text of each |
| Identifiers.MintInjective | src/driftzero_api/runtime.py:250-256 | a minted workflow id determines namespace and sequence number, whatever dashes the namespace holds |
| Identifiers.SpacedKeyUnsafe | src/driftzero_api/runtime.py:222-238 | a change id that stripping would change never makes a claimable key |
| Identifiers.StripCuts | src/driftzero_api/runtime.py:204-226 | stripping cuts one piece out of the text: neither end of it is white space, and everything left out is |
| DocumentStore.Collection.Create | src/driftzero_cloud/firestore.py:329-345 | a create succeeds exactly when the document does not exist, and then adds it |
| WriteOnce.FirstCreateIsForever | src/driftzero_cloud/firestore.py:259-278 | over every interleaving the first create fixes the value under a key forever |
| WriteOnce.WriteOnceLinearises | src/driftzero_cloud/gcs.py:116-159 | with crashes between any two store calls, a creation is reported once exactly when the key is stored and its creating call returned; a call is refused exactly when its content differs from the stored one |
| WriteOnce.SoloPut | src/driftzero_cloud/gcs.py:116-159 | the store calls of an undisturbed put add up to the operation the methods compute |
| WriteOnce.PutExactly | src/driftzero_cloud/firestore.py:329-347 | in terms of the collection before the call: told new, told already there, or refused, and what is stored then |
| WriteOnce.ComparedExactly | src/driftzero_cloud/gcs.py:145-159 | what counts as the same record: the bytes of an object, the owner of a claim, the canonical bytes of a proof, and nothing else |
| WriteOnce.GcsEvidenceStore.Put | src/driftzero_cloud/gcs.py:116-159 | creates, or compares the stored bytes: idempotent success or conflict, never an overwrite |
| WriteOnce.GcsEvidenceStore.PutEvidence | src/driftzero_cloud/gcs.py:161-172 | refuses unsafe ids untouched, else puts under the evidence path |
| WriteOnce.FirestoreIdempotencyKeys.ClaimKey | src/driftzero_cloud/firestore.py:329-347 | grants once, repeats for the owner, conflicts for anybody else |
| WriteOnce.FirestoreIdempotencyKeys.OwnerOf | src/driftzero_cloud/firestore.py:324-353 | an unsafe key is refused; else the owner stored under it, if any |
| WriteOnce.FirestoreProofStore.Record | src/driftzero_cloud/firestore.py:259-278 | records a proof once and compares canonical bytes after that |
| WriteOnce.ClaimsAgree | src/driftzero_cloud/firestore.py:329-347 | calls that returned normally for one key name one owner |
| WriteOnce.EvidenceAgrees | src/driftzero_cloud/gcs.py:116-172 | writes that returned normally under one path carried the same bytes for the same ids |
| WriteOnce.ProofsAgree | src/driftzero_cloud/firestore.py:259-278 | proofs recorded normally under one path are the same proof |
| Leases.ResumeLeases.Acquire | src/driftzero_cloud/leases.py:73-108 | create, else refuse while the stored lease is unexpired, else take over |
| Leases.ResumeLeases.Release | src/driftzero_cloud/leases.py:110-123 | deletes exactly when the stored token is the lease's own |
| Leases.AcquireExactly | src/driftzero_cloud/leases.py:73-108 | a grant lives from now for exactly its time to live, its document names holder, token, end and whom it superseded, other documents stay; a refusal writes nothing and names the owner of the document in the way |
| Leases.LeaseExclusion | src/driftzero_cloud/leases.py:45-123 | at every reachable state at most one lease per workflow is unreleased and unexpired, and the stored document carries its token |
| Leases.SupersededReleaseIsNoOp | src/driftzero_cloud/leases.py:110-123 | releasing a lease that another followed changes nothing and says so |
| Leases.LiveReleaseFrees | src/driftzero_cloud/leases.py:110-123 | a live holder's release always frees |
| Leases.RefusedExactlyWhileLive | src/driftzero_cloud/leases.py:73-108 | from an empty collection, acquiring is refused exactly while a live lease exists, and the refusal names the owner of that lease |
| LeaseInterleaving.CoexistenceNeedsTakeover | src/driftzero_cloud/leases.py:73-123 | at store-call grain, two unreleased leases of one workflow coexist only after a takeover write |
| LeaseInterleaving.WithoutTakeoverStoredIsHeld | src/driftzero_cloud/leases.py:73-123 | without one, the stored token is that of the single unreleased lease, and every release frees it |
| LeaseInterleaving.TakeoverCanGrantTwice | src/driftzero_cloud/leases.py:92-104 | with one, two unexpired leases can be out at once |
| LeaseInterleaving.TakeoverReplacesJudgedExactly | src/driftzero_cloud/leases.py:90-104 | a takeover write replaces the very document it judged expired exactly when the stored token is the one it read; a document that still blocks is replaced only where that token differs |
| LeaseInterleaving.SoloAcquire | src/driftzero_cloud/leases.py:73-108 | the store calls of an undisturbed acquire add up to the single step |
| LeaseInterleaving.SoloRelease | src/driftzero_cloud/leases.py:110-123 | the store calls of an undisturbed release add up to the single step |
| WorkflowStore.FirestoreSink.Save | src/driftzero_cloud/firestore.py:100-168 | writes the next revision, or refuses when an expected revision is not the stored one |
| WorkflowStore.FirestoreSink.RecordWorkflow | src/driftzero_cloud/composition.py:42-47 | saves against the revision this process remembers, and remembers the new one |
| WorkflowStore.FirestoreSink.RecordAction | src/driftzero_cloud/firestore.py:194-206 | stores an action under its own path, replacing only itself |
| WorkflowStore.FirestoreSink.Persist | src/driftzero_console/service.py:671-685 | the whole flush: workflow, ledger, snapshot, stopping at the first refusal |
| WorkflowStore.RecordActionsStops | src/driftzero_console/service.py:683-684 | after a refused ledger entry nothing later is written |
| WorkflowStore.LedgerAccepted | src/driftzero_cloud/firestore.py:194-206 | a ledger is accepted exactly when the ids of all its entries are safe |
| WorkflowStore.LedgerStored | src/driftzero_cloud/firestore.py:194-206 | under the path of an accepted entry lies the last entry of that path |
| WorkflowStore.LedgerLeaves | src/driftzero_cloud/firestore.py:194-206 | a document under no path of the ledger stays, whether the ledger is accepted or not |
| WorkflowStore.SaveStores | src/driftzero_cloud/firestore.py:100-168 | a save changes its own document only, to the workflow and history given under the next revision, 1 for the first; a conflict names both revisions |
| WorkflowStore.PersistExactly | src/driftzero_console/service.py:671-685 | a flush leaves every other workflow alone, stores no snapshot when it fails, and stores and remembers exactly the session when it succeeds |
| WorkflowStore.SaveExactly | src/driftzero_cloud/firestore.py:100-168 | a sink's write succeeds exactly when it never wrote the document or wrote it last |
| WorkflowStore.RevisionsRunInBlocks | src/driftzero_cloud/composition.py:34-61 | revisions run 1, 2, 3, ... with no gap, each sink's writes in one block |
| WorkflowStore.FencedPersistTouchesNothing | src/driftzero_console/service.py:671-685 | once overtaken, a sink's every later flush fails before touching workflow, ledger or snapshot |
| WorkflowStore.LastWriterIsNeverFenced | src/driftzero_cloud/composition.py:42-47 | the last writer always gets its next revision |
| Ingestion.ApiRuntime.AcceptChange | src/driftzero_api/runtime.py:231-267 | the whole call over store and process state: duplicate, refusal, or write first and claim last |
| Ingestion.ApiRuntime.Classify | src/driftzero_api/runtime.py:201-220 | the durable owner wins over the in-process cache |
| Ingestion.ApiRuntime.ClaimChange | src/driftzero_api/runtime.py:222-227 | caches, then claims; a key owned by another raises |
| Ingestion.ApiRuntime.Resolve | src/driftzero_api/runtime.py:439-454 | a duplicate answers from the live registry, then from durable storage |
| Ingestion.ApiRuntime.RecordChange | src/driftzero_api/runtime.py:257-289 | the workflow document and its input are both written before any claim |
| Ingestion.RefusedOp | src/driftzero_api/runtime.py:231-249 | each refusal before the first write leaves store and process as they were |
| Ingestion.DuplicateOp | src/driftzero_api/runtime.py:238-247 | an owned change resolves to its owner and creates nothing |
| Ingestion.NewChangeOp | src/driftzero_api/runtime.py:249-267 | an unowned change is written down under a fresh id and claimed last |
| Ingestion.KeyInjective | src/driftzero_api/runtime.py:204-226 | two changes share an idempotency key only when their ids are equal |
| Ingestion.AnswersByChange | src/driftzero_api/runtime.py:201-247 | by the stripped id delivered: the owner the store names, else the one the process remembers, else no duplicate is reported |
| Ingestion.ClaimedExactlyWhenStripped | src/driftzero_api/runtime.py:222-267 | a change that is written down is claimed exactly when stripping its id changes nothing; otherwise document and input stay behind, refused and unclaimed |
| Ingestion.RedeliveryLeavesAnother | src/driftzero_api/runtime.py:206-267 | delivering such a change again writes a further workflow, still unclaimed |
| Ingestion.SpacedChangeIsLeftBehind | src/driftzero_api/runtime.py:231-267 | a change called `c` with a space after it, on a fresh runtime |
| IngestionRuns.ExactlyOnce | src/driftzero_api/runtime.py:206-267 | over every run with crashes, calls that returned for one change name one workflow, its durable owner, and at most one reports it new |
| IngestionRuns.OneWorkflowPerChange | src/driftzero_api/runtime.py:206-267 | two calls that returned name one workflow exactly when the ids delivered are equal once stripped |
| IngestionRuns.ReturnedIsWritten | src/driftzero_api/runtime.py:231-267 | the workflow a call returned has a document and an input whose change id is the stripped id delivered |
| IngestionRuns.LateCallsResolve | src/driftzero_api/runtime.py:206-247 | a call begun after the claim returns the owner as a duplicate, whatever its cache holds |
| IngestionRuns.LateCallsWriteNothing | src/driftzero_api/runtime.py:206-247 | such a call is never at a step that writes |
| IngestionRuns.OwnerAlwaysWritten | src/driftzero_api/runtime.py:237-267 | at every step a claimed change has its workflow document and input, both carrying that very change id |
| IngestionRuns.DuplicatesAlwaysResolve | src/driftzero_api/runtime.py:439-454 | no ingestion call ever ends in an unknown workflow |
| IngestionRuns.SoloCallIsAccept | src/driftzero_api/runtime.py:231-267 | an undisturbed call in a run does exactly what the method computes |
| Resume.EligibleExactly | src/driftzero_api/runtime.py:313-338 | a state may be resumed exactly when the transition matrix leads from it to a completed proof |
| Resume.ResumeRuntime.Resume | src/driftzero_api/runtime.py:340-378 | attach, refuse, or rebuild under a lease; a failed rebuild gives the lease back |
| Resume.ResumeRuntime.Release | src/driftzero_api/runtime.py:422-425 | gives up the lease held, once |
| Resume.ResumeExactly | src/driftzero_api/runtime.py:340-378 | each answer exactly when, the holder a refusal names, and what is left: a failed rebuild leaves the workflow free for anybody, a rebuild its own lease |
| Resume.RuntimesRefineLeases | src/driftzero_api/runtime.py:340-425 | whatever the runtimes do is a run of the lease protocol: tokens new, each lease released once, by its holder |
| Resume.HeldExclusion | src/driftzero_api/runtime.py:340-378 | at most one process holds an unexpired lease on a workflow |
| Resume.SecondDriverExactly | src/driftzero_api/runtime.py:340-378 | while one process drives a workflow, by whatever right, the resume of another makes a second driver exactly when the workflow is ready, its id safe and no unexpired lease document lies on it; from an empty collection, no lease of it is live |
| Resume.BlockedExactlyWhileLive | src/driftzero_api/runtime.py:340-378 | from an empty lease collection, such a document lies there exactly while a lease of the workflow is out, unreleased and unexpired |
| Resume.HeldLeaseShutsOut | src/driftzero_api/runtime.py:340-378 | while a process holds an unexpired lease, the resume of a ready workflow by any process not driving it is refused as held by the owner stored, and changes nothing |
| Resume.StarterDrivesWithoutLease | src/driftzero_api/runtime.py:231-267 | the process that accepted a change drives it without a lease while another resumes it |
| Resume.ExpiredHolderDrives | src/driftzero_api/runtime.py:340-378 | a holder whose lease ran out goes on driving while another resumes |
| Resume.TwoDriversOnlyIf | src/driftzero_api/runtime.py:340-425 | two processes drive one workflow only if one started it, released a lease it held or let its lease expire |
| Resume.ReleaseKeepsDriving | src/driftzero_api/runtime.py:347-349 | after releasing, a process still attaches without a lease while another holds it |
| Provenance.TruncationNeverInvents | scripts/g1_gemma_probe.py:325-390 | the regions of any prefix of a file are a prefix of its regions |
| Provenance.RegionsAreDisjointSlices | scripts/g1_gemma_probe.py:325-390 | regions are slices of the file, in bounds, disjoint and in order |
| Provenance.InsignificantBytesDoNotMatter | scripts/g1_gemma_probe.py:325-390 | overwriting any bytes outside visited headers and listed payloads changes no region |
| Provenance.JpegOverwriteExactly | scripts/g1_gemma_probe.py:353-390 | for a JPEG, exactly unless the overwrite spells `ftyp` over a file that had regions |
| ProvenanceWriter.ChunkNamesAgree | scripts/g1_gemma_probe.py:306-351 | the parser lists exactly the five chunk types, each under its own name |
| ProvenanceWriter.BoxNamesAgree | scripts/g1_gemma_probe.py:313-369 | and exactly `meta` and `uuid` |
| ProvenanceWriter.SegmentNamesAgree | scripts/g1_gemma_probe.py:311-390 | and exactly the segments 0xE1, 0xEB and 0xED |
| ProvenanceWriter.FormatExactly | scripts/g1_gemma_probe.py:337-371 | which format a file is read as, by its first bytes and in which order; any other file lists nothing |
| ProvenanceWriter.ChunksDecompose | scripts/g1_gemma_probe.py:337-351 | any bytes are whole chunks and a rest that is none, so the round trip speaks of every PNG file |
| ProvenanceWriter.BoxesDecompose | scripts/g1_gemma_probe.py:353-369 | the same for boxes |
| ProvenanceWriter.SegmentsDecompose | scripts/g1_gemma_probe.py:371-390 | the same for segments |
| ProvenanceWriter.PngRoundTrip | scripts/g1_gemma_probe.py:337-351 | writing any chunks, with anything after the end marker or anything that is no whole chunk after the last, and extracting gives back the listed ones, in order, with their bytes |
| ProvenanceWriter.IsoRoundTrip | scripts/g1_gemma_probe.py:353-369 | the same for boxes led by `ftyp` and whatever follows that is no whole box, unless the first size spells the PNG signature |
| ProvenanceWriter.IsoRoundTripExactly | scripts/g1_gemma_probe.py:337-369 | a first box size is read back as written for all files exactly when it is not 0x89504E47 |
| ProvenanceWriter.MisreadBoxIsMisread | scripts/g1_gemma_probe.py:337-369 | a file with that size whose extraction invents a PNG region |
| ProvenanceWriter.JpegRoundTrip | scripts/g1_gemma_probe.py:371-390 | the same for segments, markers that stand alone among them, and whatever follows that is no whole segment, unless the file spells `ftyp` |
| ProvenanceWriter.JpegRoundTripExactly | scripts/g1_gemma_probe.py:353-390 | a JPEG is read back as written exactly when spelling `ftyp` comes with nothing listed |
| ProvenanceWriter.JpegSpellingFtypLosesItsExif | scripts/g1_gemma_probe.py:353-390 | a JPEG whose EXIF segment is not found |
| ProvenanceExtraction.ExtractPng | scripts/g1_gemma_probe.py:337-351 | the chunk loop computes the reference walk |
| ProvenanceExtraction.ExtractIsoBmff | scripts/g1_gemma_probe.py:353-369 | the box loop computes the reference walk |
| ProvenanceExtraction.ExtractJpeg | scripts/g1_gemma_probe.py:371-390 | the segment loop computes the reference walk |
| ProvenanceExtraction.ExtractProvenanceRegions | scripts/g1_gemma_probe.py:325-390 | dispatch and loops together give the regions the other lemmas speak of |
| GeneratedMedia.DetectGeneratedMedia | scripts/g1_gemma_probe.py:473-579 | generated exactly when the hash is known or a recognized structure names a marker; matches in order, structures, container format, coverage and the unresolved C2PA item as the file shows them |
| GeneratedMedia.MatchesIn | scripts/g1_gemma_probe.py:530-534 | exactly the markers a structure contains, in the order of the list |
| GeneratedMedia.ContainsExactly | scripts/g1_gemma_probe.py:530-534 | a payload contains a marker exactly when the bytes of the marker lie somewhere in it |
| GeneratedMedia.MarkersAre | scripts/g1_gemma_probe.py:286-299 | the nine markers, one by one |
| GeneratedMedia.PngNamesExactly | scripts/g1_gemma_probe.py:337-351 | a PNG accuses itself exactly when a chunk of a listed type before the end marker contains a marker |
| GeneratedMedia.IsoCoverageExactly | scripts/g1_gemma_probe.py:496-500 | an ISO-BMFF file whose brand claims nothing else is META_ONLY exactly when it has a `meta` or `uuid` box, else NONE |
| GeneratedMedia.AllMatchesExactly | scripts/g1_gemma_probe.py:530-535 | a match is reported exactly when some recognized structure of that name contains the marker |
| GeneratedMedia.PixelsNeverAccuse | scripts/g1_gemma_probe.py:430-451 | insignificant bytes change no marker verdict |
| GeneratedMedia.TruncationNeverAccuses | scripts/g1_gemma_probe.py:430-451 | cutting a file never adds an accusation |
| GeneratedMedia.FullCoverageExactly | scripts/g1_gemma_probe.py:477-523 | for every file, exactly when it is reported FULL without every structure of its own format having been found |
| GeneratedMedia.BrandCanClaimFull | scripts/g1_gemma_probe.py:481-523 | an ISO-BMFF file whose brand spells PNG is reported FULL |
| GeneratedMedia.BrandIsUpperCased | scripts/g1_gemma_probe.py:475-485 | a lower-case brand is reported in upper case, letter by letter |
| Serialization.WorkflowRoundTrip | src/driftzero_cloud/serialization.py:108-143 | a workflow record decodes to the workflow, history and revision encoded |
| Serialization.WorkflowFields | src/driftzero_cloud/serialization.py:108-126 | envelope, index fields, history and revision lie under their stored names, and nothing else does |
| Serialization.OldWorkflowReads | src/driftzero_cloud/serialization.py:132-143 | a document without the recovery fields reads as the workflow without history at revision 0 |
| Serialization.ActionRoundTrip | src/driftzero_cloud/serialization.py:148-160 | an action decodes to what was encoded |
| Serialization.ActionFields | src/driftzero_cloud/serialization.py:148-157 | the fields of an action document under their stored names |
| Serialization.ProofRoundTrip | src/driftzero_cloud/serialization.py:165-211 | a proof decodes to what was encoded |
| Serialization.ProofFields | src/driftzero_cloud/serialization.py:165-184 | the fields of a proof document under their stored names |
| Serialization.TamperedProofRefused | src/driftzero_cloud/serialization.py:185-211 | under other stored bytes or another stored hash a proof is refused, for which, and exactly when the replacement is neither right nor missing |
| Serialization.AcceptedProofKeepsIdentity | src/driftzero_cloud/serialization.py:185-211 | a swapped payload is accepted only if it carries the same canonical bytes and hash |
| Serialization.ForeignDocumentsRefused | src/driftzero_cloud/serialization.py:64-82 | exactly which documents a decoder accepts; another kind or version never |
| Serialization.VersionAcceptedExactly | src/driftzero_cloud/serialization.py:68-74 | a stored document opens exactly under the version number and under `true` |
| StateMachine.ParseName | src/driftzero/models/workflow.py:25-40 | every state name reads back as its state |
| StateMachine.Spellings | src/driftzero/models/workflow.py:25-40 | the thirteen stored names, each read as its state |
| StateMachine.TransitionsExactly | src/driftzero/truth_engine/state_machine.py:31-82 | a transition is legal exactly from where its target may be entered, and nothing leaves the three terminal states |
| ResumeSnapshot.ImpactRoundTrip | src/driftzero_cloud/resume_snapshot.py:46-102 | an impact resolution decodes to what was encoded, enum-keyed conditions included |
| ResumeSnapshot.NamesRead | src/driftzero/truth_engine/impact.py:28-56 | the stored names of the four conditions and three outcomes |
| ResumeSnapshot.SortedIdsAscend | src/driftzero_cloud/resume_snapshot.py:138 | the stored submission ids are strictly ascending |
| ResumeSnapshot.LiveSession.ApplySnapshot | src/driftzero_cloud/resume_snapshot.py:153-202 | field by field, computes the restored session; an unknown version changes nothing |
| ResumeSnapshot.RestoreProjection | src/driftzero_cloud/resume_snapshot.py:108-202 | restoring a projected session onto any base gives every projected field back but two fallbacks |
| ResumeSnapshot.SnapshotRoundTripExactly | src/driftzero_cloud/resume_snapshot.py:108-202 | re-encoding gives the same snapshot exactly when neither fallback can show through |
| Handoff.RestoreLedger | src/driftzero_api/runtime.py:398-403 | reinstates every stored action over the ledger, or fails when one does not decode |
| Handoff.RehydrateSession | src/driftzero_api/runtime.py:380-420 | the rebuild, step by step, computes the rehydrated session |
| Handoff.PartsMissing | src/driftzero_api/runtime.py:380-420 | without a workflow document there is no session; without a snapshot only workflow, history and ledger are taken over |
| Handoff.LedgerRoundTrip | src/driftzero_cloud/firestore.py:194-219 | a ledger read back from its documents is the ledger written |
| Handoff.HandoffExactly | src/driftzero_api/runtime.py:380-420 | the resumed session is the persisted one exactly when the source is the same and no fallback shows through |
| Handoff.HandoffPreservesProofInputs | src/driftzero_console/service.py:2307-2349 | over a session of the same source change the proof context is equal and persisting again writes the same documents |
| Handoff.GatheredExactly | src/driftzero_console/service.py:2307-2349 | proof inputs are gathered exactly when impact, remediation and a non-empty receipt are there and the qualified artifact can be read |
| Handoff.ContextCarries | src/driftzero_console/service.py:2324-2349 | what they carry: source ref and hash of the source change, the content ref of the qualified artifact or nothing, and events, history names and rejected refs complete and in order |
| Handoff.NewContentMovesAffectedOnly | src/driftzero_console/service.py:2324-2330 | other content of the qualified artifact moves the affected ref and nothing else |
| Handoff.HopsAreIdentity | src/driftzero_api/runtime.py:380-420 | any number of handoffs leaves the documents as they were, revision count aside |
| History.ConsoleSession.Persist | src/driftzero_console/service.py:671-685 | stores state, history and both event lists |
| History.ConsoleSession.Advance | src/driftzero_console/service.py:643-657 | a legal target is entered, the state left is recorded, and the session persisted; else nothing |
| History.AdvancedExactly | src/driftzero_console/service.py:643-657 | advancing records the state it leaves exactly when the target may be entered from it, else it changes nothing |
| History.ConsoleSession.Adjudicate | src/driftzero_console/service.py:1856-1890 | reopens, absorbs duplicates, else appends one event to both lists and enters the verdict state |
| History.AdjudicatedExactly | src/driftzero_console/service.py:1856-1890 | an accepted observation in an open state, not submitted before, adds one event with its id, submission and verdict to both lists and enters the state of that verdict, for all three; anything else adds nothing |
| History.ConsoleSession.Rehydrate | src/driftzero_api/runtime.py:390-418 | the next driver starts from what is stored |
| History.DurableHistoryGrows | src/driftzero_console/service.py:643-685 | across use cases, crashes, torn persists and hops, the stored state history and both stored event lists extend what was stored before |
| History.EventIdsDistinct | src/driftzero_console/service.py:1872-1888 | event ids stay distinct in memory and in store, whatever session minted them |
| History.SubmissionsCountOnce | src/driftzero_console/service.py:1872-1888 | no two events of the session's list carry one submission, in memory or in store, through every run |
| History.PassedOnlyByPass | src/driftzero/agents/orchestrator.py:278-298 | no run brings a workflow to PASSED or PROOF_COMPLETE unless its latest stored event is a PASS |
| Aggregate.AgreeExactly | src/driftzero_console/service.py:671-685 | over every run the workflow's own event list is the session's exactly when no persist was torn while the driver held events the snapshot lacked; their lengths in memory tell |
| Aggregate.ProofIsReached | src/driftzero_console/service.py:643-685 | the run from a received change to a completed proof: five advances, one PASS, the last advance, and what is stored then |
| Aggregate.IdRepeatsExactly | src/driftzero_console/service.py:1872-1890 | adjudicating a new event keeps the aggregate's ids distinct exactly when its latest event carries no number of this session that the session has not reached |
| Aggregate.IdRepeatsByLength | src/driftzero_console/service.py:1872-1890 | for a session named `session-001` throughout, exactly when the two lists are equally long |
| Aggregate.TornPersistRepeatsAnId | src/driftzero_console/service.py:671-685 | one torn persist can give two events of the aggregate one id |
| Aggregate.SubmissionRepeatsExactly | src/driftzero/agents/orchestrator.py:256-278 | adjudicating a new event keeps every submission single in the workflow's own list exactly when that list does not hold it yet |
| Aggregate.UntornCountsOnce | src/driftzero/agents/orchestrator.py:256-278 | while no step tears the lists apart, a submission is adjudicated once in the workflow document too |
| Aggregate.AgreeingDriverAbsorbs | src/driftzero/agents/orchestrator.py:256-278 | while the two lists are equally long, whatever is taken for a new submission is new to the workflow's own list |
| Aggregate.TornPersistRepeatsASubmission | src/driftzero/agents/orchestrator.py:256-278 | after one torn persist a submission sent again is adjudicated a second time in the workflow document |
| Overwrites.OverwritesUnseenExactly | src/driftzero_cloud/composition.py:42-47 | with any number of drivers, a persist goes through over a write its session has not seen exactly when it is its sink's first save and another sink wrote since the rehydrate |
| Overwrites.LosesOnlyOverUnseen | src/driftzero_cloud/firestore.py:100-168 | every other persist, whole or torn, keeps all stored states and both stored event lists |
| Overwrites.OutgrownIsLost | src/driftzero_cloud/firestore.py:100-168 | when what is stored has outgrown the session, a persist loses some of it exactly then |
| Overwrites.FirstSaveTakesBack | src/driftzero_cloud/firestore.py:115-120 | a resumed process whose first save returns the workflow to an earlier state and shuts the first driver out |
| History.HistoryIsSubsequence | src/driftzero_console/service.py:643-657 | the state history is a subsequence of the states occupied, connected by the matrix and free of terminal states |
| History.ReopensExactly | src/driftzero/agents/orchestrator.py:320-334 | reopening moves exactly three states and records none |
| Correspondence.IngestionSavesToTheStore | src/driftzero_api/runtime.py:258-260 | recording a new workflow in ingestion is the store's unconditional save, seen through ingestion's fields |
| Correspondence.PersistIsPersisted | src/driftzero_console/service.py:671-685 | a flush that goes through leaves in the store exactly the documents a handoff starts from |
| Correspondence.HandoffIsRehydrated | src/driftzero_api/runtime.py:380-420 | the session a handoff rebuilds is, to the history, the driver rehydrated from what was written |
| Correspondence.FlushIsASave | src/driftzero_cloud/firestore.py:100-168 | the revision check by which drivers overwrite each other is the one of the store |
| Broker.DutiesAreSeparate | src/driftzero/capabilities.py:84-114 | no identity holds two tools, every tool has one holder, the orchestrator none |
| Broker.AuthorizedExactly | src/driftzero/capabilities.py:84-114 | exactly three pairs of identity and tool are authorized, by name |
| Broker.CapabilityBroker.Issue | src/driftzero/capabilities.py:262-341 | checks in order, then registers and signs, or records one denial |
| Broker.CapabilityBroker.IssueGrant | src/driftzero/capabilities.py:345-442 | the same for any tool, with the unknown tool as a further denial |
| Broker.CapabilityBroker.Deny | src/driftzero/capabilities.py:486-512 | appends one numbered denial record and nothing else |
| Broker.CapabilityBroker.Register | src/driftzero/capabilities.py:315-341 | counts, signs and enters one grant |
| Broker.CapabilityBroker.Revoke | src/driftzero/capabilities.py:514-526 | marks a registered grant revoked, and only that |
| Broker.CapabilityBroker.Verify | src/driftzero/capabilities.py:530-560 | accepts exactly what the registry, the policy and the signature vouch for |
| Broker.CapabilityBroker.VerifyForTool | src/driftzero/capabilities.py:562-570 | accepts only for the tool presented |
| Broker.VerifiesExactly | src/driftzero/capabilities.py:530-560 | over every run, a capability verifies exactly when this broker minted it field by field for a scope it covers and it was not revoked |
| Broker.VerifiesForItsToolOnly | src/driftzero/capabilities.py:444-474 | what was minted verifies, and nothing under its id verifies for another tool, holder, change or version |
| Broker.IdsAreFresh | src/driftzero/capabilities.py:315-316 | ids never repeat even if random parts do; issued count, registry size and minted capabilities agree |
| Broker.DenialMintsNothing | src/driftzero/capabilities.py:486-512 | exactly which requests are denied; a denial leaves registry and count alone |
| Broker.DenialExactly | src/driftzero/capabilities.py:486-512 | what a denial records: number, requester, the reason by the first check that failed, and each part of the request unless it was empty |
| Broker.DenialNamesToolExactly | src/driftzero/capabilities.py:360-394 | a denial names the tool asked for, except that a known identity asking for an unknown tool is recorded under the default one |
| Broker.DenialsAreNumbered | src/driftzero/capabilities.py:486-512 | over every run the k-th denial carries number k and the count is their number |
| Broker.RevokedForever | src/driftzero/capabilities.py:514-526 | after a revocation took effect nothing under that id ever verifies again |
| Broker.NotTransferable | src/driftzero/capabilities.py:235-250 | a capability of one broker verifies at another exactly when that other minted the same one, token included, and has not revoked it |
| Broker.DifferentKeyRefuses | src/driftzero/capabilities.py:235-250 | brokers whose signatures differ on the payload of a capability never accept it from each other |
| Broker.PayloadIsAmbiguous | src/driftzero/capabilities.py:572-590 | two different grants can have one signed payload |
| Broker.PayloadSeparates | src/driftzero/capabilities.py:572-590 | where no field holds the separator, equal payloads have equal id, holder, tool, scope, change and version |
| Base64.RoundTrip | src/driftzero_public/capability.py:53-58 | decoding undoes encoding for every byte string |
| Base64.PaddingRestored | src/driftzero_public/capability.py:53-58 | stripping removes exactly the padding, and the stripped length alone restores it |
| Base64.Injective | src/driftzero_public/capability.py:53-58 | different bytes encode differently, and no encoding contains a dot |
| Base64.DecodesExactly | src/driftzero_public/capability.py:57-58 | URL-safe text decodes exactly when its length is not one more than a multiple of four, and how long the result is |
| Base64.AlphabetDigits | src/driftzero_public/capability.py:53-58 | the digits of RFC 4648, table 2, by their ASCII codes |
| Base64.DataCarriesBits | src/driftzero_public/capability.py:53-58 | every four digits are worth in base 64 what three bytes are worth in base 256 |
| PilotCapability.IssuedVerifies | src/driftzero_public/capability.py:100-157 | an issued token names exactly its workflow and change at every clock value below expiry, and is refused from expiry on |
| PilotCapability.AuthenticExactly | src/driftzero_public/capability.py:120-139 | a token is authentic exactly when it is one dot between a body and the signature of that body |
| PilotCapability.AdmittedExactly | src/driftzero_public/capability.py:139-157 | what an authentic body must say to be admitted, what is read from it, and that another version is malformed |
| PilotCapability.TokensCarryTheirClaims | src/driftzero_public/capability.py:100-117 | issued tokens coincide only when everything they carry does |
| PilotCapability.VerifiesExactlyWhatWasIssued | src/driftzero_public/capability.py:120-157 | if only the key's holder signs, a token verifies exactly when it was issued, named a workflow and has not expired |
| Retry.RunSemanticCall | src/driftzero/retry.py:126-211 | the loop refines the policy: calls made are the attempts recorded, within budget, and the result is what they conclude |
| Retry.PolicyDeterminesTheRun | src/driftzero/retry.py:126-211 | the policy allows one run only for given outcomes and clock readings |
| Retry.AtMostOneRepair | src/driftzero/retry.py:144-176 | at most one attempt is a repair, none if repair is not allowed |
| Retry.SucceededExactly | src/driftzero/retry.py:147-211 | SUCCEEDED exactly when the last call returned in time, with its value; refused exactly when it raised something that may not be retried |
| Retry.RetriedOnlyForCause | src/driftzero/retry.py:111-193 | only an overrun, a transient failure, a timeout or the first malformed output is followed by another attempt |
| Retry.StopsEarlyOnlyForCause | src/driftzero/retry.py:165-193 | by what the calls did: a run makes as many calls as it takes to meet a value in time, an error not to be retried, or malformed output with no repair left, or the whole budget; a transient error, a timeout or an overrun with budget left is always followed by another call |
| Retry.RecordsTell | src/driftzero/retry.py:111-193 | what each attempt leaves on record: its number and time, whether it was a repair, and a class for each kind of exception |
| Retry.FinalErrorTells | src/driftzero/retry.py:165-211 | the error reported is that of the last call, and a run without budget says so |
| SessionChronology.RebuiltIsUnique | src/driftzero_adk/firestore_session.py:131-140 | the rebuilt chronology is the one ordered arrangement of the stored documents, whatever order they stream in |
| SessionChronology.ChronologyExactly | src/driftzero_adk/firestore_session.py:131-140 | its order: by timestamp, a missing one counting as 0, then by the first character in which the ids differ |
| SessionChronology.SessionKeysDistinct | src/driftzero_adk/firestore_session.py:50-61 | identities whose application and user names have no double underscore share a key only when equal |
| SessionChronology.DoubleUnderscoreShares | src/driftzero_adk/firestore_session.py:50-61 | a double underscore between safe parts gives two identities one key |
| SessionChronology.WindowsAreSuffixes | src/driftzero_adk/firestore_session.py:194-202 | a window is a suffix: exactly the events since a moment, and of those the most recent |
| SessionChronology.ReplaysInOrderExactly | src/driftzero_adk/firestore_session.py:131-220 | what was appended comes back, partial events left out, exactly when it was appended in order of timestamp and id |
| SessionChronology.IncreasingTimestampsReplay | src/driftzero_adk/firestore_session.py:204-220 | strictly increasing timestamps give back exactly the kept events |
| SessionService.FirestoreSessionService.CreateSession | src/driftzero_adk/firestore_session.py:144-179 | returns the stored session if there is one, else writes a new one |
| SessionService.FirestoreSessionService.GetSession | src/driftzero_adk/firestore_session.py:181-202 | the stored session with the selected window of its one chronology |
| SessionService.FirestoreSessionService.AppendEvent | src/driftzero_adk/firestore_session.py:204-220 | a partial event changes nothing; another updates the session and stores the event under its id |
| SessionService.AppendStoresExactly | src/driftzero_adk/firestore_session.py:204-220 | a whole event's state is stored in any case, the event itself and a normal return exactly when its id is safe |
| SessionService.NothingToReadExactly | src/driftzero_adk/firestore_session.py:181-220 | a partial event changes nothing; `None` is read exactly where no session stands; a document of another schema version is refused |
| SessionService.CreatedIsReadBack | src/driftzero_adk/firestore_session.py:144-202 | a new session is written as offered, alone, and read back the same through any window |
| SessionService.SharedKeyIsOneSession | src/driftzero_adk/firestore_session.py:144-202 | two identities under one key are one session: the second is handed the first one's |
| SessionService.RefusedEventLeavesItsState | src/driftzero_adk/firestore_session.py:214-219 | an event with an empty id leaves its state behind and no event |
| SessionService.WindowedGetIsSuffix | src/driftzero_adk/firestore_session.py:181-202 | reading through a window gives a suffix of the rebuilt chronology |
| SessionService.RestartReturnsTheSession | src/driftzero_adk/firestore_session.py:144-220 | a restarted process gets back the whole session the first one held, and writes nothing |

## Left out

- HTTP routes, Pub/Sub transport, command line, web pages, telemetry, provider wiring and the agent runner.
- The Truth Engine's own decisions (impact, comparison, the seven completion conditions, ledger legality): only the
  facts its call sites state are used. The verdict of an observation is a parameter of adjudication.
- The non-durable mode of the runtime and its in-memory stores.
- Validation of an ingested change beyond accepted or refused, and the dataset built from it.
- HMAC, SHA-256, JSON and pydantic as algorithms: parameters with laws. The decoder of Python's `binascii` is
  modelled as it reads text, the encoder from RFC 4648.
- Base64.Read: reads text without the strict mode that the library offers and the code does not use.
- Retry's floating-point clock is modelled over reals, and exception texts are the rendered strings.
- SessionChronology.SessionKeysDistinct: one direction; that a double underscore is shared as well is
  `DoubleUnderscoreShares`, where the part that moves stays a safe identifier.
- SessionService.AppendOp: takes the event as the framework returns it, after it trimmed temporary state; `delete_session`,
  `list_sessions` and `persist_state` are not part of this model.
- Delivery after a resume: the delivery action id is derived again in the new process and nothing is claimed about it.
- Snapshot documents with values of another JSON type than the encoder writes in identifier and list fields, which
  the code stores as they are.
- Handoff.Persisted: assumes stored ledger documents belong to the session's own ledger, as they do for one driver at a time.
- GeneratedMedia.DetectGeneratedMedia: leaves out the anomalies, the extension check, the EXIF, C2PA and camera flags read
  off the raw bytes, and the hash registry beyond whether a hash is known; none of them decides the verdict.
- Resume.TwoDriversOnlyIf: one direction, over the past of a run; the equivalence at the resuming step is
  `Resume.SecondDriverExactly`.
- GeneratedMedia.FullCoverageExactly: for files below about 4 GB, for the reason given below.
- The last store call of an ingestion and its return are one step; a crash between them only removes a report.
- ProvenanceWriter.JpegRoundTripExactly: for files below about 4 GB, where a JPEG signature read as a box size
  always overruns the file; `JpegRoundTrip` has no such bound.
- Provenance.JpegOverwriteExactly: for files below about 4 GB, for the same reason; `InsignificantBytesDoNotMatter`
  has no such bound.
- The views of the console and the evidence records kept beside each step.
