/** Expiring single-owner resume leases, with `acquire` and `release` as single steps under one
    non-decreasing clock. `LeaseInterleaving` breaks the two operations into store calls. */
module Leases {
  import opened Basics
  import opened Identifiers
  import opened DocumentStore

  /** `expiresAt` is `None` when the stored value cannot be parsed as an instant. */
  datatype LeaseDoc = LeaseDoc(owner: string, token: string, expiresAt: Option<int>, superseded: Option<string>)

  datatype Lease = Lease(workflow: string, owner: string, token: string, expiresAt: int)

  datatype Refusal = Rejected(reason: Rejection) | Denied(holder: Option<string>)

  predicate Expired(l: Lease, now: int) { now >= l.expiresAt }

  /** A stored document still shuts others out at `now`. */
  predicate Blocks(doc: LeaseDoc, now: int) {
    doc.expiresAt.Some? && now < doc.expiresAt.value
  }

  function Record(owner: string, token: string, expiresAt: int): LeaseDoc {
    LeaseDoc(owner, token, Some(expiresAt), None)
  }

  /** What acquiring does to the collection when nobody else runs meanwhile. */
  function AcquireOp(docs: map<string, LeaseDoc>, w: string, owner: string, token: string, now: int, ttl: int)
    : (map<string, LeaseDoc>, Result<Lease, Refusal>)
  {
    var lease := Lease(w, owner, token, now + ttl);
    if !Safe(w) then (docs, Err(Rejected(SafeIdentifier(w).error)))
    else if w !in docs then (docs[w := Record(owner, token, now + ttl)], Ok(lease))
    else if Blocks(docs[w], now) then (docs, Err(Denied(Some(docs[w].owner))))
    else (docs[w := Record(owner, token, now + ttl).(superseded := Some(docs[w].owner))], Ok(lease))
  }

  function ReleaseOp(docs: map<string, LeaseDoc>, l: Lease): (map<string, LeaseDoc>, bool) {
    if l.workflow in docs && docs[l.workflow].token == l.token then (docs - {l.workflow}, true)
    else (docs, false)
  }

  /** A granted lease lives from `now` for exactly `ttl`, and its document names it, its end and whom it superseded; a
      refusal writes nothing and names the owner of the document that stands in the way. */
  lemma AcquireExactly(docs: map<string, LeaseDoc>, w: string, owner: string, token: string, now: int, ttl: int)
    ensures var (after, r) := AcquireOp(docs, w, owner, token, now, ttl);
            var shut := w in docs && docs[w].expiresAt.Some? && now < docs[w].expiresAt.value;
            && (r.Ok? <==> Safe(w) && !shut)
            && (r.Err? ==> after == docs && (Safe(w) ==> r.error == Denied(Some(docs[w].owner))))
            && (r.Ok? ==>
                  && (r.value.workflow, r.value.owner, r.value.token) == (w, owner, token)
                  && (forall later :: Expired(r.value, later) <==> later - now >= ttl)
                  && w in after && after - {w} == docs - {w}
                  && (after[w].owner, after[w].token, after[w].expiresAt) == (owner, token, Some(now + ttl))
                  && after[w].superseded == (if w in docs then Some(docs[w].owner) else None))
  {
    hide Safe;
    var after := AcquireOp(docs, w, owner, token, now, ttl).0;
    assert after != docs ==> after - {w} == docs - {w};
  }

  class ResumeLeases {
    const leases: Collection<LeaseDoc>
    const ttl: int

    constructor (leases: Collection<LeaseDoc>, ttl: int)
      ensures this.leases == leases && this.ttl == ttl
    {
      this.leases := leases;
      this.ttl := ttl;
    }

    method Acquire(w: string, owner: string, now: int, token: string) returns (r: Result<Lease, Refusal>)
      modifies leases
      ensures (leases.docs, r) == AcquireOp(old(leases.docs), w, owner, token, now, ttl)
    {
      var id := SafeIdentifier(w);
      if id.Err? {
        return Err(Rejected(id.error));
      }
      var expiresAt := now + ttl;
      var record := Record(owner, token, expiresAt);
      var created := leases.Create(w, record);
      if !created {
        var existing := leases.Get(w);
        if existing.Some? && Blocks(existing.value, now) {
          return Err(Denied(Some(existing.value.owner)));
        }
        record := record.(superseded := if existing.Some? then Some(existing.value.owner) else None);
        leases.Put(w, record);
      }
      return Ok(Lease(w, owner, token, expiresAt));
    }

    method Release(l: Lease) returns (released: bool)
      modifies leases
      ensures (leases.docs, released) == ReleaseOp(old(leases.docs), l)
    {
      var snapshot := leases.Get(l.workflow);
      if snapshot.None? {
        return false;
      }
      if snapshot.value.token != l.token {
        return false;
      }
      leases.Delete(l.workflow);
      return true;
    }
  }

  // ------------------------------------------------------- runs

  datatype Event =
    | Acquire(w: string, owner: string, token: string)
    | Release(lease: Lease)
    | Tick(now: int)

  /** `issued` lists the leases handed out, oldest first; `tokens` are all tokens ever minted. */
  datatype World = World(
    docs: map<string, LeaseDoc>,
    issued: seq<Lease>,
    released: set<Lease>,
    tokens: set<string>,
    clock: int
  )

  /** A minted token is new; a lease is released by its holder, once; the clock never goes back. */
  predicate Enabled(s: World, e: Event) {
    match e
    case Acquire(_, _, token) => token !in s.tokens
    case Release(l) => l in s.issued && l !in s.released
    case Tick(now) => now >= s.clock
  }

  function Next(s: World, e: Event, ttl: int): World {
    if !Enabled(s, e) then s
    else
      match e
      case Acquire(w, owner, token) =>
        var (docs, r) := AcquireOp(s.docs, w, owner, token, s.clock, ttl);
        s.(docs := docs, tokens := s.tokens + {token}, issued := if r.Ok? then s.issued + [r.value] else s.issued)
      case Release(l) =>
        s.(docs := ReleaseOp(s.docs, l).0, released := s.released + {l})
      case Tick(now) => s.(clock := now)
  }

  function Exec(s: World, es: seq<Event>, ttl: int): World {
    if es == [] then s else Next(Exec(s, es[..|es| - 1], ttl), es[|es| - 1], ttl)
  }

  /** Any documents may be left over from earlier deployments; no lease of this run is out yet. */
  predicate Initial(s: World) {
    s.issued == [] && s.released == {} && forall w :: w in s.docs ==> s.docs[w].token in s.tokens
  }

  predicate Live(s: World, l: Lease) {
    l in s.issued && l !in s.released && !Expired(l, s.clock)
  }

  /** Tokens identify leases, and every stored token was minted. */
  ghost predicate TokensIdentify(s: World) {
    && (forall i :: 0 <= i < |s.issued| ==> s.issued[i].token in s.tokens)
    && (forall i, j :: 0 <= i < j < |s.issued| ==> s.issued[i].token != s.issued[j].token)
    && (forall w :: w in s.docs ==> s.docs[w].token in s.tokens)
    && (forall l :: l in s.released ==> l in s.issued)
  }

  predicate Stored(docs: map<string, LeaseDoc>, l: Lease) {
    l.workflow in docs && docs[l.workflow].token == l.token
  }

  ghost predicate LiveIsStored(s: World) {
    forall l :: Live(s, l) ==> Stored(s.docs, l) && s.docs[l.workflow].expiresAt == Some(l.expiresAt)
  }

  ghost predicate FollowedIsNotStored(s: World) {
    forall i, j :: 0 <= i < j < |s.issued| && s.issued[i].workflow == s.issued[j].workflow ==>
      !Stored(s.docs, s.issued[i])
  }

  ghost predicate Inv(s: World) {
    TokensIdentify(s) && LiveIsStored(s) && FollowedIsNotStored(s)
  }

  lemma NextKeepsInv(s: World, e: Event, ttl: int)
    requires Inv(s)
    ensures Inv(Next(s, e, ttl))
  {
    var t := Next(s, e, ttl);
    if Enabled(s, e) && e.Acquire? {
      AcquireKeepsInv(s, e, ttl);
    } else if Enabled(s, e) && e.Release? {
      ReleaseKeepsInv(s, e.lease, ttl);
    } else if Enabled(s, e) {
      assert forall l :: Live(t, l) ==> Live(s, l);
    }
  }

  /** A live lease is stored and blocks, so a workflow that can be acquired has none. */
  lemma NobodyLiveWhereFree(s: World, w: string)
    requires LiveIsStored(s) && (w in s.docs ==> !Blocks(s.docs[w], s.clock))
    ensures forall l :: Live(s, l) ==> l.workflow != w
  {
  }

  /** A grant: the new lease is last, under a token nobody had, and its document replaces at most one that does not
      block. */
  ghost predicate Grants(s: World, t: World, l: Lease) {
    && l.token !in s.tokens && t.tokens == s.tokens + {l.token}
    && t.issued == s.issued + [l] && t.released == s.released && t.clock == s.clock
    && l.workflow in t.docs && t.docs[l.workflow].token == l.token && t.docs[l.workflow].expiresAt == Some(l.expiresAt)
    && t.docs == s.docs[l.workflow := t.docs[l.workflow]]
    && (l.workflow in s.docs ==> !Blocks(s.docs[l.workflow], s.clock))
  }

  lemma GrantKeepsTokens(s: World, t: World, l: Lease)
    requires TokensIdentify(s) && Grants(s, t, l)
    ensures TokensIdentify(t)
  {
  }

  lemma GrantKeepsLive(s: World, t: World, l: Lease)
    requires LiveIsStored(s) && Grants(s, t, l)
    ensures LiveIsStored(t)
  {
    NobodyLiveWhereFree(s, l.workflow);
    assert forall x :: Live(t, x) && x != l ==> Live(s, x);
  }

  lemma GrantKeepsFollowed(s: World, t: World, l: Lease)
    requires TokensIdentify(s) && FollowedIsNotStored(s) && Grants(s, t, l)
    ensures FollowedIsNotStored(t)
  {
    hide Blocks;
    forall i | 0 <= i < |s.issued|
      ensures Stored(t.docs, s.issued[i]) ==> Stored(s.docs, s.issued[i]) && s.issued[i].workflow != l.workflow
    {
      assert s.issued[i].token != l.token;
    }
    forall i, j | 0 <= i < j < |t.issued| && t.issued[i].workflow == t.issued[j].workflow
      ensures !Stored(t.docs, t.issued[i])
    {
      assert t.issued[i] == s.issued[i];
    }
  }

  lemma AcquireKeepsInv(s: World, e: Event, ttl: int)
    requires Inv(s) && e.Acquire? && Enabled(s, e)
    ensures Inv(Next(s, e, ttl))
  {
    var t := Next(s, e, ttl);
    var (docs, r) := AcquireOp(s.docs, e.w, e.owner, e.token, s.clock, ttl);
    if r.Ok? {
      assert Grants(s, t, r.value);
      hide Next, AcquireOp, Grants, TokensIdentify, LiveIsStored, FollowedIsNotStored;
      GrantKeepsTokens(s, t, r.value);
      GrantKeepsLive(s, t, r.value);
      GrantKeepsFollowed(s, t, r.value);
    } else {
      assert forall l :: Live(t, l) ==> Live(s, l);
    }
  }

  lemma ReleaseKeepsInv(s: World, l: Lease, ttl: int)
    requires Inv(s) && Enabled(s, Release(l))
    ensures Inv(Next(s, Release(l), ttl))
  {
    var t := Next(s, Release(l), ttl);
    assert forall x :: Live(t, x) ==> Live(s, x) && x != l;
    var k :| 0 <= k < |s.issued| && s.issued[k] == l;
    forall i | 0 <= i < |s.issued| && Live(t, s.issued[i])
      ensures s.issued[i].token != l.token
    {
      assert i != k;
    }
  }

  lemma {:induction false} RunKeepsInv(s: World, es: seq<Event>, ttl: int)
    requires Initial(s)
    ensures Inv(Exec(s, es, ttl))
  {
    if es != [] {
      RunKeepsInv(s, es[..|es| - 1], ttl);
      NextKeepsInv(Exec(s, es[..|es| - 1], ttl), es[|es| - 1], ttl);
    }
  }

  /** At every reachable state at most one lease of a workflow is unreleased and unexpired,
      and the stored document carries its token. */
  lemma LeaseExclusion(s: World, es: seq<Event>, ttl: int, l: Lease, m: Lease)
    requires Initial(s)
    requires var t := Exec(s, es, ttl); Live(t, l) && Live(t, m) && l.workflow == m.workflow
    ensures l == m
    ensures var t := Exec(s, es, ttl); l.workflow in t.docs && t.docs[l.workflow].token == l.token
  {
    RunKeepsInv(s, es, ttl);
    var t := Exec(s, es, ttl);
    var i :| 0 <= i < |t.issued| && t.issued[i] == l;
    var j :| 0 <= j < |t.issued| && t.issued[j] == m;
  }

  /** Releasing a lease that another of its workflow has followed changes nothing and says so. */
  lemma SupersededReleaseIsNoOp(s: World, es: seq<Event>, ttl: int, i: nat, j: nat)
    requires Initial(s)
    requires var t := Exec(s, es, ttl); i < j < |t.issued| && t.issued[i].workflow == t.issued[j].workflow
    ensures var t := Exec(s, es, ttl); ReleaseOp(t.docs, t.issued[i]) == (t.docs, false)
  {
    RunKeepsInv(s, es, ttl);
  }

  /** A live holder is never shut out of its own release. */
  lemma LiveReleaseFrees(s: World, es: seq<Event>, ttl: int, l: Lease)
    requires Initial(s) && Live(Exec(s, es, ttl), l)
    ensures var t := Exec(s, es, ttl); ReleaseOp(t.docs, l) == (t.docs - {l.workflow}, true)
  {
    RunKeepsInv(s, es, ttl);
    var t := Exec(s, es, ttl);
    var i :| 0 <= i < |t.issued| && t.issued[i] == l;
  }

  // ------------------------------------------------------- availability

  /** The stored document is that of an unreleased lease of this run. */
  predicate Backs(s: World, l: Lease) {
    && l in s.issued && l !in s.released && Stored(s.docs, l)
    && s.docs[l.workflow].expiresAt == Some(l.expiresAt) && s.docs[l.workflow].owner == l.owner
  }

  ghost predicate StoredIsBacked(s: World) {
    forall w :: w in s.docs ==> exists l: Lease :: l.workflow == w && Backs(s, l)
  }

  /** The lease behind a stored document still backs it, or the document is new and its own lease does. */
  lemma StillBacked(s: World, e: Event, ttl: int, w: string)
    requires Inv(s) && StoredIsBacked(s) && w in Next(s, e, ttl).docs
    requires !(Enabled(s, e) && e.Acquire? && e.w == w && AcquireOp(s.docs, w, e.owner, e.token, s.clock, ttl).1.Ok?)
    ensures exists l: Lease :: l.workflow == w && Backs(Next(s, e, ttl), l)
  {
    hide Inv, Blocks, Safe;
    var l: Lease :| l.workflow == w && Backs(s, l);
    assert Backs(Next(s, e, ttl), l);
  }

  lemma NewlyBacked(s: World, e: Event, ttl: int)
    requires Inv(s) && Enabled(s, e) && e.Acquire? && AcquireOp(s.docs, e.w, e.owner, e.token, s.clock, ttl).1.Ok?
    ensures Backs(Next(s, e, ttl), Lease(e.w, e.owner, e.token, s.clock + ttl))
  {
    hide Blocks, Safe;
    var t, l := Next(s, e, ttl), Lease(e.w, e.owner, e.token, s.clock + ttl);
    assert t.issued[|s.issued|] == l;
  }

  lemma NextKeepsBacked(s: World, e: Event, ttl: int)
    requires Inv(s) && StoredIsBacked(s)
    ensures StoredIsBacked(Next(s, e, ttl))
  {
    hide Next, Inv, Backs, AcquireOp, Enabled;
    forall w | w in Next(s, e, ttl).docs ensures exists l: Lease :: l.workflow == w && Backs(Next(s, e, ttl), l) {
      if Enabled(s, e) && e.Acquire? && e.w == w && AcquireOp(s.docs, w, e.owner, e.token, s.clock, ttl).1.Ok? {
        NewlyBacked(s, e, ttl);
      } else {
        StillBacked(s, e, ttl, w);
      }
    }
  }

  lemma {:induction false} RunKeepsBacked(s: World, es: seq<Event>, ttl: int)
    requires Initial(s) && s.docs == map[]
    ensures StoredIsBacked(Exec(s, es, ttl))
  {
    if es != [] {
      RunKeepsBacked(s, es[..|es| - 1], ttl);
      RunKeepsInv(s, es[..|es| - 1], ttl);
      NextKeepsBacked(Exec(s, es[..|es| - 1], ttl), es[|es| - 1], ttl);
    }
  }

  /** From an empty collection, acquiring a safe id is refused exactly while a live lease exists,
      so a crashed holder shuts others out for its time to live and no longer. The refusal names its owner. */
  lemma RefusedExactlyWhileLive(s: World, es: seq<Event>, ttl: int, w: string, owner: string, token: string)
    requires Initial(s) && s.docs == map[] && Safe(w)
    ensures var t := Exec(s, es, ttl);
            var answer := AcquireOp(t.docs, w, owner, token, t.clock, ttl).1;
            && (answer.Err? <==> exists l: Lease :: l.workflow == w && Live(t, l))
            && (forall l: Lease :: l.workflow == w && Live(t, l) ==> answer == Err(Denied(Some(l.owner))))
  {
    RunKeepsInv(s, es, ttl);
    RunKeepsBacked(s, es, ttl);
    var t := Exec(s, es, ttl);
    forall l: Lease | l.workflow == w && Live(t, l)
      ensures AcquireOp(t.docs, w, owner, token, t.clock, ttl).1 == Err(Denied(Some(l.owner)))
    {
      var backing: Lease :| backing.workflow == w && Backs(t, backing);
      assert Live(t, backing);
      LeaseExclusion(s, es, ttl, l, backing);
    }
    if w in t.docs && Blocks(t.docs[w], t.clock) {
      var l: Lease :| l.workflow == w && Backs(t, l);
      assert Live(t, l);
    }
  }
}
