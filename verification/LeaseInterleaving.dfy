/** `acquire` and `release` broken into store calls, interleaved in any order by any number of
    processes. A process that crashes is one that takes no further step. */
module LeaseInterleaving {
  import opened Basics
  import opened Identifiers
  import opened Leases

  /** Where a process stands: what it will do at its next step. One about to take over keeps the document it read
      and judged no obstacle, if there was one. */
  datatype Pc =
    | Idle
    | Creating(lease: Lease, now: int)
    | Checking(lease: Lease, now: int)
    | TakingOver(lease: Lease, judged: Option<LeaseDoc>, now: int)
    | Holding(lease: Lease)
    | Refused
    | Fetching(lease: Lease)
    | Deleting(lease: Lease)
    | Released(workflow: string, confirmed: bool)

  /** `takeovers` collects the workflows for which some process executed the takeover write. */
  datatype State = State(
    docs: map<string, LeaseDoc>,
    procs: map<nat, Pc>,
    tokens: set<string>,
    takeovers: set<string>
  )

  datatype Event =
    | BeginAcquire(p: nat, w: string, owner: string, token: string, now: int, ttl: int)
    | BeginRelease(p: nat)
    | Step(p: nat)

  function PcOf(s: State, p: nat): Pc { if p in s.procs then s.procs[p] else Idle }

  predicate Ready(pc: Pc) { pc.Idle? || pc.Refused? || pc.Released? }

  /** One store call of process `p`. */
  function StepOf(s: State, p: nat): State {
    match PcOf(s, p)
    case Creating(l, now) =>
      if l.workflow in s.docs then s.(procs := s.procs[p := Checking(l, now)])
      else s.(docs := s.docs[l.workflow := Record(l.owner, l.token, l.expiresAt)], procs := s.procs[p := Holding(l)])
    case Checking(l, now) =>
      if l.workflow in s.docs && Blocks(s.docs[l.workflow], now) then s.(procs := s.procs[p := Refused])
      else
        var judged := if l.workflow in s.docs then Some(s.docs[l.workflow]) else None;
        s.(procs := s.procs[p := TakingOver(l, judged, now)])
    case TakingOver(l, judged, _) =>
      var displaced := if judged.Some? then Some(judged.value.owner) else None;
      State(s.docs[l.workflow := Record(l.owner, l.token, l.expiresAt).(superseded := displaced)],
            s.procs[p := Holding(l)], s.tokens, s.takeovers + {l.workflow})
    case Fetching(l) =>
      if Stored(s.docs, l) then s.(procs := s.procs[p := Deleting(l)])
      else s.(procs := s.procs[p := Released(l.workflow, false)])
    case Deleting(l) =>
      s.(docs := s.docs - {l.workflow}, procs := s.procs[p := Released(l.workflow, true)])
    case _ => s
  }

  function Next(s: State, e: Event): State {
    match e
    case BeginAcquire(p, w, owner, token, now, ttl) =>
      if Ready(PcOf(s, p)) && token !in s.tokens
      then s.(procs := s.procs[p := Creating(Lease(w, owner, token, now + ttl), now)], tokens := s.tokens + {token})
      else s
    case BeginRelease(p) =>
      if PcOf(s, p).Holding? then s.(procs := s.procs[p := Fetching(PcOf(s, p).lease)]) else s
    case Step(p) => StepOf(s, p)
  }

  function Exec(s: State, es: seq<Event>): State {
    if es == [] then s else Next(Exec(s, es[..|es| - 1]), es[|es| - 1])
  }

  const INIT := State(map[], map[], {}, {})

  /** The process was granted the lease and its release has not returned. */
  predicate Holds(s: State, p: nat, w: string) {
    var pc := PcOf(s, p);
    (pc.Holding? || pc.Fetching? || pc.Deleting?) && pc.lease.workflow == w
  }

  predicate HasToken(pc: Pc) { !pc.Idle? && !pc.Refused? && !pc.Released? }

  // ------------------------------------------------------- the invariant

  ghost predicate TokensDiffer(s: State) {
    && (forall p :: HasToken(PcOf(s, p)) ==> PcOf(s, p).lease.token in s.tokens)
    && (forall p, q :: p != q && HasToken(PcOf(s, p)) && HasToken(PcOf(s, q)) ==>
          PcOf(s, p).lease.token != PcOf(s, q).lease.token)
  }

  ghost predicate HolderIsStored(s: State) {
    forall p, w :: w !in s.takeovers && Holds(s, p, w) ==> Stored(s.docs, PcOf(s, p).lease)
  }

  ghost predicate StoredIsHeld(s: State) {
    forall w :: w !in s.takeovers && w in s.docs ==>
      exists p :: Holds(s, p, w) && Stored(s.docs, PcOf(s, p).lease)
  }

  ghost predicate ReleasesConfirmed(s: State) {
    forall p :: PcOf(s, p).Released? && PcOf(s, p).workflow !in s.takeovers ==> PcOf(s, p).confirmed
  }

  ghost predicate Inv(s: State) {
    TokensDiffer(s) && HolderIsStored(s) && StoredIsHeld(s) && ReleasesConfirmed(s)
  }

  lemma NextKeepsTokens(s: State, e: Event)
    requires TokensDiffer(s)
    ensures TokensDiffer(Next(s, e))
  {
    var t := Next(s, e);
    forall p, q | p != q && HasToken(PcOf(t, p)) && HasToken(PcOf(t, q))
      ensures PcOf(t, p).lease.token != PcOf(t, q).lease.token
    {
      assert Minted(s, e, t, p) && Minted(s, e, t, q);
    }
    forall p | HasToken(PcOf(t, p)) ensures PcOf(t, p).lease.token in t.tokens {
      assert Minted(s, e, t, p);
    }
  }

  /** A token in use was in use by the same process before, or was minted by this very event. */
  predicate Minted(s: State, e: Event, t: State, p: nat)
    requires HasToken(PcOf(t, p))
  {
    || (HasToken(PcOf(s, p)) && PcOf(t, p).lease == PcOf(s, p).lease)
    || (e.BeginAcquire? && e.p == p && e.token !in s.tokens && PcOf(t, p).lease.token == e.token)
  }

  lemma HolderStaysStored(s: State, e: Event, p: nat, w: string)
    requires Inv(s) && w !in Next(s, e).takeovers && Holds(Next(s, e), p, w)
    ensures Stored(Next(s, e).docs, PcOf(Next(s, e), p).lease)
  {
    hide StoredIsHeld, ReleasesConfirmed, Blocks;
    if Holds(s, p, w) {
      assert Stored(s.docs, PcOf(s, p).lease);
    }
  }

  lemma ReleaseStaysConfirmed(s: State, e: Event, p: nat)
    requires Inv(s) && PcOf(Next(s, e), p).Released? && PcOf(Next(s, e), p).workflow !in Next(s, e).takeovers
    ensures PcOf(Next(s, e), p).confirmed
  {
    hide TokensDiffer, StoredIsHeld, Blocks;
    assert PcOf(s, p).Fetching? ==> Holds(s, p, PcOf(s, p).lease.workflow);
  }

  lemma NextKeepsHolders(s: State, e: Event)
    requires Inv(s)
    ensures HolderIsStored(Next(s, e)) && ReleasesConfirmed(Next(s, e))
  {
    var t := Next(s, e);
    hide Next, Inv, Stored;
    forall p, w | w !in t.takeovers && Holds(t, p, w) ensures Stored(t.docs, PcOf(t, p).lease) {
      HolderStaysStored(s, e, p, w);
    }
    forall p | PcOf(t, p).Released? && PcOf(t, p).workflow !in t.takeovers ensures PcOf(t, p).confirmed {
      ReleaseStaysConfirmed(s, e, p);
    }
  }

  lemma NextKeepsBacking(s: State, e: Event)
    requires Inv(s)
    ensures StoredIsHeld(Next(s, e))
  {
    var t := Next(s, e);
    forall w | w !in t.takeovers && w in t.docs
      ensures exists p :: Holds(t, p, w) && Stored(t.docs, PcOf(t, p).lease)
    {
      if w in s.docs {
        var p :| Holds(s, p, w) && Stored(s.docs, PcOf(s, p).lease);
        assert Holds(t, p, w) && Stored(t.docs, PcOf(t, p).lease);
      } else {
        assert e.Step? && Holds(t, e.p, w) && Stored(t.docs, PcOf(t, e.p).lease);
      }
    }
  }

  lemma {:induction false} RunKeepsInv(es: seq<Event>)
    ensures Inv(Exec(INIT, es))
  {
    if es != [] {
      var s, e := Exec(INIT, es[..|es| - 1]), es[|es| - 1];
      RunKeepsInv(es[..|es| - 1]);
      NextKeepsTokens(s, e);
      NextKeepsHolders(s, e);
      NextKeepsBacking(s, e);
    }
  }

  // ------------------------------------------------------- the theorems

  /** Two unreleased leases of one workflow coexist only if a takeover write was executed for it. */
  lemma CoexistenceNeedsTakeover(es: seq<Event>, p: nat, q: nat, w: string)
    requires p != q && Holds(Exec(INIT, es), p, w) && Holds(Exec(INIT, es), q, w)
    ensures w in Exec(INIT, es).takeovers
  {
    RunKeepsInv(es);
  }

  /** Without one, a lease is stored exactly while some process holds it, under that process's
      token, and every release that returned did free it. */
  lemma WithoutTakeoverStoredIsHeld(es: seq<Event>, w: string)
    requires w !in Exec(INIT, es).takeovers
    ensures var s := Exec(INIT, es);
            && (w in s.docs <==> exists p :: Holds(s, p, w))
            && (forall p :: Holds(s, p, w) ==> s.docs[w].token == PcOf(s, p).lease.token)
            && (forall p :: PcOf(s, p).Released? && PcOf(s, p).workflow == w ==> PcOf(s, p).confirmed)
  {
    RunKeepsInv(es);
  }

  // ------------------------------------------------------- what a takeover replaces

  /** The lease has a token and its document is not written yet. */
  predicate Unwritten(pc: Pc) { pc.Creating? || pc.Checking? || pc.TakingOver? }

  predicate Judged(pc: Pc, d: LeaseDoc) { pc.TakingOver? && pc.judged == Some(d) }

  ghost predicate TokensMinted(s: State) {
    && (forall w :: w in s.docs ==> s.docs[w].token in s.tokens)
    && (forall p, d :: Judged(PcOf(s, p), d) ==> d.token in s.tokens)
  }

  ghost predicate UnwrittenIsNowhere(s: State) {
    && (forall p, w :: Unwritten(PcOf(s, p)) && w in s.docs ==> s.docs[w].token != PcOf(s, p).lease.token)
    && (forall p, q, d :: Unwritten(PcOf(s, p)) && Judged(PcOf(s, q), d) ==> d.token != PcOf(s, p).lease.token)
  }

  /** A document is written once under its token, so the token tells whether it is still there. */
  ghost predicate TokenTells(s: State) {
    forall p, d :: Judged(PcOf(s, p), d) ==>
      && !Blocks(d, PcOf(s, p).now)
      && (var w := PcOf(s, p).lease.workflow; w in s.docs && s.docs[w].token == d.token ==> s.docs[w] == d)
  }

  ghost predicate JudgedInv(s: State) {
    TokensDiffer(s) && TokensMinted(s) && UnwrittenIsNowhere(s) && TokenTells(s)
  }

  /** What one event can put where: a stored document was stored before or carries the token of the process that
      stepped, and a judged one was judged before or is stored. */
  lemma NextPlaces(s: State, e: Event)
    ensures var t := Next(s, e);
            && s.tokens <= t.tokens
            && (forall q :: q != e.p ==> PcOf(t, q) == PcOf(s, q))
            && (forall w :: w in t.docs ==> (w in s.docs && t.docs[w] == s.docs[w])
                                            || (Unwritten(PcOf(s, e.p)) && !Unwritten(PcOf(t, e.p))
                                                && t.docs[w].token == PcOf(s, e.p).lease.token))
            && (forall d :: Judged(PcOf(t, e.p), d) ==>
                  || (Judged(PcOf(s, e.p), d) && PcOf(t, e.p) == PcOf(s, e.p) && t.docs == s.docs)
                  || (var w := PcOf(t, e.p).lease.workflow;
                      w in s.docs && s.docs[w] == d && t.docs == s.docs && !Blocks(d, PcOf(t, e.p).now)))
            && (Unwritten(PcOf(t, e.p)) ==>
                  (Unwritten(PcOf(s, e.p)) && PcOf(t, e.p).lease == PcOf(s, e.p).lease)
                  || PcOf(t, e.p).lease.token !in s.tokens)
  {
  }

  lemma NextKeepsMinted(s: State, e: Event)
    requires JudgedInv(s)
    ensures TokensMinted(Next(s, e))
  {
    var t := Next(s, e);
    NextPlaces(s, e);
    hide Next, UnwrittenIsNowhere, TokenTells;
    forall w | w in t.docs ensures t.docs[w].token in t.tokens {
      assert Unwritten(PcOf(s, e.p)) ==> HasToken(PcOf(s, e.p));
    }
    forall q, d | Judged(PcOf(t, q), d) ensures d.token in t.tokens {
      assert q != e.p ==> Judged(PcOf(s, q), d);
    }
  }

  lemma NextKeepsUnwritten(s: State, e: Event)
    requires JudgedInv(s)
    ensures UnwrittenIsNowhere(Next(s, e))
  {
    var t := Next(s, e);
    NextPlaces(s, e);
    hide Next, TokenTells;
    forall q | Unwritten(PcOf(t, q))
      ensures (Unwritten(PcOf(s, q)) && PcOf(t, q).lease == PcOf(s, q).lease) || PcOf(t, q).lease.token !in s.tokens
    {
    }
    forall q, w | Unwritten(PcOf(t, q)) && w in t.docs ensures t.docs[w].token != PcOf(t, q).lease.token {
      assert Unwritten(PcOf(s, e.p)) ==> HasToken(PcOf(s, e.p));
      assert Unwritten(PcOf(s, q)) ==> HasToken(PcOf(s, q));
    }
    forall q, r, d | Unwritten(PcOf(t, q)) && Judged(PcOf(t, r), d) ensures d.token != PcOf(t, q).lease.token {
      assert r != e.p ==> Judged(PcOf(s, r), d);
    }
  }

  lemma NextKeepsTelling(s: State, e: Event)
    requires JudgedInv(s)
    ensures TokenTells(Next(s, e))
  {
    var t := Next(s, e);
    NextPlaces(s, e);
    hide Next, TokensDiffer, TokensMinted, Blocks;
    forall q, d | Judged(PcOf(t, q), d)
      ensures !Blocks(d, PcOf(t, q).now)
      ensures var w := PcOf(t, q).lease.workflow; w in t.docs && t.docs[w].token == d.token ==> t.docs[w] == d
    {
      if q != e.p {
        assert Judged(PcOf(s, q), d);
      }
    }
  }

  lemma {:induction false} RunKeepsJudged(es: seq<Event>)
    ensures JudgedInv(Exec(INIT, es))
  {
    if es != [] {
      var s, e := Exec(INIT, es[..|es| - 1]), es[|es| - 1];
      RunKeepsJudged(es[..|es| - 1]);
      NextKeepsTokens(s, e);
      NextKeepsMinted(s, e);
      NextKeepsUnwritten(s, e);
      NextKeepsTelling(s, e);
    }
  }

  /** A takeover write replaces the very document it judged expired exactly when the stored token is the one it read,
      so a document that still blocks is replaced only where a check of that token would have refused. */
  lemma TakeoverReplacesJudgedExactly(es: seq<Event>, p: nat)
    requires PcOf(Exec(INIT, es), p).TakingOver? && PcOf(Exec(INIT, es), p).judged.Some?
    ensures var s := Exec(INIT, es); var pc := PcOf(s, p); var w, d := pc.lease.workflow, pc.judged.value;
            && (w in s.docs && s.docs[w] == d <==> w in s.docs && s.docs[w].token == d.token)
            && (w in s.docs && Blocks(s.docs[w], pc.now) ==> s.docs[w].token != d.token)
  {
    RunKeepsJudged(es);
    assert Judged(PcOf(Exec(INIT, es), p), PcOf(Exec(INIT, es), p).judged.value);
  }

  /** The converse fails: two processes that both read the same expired document both take over,
      and both hold unexpired leases. The get and the set of a takeover are separate calls. */
  lemma TakeoverCanGrantTwice(w: string)
    ensures exists es, now ::
              var s := Exec(INIT, es);
              && Holds(s, 1, w) && Holds(s, 2, w)
              && !Expired(PcOf(s, 1).lease, now) && !Expired(PcOf(s, 2).lease, now)
  {
    // the first holder crashes and its lease runs out at 10
    var a := Extend(Extend([], BeginAcquire(0, w, "a", "t0", 0, 10)), Step(0));
    // two acquirers both find the document there and both read it as expired
    var b := Extend(Extend(Extend(a, BeginAcquire(1, w, "b", "t1", 10, 10)), Step(1)), Step(1));
    var c := Extend(Extend(Extend(b, BeginAcquire(2, w, "c", "t2", 10, 10)), Step(2)), Step(2));
    assert PcOf(Exec(INIT, c), 1).TakingOver? && PcOf(Exec(INIT, c), 2).TakingOver?;
    var es := Extend(Extend(c, Step(1)), Step(2));
    assert Holds(Exec(INIT, es), 1, w) && Holds(Exec(INIT, es), 2, w);
    assert !Expired(PcOf(Exec(INIT, es), 1).lease, 12) && !Expired(PcOf(Exec(INIT, es), 2).lease, 12);
  }

  function Extend(es: seq<Event>, e: Event): (longer: seq<Event>)
    ensures Exec(INIT, longer) == Next(Exec(INIT, es), e)
  {
    assert (es + [e])[..|es + [e]| - 1] == es;
    es + [e]
  }

  // ------------------------------------------------------- the two grains agree

  /** Undisturbed, the store calls of `acquire` add up to the single-step operation. */
  lemma SoloAcquire(s: State, p: nat, w: string, owner: string, token: string, now: int, ttl: int)
    requires Ready(PcOf(s, p)) && token !in s.tokens && Safe(w)
    ensures var t := StepOf(StepOf(StepOf(Next(s, BeginAcquire(p, w, owner, token, now, ttl)), p), p), p);
            var (docs, r) := AcquireOp(s.docs, w, owner, token, now, ttl);
            t.docs == docs && PcOf(t, p) == (if r.Ok? then Holding(r.value) else Refused)
  {
    var s1 := Next(s, BeginAcquire(p, w, owner, token, now, ttl));
    var s2 := StepOf(s1, p);
    var s3 := StepOf(s2, p);
    if w in s.docs {
      assert PcOf(s2, p).Checking?;
    }
  }

  lemma SoloRelease(s: State, p: nat)
    requires PcOf(s, p).Holding?
    ensures var l := PcOf(s, p).lease;
            var t := StepOf(StepOf(Next(s, BeginRelease(p)), p), p);
            var (docs, freed) := ReleaseOp(s.docs, l);
            t.docs == docs && PcOf(t, p) == Released(l.workflow, freed)
  {
    var s1 := Next(s, BeginRelease(p));
    assert PcOf(StepOf(s1, p), p).Deleting? <==> Stored(s.docs, PcOf(s, p).lease);
  }
}
