/** Several drivers of one workflow: which persist can take away what another driver stored. A sink saves against
    the revision of its own last write; before its first write it has none and saves unconditionally. */
module Overwrites {
  import opened Basics
  import opened StateMachine
  import opened History

  /** One process driving the workflow: `expected` is what its sink remembers, `seen` how many writes the session
      knows of, from its rehydrate or its own last write. */
  datatype Seat = Seat(driver: Driver, expected: Option<nat>, seen: nat)

  /** `writers` lists who wrote the workflow document, so the stored revision is its length; `used` are the
      processes that ever drove. */
  datatype World = World(stored: Stored, writers: seq<nat>, seats: map<nat, Seat>, used: set<nat>)

  datatype Step =
    | Resume(p: nat)
    | AdvanceBy(p: nat, target: State, torn: bool)
    | AdjudicateBy(p: nat, boundary: Boundary)
    | PersistBy(p: nat, torn: bool)

  predicate Accepts(w: World, p: nat)
    requires p in w.seats
  {
    w.seats[p].expected.None? || w.seats[p].expected.value == |w.writers|
  }

  /** A persist: refused whole, or the workflow document and then the snapshot. A torn one ends the process. */
  function Flush(w: World, p: nat, torn: bool): World
    requires p in w.seats
  {
    var d, revision := w.seats[p].driver, |w.writers| + 1;
    if !Accepts(w, p) then w
    else if torn then
      w.(stored := WriteWorkflow(w.stored, d), writers := w.writers + [p], seats := w.seats - {p})
    else
      w.(stored := WriteSnapshot(WriteWorkflow(w.stored, d), d), writers := w.writers + [p],
         seats := w.seats[p := Seat(d, Some(revision), revision)])
  }

  function Remember(w: World, p: nat, d: Driver): World
    requires p in w.seats
  {
    w.(seats := w.seats[p := w.seats[p].(driver := d)])
  }

  function Next(w: World, s: Step): World {
    match s
    case Resume(p) =>
      if p in w.used then w
      else w.(seats := w.seats[p := Seat(Rehydrated(w.stored), None, |w.writers|)], used := w.used + {p})
    case AdvanceBy(p, target, torn) =>
      if p in w.seats && CanTransition(w.seats[p].driver.state, target)
      then Flush(Remember(w, p, Advanced(w.seats[p].driver, target)), p, torn)
      else w
    case AdjudicateBy(p, b) =>
      if p in w.seats then Remember(w, p, Adjudicated(w.seats[p].driver, b)) else w
    case PersistBy(p, torn) => if p in w.seats then Flush(w, p, torn) else w
  }

  /** Process 0 accepted the change and recorded the workflow as revision 1. */
  function Started(sessionId: string): World {
    World.World(Stored(ChangeReceived, [], [], []), [0],
          map[0 := Seat(Driver(sessionId, ChangeReceived, [], [], []), Some(1), 1)], {0})
  }

  function Exec(sessionId: string, ss: seq<Step>): World {
    if ss == [] then Started(sessionId) else Next(Exec(sessionId, ss[..|ss| - 1]), ss[|ss| - 1])
  }

  // ------------------------------------------------------- what a session knows

  /** Another sink has written since this session last read or wrote. */
  predicate Unseen(w: World, p: nat)
    requires p in w.seats
  {
    exists k :: w.seats[p].seen <= k < |w.writers| && w.writers[k] != p
  }

  /** A session that knows the latest write extends what is stored; one whose sink has written remembers that write;
      and whatever it does not know was written by others. */
  predicate SeatOk(w: World, p: nat)
    requires p in w.seats
  {
    var st := w.seats[p];
    && p in w.used
    && st.seen <= |w.writers|
    && (st.expected.None? <==> p !in w.writers)
    && (st.expected.Some? ==> st.expected.value == st.seen)
    && (forall k :: st.seen <= k < |w.writers| ==> w.writers[k] != p)
    && (st.seen == |w.writers| ==> Extends(st.driver, w.stored))
  }

  predicate Inv(w: World) {
    && (forall p :: p in w.seats ==> SeatOk(w, p))
    && (forall k :: 0 <= k < |w.writers| ==> w.writers[k] in w.used)
  }

  lemma RememberKeepsInv(w: World, p: nat, d: Driver)
    requires Inv(w) && p in w.seats
    requires var was := w.seats[p].driver;
             was.history <= d.history && was.events <= d.events && was.aggregate <= d.aggregate
    ensures Inv(Remember(w, p, d))
  {
    var t := Remember(w, p, d);
    forall q | q in t.seats ensures SeatOk(t, q) {
      assert SeatOk(w, q);
    }
  }

  lemma FlushKeepsInv(w: World, p: nat, torn: bool)
    requires Inv(w) && p in w.seats
    ensures Inv(Flush(w, p, torn))
  {
    var t := Flush(w, p, torn);
    assert SeatOk(w, p);
    if Accepts(w, p) {
      forall k | 0 <= k < |t.writers| ensures t.writers[k] in t.used {
        assert k < |w.writers| ==> t.writers[k] == w.writers[k];
      }
      forall q | q in t.seats ensures SeatOk(t, q) {
        assert SeatOk(w, q);
        WritersGrow(w.writers, p, q);
      }
    }
  }

  lemma WritersGrow(writers: seq<nat>, p: nat, q: nat)
    ensures q in writers + [p] <==> q in writers || q == p
    ensures forall k :: 0 <= k < |writers| ==> (writers + [p])[k] == writers[k]
  {
  }

  lemma DriverOnlyAdds(d: Driver, target: State, b: Boundary)
    ensures var t := Advanced(d, target); d.history <= t.history && d.events <= t.events && d.aggregate <= t.aggregate
    ensures var t := Adjudicated(d, b); d.history <= t.history && d.events <= t.events && d.aggregate <= t.aggregate
  {
    hide EventId, LegalTargets, Submitted;
  }

  lemma ResumeKeepsInv(w: World, p: nat)
    requires Inv(w)
    ensures Inv(Next(w, Resume(p)))
  {
    var t := Next(w, Resume(p));
    assert forall x :: x in w.writers ==> x in w.used;
    forall q | q in t.seats ensures SeatOk(t, q) {
      assert q in w.seats ==> SeatOk(w, q);
    }
  }

  lemma NextKeepsInv(w: World, s: Step)
    requires Inv(w)
    ensures Inv(Next(w, s))
  {
    hide Inv, Flush, Remember, CanTransition, Advanced, Adjudicated;
    match s
    case Resume(p) => ResumeKeepsInv(w, p);
    case AdvanceBy(p, target, torn) =>
      if p in w.seats && CanTransition(w.seats[p].driver.state, target) {
        DriverOnlyAdds(w.seats[p].driver, target, NotValidated);
        RememberKeepsInv(w, p, Advanced(w.seats[p].driver, target));
        RememberedSeat(w, p, Advanced(w.seats[p].driver, target));
        FlushKeepsInv(Remember(w, p, Advanced(w.seats[p].driver, target)), p, torn);
      }
    case AdjudicateBy(p, b) =>
      if p in w.seats {
        DriverOnlyAdds(w.seats[p].driver, ChangeReceived, b);
        RememberKeepsInv(w, p, Adjudicated(w.seats[p].driver, b));
      }
    case PersistBy(p, torn) =>
      if p in w.seats {
        FlushKeepsInv(w, p, torn);
      }
  }

  lemma RememberedSeat(w: World, p: nat, d: Driver)
    requires p in w.seats
    ensures p in Remember(w, p, d).seats
  {
  }

  lemma {:induction false} RunKeepsInv(sessionId: string, ss: seq<Step>)
    ensures Inv(Exec(sessionId, ss))
  {
    if ss == [] {
      assert SeatOk(Started(sessionId), 0);
    } else {
      RunKeepsInv(sessionId, ss[..|ss| - 1]);
      NextKeepsInv(Exec(sessionId, ss[..|ss| - 1]), ss[|ss| - 1]);
    }
  }

  // ------------------------------------------------------- what a persist loses

  /** A persist goes through over a write that its session has not seen exactly when it is its sink's first save and
      another sink has written since the session was rehydrated. */
  lemma OverwritesUnseenExactly(sessionId: string, ss: seq<Step>, p: nat)
    requires p in Exec(sessionId, ss).seats
    ensures var w := Exec(sessionId, ss);
            Accepts(w, p) && w.seats[p].seen < |w.writers| <==> p !in w.writers && Unseen(w, p)
  {
    RunKeepsInv(sessionId, ss);
    var w := Exec(sessionId, ss);
    hide Exec;
    assert SeatOk(w, p);
    if w.seats[p].seen < |w.writers| {
      assert w.writers[w.seats[p].seen] != p;
    }
  }

  /** Every other persist, whole or torn, keeps all that is stored: a sink that wrote before is refused, or the
      session extends the stored history and both event lists. */
  lemma LosesOnlyOverUnseen(sessionId: string, ss: seq<Step>, p: nat, torn: bool)
    requires p in Exec(sessionId, ss).seats
    ensures var w := Exec(sessionId, ss);
            !Grows(w.stored, Flush(w, p, torn).stored) ==> p !in w.writers && Unseen(w, p)
  {
    RunKeepsInv(sessionId, ss);
    OverwritesUnseenExactly(sessionId, ss, p);
    var w := Exec(sessionId, ss);
    hide Exec, Unseen;
    assert SeatOk(w, p);
  }

  /** And such a first save does lose, when what is stored has outgrown the session. */
  lemma OutgrownIsLost(sessionId: string, ss: seq<Step>, p: nat)
    requires p in Exec(sessionId, ss).seats
    requires var w := Exec(sessionId, ss); var d := w.seats[p].driver;
             |w.stored.history| > |d.history| || |w.stored.events| > |d.events| || |w.stored.aggregate| > |d.aggregate|
    ensures var w := Exec(sessionId, ss);
            !Grows(w.stored, Flush(w, p, false).stored) <==> p !in w.writers && Unseen(w, p)
  {
    RunKeepsInv(sessionId, ss);
    OverwritesUnseenExactly(sessionId, ss, p);
    var w := Exec(sessionId, ss);
    hide Exec, Unseen;
    assert SeatOk(w, p);
  }

  /** A resumed process takes back a transition: it rehydrated before the first driver advanced, and its first save
      returns the workflow to where it was and shuts that driver out. */
  lemma FirstSaveTakesBack(sessionId: string)
    ensures var w := Exec(sessionId, [Resume(1)] + [AdvanceBy(0, ImpactDetermined, false)]);
            var t := Exec(sessionId, [Resume(1)] + [AdvanceBy(0, ImpactDetermined, false)] + [PersistBy(1, false)]);
            && w.stored.state == ImpactDetermined && w.stored.history == [ChangeReceived]
            && t.stored.state == ChangeReceived && t.stored.history == []
            && 0 in t.seats && !Accepts(t, 0)
  {
    var s1, s2 := Resume(1), AdvanceBy(0, ImpactDetermined, false);
    ExecOne(sessionId, [], s1);
    assert [] + [s1] == [s1];
    ExecOne(sessionId, [s1], s2);
    assert CanTransition(ChangeReceived, ImpactDetermined);
    ExecOne(sessionId, [s1] + [s2], PersistBy(1, false));
  }

  lemma ExecOne(sessionId: string, ss: seq<Step>, s: Step)
    ensures Exec(sessionId, ss + [s]) == Next(Exec(sessionId, ss), s)
  {
    assert (ss + [s])[..|ss + [s]| - 1] == ss;
  }
}
