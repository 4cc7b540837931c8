/** The bounded retry loop for semantic calls, and the policy its runs are held to. */
module Retry {
  import opened Basics

  datatype FailureClass = Transient | MalformedOutput | NonTransient | Timeout

  /** What a call may raise, as far as the classification tells exceptions apart. */
  datatype Error =
    | MalformedStructuredOutput(text: string)
    | TransientModelError(text: string)
    | NonTransientModelError(text: string)
    | TimeoutError(text: string)
    | Unexpected(text: string)

  function ClassifyFailure(e: Error): FailureClass {
    match e
    case MalformedStructuredOutput(_) => MalformedOutput
    case TransientModelError(_) => Transient
    case TimeoutError(_) => Timeout
    case _ => NonTransient
  }

  datatype CallResult<+T> = Value(value: T) | Raise(error: Error)

  datatype AttemptRecord = AttemptRecord(
    attempt: nat,
    succeeded: bool,
    elapsed: real,
    deadline: real,
    failure: Option<FailureClass>,
    error: Option<string>,
    wasRepair: bool
  )

  datatype Outcome = Succeeded | Exhausted | Refused

  datatype RetryResult<+T> = RetryResult(
    outcome: Outcome,
    value: Option<T>,
    attempts: seq<AttemptRecord>,
    finalError: Option<string>
  )

  datatype Config = Config(maxAttempts: nat, deadline: real, allowRepair: bool)

  /** Everything the loop cannot choose: what the k-th call does and what the clock reads.
      Attempt k reads the clock before and after its call. */
  datatype World<!T> = World(calls: nat -> CallResult<T>, clock: nat -> real)

  const OVERRUN := "attempt exceeded its deadline"
  const NO_ATTEMPT := "no attempt was made"

  function Elapsed<T>(w: World<T>, k: nat): real
    requires k >= 1
  {
    w.clock(2 * k - 1) - w.clock(2 * k - 2)
  }

  /** The record that attempt `k` deserves. */
  function RecordOf<T>(w: World<T>, c: Config, k: nat, repair: bool): AttemptRecord
    requires k >= 1
  {
    match w.calls(k)
    case Raise(e) => AttemptRecord(k, false, Elapsed(w, k), c.deadline, Some(ClassifyFailure(e)), Some(e.text), repair)
    case Value(_) =>
      if Elapsed(w, k) > c.deadline
      then AttemptRecord(k, false, Elapsed(w, k), c.deadline, Some(Timeout), Some(OVERRUN), repair)
      else AttemptRecord(k, true, Elapsed(w, k), c.deadline, None, None, repair)
  }

  predicate Malformed(a: AttemptRecord) { a.failure == Some(MalformedOutput) }

  // ------------------------------------------------------- the policy

  /** Some attempt before the `i`-th spent the one repair. */
  predicate RepairSpent(attempts: seq<AttemptRecord>, i: nat)
    requires i <= |attempts|
  {
    exists j :: 0 <= j < i && Malformed(attempts[j])
  }

  /** The policy lets another attempt follow the `i`-th. */
  predicate RetryEligible(attempts: seq<AttemptRecord>, i: nat, c: Config)
    requires i < |attempts|
  {
    var a := attempts[i];
    a.failure == Some(Transient) || a.failure == Some(Timeout)
    || (Malformed(a) && c.allowRepair && !RepairSpent(attempts, i))
  }

  /** A run obeys the policy: every attempt is recorded as it went, each but the last is eligible
      for a retry, and the run ends only out of budget or on an attempt that is not eligible. */
  ghost predicate ObeysPolicy<T>(attempts: seq<AttemptRecord>, w: World<T>, c: Config) {
    && Recorded(attempts, w, c)
    && |attempts| <= c.maxAttempts
    && (forall i :: 0 <= i < |attempts| - 1 ==> RetryEligible(attempts, i, c))
    && (|attempts| < c.maxAttempts ==> attempts != [] && !RetryEligible(attempts, |attempts| - 1, c))
  }

  ghost predicate Recorded<T>(attempts: seq<AttemptRecord>, w: World<T>, c: Config) {
    forall i :: 0 <= i < |attempts| ==> RecordedAt(attempts, i, w, c)
  }

  predicate FollowsMalformed(attempts: seq<AttemptRecord>, i: nat)
    requires i <= |attempts|
  {
    i > 0 && Malformed(attempts[i - 1])
  }

  ghost predicate RecordedAt<T>(attempts: seq<AttemptRecord>, i: nat, w: World<T>, c: Config)
    requires i < |attempts|
  {
    attempts[i] == RecordOf(w, c, i + 1, FollowsMalformed(attempts, i))
  }

  /** The result a finished run amounts to. */
  function Conclude<T>(attempts: seq<AttemptRecord>, w: World<T>): RetryResult<T> {
    if attempts == [] then RetryResult(Exhausted, None, attempts, Some(NO_ATTEMPT))
    else
      var last := attempts[|attempts| - 1];
      if last.succeeded && w.calls(|attempts|).Value?
      then RetryResult(Succeeded, Some(w.calls(|attempts|).value), attempts, None)
      else
        RetryResult(if last.failure == Some(NonTransient) then Refused else Exhausted, None, attempts, last.error)
  }

  /** The loop refines the policy: the calls it made are the attempts it recorded. */
  method RunSemanticCall<T>(w: World<T>, c: Config) returns (r: RetryResult<T>, made: nat)
    ensures made == |r.attempts|
    ensures ObeysPolicy(r.attempts, w, c)
    ensures r == Conclude(r.attempts, w)
  {
    hide Recorded, RepairSpent, RetryEligible, Running, ObeysPolicy;
    StartRunning(w, c);
    var attempts: seq<AttemptRecord> := [];
    var repairUsed := false;
    made := 0;
    for attempt := 1 to c.maxAttempts + 1
      invariant made == |attempts| == attempt - 1
      invariant Running(attempts, repairUsed, w, c)
    {
      var isRepair := attempts != [] && Malformed(attempts[|attempts| - 1]);
      var started := w.clock(2 * attempt - 2);
      var outcome := w.calls(attempt);
      made := made + 1;
      var elapsed := w.clock(2 * attempt - 1) - started;
      ghost var before := attempts;
      if outcome.Raise? {
        var failure := ClassifyFailure(outcome.error);
        attempts := attempts + [AttemptRecord(attempt, false, elapsed, c.deadline, Some(failure), Some(outcome.error.text), isRepair)];
        Appended(before, attempts, repairUsed, w, c);
        if failure.NonTransient? {
          r := RetryResult(Refused, None, attempts, Some(outcome.error.text));
          return;
        }
        if failure.MalformedOutput? {
          if repairUsed || !c.allowRepair {
            r := RetryResult(Exhausted, None, attempts, Some(outcome.error.text));
            return;
          }
          repairUsed := true;
        }
      } else if elapsed > c.deadline {
        attempts := attempts + [AttemptRecord(attempt, false, elapsed, c.deadline, Some(Timeout), Some(OVERRUN), isRepair)];
        Appended(before, attempts, repairUsed, w, c);
      } else {
        attempts := attempts + [AttemptRecord(attempt, true, elapsed, c.deadline, None, None, isRepair)];
        Appended(before, attempts, repairUsed, w, c);
        r := RetryResult(Succeeded, Some(outcome.value), attempts, None);
        return;
      }
    }
    OutOfBudget(attempts, repairUsed, w, c);
    r := RetryResult(Exhausted, None, attempts,
                     if attempts == [] then Some(NO_ATTEMPT) else attempts[|attempts| - 1].error);
  }

  /** What the loop knows before an attempt: all the earlier ones were eligible for a retry. */
  ghost predicate Running<T>(attempts: seq<AttemptRecord>, repairUsed: bool, w: World<T>, c: Config) {
    && Recorded(attempts, w, c)
    && (forall i :: 0 <= i < |attempts| ==> RetryEligible(attempts, i, c))
    && (repairUsed <==> RepairSpent(attempts, |attempts|))
  }

  lemma StartRunning<T>(w: World<T>, c: Config)
    ensures Running([], false, w, c)
  {
  }

  lemma OutOfBudget<T>(attempts: seq<AttemptRecord>, repairUsed: bool, w: World<T>, c: Config)
    requires Running(attempts, repairUsed, w, c) && |attempts| == c.maxAttempts
    ensures ObeysPolicy(attempts, w, c)
    ensures attempts != [] ==>
              !attempts[|attempts| - 1].succeeded && attempts[|attempts| - 1].failure != Some(NonTransient)
  {
    if attempts != [] {
      assert RecordedAt(attempts, |attempts| - 1, w, c) && RetryEligible(attempts, |attempts| - 1, c);
    }
  }

  /** One more attempt keeps the loop running, or ends it the way the policy says. */
  lemma Appended<T>(before: seq<AttemptRecord>, after: seq<AttemptRecord>, repairUsed: bool, w: World<T>, c: Config)
    requires |after| == |before| + 1 <= c.maxAttempts && after[..|before|] == before
    requires Running(before, repairUsed, w, c) && RecordedAt(after, |before|, w, c)
    ensures var a := after[|before|];
            if a.failure in {Some(Transient), Some(Timeout)} || (Malformed(a) && c.allowRepair && !repairUsed)
            then Running(after, repairUsed || Malformed(a), w, c)
            else ObeysPolicy(after, w, c)
  {
    SpentSoFar(before, after);
    forall i | 0 <= i < |after| ensures RecordedAt(after, i, w, c) {
      if i < |before| {
        assert RecordedAt(before, i, w, c);
      }
    }
    forall i | 0 <= i < |before| ensures RetryEligible(after, i, c) {
      assert RetryEligible(before, i, c);
    }
  }

  lemma SpentSoFar(before: seq<AttemptRecord>, after: seq<AttemptRecord>)
    requires |after| == |before| + 1 && after[..|before|] == before
    ensures forall i :: 0 <= i < |before| ==> after[i] == before[i]
    ensures forall i :: 0 <= i <= |before| ==> RepairSpent(after, i) == RepairSpent(before, i)
    ensures RepairSpent(after, |after|) <==> RepairSpent(before, |before|) || Malformed(after[|before|])
  {
    assert forall i :: 0 <= i < |before| ==> after[i] == after[..|before|][i];
    forall i | 0 <= i <= |before| ensures RepairSpent(after, i) == RepairSpent(before, i) {
      if RepairSpent(before, i) {
        var j :| 0 <= j < i && Malformed(before[j]);
        assert Malformed(after[j]);
      }
    }
    if RepairSpent(after, |before|) {
      var j :| 0 <= j < |before| && Malformed(after[j]);
      assert 0 <= j < |after| && Malformed(after[j]);
    }
  }

  // ------------------------------------------------------- what the policy means

  /** The policy leaves no freedom: two runs over the same calls and clock are the same run. */
  lemma PolicyDeterminesTheRun<T>(a: seq<AttemptRecord>, b: seq<AttemptRecord>, w: World<T>, c: Config)
    requires ObeysPolicy(a, w, c) && ObeysPolicy(b, w, c)
    ensures a == b
  {
    var n := if |a| <= |b| then |a| else |b|;
    SamePrefix(a, b, w, c, n);
    assert a[..n] == b[..n];
    if |a| < |b| {
      SameEligibility(a, b, c, |a| - 1);
    } else if |b| < |a| {
      SameEligibility(b, a, c, |b| - 1);
    }
  }

  lemma {:induction false} SamePrefix<T>(a: seq<AttemptRecord>, b: seq<AttemptRecord>, w: World<T>, c: Config, n: nat)
    requires Recorded(a, w, c) && Recorded(b, w, c) && n <= |a| && n <= |b|
    ensures forall i :: 0 <= i < n ==> a[i] == b[i]
  {
    if n > 0 {
      SamePrefix(a, b, w, c, n - 1);
      assert RecordedAt(a, n - 1, w, c) && RecordedAt(b, n - 1, w, c);
    }
  }

  lemma SameEligibility(a: seq<AttemptRecord>, b: seq<AttemptRecord>, c: Config, i: nat)
    requires i < |a| && i < |b| && forall j :: 0 <= j <= i ==> a[j] == b[j]
    ensures RetryEligible(a, i, c) == RetryEligible(b, i, c)
  {
    if RepairSpent(a, i) {
      var j :| 0 <= j < i && Malformed(a[j]);
      assert Malformed(b[j]);
    }
  }

  function Repairs(attempts: seq<AttemptRecord>): nat {
    if attempts == [] then 0
    else Repairs(attempts[..|attempts| - 1]) + (if attempts[|attempts| - 1].wasRepair then 1 else 0)
  }

  /** At most one attempt of a run is a repair: the second malformed answer is never followed up. */
  lemma AtMostOneRepair<T>(attempts: seq<AttemptRecord>, w: World<T>, c: Config)
    requires ObeysPolicy(attempts, w, c)
    ensures Repairs(attempts) <= 1
    ensures !c.allowRepair ==> Repairs(attempts) == 0
  {
    forall i, j | 0 <= i < j < |attempts| && attempts[i].wasRepair ensures !attempts[j].wasRepair {
      assert RecordedAt(attempts, i, w, c) && RecordedAt(attempts, j, w, c);
      assert RetryEligible(attempts, j - 1, c);
      assert Malformed(attempts[i - 1]);
      assert RepairSpent(attempts, j - 1);
    }
    forall i | 0 <= i < |attempts| && attempts[i].wasRepair ensures c.allowRepair {
      assert RecordedAt(attempts, i, w, c);
      assert RetryEligible(attempts, i - 1, c);
    }
    CountRepairs(attempts);
  }

  lemma {:induction false} CountRepairs(attempts: seq<AttemptRecord>)
    requires forall i, j :: 0 <= i < j < |attempts| && attempts[i].wasRepair ==> !attempts[j].wasRepair
    ensures Repairs(attempts) <= 1
    ensures Repairs(attempts) > 0 <==> exists i :: 0 <= i < |attempts| && attempts[i].wasRepair
  {
    if attempts != [] {
      var shorter := attempts[..|attempts| - 1];
      CountRepairs(shorter);
      assert forall i :: 0 <= i < |shorter| ==> shorter[i] == attempts[i];
    }
  }

  /** The result is SUCCEEDED exactly when the last call made returned in time, with its value, and refused
      exactly when it raised something that is neither transient, a timeout nor malformed output. */
  lemma SucceededExactly<T>(attempts: seq<AttemptRecord>, w: World<T>, c: Config)
    requires ObeysPolicy(attempts, w, c)
    ensures var r, n := Conclude(attempts, w), |attempts|;
            && (r.outcome.Succeeded? <==> n > 0 && w.calls(n).Value? && Elapsed(w, n) <= c.deadline)
            && (r.outcome.Succeeded? ==> r.value == Some(w.calls(n).value))
            && (!r.outcome.Succeeded? ==> r.value == None && r.finalError.Some?)
            && (r.outcome.Refused? <==> n > 0 && w.calls(n).Raise?
                                        && (w.calls(n).error.NonTransientModelError? || w.calls(n).error.Unexpected?))
  {
    if attempts != [] {
      var n := |attempts|;
      assert RecordedAt(attempts, n - 1, w, c);
    }
  }

  predicate AnsweredMalformed<T>(w: World<T>, k: nat) {
    w.calls(k).Raise? && w.calls(k).error.MalformedStructuredOutput?
  }

  /** What is followed by another attempt: an overrun, a transient failure, a timeout, or the first malformed
      output when repair is allowed. */
  lemma RetriedOnlyForCause<T>(attempts: seq<AttemptRecord>, w: World<T>, c: Config, i: nat)
    requires ObeysPolicy(attempts, w, c) && i + 1 < |attempts|
    ensures match w.calls(i + 1)
            case Value(_) => Elapsed(w, i + 1) > c.deadline
            case Raise(e) =>
              e.TransientModelError? || e.TimeoutError?
              || (e.MalformedStructuredOutput? && c.allowRepair && forall k :: 1 <= k <= i ==> !AnsweredMalformed(w, k))
  {
    assert RecordedAt(attempts, i, w, c) && RetryEligible(attempts, i, c);
    if AnsweredMalformed(w, i + 1) {
      forall k | 1 <= k <= i ensures !AnsweredMalformed(w, k) {
        assert RecordedAt(attempts, k - 1, w, c);
        assert !Malformed(attempts[k - 1]);
      }
    }
  }

  /** What ends a run, by what the `k`-th call did and the calls before it: a value in time, an error that may not be
      retried, or malformed output when repair is not allowed or was used up. */
  predicate Ends<T>(w: World<T>, c: Config, k: nat)
    requires k >= 1
  {
    match w.calls(k)
    case Value(_) => Elapsed(w, k) <= c.deadline
    case Raise(NonTransientModelError(_)) => true
    case Raise(Unexpected(_)) => true
    case Raise(TransientModelError(_)) => false
    case Raise(TimeoutError(_)) => false
    case Raise(MalformedStructuredOutput(_)) => !c.allowRepair || exists j :: 1 <= j < k && AnsweredMalformed(w, j)
  }

  lemma EligibleExactly<T>(attempts: seq<AttemptRecord>, w: World<T>, c: Config, i: nat)
    requires Recorded(attempts, w, c) && i < |attempts|
    ensures RetryEligible(attempts, i, c) <==> !Ends(w, c, i + 1)
  {
    assert RecordedAt(attempts, i, w, c);
    SpentExactly(attempts, w, c, i);
    hide RepairSpent, Recorded;
  }

  lemma SpentExactly<T>(attempts: seq<AttemptRecord>, w: World<T>, c: Config, i: nat)
    requires Recorded(attempts, w, c) && i <= |attempts|
    ensures RepairSpent(attempts, i) <==> exists k :: 1 <= k <= i && AnsweredMalformed(w, k)
  {
    if j :| 0 <= j < i && Malformed(attempts[j]) {
      assert RecordedAt(attempts, j, w, c);
      assert AnsweredMalformed(w, j + 1);
    }
    if k :| 1 <= k <= i && AnsweredMalformed(w, k) {
      assert RecordedAt(attempts, k - 1, w, c);
      assert Malformed(attempts[k - 1]);
    }
  }

  /** A run makes exactly as many calls as it takes to meet one that ends it, or the whole budget: so a transient
      error, a timeout or an overrun with budget left is always followed by another call. */
  lemma StopsEarlyOnlyForCause<T>(attempts: seq<AttemptRecord>, w: World<T>, c: Config)
    requires ObeysPolicy(attempts, w, c)
    ensures |attempts| <= c.maxAttempts
    ensures forall k :: 1 <= k < |attempts| ==> !Ends(w, c, k)
    ensures |attempts| < c.maxAttempts ==> attempts != [] && Ends(w, c, |attempts|)
  {
    hide Ends, RetryEligible;
    forall k | 1 <= k < |attempts| ensures !Ends(w, c, k) {
      EligibleExactly(attempts, w, c, k - 1);
      assert RetryEligible(attempts, k - 1, c);
    }
    if |attempts| < c.maxAttempts {
      EligibleExactly(attempts, w, c, |attempts| - 1);
    }
  }

  /** What each attempt leaves on record: its number, its time, whether it was a repair, and the class and text of
      what went wrong. */
  lemma RecordsTell<T>(attempts: seq<AttemptRecord>, w: World<T>, c: Config, i: nat)
    requires ObeysPolicy(attempts, w, c) && i < |attempts|
    ensures var a := attempts[i];
            && a.attempt == i + 1 && a.elapsed == w.clock(2 * i + 1) - w.clock(2 * i) && a.deadline == c.deadline
            && (a.wasRepair <==> i > 0 && AnsweredMalformed(w, i))
            && match w.calls(i + 1)
               case Value(_) =>
                 if a.elapsed <= c.deadline then a.succeeded && a.failure == None && a.error == None
                 else !a.succeeded && a.failure == Some(Timeout) && a.error == Some(OVERRUN)
               case Raise(e) =>
                 && !a.succeeded && a.error == Some(e.text)
                 && (a.failure == Some(Transient) <==> e.TransientModelError?)
                 && (a.failure == Some(Timeout) <==> e.TimeoutError?)
                 && (a.failure == Some(MalformedOutput) <==> e.MalformedStructuredOutput?)
                 && (a.failure == Some(NonTransient) <==> e.NonTransientModelError? || e.Unexpected?)
  {
    assert RecordedAt(attempts, i, w, c);
    if i > 0 {
      assert RecordedAt(attempts, i - 1, w, c);
    }
  }

  /** The error a run reports is that of its last attempt, and a run without budget says so. */
  lemma FinalErrorTells<T>(attempts: seq<AttemptRecord>, w: World<T>, c: Config)
    requires ObeysPolicy(attempts, w, c) && !Conclude(attempts, w).outcome.Succeeded?
    ensures Conclude(attempts, w).attempts == attempts
    ensures attempts == [] ==> Conclude(attempts, w).finalError == Some("no attempt was made")
    ensures attempts != [] ==>
              Conclude(attempts, w).finalError == match w.calls(|attempts|)
                                                  case Raise(e) => Some(e.text)
                                                  case Value(_) => Some(OVERRUN)
  {
    if attempts != [] {
      RecordsTell(attempts, w, c, |attempts| - 1);
    }
  }
}
