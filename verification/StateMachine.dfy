/** The canonical workflow states and the literal matrix of legal transitions. */
module StateMachine {
  import opened Basics

  datatype State =
    | ChangeReceived | ImpactDetermined | RemediationPending | ReviewRequired | RemediationCompleted
    | FrontlineDeliveryCompleted | AwaitingFieldVerification | VerificationInconclusive | VerificationFailed
    | VerificationPassed | ProofComplete | Superseded | Failed

  function Name(s: State): string {
    match s
    case ChangeReceived => "CHANGE_RECEIVED"
    case ImpactDetermined => "IMPACT_DETERMINED"
    case RemediationPending => "REMEDIATION_PENDING"
    case ReviewRequired => "REVIEW_REQUIRED"
    case RemediationCompleted => "REMEDIATION_COMPLETED"
    case FrontlineDeliveryCompleted => "FRONTLINE_DELIVERY_COMPLETED"
    case AwaitingFieldVerification => "AWAITING_FIELD_VERIFICATION"
    case VerificationInconclusive => "VERIFICATION_INCONCLUSIVE"
    case VerificationFailed => "VERIFICATION_FAILED"
    case VerificationPassed => "VERIFICATION_PASSED"
    case ProofComplete => "PROOF_COMPLETE"
    case Superseded => "SUPERSEDED"
    case Failed => "FAILED"
  }

  const STATES: seq<State> := [
    ChangeReceived, ImpactDetermined, RemediationPending, ReviewRequired, RemediationCompleted,
    FrontlineDeliveryCompleted, AwaitingFieldVerification, VerificationInconclusive, VerificationFailed,
    VerificationPassed, ProofComplete, Superseded, Failed
  ]

  /** Reading a state name back: the first state of that name among `states`. */
  function ParseAmong(states: seq<State>, name: string): Option<State> {
    if states == [] then None
    else if Name(states[0]) == name then Some(states[0])
    else ParseAmong(states[1..], name)
  }

  function Parse(name: string): Option<State> { ParseAmong(STATES, name) }

  /** Names are apart by their length, or where two share one, by a letter. */
  lemma NamesApart(s: State, t: State)
    requires Name(s) == Name(t)
    ensures s == t
  {
    var a, b := Name(s), Name(t);
    assert |a| == |b| && a[0] == b[0];
    assert |a| > 13 ==> a[13] == b[13];
  }

  lemma {:induction false} ParsesAmong(states: seq<State>, s: State)
    requires s in states
    ensures ParseAmong(states, Name(s)) == Some(s)
  {
    if Name(states[0]) == Name(s) {
      NamesApart(states[0], s);
    } else {
      ParsesAmong(states[1..], s);
    }
  }

  lemma ParseName(s: State)
    ensures Parse(Name(s)) == Some(s)
  {
    hide ParseAmong, Name;
    assert STATES[0] == ChangeReceived && STATES[1] == ImpactDetermined && STATES[2] == RemediationPending
           && STATES[3] == ReviewRequired && STATES[4] == RemediationCompleted && STATES[5] == FrontlineDeliveryCompleted
           && STATES[6] == AwaitingFieldVerification && STATES[7] == VerificationInconclusive
           && STATES[8] == VerificationFailed && STATES[9] == VerificationPassed && STATES[10] == ProofComplete
           && STATES[11] == Superseded && STATES[12] == Failed;
    ParsesAmong(STATES, s);
  }

  function LegalTargets(s: State): set<State> {
    match s
    case ChangeReceived => {ImpactDetermined, Superseded, Failed}
    case ImpactDetermined => {RemediationPending, ReviewRequired, Superseded, Failed}
    case RemediationPending => {RemediationCompleted, ReviewRequired, Superseded, Failed}
    case RemediationCompleted => {FrontlineDeliveryCompleted, Superseded, Failed}
    case FrontlineDeliveryCompleted => {AwaitingFieldVerification, Superseded, Failed}
    case AwaitingFieldVerification =>
      {VerificationPassed, VerificationFailed, VerificationInconclusive, Superseded, Failed}
    case VerificationPassed => {ProofComplete, Superseded, Failed}
    case VerificationFailed => {AwaitingFieldVerification, Superseded, Failed}
    case VerificationInconclusive => {AwaitingFieldVerification, Superseded, Failed}
    case ReviewRequired => {Superseded, Failed}
    case ProofComplete => {}
    case Superseded => {}
    case Failed => {}
  }

  predicate CanTransition(s: State, t: State) { t in LegalTargets(s) }

  predicate Terminal(s: State) { s in {ProofComplete, Superseded, Failed} }

  /** The matrix read by its targets: from where each state is entered. */
  predicate Enters(s: State, t: State) {
    match t
    case ChangeReceived => false
    case ImpactDetermined => s.ChangeReceived?
    case RemediationPending => s.ImpactDetermined?
    case ReviewRequired => s.ImpactDetermined? || s.RemediationPending?
    case RemediationCompleted => s.RemediationPending?
    case FrontlineDeliveryCompleted => s.RemediationCompleted?
    case AwaitingFieldVerification =>
      s.FrontlineDeliveryCompleted? || s.VerificationFailed? || s.VerificationInconclusive?
    case VerificationInconclusive | VerificationFailed | VerificationPassed => s.AwaitingFieldVerification?
    case ProofComplete => s.VerificationPassed?
    case Superseded | Failed => !s.ProofComplete? && !s.Superseded? && !s.Failed?
  }

  /** A transition is legal exactly from where its target is entered; nothing leaves the three terminal states. */
  lemma TransitionsExactly(s: State, t: State)
    ensures CanTransition(s, t) <==> Enters(s, t)
    ensures Terminal(s) <==> s.ProofComplete? || s.Superseded? || s.Failed?
    ensures Terminal(s) ==> !CanTransition(s, t)
  {
    match s {
      case ChangeReceived => case ImpactDetermined => case RemediationPending => case ReviewRequired =>
      case RemediationCompleted => case FrontlineDeliveryCompleted => case AwaitingFieldVerification =>
      case VerificationInconclusive => case VerificationFailed => case VerificationPassed =>
      case ProofComplete => case Superseded => case Failed =>
    }
  }

  /** The stored spellings, read back. */
  lemma Spellings()
    ensures Parse("CHANGE_RECEIVED") == Some(ChangeReceived) && Parse("IMPACT_DETERMINED") == Some(ImpactDetermined)
    ensures Parse("REMEDIATION_PENDING") == Some(RemediationPending) && Parse("REVIEW_REQUIRED") == Some(ReviewRequired)
    ensures Parse("REMEDIATION_COMPLETED") == Some(RemediationCompleted)
    ensures Parse("FRONTLINE_DELIVERY_COMPLETED") == Some(FrontlineDeliveryCompleted)
    ensures Parse("AWAITING_FIELD_VERIFICATION") == Some(AwaitingFieldVerification)
    ensures Parse("VERIFICATION_INCONCLUSIVE") == Some(VerificationInconclusive)
    ensures Parse("VERIFICATION_FAILED") == Some(VerificationFailed) && Parse("VERIFICATION_PASSED") == Some(VerificationPassed)
    ensures Parse("PROOF_COMPLETE") == Some(ProofComplete) && Parse("SUPERSEDED") == Some(Superseded)
    ensures Parse("FAILED") == Some(Failed)
  {
    forall s ensures Parse(Name(s)) == Some(s) {
      ParseName(s);
    }
    hide Parse;
    assert Name(ChangeReceived) == "CHANGE_RECEIVED" && Name(ImpactDetermined) == "IMPACT_DETERMINED";
    assert Name(RemediationPending) == "REMEDIATION_PENDING" && Name(ReviewRequired) == "REVIEW_REQUIRED";
    assert Name(RemediationCompleted) == "REMEDIATION_COMPLETED";
    assert Name(FrontlineDeliveryCompleted) == "FRONTLINE_DELIVERY_COMPLETED";
    assert Name(AwaitingFieldVerification) == "AWAITING_FIELD_VERIFICATION";
    assert Name(VerificationInconclusive) == "VERIFICATION_INCONCLUSIVE" && Name(VerificationFailed) == "VERIFICATION_FAILED";
    assert Name(VerificationPassed) == "VERIFICATION_PASSED" && Name(ProofComplete) == "PROOF_COMPLETE";
    assert Name(Superseded) == "SUPERSEDED" && Name(Failed) == "FAILED";
  }
}
