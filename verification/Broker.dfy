/** The capability broker: one policy table, one registry, and the runs of mint, revoke and verify. */
module Broker {
  import opened Basics
  import opened Identifiers

  const CHANGE_INTELLIGENCE := "driftzero-change-intel"
  const REMEDIATION := "driftzero-remediation"
  const ENABLEMENT := "driftzero-enablement"
  const FIELD_VERIFICATION := "driftzero-field-verify"
  const ORCHESTRATOR := "driftzero-orchestrator"

  const ARTIFACT_MUTATION := "ARTIFACT_MUTATION"
  const FRONTLINE_DELIVERY := "FRONTLINE_DELIVERY"
  const FIELD_OBSERVATION := "FIELD_OBSERVATION"

  predicate KnownIdentity(holder: string) {
    holder in {CHANGE_INTELLIGENCE, REMEDIATION, ENABLEMENT, FIELD_VERIFICATION, ORCHESTRATOR}
  }

  predicate KnownTool(tool: string) { tool in {ARTIFACT_MUTATION, FRONTLINE_DELIVERY, FIELD_OBSERVATION} }

  predicate InPolicy(holder: string, tool: string) {
    (holder, tool) in {(REMEDIATION, ARTIFACT_MUTATION), (ENABLEMENT, FRONTLINE_DELIVERY),
                       (FIELD_VERIFICATION, FIELD_OBSERVATION)}
  }

  predicate IsAuthorized(holder: string, tool: string) {
    KnownIdentity(holder) && KnownTool(tool) && InPolicy(holder, tool)
  }

  /** The policy separates duties: no identity holds two tools, every tool has exactly one holder,
      and the orchestrator holds nothing. */
  lemma DutiesAreSeparate(holder: string, holder': string, tool: string, tool': string)
    ensures IsAuthorized(holder, tool) && IsAuthorized(holder, tool') ==> tool == tool'
    ensures IsAuthorized(holder, tool) && IsAuthorized(holder', tool) ==> holder == holder'
    ensures KnownTool(tool) ==> exists h :: IsAuthorized(h, tool)
    ensures !IsAuthorized(ORCHESTRATOR, tool) && !IsAuthorized(CHANGE_INTELLIGENCE, tool)
  {
    NamesDiffer();
    if KnownTool(tool) {
      assert IsAuthorized(if tool == ARTIFACT_MUTATION then REMEDIATION
                          else if tool == FRONTLINE_DELIVERY then ENABLEMENT else FIELD_VERIFICATION, tool);
    }
  }

  lemma NamesDiffer()
    ensures ARTIFACT_MUTATION != FRONTLINE_DELIVERY && ARTIFACT_MUTATION != FIELD_OBSERVATION
    ensures FRONTLINE_DELIVERY != FIELD_OBSERVATION
    ensures REMEDIATION != ENABLEMENT && REMEDIATION != FIELD_VERIFICATION && ENABLEMENT != FIELD_VERIFICATION
    ensures ORCHESTRATOR !in {REMEDIATION, ENABLEMENT, FIELD_VERIFICATION}
    ensures CHANGE_INTELLIGENCE !in {REMEDIATION, ENABLEMENT, FIELD_VERIFICATION}
  {
    var n := |"driftzero-"|;
    assert REMEDIATION[n] == 'r' && ENABLEMENT[n] == 'e' && FIELD_VERIFICATION[n] == 'f';
    assert ORCHESTRATOR[n] == 'o' && CHANGE_INTELLIGENCE[n] == 'c';
    assert ARTIFACT_MUTATION[0] == 'A' && FRONTLINE_DELIVERY[1] == 'R' && FIELD_OBSERVATION[1] == 'I';
  }

  // ------------------------------------------------------- data

  /** What a caller presents: a mutation capability, or a grant for another tool. Both carry these fields. */
  datatype Capability = Capability(
    id: string,
    holder: string,
    tool: string,
    scopes: set<string>,
    change: string,
    version: string,
    token: string
  )

  /** The registry entry of one issued capability. */
  datatype Grant = Grant(holder: string, tool: string, scope: string, change: string, version: string, revoked: bool)

  datatype Reason = UnknownIdentity | UnknownTool | NotAuthorized | MalformedRequest

  datatype Denial = Denial(
    id: string,
    requestedBy: string,
    requestedTool: string,
    reason: Reason,
    scope: Option<string>,
    change: Option<string>,
    version: Option<string>
  )

  datatype Request = Request(holder: string, tool: string, scope: string, change: string, version: string)

  datatype Registry = Registry(grants: map<string, Grant>, issued: nat, denials: seq<Denial>, denied: nat)

  type Signature = string -> string

  const UNIT_SEPARATOR := 0x1F as char

  /** The text that is signed: every bound field, the tool included. */
  function Payload(id: string, g: Grant): string {
    id + [UNIT_SEPARATOR] + g.holder + [UNIT_SEPARATOR] + g.tool + [UNIT_SEPARATOR] + g.scope + [UNIT_SEPARATOR]
    + g.change + [UNIT_SEPARATOR] + g.version
  }

  function CapabilityId(n: nat, suffix: string): string {
    "cap-" + ZeroPad(n, 4) + ['-'] + suffix
  }

  function DenialId(n: nat, suffix: string): string {
    "deny-" + ZeroPad(n, 4) + ['-'] + suffix
  }

  function NonEmpty(s: string): Option<string> { if s == "" then None else Some(s) }

  // ------------------------------------------------------- operations

  /** Why a request is refused, by the first check that fails. */
  function Refusal(q: Request): Option<Reason> {
    if !KnownIdentity(q.holder) then Some(UnknownIdentity)
    else if !KnownTool(q.tool) then Some(UnknownTool)
    else if !IsAuthorized(q.holder, q.tool) then Some(NotAuthorized)
    else if Blank(q.scope) || Blank(q.change) || Blank(q.version) then Some(MalformedRequest)
    else None
  }

  /** The denial record. A request for an unknown tool is recorded under the default tool. */
  function DenialOf(q: Request, reason: Reason, n: nat, suffix: string): Denial {
    Denial(DenialId(n, suffix), q.holder, if reason.UnknownTool? then ARTIFACT_MUTATION else q.tool, reason,
           NonEmpty(q.scope), NonEmpty(q.change), NonEmpty(q.version))
  }

  function GrantOf(q: Request): Grant { Grant(q.holder, q.tool, q.scope, q.change, q.version, false) }

  function MintOp(r: Registry, q: Request, suffix: string, sign: Signature): (Registry, Result<Capability, Denial>) {
    match Refusal(q)
    case Some(reason) =>
      var d := DenialOf(q, reason, r.denied + 1, suffix);
      (r.(denials := r.denials + [d], denied := r.denied + 1), Err(d))
    case None =>
      var id := CapabilityId(r.issued + 1, suffix);
      var token := sign(Payload(id, GrantOf(q)));
      (r.(grants := r.grants[id := GrantOf(q)], issued := r.issued + 1),
       Ok(Capability(id, q.holder, q.tool, {q.scope}, q.change, q.version, token)))
  }

  function RevokeOp(r: Registry, id: string): Registry {
    if id in r.grants then r.(grants := r.grants[id := r.grants[id].(revoked := true)]) else r
  }

  predicate Verifies(r: Registry, c: Capability, sign: Signature) {
    && c.id in r.grants
    && var g := r.grants[c.id];
       && !g.revoked
       && g.holder == c.holder && g.tool == c.tool && g.change == c.change && g.version == c.version
       && g.scope in c.scopes
       && IsAuthorized(g.holder, g.tool)
       && sign(Payload(c.id, g)) == c.token
  }

  class CapabilityBroker {
    const sign: Signature
    var grants: map<string, Grant>
    var issuedCount: nat
    var deniedCount: nat
    var denials: seq<Denial>

    function State(): Registry
      reads this
    {
      Registry(grants, issuedCount, denials, deniedCount)
    }

    constructor (sign: Signature)
      ensures this.sign == sign && State() == Registry(map[], 0, [], 0)
    {
      this.sign := sign;
      grants, issuedCount, deniedCount, denials := map[], 0, 0, [];
    }

    method Deny(q: Request, reason: Reason, suffix: string) returns (record: Denial)
      modifies this
      ensures record == DenialOf(q, reason, old(deniedCount) + 1, suffix)
      ensures State() == old(State()).(denials := old(denials) + [record], denied := old(deniedCount) + 1)
    {
      deniedCount := deniedCount + 1;
      record := Denial(DenialId(deniedCount, suffix), q.holder, if reason.UnknownTool? then ARTIFACT_MUTATION else q.tool,
                       reason, NonEmpty(q.scope), NonEmpty(q.change), NonEmpty(q.version));
      denials := denials + [record];
    }

    /** Mint for the default tool. */
    method Issue(holder: string, artifact: string, change: string, version: string, suffix: string)
      returns (r: Result<Capability, Denial>)
      modifies this
      ensures (State(), r) == MintOp(old(State()), Request(holder, ARTIFACT_MUTATION, artifact, change, version), suffix, sign)
    {
      assert KnownTool(ARTIFACT_MUTATION);
      hide KnownIdentity, KnownTool, IsAuthorized, InPolicy, Blank, Payload, CapabilityId, DenialId;
      var q := Request(holder, ARTIFACT_MUTATION, artifact, change, version);
      if !KnownIdentity(holder) {
        var d := Deny(q, UnknownIdentity, suffix);
        return Err(d);
      }
      if !IsAuthorized(holder, ARTIFACT_MUTATION) {
        var d := Deny(q, NotAuthorized, suffix);
        return Err(d);
      }
      var malformed := AnyBlank(artifact, change, version);
      if malformed {
        var d := Deny(q, MalformedRequest, suffix);
        return Err(d);
      }
      var c := Register(q, suffix);
      return Ok(c);
    }

    /** Mint for any tool. */
    method IssueGrant(holder: string, tool: string, scope: string, change: string, version: string, suffix: string)
      returns (r: Result<Capability, Denial>)
      modifies this
      ensures (State(), r) == MintOp(old(State()), Request(holder, tool, scope, change, version), suffix, sign)
    {
      hide KnownIdentity, KnownTool, IsAuthorized, InPolicy, Blank, Payload, CapabilityId, DenialId;
      var q := Request(holder, tool, scope, change, version);
      if !KnownIdentity(holder) {
        var d := Deny(q, UnknownIdentity, suffix);
        return Err(d);
      }
      if !KnownTool(tool) {
        var d := Deny(q, UnknownTool, suffix);
        return Err(d);
      }
      if !IsAuthorized(holder, tool) {
        var d := Deny(q, NotAuthorized, suffix);
        return Err(d);
      }
      var malformed := AnyBlank(scope, change, version);
      if malformed {
        var d := Deny(q, MalformedRequest, suffix);
        return Err(d);
      }
      var c := Register(q, suffix);
      return Ok(c);
    }

    /** The end of both minting methods: count, sign, enter in the registry. */
    method Register(q: Request, suffix: string) returns (c: Capability)
      modifies this
      ensures var id := CapabilityId(old(issuedCount) + 1, suffix);
              && State() == old(State()).(grants := old(grants)[id := GrantOf(q)], issued := old(issuedCount) + 1)
              && c == Capability(id, q.holder, q.tool, {q.scope}, q.change, q.version, sign(Payload(id, GrantOf(q))))
    {
      issuedCount := issuedCount + 1;
      var id := CapabilityId(issuedCount, suffix);
      var grant := Grant(q.holder, q.tool, q.scope, q.change, q.version, false);
      var token := sign(Payload(id, grant));
      grants := grants[id := grant];
      c := Capability(id, q.holder, q.tool, {q.scope}, q.change, q.version, token);
    }

    method Revoke(id: string)
      modifies this
      ensures State() == RevokeOp(old(State()), id)
    {
      if id in grants {
        grants := grants[id := grants[id].(revoked := true)];
      }
    }

    method Verify(c: Capability) returns (ok: bool)
      ensures ok <==> Verifies(State(), c, sign)
    {
      if c.id !in grants {
        return false;
      }
      var g := grants[c.id];
      if g.revoked {
        return false;
      }
      if g.holder != c.holder || g.tool != c.tool || g.change != c.change || g.version != c.version || g.scope !in c.scopes {
        return false;
      }
      if !IsAuthorized(g.holder, g.tool) {
        return false;
      }
      var expected := sign(Payload(c.id, Grant(c.holder, g.tool, g.scope, c.change, c.version, false)));
      SignedFields(c.id, g);
      return expected == c.token;
    }

    method VerifyForTool(c: Capability, tool: string) returns (ok: bool)
      ensures ok <==> c.tool == tool && Verifies(State(), c, sign)
    {
      if c.tool != tool {
        return false;
      }
      ok := Verify(c);
    }
  }

  /** Revocation is not part of what is signed. */
  lemma SignedFields(id: string, g: Grant)
    ensures Payload(id, g) == Payload(id, g.(revoked := false))
  {
  }

  method AnyBlank(scope: string, change: string, version: string) returns (blank: bool)
    ensures blank <==> Blank(scope) || Blank(change) || Blank(version)
  {
    var fields := [scope, change, version];
    for i := 0 to |fields|
      invariant forall j :: 0 <= j < i ==> !Blank(fields[j])
    {
      if fields[i] == "" || Strip(fields[i]) == "" {
        return true;
      }
    }
    assert !Blank(fields[0]) && !Blank(fields[1]) && !Blank(fields[2]);
    return false;
  }

  /** Beyond the two checks on the tool and the identity, the policy is these three pairs. */
  lemma AuthorizedExactly(holder: string, tool: string)
    ensures IsAuthorized(holder, tool) <==>
            || (holder == "driftzero-remediation" && tool == "ARTIFACT_MUTATION")
            || (holder == "driftzero-enablement" && tool == "FRONTLINE_DELIVERY")
            || (holder == "driftzero-field-verify" && tool == "FIELD_OBSERVATION")
  {
  }

  /** Where no field holds the separator, every field is signed: two payloads are equal only when id, holder, tool,
      scope, change and version all are. */
  lemma PayloadSeparates(id: string, g: Grant, id': string, h: Grant)
    requires Payload(id, g) == Payload(id', h)
    requires forall s | s in {g.holder, g.tool, g.scope, g.change, g.version, h.holder, h.tool, h.scope, h.change, h.version}
               :: UNIT_SEPARATOR !in s
    ensures id == id' && g == h.(revoked := g.revoked)
  {
    var u := [UNIT_SEPARATOR];
    var p, q := id + u + g.holder + u + g.tool + u + g.scope, id' + u + h.holder + u + h.tool + u + h.scope;
    SplitLast(p + u + g.change, q + u + h.change, UNIT_SEPARATOR, g.version, h.version);
    SplitLast(p, q, UNIT_SEPARATOR, g.change, h.change);
    SplitLast(id + u + g.holder + u + g.tool, id' + u + h.holder + u + h.tool, UNIT_SEPARATOR, g.scope, h.scope);
    SplitLast(id + u + g.holder, id' + u + h.holder, UNIT_SEPARATOR, g.tool, h.tool);
    SplitLast(id, id', UNIT_SEPARATOR, g.holder, h.holder);
  }

  /** Who is refused for what, and what the record of a refusal says. */
  lemma DenialExactly(r: Registry, q: Request, suffix: string, sign: Signature)
    requires MintOp(r, q, suffix, sign).1.Err?
    ensures var d := MintOp(r, q, suffix, sign).1.error;
            && d.id == "deny-" + ZeroPad(r.denied + 1, 4) + "-" + suffix && d.requestedBy == q.holder
            && (d.reason.UnknownIdentity? <==> !KnownIdentity(q.holder))
            && (d.reason.UnknownTool? <==> KnownIdentity(q.holder) && !KnownTool(q.tool))
            && (d.reason.NotAuthorized? <==> KnownIdentity(q.holder) && KnownTool(q.tool) && !InPolicy(q.holder, q.tool))
            && (d.reason.MalformedRequest? ==> Blank(q.scope) || Blank(q.change) || Blank(q.version))
            && (d.scope == if |q.scope| == 0 then None else Some(q.scope))
            && (d.change == if |q.change| == 0 then None else Some(q.change))
            && (d.version == if |q.version| == 0 then None else Some(q.version))
  {
    hide KnownIdentity, KnownTool, InPolicy, Blank, ZeroPad;
    assert ['-'] == "-";
  }

  // ------------------------------------------------------- runs

  datatype Event = Mint(q: Request, suffix: string) | Revoke(id: string)

  /** `minted` lists what was handed out, oldest first; `revoked` the ids whose revocation took effect. */
  datatype World = World(registry: Registry, minted: seq<Capability>, revoked: set<string>)

  const START := World(Registry(map[], 0, [], 0), [], {})

  /** A random suffix is hexadecimal, so it has no dash. Nothing is assumed about its being new. */
  predicate Enabled(e: Event) { e.Mint? ==> '-' !in e.suffix }

  function Next(s: World, e: Event, sign: Signature): World {
    if !Enabled(e) then s
    else
      match e
      case Mint(q, suffix) =>
        var (r, c) := MintOp(s.registry, q, suffix, sign);
        World(r, if c.Ok? then s.minted + [c.value] else s.minted, s.revoked)
      case Revoke(id) =>
        World(RevokeOp(s.registry, id), s.minted, if id in s.registry.grants then s.revoked + {id} else s.revoked)
  }

  function Exec(s: World, es: seq<Event>, sign: Signature): World {
    if es == [] then s else Next(Exec(s, es[..|es| - 1], sign), es[|es| - 1], sign)
  }

  /** The `k`-th capability handed out is the one the registry holds under its id. */
  ghost predicate MintedAt(s: World, k: nat, sign: Signature)
    requires k < |s.minted|
  {
    var c := s.minted[k];
    && (exists suffix: string :: '-' !in suffix && c.id == CapabilityId(k + 1, suffix))
    && c.id in s.registry.grants
    && var g := s.registry.grants[c.id];
       && g.holder == c.holder && g.tool == c.tool && g.change == c.change && g.version == c.version
       && c.scopes == {g.scope}
       && IsAuthorized(g.holder, g.tool)
       && c.token == sign(Payload(c.id, g))
       && (g.revoked <==> c.id in s.revoked)
  }

  ghost predicate MintedIds(s: World) {
    forall id :: id in s.registry.grants ==> exists k :: 0 <= k < |s.minted| && s.minted[k].id == id
  }

  ghost predicate Inv(s: World, sign: Signature) {
    && s.registry.issued == |s.minted| == |s.registry.grants|
    && (forall k :: 0 <= k < |s.minted| ==> MintedAt(s, k, sign))
    && MintedIds(s)
    && (forall id :: id in s.revoked ==> id in s.registry.grants)
  }

  /** The count in an id identifies it, whatever the random part. */
  lemma CapabilityIdInjective(m: nat, s: string, n: nat, t: string)
    requires '-' !in s && '-' !in t && CapabilityId(m, s) == CapabilityId(n, t)
    ensures m == n && s == t
  {
    SplitLast("cap-" + ZeroPad(m, 4), "cap-" + ZeroPad(n, 4), '-', s, t);
    assert ("cap-" + ZeroPad(m, 4))[4..] == ZeroPad(m, 4) && ("cap-" + ZeroPad(n, 4))[4..] == ZeroPad(n, 4);
    ZeroPadInjective(m, n, 4);
  }

  /** A newly minted id has never been handed out, even when the random part repeats. */
  lemma NextIdIsFresh(s: World, suffix: string, sign: Signature)
    requires Inv(s, sign) && '-' !in suffix
    ensures CapabilityId(s.registry.issued + 1, suffix) !in s.registry.grants
  {
    var id := CapabilityId(s.registry.issued + 1, suffix);
    if id in s.registry.grants {
      var k :| 0 <= k < |s.minted| && s.minted[k].id == id;
      assert MintedAt(s, k, sign);
      var t: string :| '-' !in t && s.minted[k].id == CapabilityId(k + 1, t);
      CapabilityIdInjective(k + 1, t, s.registry.issued + 1, suffix);
    }
  }

  lemma MintedApart(s: World, i: nat, j: nat, sign: Signature)
    requires Inv(s, sign) && i < j < |s.minted|
    ensures s.minted[i].id != s.minted[j].id
  {
    hide CapabilityId, Payload, IsAuthorized;
    assert MintedAt(s, i, sign) && MintedAt(s, j, sign);
    var a: string :| '-' !in a && s.minted[i].id == CapabilityId(i + 1, a);
    var b: string :| '-' !in b && s.minted[j].id == CapabilityId(j + 1, b);
    if s.minted[i].id == s.minted[j].id {
      CapabilityIdInjective(i + 1, a, j + 1, b);
    }
  }

  lemma NextKeepsInv(s: World, e: Event, sign: Signature)
    requires Inv(s, sign)
    ensures Inv(Next(s, e, sign), sign)
  {
    if Enabled(e) && e.Mint? && Refusal(e.q).None? {
      MintKeepsInv(s, e, sign);
    } else if Enabled(e) && e.Revoke? && e.id in s.registry.grants {
      RevokeKeepsInv(s, e.id, sign);
    } else {
      var t := Next(s, e, sign);
      assert t.minted == s.minted && t.registry.grants == s.registry.grants;
      forall k | 0 <= k < |t.minted| ensures MintedAt(t, k, sign) {
        assert MintedAt(s, k, sign);
      }
    }
  }

  lemma MintKeepsInv(s: World, e: Event, sign: Signature)
    requires Inv(s, sign) && Enabled(e) && e.Mint? && Refusal(e.q).None?
    ensures Inv(Next(s, e, sign), sign)
  {
    hide CapabilityId, Payload, KnownIdentity, KnownTool, InPolicy, Blank;
    var t := Next(s, e, sign);
    var n := |s.minted|;
    NextIdIsFresh(s, e.suffix, sign);
    assert t.minted[n].id == CapabilityId(n + 1, e.suffix);
    forall k | 0 <= k < |t.minted| ensures MintedAt(t, k, sign) {
      if k < n {
        assert MintedAt(s, k, sign);
      }
    }
    forall id | id in t.registry.grants ensures exists k :: 0 <= k < |t.minted| && t.minted[k].id == id {
      if id in s.registry.grants {
        var k :| 0 <= k < |s.minted| && s.minted[k].id == id;
        assert t.minted[k].id == id;
      }
    }
  }

  lemma RevokeKeepsInv(s: World, id: string, sign: Signature)
    requires Inv(s, sign) && id in s.registry.grants
    ensures Inv(Next(s, Revoke(id), sign), sign)
  {
    hide CapabilityId, IsAuthorized;
    var t := Next(s, Revoke(id), sign);
    assert t.registry.grants.Keys == s.registry.grants.Keys;
    forall k | 0 <= k < |t.minted| ensures MintedAt(t, k, sign) {
      assert MintedAt(s, k, sign);
      if s.minted[k].id == id {
        SignedFields(id, s.registry.grants[id]);
      }
    }
  }

  lemma {:induction false} RunKeepsInv(es: seq<Event>, sign: Signature)
    ensures Inv(Exec(START, es, sign), sign)
  {
    if es != [] {
      RunKeepsInv(es[..|es| - 1], sign);
      NextKeepsInv(Exec(START, es[..|es| - 1], sign), es[|es| - 1], sign);
    }
  }

  // ------------------------------------------------------- theorems

  /** `c` is the minted `m`, except that its list of scopes may be longer. */
  predicate Presents(c: Capability, m: Capability) {
    m.scopes <= c.scopes && c == m.(scopes := c.scopes)
  }

  /** Soundness and completeness: at every reachable state a capability verifies exactly when this broker
      minted it, field by field, for a scope it covers, and its revocation never took effect. */
  lemma VerifiesExactly(es: seq<Event>, sign: Signature, c: Capability)
    ensures var s := Exec(START, es, sign);
            Verifies(s.registry, c, sign) <==>
            exists k :: 0 <= k < |s.minted| && Presents(c, s.minted[k]) && c.id !in s.revoked
  {
    RunKeepsInv(es, sign);
    var s := Exec(START, es, sign);
    if Verifies(s.registry, c, sign) {
      var k :| 0 <= k < |s.minted| && s.minted[k].id == c.id;
      assert MintedAt(s, k, sign);
      assert Presents(c, s.minted[k]);
    }
    forall k | 0 <= k < |s.minted| && Presents(c, s.minted[k]) && c.id !in s.revoked
      ensures Verifies(s.registry, c, sign)
    {
      assert MintedAt(s, k, sign);
    }
  }

  /** Ids are never reused, and the count of issued capabilities is the size of the registry. */
  lemma IdsAreFresh(es: seq<Event>, sign: Signature)
    ensures var s := Exec(START, es, sign);
            && s.registry.issued == |s.registry.grants| == |s.minted|
            && forall i, j :: 0 <= i < j < |s.minted| ==> s.minted[i].id != s.minted[j].id
  {
    RunKeepsInv(es, sign);
    var s := Exec(START, es, sign);
    forall i, j | 0 <= i < j < |s.minted| ensures s.minted[i].id != s.minted[j].id {
      MintedApart(s, i, j, sign);
    }
  }

  /** What was minted and not revoked verifies as it is, and nothing presented under its id verifies for
      another tool, holder, change or version. */
  lemma VerifiesForItsToolOnly(es: seq<Event>, sign: Signature, k: nat, c: Capability)
    requires var s := Exec(START, es, sign); k < |s.minted| && c.id == s.minted[k].id
    ensures var s := Exec(START, es, sign); var m := s.minted[k];
            && (m.id !in s.revoked ==> Verifies(s.registry, m, sign))
            && (Verifies(s.registry, c, sign) ==> Presents(c, m) && m.tool == c.tool && m.id !in s.revoked)
  {
    var s := Exec(START, es, sign);
    var m := s.minted[k];
    assert Presents(m, m);
    VerifiesExactly(es, sign, m);
    VerifiesExactly(es, sign, c);
    IdsAreFresh(es, sign);
  }

  /** A refused request mints nothing, leaves the registry alone and adds one denial under its own number. */
  lemma DenialMintsNothing(r: Registry, q: Request, suffix: string, sign: Signature)
    requires r.denied == |r.denials|
    ensures var (t, c) := MintOp(r, q, suffix, sign);
            && (c.Err? <==> !IsAuthorized(q.holder, q.tool) || Blank(q.scope) || Blank(q.change) || Blank(q.version))
            && (c.Err? ==> t.grants == r.grants && t.issued == r.issued && t.denials == r.denials + [c.error])
            && (c.Ok? ==> t.denials == r.denials)
            && t.denied == |t.denials|
  {
  }

  /** A denial names the tool that was asked for, except that a known identity asking for an unknown tool is recorded
      as asking for the default one. */
  lemma DenialNamesToolExactly(r: Registry, q: Request, suffix: string, sign: Signature)
    requires MintOp(r, q, suffix, sign).1.Err?
    ensures MintOp(r, q, suffix, sign).1.error.requestedTool == q.tool <==> !KnownIdentity(q.holder) || KnownTool(q.tool)
    ensures KnownIdentity(q.holder) && !KnownTool(q.tool) ==>
              MintOp(r, q, suffix, sign).1.error.requestedTool == ARTIFACT_MUTATION
  {
    assert KnownTool(ARTIFACT_MUTATION);
    hide Blank, DenialId, InPolicy;
  }

  ghost predicate NumberedDenial(d: Denial, n: nat) {
    exists suffix: string :: '-' !in suffix && d.id == DenialId(n, suffix)
  }

  lemma {:induction false} DenialsAreNumbered(es: seq<Event>, sign: Signature)
    ensures var r := Exec(START, es, sign).registry;
            && r.denied == |r.denials|
            && forall k :: 0 <= k < |r.denials| ==> NumberedDenial(r.denials[k], k + 1)
  {
    hide DenialId, CapabilityId, Payload, Blank, KnownIdentity, KnownTool, InPolicy;
    if es != [] {
      DenialsAreNumbered(es[..|es| - 1], sign);
      var s := Exec(START, es[..|es| - 1], sign);
      var e := es[|es| - 1];
      var t := Next(s, e, sign);
      var n := |s.registry.denials|;
      if Enabled(e) && e.Mint? && Refusal(e.q).Some? {
        assert t.registry.denials[n].id == DenialId(n + 1, e.suffix);
        assert NumberedDenial(t.registry.denials[n], n + 1);
      }
    }
  }

  /** Once a revocation took effect the id never verifies again, whatever follows and whatever is presented. */
  lemma RevokedForever(before: seq<Event>, id: string, after: seq<Event>, sign: Signature, c: Capability)
    requires id in Exec(START, before, sign).registry.grants && c.id == id
    ensures !Verifies(Exec(START, before + [Revoke(id)] + after, sign).registry, c, sign)
  {
    var es := before + [Revoke(id)];
    assert es[..|es| - 1] == before;
    RevokedStays(es, after, id, sign);
    VerifiesExactly(es + after, sign, c);
  }

  lemma {:induction false} RevokedStays(es: seq<Event>, after: seq<Event>, id: string, sign: Signature)
    requires id in Exec(START, es, sign).revoked
    ensures id in Exec(START, es + after, sign).revoked
  {
    if after == [] {
      assert es + after == es;
    } else {
      RevokedStays(es, after[..|after| - 1], id, sign);
      assert (es + after)[..|es + after| - 1] == es + after[..|after| - 1];
    }
  }

  /** What one broker minted verifies at another exactly when that one minted the very same capability, token
      included, and has not revoked it. */
  lemma NotTransferable(es: seq<Event>, es': seq<Event>, sign: Signature, sign': Signature, k: nat)
    requires k < |Exec(START, es, sign).minted|
    ensures var c, s' := Exec(START, es, sign).minted[k], Exec(START, es', sign');
            Verifies(s'.registry, c, sign') <==> c in s'.minted && c.id !in s'.revoked
  {
    VerifiesExactly(es', sign', Exec(START, es, sign).minted[k]);
    RunKeepsInv(es, sign);
    RunKeepsInv(es', sign');
    OneScope(Exec(START, es, sign), k, sign);
    var c, s' := Exec(START, es, sign).minted[k], Exec(START, es', sign');
    hide Exec, Verifies;
    forall j | 0 <= j < |s'.minted| && Presents(c, s'.minted[j]) ensures s'.minted[j] == c {
      OneScope(s', j, sign');
    }
    assert Presents(c, c);
  }

  lemma OneScope(s: World, k: nat, sign: Signature)
    requires Inv(s, sign) && k < |s.minted|
    ensures exists scope :: s.minted[k].scopes == {scope}
  {
    assert MintedAt(s, k, sign);
  }

  /** So two keys that differ on the payload of a capability keep it with its own broker. */
  lemma DifferentKeyRefuses(es: seq<Event>, es': seq<Event>, sign: Signature, sign': Signature, k: nat)
    requires k < |Exec(START, es, sign).minted|
    requires var s := Exec(START, es, sign); var id := s.minted[k].id;
             id in s.registry.grants && sign(Payload(id, s.registry.grants[id])) != sign'(Payload(id, s.registry.grants[id]))
    ensures !Verifies(Exec(START, es', sign').registry, Exec(START, es, sign).minted[k], sign')
  {
    NotTransferable(es, es', sign, sign', k);
    RunKeepsInv(es, sign);
    RunKeepsInv(es', sign');
    var s, s' := Exec(START, es, sign), Exec(START, es', sign');
    hide Exec, Verifies;
    assert MintedAt(s, k, sign);
    var c := s.minted[k];
    if c in s'.minted {
      var j :| 0 <= j < |s'.minted| && s'.minted[j] == c;
      assert MintedAt(s', j, sign');
      SamePayload(c.id, s.registry.grants[c.id], s'.registry.grants[c.id]);
    }
  }

  lemma SamePayload(id: string, g: Grant, h: Grant)
    requires g.holder == h.holder && g.tool == h.tool && g.change == h.change && g.version == h.version
    requires {g.scope} == {h.scope}
    ensures Payload(id, g) == Payload(id, h)
  {
    assert g.scope in {h.scope};
  }

  /** The signed text alone does not separate the fields: a separator inside a scope gives two grants
      one payload. The registry comparison is what tells them apart. */
  lemma PayloadIsAmbiguous(id: string, holder: string, tool: string, version: string)
    ensures var g := Grant(holder, tool, "a" + [UNIT_SEPARATOR] + "b", "c", version, false);
            var h := Grant(holder, tool, "a", "b" + [UNIT_SEPARATOR] + "c", version, false);
            g != h && Payload(id, g) == Payload(id, h)
  {
    assert |"a" + [UNIT_SEPARATOR] + "b"| != |"a"|;
  }
}
