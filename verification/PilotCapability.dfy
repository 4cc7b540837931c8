/** Signed pilot capabilities: `base64url(payload) + "." + base64url(signature)`. Key, signature and
    JSON codec are parameters; the clock reads whole seconds. */
module PilotCapability {
  import opened Basics
  import opened Serialization
  import Base64

  const VERSION := "dz1"

  datatype Capability = Capability(workflow: string, change: string, issuedAt: int, expiresAt: int)

  datatype Claims = Claims(workflow: string, change: string, issuedAt: int, expiresAt: int, nonce: string)

  /** `Raised` stands for the exceptions that escape on a signed body that is no text or no mapping, or whose
      times are no numbers. */
  datatype Refusal = NoWorkflow | Malformed | SessionExpired | Raised

  /** What loading a body as JSON gives. */
  datatype Loaded = NotText | NotJson | Loaded(value: Json)

  datatype Keyring = Keyring(
    sign: seq<Byte> -> seq<Byte>,
    dump: map<string, Json> -> seq<Byte>,
    load: seq<Byte> -> Loaded,
    conversions: Conversions
  )

  /** Loading undoes dumping, and the conversions leave text and numbers as they are. */
  ghost predicate Sound(k: Keyring) {
    (forall m :: k.load(k.dump(m)) == Loaded(Obj(m))) && Faithful(k.conversions)
  }

  function Payload(c: Claims): map<string, Json> {
    map["v" := Str(VERSION), "w" := Str(c.workflow), "c" := Str(c.change), "iat" := Num(c.issuedAt),
        "exp" := Num(c.expiresAt), "n" := Str(c.nonce)]
  }

  function Token(k: Keyring, body: seq<Byte>): string {
    Base64.B64(body) + ['.'] + Base64.B64(k.sign(body))
  }

  function Issue(k: Keyring, workflow: string, change: string, ttl: int, now: int, nonce: string): Result<string, Refusal> {
    if workflow == "" then Err(NoWorkflow)
    else Ok(Token(k, k.dump(Payload(Claims(workflow, change, now, now + ttl, nonce)))))
  }

  function Count(s: string, c: char): nat {
    if s == "" then 0 else (if s[0] == c then 1 else 0) + Count(s[1..], c)
  }

  /** `s.split(c, 1)` of a string with one `c`. */
  function Split(s: string, c: char): (string, string) {
    if s == "" then ("", "")
    else if s[0] == c then ("", s[1..])
    else ([s[0]] + Split(s[1..], c).0, Split(s[1..], c).1)
  }

  /** The body of a token whose signature is right. The claims of any other are not read. */
  function Authentic(k: Keyring, token: string): Option<seq<Byte>> {
    if Count(token, '.') != 1 then None
    else
      var (encodedBody, encodedSignature) := Split(token, '.');
      var body, signature := Base64.Unb64(encodedBody), Base64.Unb64(encodedSignature);
      if body.None? || signature.None? || k.sign(body.value) != signature.value then None
      else body
  }

  /** `payload.get(key, default)`: the default stands in only for a missing key. */
  function Get(payload: map<string, Json>, key: string, missing: Json): Json {
    if key in payload then payload[key] else missing
  }

  function Admit(k: Keyring, payload: map<string, Json>, now: int): Result<Capability, Refusal> {
    var workflow := k.conversions.text(Get(payload, "w", Str("")));
    var change := k.conversions.text(Get(payload, "c", Str("")));
    var issuedAt := k.conversions.whole(Get(payload, "iat", Num(0)));
    var expiresAt := k.conversions.whole(Get(payload, "exp", Num(0)));
    if Field(payload, "v") != Str(VERSION) then Err(Malformed)
    else if issuedAt.None? || expiresAt.None? then Err(Raised)
    else if workflow == "" then Err(Malformed)
    else if Expired(expiresAt.value, now) then Err(SessionExpired)
    else Ok(Capability(workflow, change, issuedAt.value, expiresAt.value))
  }

  function SecondsRemaining(expiresAt: int, now: int): int {
    if expiresAt - now < 0 then 0 else expiresAt - now
  }

  predicate Expired(expiresAt: int, now: int) { SecondsRemaining(expiresAt, now) <= 0 }

  function Verify(k: Keyring, token: string, now: int): Result<Capability, Refusal> {
    match Authentic(k, token)
    case None => Err(Malformed)
    case Some(body) =>
      match k.load(body)
      case NotText => Err(Raised)
      case NotJson => Err(Malformed)
      case Loaded(Obj(payload)) => Admit(k, payload, now)
      case Loaded(_) => Err(Raised)
  }

  // ------------------------------------------------------- round trip

  lemma {:induction false} SplitsAtDot(a: string, b: string)
    requires '.' !in a && '.' !in b
    ensures Count(a + ['.'] + b, '.') == 1 && Split(a + ['.'] + b, '.') == (a, b)
  {
    var s := a + ['.'] + b;
    if a == "" {
      assert s[1..] == b;
      NoneToCount(b, '.');
    } else {
      assert s[1..] == a[1..] + ['.'] + b;
      SplitsAtDot(a[1..], b);
      assert a == [a[0]] + a[1..];
    }
  }

  lemma {:induction false} NoneToCount(s: string, c: char)
    requires c !in s
    ensures Count(s, c) == 0
  {
    if s != "" {
      NoneToCount(s[1..], c);
    }
  }

  lemma TokenAuthentic(k: Keyring, body: seq<Byte>)
    ensures Authentic(k, Token(k, body)) == Some(body)
  {
    hide Base64.B64, Base64.Unb64, Count, Split;
    var signature := k.sign(body);
    Base64.RoundTrip(body);
    Base64.RoundTrip(signature);
    Base64.Injective(body, signature);
    Base64.Injective(signature, body);
    SplitsAtDot(Base64.B64(body), Base64.B64(signature));
  }

  lemma {:induction false} SplitJoins(s: string)
    ensures Count(s, '.') == 0 <==> '.' !in s
    ensures Count(s, '.') > 0 ==> '.' !in Split(s, '.').0 && s == Split(s, '.').0 + ['.'] + Split(s, '.').1
    ensures Count(s, '.') == 1 ==> '.' !in Split(s, '.').1
  {
    if s != "" {
      SplitJoins(s[1..]);
      assert s == [s[0]] + s[1..];
    }
  }

  /** The token is body, dot, signature. */
  predicate Joins(k: Keyring, token: string, body: seq<Byte>, a: string, b: string) {
    && '.' !in a && '.' !in b && token == a + ['.'] + b
    && Base64.Unb64(a) == Some(body) && Base64.Unb64(b) == Some(k.sign(body))
  }

  /** A token is authentic exactly when it is one dot between a body and the signature of that body. */
  lemma AuthenticExactly(k: Keyring, token: string, body: seq<Byte>)
    ensures Authentic(k, token) == Some(body) <==> exists a, b :: Joins(k, token, body, a, b)
  {
    SplitJoins(token);
    hide Base64.Unb64, Count, Split;
    if Authentic(k, token) == Some(body) {
      assert Joins(k, token, body, Split(token, '.').0, Split(token, '.').1);
    }
    if a, b :| Joins(k, token, body, a, b) {
      SplitsAtDot(a, b);
    }
  }

  /** What an authentic mapping must say to be admitted: the version, a workflow, and two times of which the second has
      not come. A token that is not authentic, or of another version, is malformed. */
  lemma AdmittedExactly(k: Keyring, token: string, now: int, p: map<string, Json>)
    requires Authentic(k, token).Some? && k.load(Authentic(k, token).value) == Loaded(Obj(p))
    ensures var workflow := k.conversions.text(if "w" in p then p["w"] else Str(""));
            var change := k.conversions.text(if "c" in p then p["c"] else Str(""));
            var issuedAt := k.conversions.whole(if "iat" in p then p["iat"] else Num(0));
            var expiresAt := k.conversions.whole(if "exp" in p then p["exp"] else Num(0));
            var current := "v" in p && p["v"] == Str("dz1");
            && (Verify(k, token, now).Ok? <==>
                  current && workflow != "" && issuedAt.Some? && expiresAt.Some? && now < expiresAt.value)
            && (Verify(k, token, now).Ok? ==>
                  Verify(k, token, now).value == Capability(workflow, change, issuedAt.value, expiresAt.value))
            && (!current ==> Verify(k, token, now) == Err(Malformed))
  {
    hide Authentic;
  }

  /** A capability names exactly the workflow and change it was issued for, at every clock value below its
      expiry, and is refused as expired at every value from then on. */
  lemma IssuedVerifies(k: Keyring, workflow: string, change: string, ttl: int, now: int, nonce: string, later: int)
    requires Sound(k) && workflow != ""
    ensures Verify(k, Issue(k, workflow, change, ttl, now, nonce).value, later)
            == if later < now + ttl then Ok(Capability(workflow, change, now, now + ttl)) else Err(SessionExpired)
  {
    hide Authentic, Token;
    var payload := Payload(Claims(workflow, change, now, now + ttl, nonce));
    TokenAuthentic(k, k.dump(payload));
    assert k.load(k.dump(payload)) == Loaded(Obj(payload));
    KeysDiffer();
  }

  lemma KeysDiffer()
    ensures "v" != "w" && "v" != "c" && "w" != "c" && "iat" != "exp"
    ensures "n" !in {"v", "w", "c"}
  {
    assert "v"[0] == 'v' && "w"[0] == 'w' && "c"[0] == 'c' && "n"[0] == 'n' && "iat"[0] == 'i' && "exp"[0] == 'e';
  }

  /** Issued tokens coincide only when everything they carry does; a fresh nonce makes a fresh token. */
  lemma TokensCarryTheirClaims(k: Keyring, c: Claims, d: Claims)
    requires Sound(k) && Token(k, k.dump(Payload(c))) == Token(k, k.dump(Payload(d)))
    ensures c == d
  {
    hide Token, Authentic, Payload;
    TokenAuthentic(k, k.dump(Payload(c)));
    TokenAuthentic(k, k.dump(Payload(d)));
    assert k.load(k.dump(Payload(c))) == k.load(k.dump(Payload(d)));
    PayloadDetermines(c, d);
  }

  lemma PayloadDetermines(c: Claims, d: Claims)
    requires Payload(c) == Payload(d)
    ensures c == d
  {
    PayloadFields(c);
    PayloadFields(d);
  }

  lemma PayloadFields(c: Claims)
    ensures var p := Payload(c);
            && p.Keys == {"v", "w", "c", "iat", "exp", "n"}
            && p["w"] == Str(c.workflow) && p["c"] == Str(c.change) && p["n"] == Str(c.nonce)
            && p["iat"] == Num(c.issuedAt) && p["exp"] == Num(c.expiresAt) && p["v"] == Str("dz1")
  {
    KeysDiffer();
  }

  // ------------------------------------------------------- soundness

  /** The bodies this key has signed, one for each issue. */
  ghost predicate SignedBy(k: Keyring, issued: set<Claims>, body: seq<Byte>) {
    exists c :: c in issued && body == k.dump(Payload(c))
  }

  /** If nobody else can produce a signature, whatever verifies was issued, names exactly the workflow and
      change of that issue, and has not expired; and everything issued that has not expired verifies. */
  lemma VerifiesExactlyWhatWasIssued(k: Keyring, issued: set<Claims>, token: string, now: int, cap: Capability)
    requires Sound(k)
    requires Authentic(k, token).Some? ==> SignedBy(k, issued, Authentic(k, token).value)
    ensures Verify(k, token, now) == Ok(cap) <==>
            exists c :: && c in issued && Authentic(k, token) == Some(k.dump(Payload(c)))
                        && cap == Capability(c.workflow, c.change, c.issuedAt, c.expiresAt)
                        && c.workflow != "" && now < c.expiresAt
  {
    hide Authentic;
    forall c | c in issued && Authentic(k, token) == Some(k.dump(Payload(c)))
      ensures Verify(k, token, now) == Ok(cap) <==>
              cap == Capability(c.workflow, c.change, c.issuedAt, c.expiresAt) && c.workflow != "" && now < c.expiresAt
    {
      assert k.load(k.dump(Payload(c))) == Loaded(Obj(Payload(c)));
      KeysDiffer();
    }
    if Verify(k, token, now) == Ok(cap) {
      var c :| c in issued && Authentic(k, token).value == k.dump(Payload(c));
    }
  }
}
