/** Identifiers: the shared allow-list, the paths built from it, and the ids the system mints. */
module Identifiers {
  import opened Basics

  /** Why an identifier was refused, in the order the checks run. */
  datatype Rejection = Empty | Reserved | Separator | ParentReference | Pattern

  predicate IsDigit(c: char) { '0' <= c <= '9' }

  predicate IsAlphanumeric(c: char) { 'A' <= c <= 'Z' || 'a' <= c <= 'z' || IsDigit(c) }

  predicate IsSafeChar(c: char) { IsAlphanumeric(c) || c == '.' || c == '_' || c == '-' }

  predicate HasParentReference(s: string) {
    exists i :: 0 <= i < |s| - 1 && s[i] == '.' && s[i + 1] == '.'
  }

  predicate MatchesPattern(s: string) {
    && 1 <= |s| <= 255
    && IsAlphanumeric(s[0])
    && forall i :: 0 <= i < |s| ==> IsSafeChar(s[i])
  }

  function SafeIdentifier(value: string): Result<string, Rejection> {
    if value == "" then Err(Empty)
    else if value in {".", ".."} then Err(Reserved)
    else if '/' in value || '\\' in value then Err(Separator)
    else if HasParentReference(value) then Err(ParentReference)
    else if !MatchesPattern(value) then Err(Pattern)
    else Ok(value)
  }

  predicate Safe(s: string) { SafeIdentifier(s).Ok? }

  /** The five checks amount to the pattern `[A-Za-z0-9][A-Za-z0-9._-]{0,254}` without two dots in a row. */
  lemma SafeExactly(s: string)
    ensures Safe(s) <==>
            && 1 <= |s| <= 255
            && ('A' <= s[0] <= 'Z' || 'a' <= s[0] <= 'z' || '0' <= s[0] <= '9')
            && (forall i :: 0 <= i < |s| ==>
                  'A' <= s[i] <= 'Z' || 'a' <= s[i] <= 'z' || '0' <= s[i] <= '9' || s[i] in {'.', '_', '-'})
            && !(exists i :: 0 <= i < |s| - 1 && s[i] == '.' && s[i + 1] == '.')
    ensures Safe(s) <==> MatchesPattern(s) && !HasParentReference(s)
    ensures Safe(s) ==> SafeIdentifier(s) == Ok(s) && '/' !in s && '\\' !in s
    ensures SafeIdentifier(s) == Err(Empty) <==> s == ""
    ensures SafeIdentifier(s) == Err(Reserved) <==> s == "." || s == ".."
    ensures SafeIdentifier(s) == Err(Separator) <==> '/' in s || '\\' in s
  {
    if MatchesPattern(s) {
      assert s[0] != '.' && !IsSafeChar('/') && !IsSafeChar('\\');
    }
  }

  // ------------------------------------------------------- splitting

  lemma FirstSeparator<T>(a: seq<T>, sep: T, x: seq<T>)
    requires sep !in a
    ensures var s := a + [sep] + x;
            s[|a|] == sep && forall k :: 0 <= k < |a| ==> s[k] != sep
  {
  }

  lemma LastSeparator<T>(a: seq<T>, sep: T, x: seq<T>)
    requires sep !in x
    ensures var s := a + [sep] + x;
            s[|a|] == sep && forall k :: |a| < k < |s| ==> s[k] != sep
  {
    var s := a + [sep] + x;
    forall k | |a| < k < |s| ensures s[k] != sep {
      assert s[k] == x[k - |a| - 1];
    }
  }

  /** A string splits at its first separator in one way only. */
  lemma SplitFirst<T>(a: seq<T>, b: seq<T>, sep: T, x: seq<T>, y: seq<T>)
    requires sep !in a && sep !in b
    requires a + [sep] + x == b + [sep] + y
    ensures a == b && x == y
  {
    var s := a + [sep] + x;
    var t := b + [sep] + y;
    FirstSeparator(a, sep, x);
    FirstSeparator(b, sep, y);
    assert s[|a|] == t[|a|] && s[|b|] == t[|b|];
    assert s[..|a|] == a && t[..|b|] == b;
    assert s[|a| + 1..] == x && t[|b| + 1..] == y;
  }

  /** And at its last separator in one way only. */
  lemma SplitLast<T>(a: seq<T>, b: seq<T>, sep: T, x: seq<T>, y: seq<T>)
    requires sep !in x && sep !in y
    requires a + [sep] + x == b + [sep] + y
    ensures a == b && x == y
  {
    var s := a + [sep] + x;
    var t := b + [sep] + y;
    LastSeparator(a, sep, x);
    LastSeparator(b, sep, y);
    assert s[|a|] == t[|a|] && s[|b|] == t[|b|];
    assert s[..|a|] == a && t[..|b|] == b;
    assert s[|a| + 1..] == x && t[|b| + 1..] == y;
  }

  // ------------------------------------------------------- paths

  function Join(segments: seq<string>): string
    requires segments != []
  {
    if |segments| == 1 then segments[0] else segments[0] + ['/'] + Join(segments[1..])
  }

  predicate Segments(segments: seq<string>) {
    segments != [] && forall i :: 0 <= i < |segments| ==> '/' !in segments[i]
  }

  /** Paths over segments without separators coincide only segment by segment. */
  lemma {:induction false} JoinInjective(a: seq<string>, b: seq<string>)
    requires Segments(a) && Segments(b) && Join(a) == Join(b)
    ensures a == b
  {
    if |a| > 1 && |b| > 1 {
      SplitFirst(a[0], b[0], '/', Join(a[1..]), Join(b[1..]));
      JoinInjective(a[1..], b[1..]);
      assert a == [a[0]] + a[1..] && b == [b[0]] + b[1..];
    }
  }

  function EvidencePath(workflowId: string, evidenceId: string): Result<string, Rejection> {
    match SafeIdentifier(workflowId)
    case Err(e) => Err(e)
    case Ok(w) =>
      match SafeIdentifier(evidenceId)
      case Err(e) => Err(e)
      case Ok(id) => Ok(Join(["workflows", w, "evidence", id]))
  }

  function ProofPath(proofId: string, filename: string): Result<string, Rejection> {
    match SafeIdentifier(proofId)
    case Err(e) => Err(e)
    case Ok(p) =>
      match SafeIdentifier(filename)
      case Err(e) => Err(e)
      case Ok(f) => Ok(Join(["proofs", p, f]))
  }

  lemma JoinOfThree(a: string, b: string, c: string)
    ensures Join([a, b, c]) == a + "/" + b + "/" + c
  {
    assert [a, b, c][1..] == [b, c] && [b, c][1..] == [c];
    assert Join([c]) == c;
    assert Join([b, c]) == b + ['/'] + c;
    assert Join([a, b, c]) == a + ['/'] + Join([b, c]);
  }

  lemma JoinOfFour(a: string, b: string, c: string, d: string)
    ensures Join([a, b, c, d]) == a + "/" + b + "/" + c + "/" + d
  {
    JoinOfThree(b, c, d);
    assert [a, b, c, d][1..] == [b, c, d];
    assert Join([a, b, c, d]) == a + ['/'] + Join([b, c, d]);
  }

  /** Where accepted ids lead. */
  lemma PathsAre(w: string, e: string, p: string, f: string)
    ensures EvidencePath(w, e).Ok? <==> Safe(w) && Safe(e)
    ensures Safe(w) && Safe(e) ==> EvidencePath(w, e) == Ok("workflows" + "/" + w + "/" + "evidence" + "/" + e)
    ensures ProofPath(p, f).Ok? <==> Safe(p) && Safe(f)
    ensures Safe(p) && Safe(f) ==> ProofPath(p, f) == Ok("proofs" + "/" + p + "/" + f)
  {
    SafeExactly(w);
    SafeExactly(e);
    SafeExactly(p);
    SafeExactly(f);
    hide SafeIdentifier, MatchesPattern, HasParentReference, Join;
    JoinOfFour("workflows", w, "evidence", e);
    JoinOfThree("proofs", p, f);
  }

  /** No two accepted evidence ids, and no evidence id and proof id, share an object path. */
  lemma ObjectPathsDistinct(w: string, e: string, w': string, e': string, p: string, f: string)
    ensures EvidencePath(w, e).Ok? && EvidencePath(w, e) == EvidencePath(w', e') ==> w == w' && e == e'
    ensures EvidencePath(w, e).Ok? ==> EvidencePath(w, e) != ProofPath(p, f)
  {
    SafeExactly(w); SafeExactly(e); SafeExactly(w'); SafeExactly(e'); SafeExactly(p); SafeExactly(f);
    if EvidencePath(w, e).Ok? && EvidencePath(w, e) == EvidencePath(w', e') {
      JoinInjective(["workflows", w, "evidence", e], ["workflows", w', "evidence", e']);
    }
    if EvidencePath(w, e).Ok? && EvidencePath(w, e) == ProofPath(p, f) {
      JoinInjective(["workflows", w, "evidence", e], ["proofs", p, f]);
    }
  }

  lemma ProofPathsDistinct(p: string, f: string, p': string, f': string)
    ensures ProofPath(p, f).Ok? && ProofPath(p, f) == ProofPath(p', f') ==> p == p' && f == f'
  {
    SafeExactly(p); SafeExactly(f); SafeExactly(p'); SafeExactly(f');
    if ProofPath(p, f).Ok? && ProofPath(p, f) == ProofPath(p', f') {
      JoinInjective(["proofs", p, f], ["proofs", p', f']);
    }
  }

  // ------------------------------------------------------- minted ids

  function Digits(n: nat): (s: string)
    ensures s != "" && forall i :: 0 <= i < |s| ==> IsDigit(s[i])
  {
    var last := ['0' + (n % 10) as char];
    if n < 10 then last else Digits(n / 10) + last
  }

  /** Decimal rendering padded on the left to a minimum width, as in the format `:03d`. */
  function ZeroPad(n: nat, width: nat): (s: string)
    ensures s != "" && '-' !in s && |s| >= width
  {
    var d := Digits(n);
    if |d| >= width then d else Repeat('0', width - |d|) + d
  }

  function ValueOf(s: string): nat
    requires forall i :: 0 <= i < |s| ==> IsDigit(s[i])
  {
    if s == "" then 0
    else
      assert IsDigit(s[|s| - 1]);
      10 * ValueOf(s[..|s| - 1]) + (s[|s| - 1] as int - '0' as int)
  }

  lemma {:induction false} ValueOfDigits(n: nat)
    ensures ValueOf(Digits(n)) == n
  {
    var s := Digits(n);
    if n >= 10 {
      ValueOfDigits(n / 10);
      assert s[..|s| - 1] == Digits(n / 10);
    } else {
      assert s[..|s| - 1] == "";
    }
  }

  lemma {:induction false} LeadingZeros(k: nat, s: string)
    requires forall i :: 0 <= i < |s| ==> IsDigit(s[i])
    ensures ValueOf(Repeat('0', k) + s) == ValueOf(s)
  {
    var z := Repeat('0', k) + s;
    if s != "" {
      LeadingZeros(k, s[..|s| - 1]);
      assert z[..|z| - 1] == Repeat('0', k) + s[..|s| - 1];
    } else if k > 0 {
      LeadingZeros(k - 1, "");
      assert z[..|z| - 1] == Repeat('0', k - 1) + "";
    }
  }

  /** The padded rendering determines the number, at any width. */
  lemma ZeroPadInjective(m: nat, n: nat, width: nat)
    requires ZeroPad(m, width) == ZeroPad(n, width)
    ensures m == n
  {
    ZeroPadValue(m, width);
    ZeroPadValue(n, width);
  }

  lemma ZeroPadValue(n: nat, width: nat)
    ensures var s := ZeroPad(n, width);
            (forall i :: 0 <= i < |s| ==> IsDigit(s[i])) && ValueOf(s) == n
  {
    hide Digits, ValueOf, Repeat;
    var d := Digits(n);
    ValueOfDigits(n);
    if |d| < width {
      var z := Repeat('0', width - |d|);
      assert forall i :: 0 <= i < |z| ==> IsDigit(z[i]);
      LeadingZeros(width - |d|, d);
    }
  }

  /** No longer than it needs to be, and never shorter than the width. */
  lemma ZeroPadLength(n: nat, width: nat)
    ensures |ZeroPad(n, width)| == if |Digits(n)| < width then width else |Digits(n)|
    ensures n < 10 ==> |Digits(n)| == 1
    ensures n >= 10 ==> Digits(n)[0] != '0'
  {
    DigitsLead(n);
  }

  lemma {:induction false} DigitsLead(n: nat)
    ensures n > 0 ==> Digits(n)[0] != '0'
  {
    if n >= 10 {
      DigitsLead(n / 10);
    }
  }

  /** The id of the first workflow of the `n`-th service a runtime builds. */
  function MintWorkflowId(namespace: string, n: nat): string {
    namespace + ['-'] + ZeroPad(n, 3) + ['-'] + "001"
  }

  lemma MintInjective(ns: string, n: nat, ns': string, n': nat)
    requires MintWorkflowId(ns, n) == MintWorkflowId(ns', n')
    ensures ns == ns' && n == n'
  {
    SplitLast(ns + ['-'] + ZeroPad(n, 3), ns' + ['-'] + ZeroPad(n', 3), '-', "001", "001");
    SplitLast(ns, ns', '-', ZeroPad(n, 3), ZeroPad(n', 3));
    ZeroPadInjective(n, n', 3);
  }

  // ------------------------------------------------------- blanks

  /** The characters Python's `strip` removes. */
  predicate IsSpace(c: char) {
    || '\t' <= c <= '\r' || (0x1C as char) <= c <= ' ' || c == 0x85 as char || c == 0xA0 as char
    || c == 0x1680 as char || (0x2000 as char) <= c <= 0x200A as char || c == 0x2028 as char
    || c == 0x2029 as char || c == 0x202F as char || c == 0x205F as char || c == 0x3000 as char
  }

  function Strip(s: string): string {
    if s == "" then s
    else if IsSpace(s[0]) then Strip(s[1..])
    else if IsSpace(s[|s| - 1]) then Strip(s[..|s| - 1])
    else s
  }

  predicate Blank(s: string) { Strip(s) == "" }

  /** `Strip` cuts spaces off both ends, all of them and nothing else. */
  lemma {:induction false} StripCuts(s: string) returns (lo: nat, hi: nat)
    ensures lo <= hi <= |s| && Strip(s) == s[lo..hi]
    ensures forall i :: 0 <= i < lo || hi <= i < |s| ==> IsSpace(s[i])
    ensures lo < hi ==> !IsSpace(s[lo]) && !IsSpace(s[hi - 1])
  {
    hide IsSpace;
    if s == "" {
      lo, hi := 0, 0;
    } else if IsSpace(s[0]) {
      lo, hi := StripCuts(s[1..]);
      assert s[1..][lo..hi] == s[lo + 1..hi + 1];
      assert forall i :: 0 < i < |s| ==> s[i] == s[1..][i - 1];
      lo, hi := lo + 1, hi + 1;
    } else if IsSpace(s[|s| - 1]) {
      lo, hi := StripCuts(s[..|s| - 1]);
      assert s[..|s| - 1][lo..hi] == s[lo..hi];
      assert forall i :: 0 <= i < |s| - 1 ==> s[i] == s[..|s| - 1][i];
    } else {
      lo, hi := 0, |s|;
    }
  }

  /** Stripping changes a string exactly when it starts or ends with a space. */
  lemma StripExactly(s: string)
    ensures Strip(s) == s <==> s == "" || (!IsSpace(s[0]) && !IsSpace(s[|s| - 1]))
  {
    StripShrinks(s);
  }

  lemma {:induction false} StripShrinks(s: string)
    ensures |Strip(s)| <= |s|
    ensures s != "" && (IsSpace(s[0]) || IsSpace(s[|s| - 1])) ==> |Strip(s)| < |s|
  {
    if s == "" {
    } else if IsSpace(s[0]) {
      StripShrinks(s[1..]);
    } else if IsSpace(s[|s| - 1]) {
      StripShrinks(s[..|s| - 1]);
    }
  }

  /** A key that starts with safe text stays unsafe when the id after it carries outer spaces. */
  lemma SpacedKeyUnsafe(prefix: string, id: string)
    requires Strip(id) != id
    ensures !Safe(prefix + id)
  {
    StripExactly(id);
    var key := prefix + id;
    var k := if IsSpace(id[0]) then |prefix| else |key| - 1;
    assert key[|prefix|] == id[0] && key[|key| - 1] == id[|id| - 1];
    assert IsSpace(key[k]) && !IsSafeChar(key[k]);
    SafeExactly(key);
  }
}
