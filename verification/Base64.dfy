/** URL-safe base64 (RFC 4648, section 5) with the padding stripped and restored, over the standard
    encoder and the lenient decoder of Python's `binascii`. */
module Base64 {
  import opened Basics
  import opened Identifiers

  type Digit = n: nat | n < 64

  function CharOf(n: Digit): char {
    if n < 26 then 'A' + n as char
    else if n < 52 then 'a' + (n - 26) as char
    else if n < 62 then '0' + (n - 52) as char
    else if n == 62 then '-' else '_'
  }

  /** The decoder reads both alphabets: the URL-safe signs are translated to the standard ones first. */
  function DigitOf(c: char): Option<Digit> {
    if 'A' <= c <= 'Z' then Some(c as int - 'A' as int)
    else if 'a' <= c <= 'z' then Some(26 + c as int - 'a' as int)
    else if '0' <= c <= '9' then Some(52 + c as int - '0' as int)
    else if c == '-' || c == '+' then Some(62)
    else if c == '_' || c == '/' then Some(63)
    else None
  }

  predicate UrlSafe(c: char) { IsAlphanumeric(c) || c == '-' || c == '_' }

  lemma CharOfDigit(n: Digit)
    ensures DigitOf(CharOf(n)) == Some(n) && UrlSafe(CharOf(n))
  {
  }

  lemma DigitOfChar(c: char)
    requires UrlSafe(c)
    ensures DigitOf(c).Some? && CharOf(DigitOf(c).value) == c
  {
  }

  /** The digits are those of table 2 of RFC 4648, by their ASCII codes. */
  lemma AlphabetDigits(n: Digit)
    ensures n < 26 ==> CharOf(n) as int == 65 + n
    ensures 26 <= n < 52 ==> CharOf(n) as int == 97 + (n - 26)
    ensures 52 <= n < 62 ==> CharOf(n) as int == 48 + (n - 52)
    ensures CharOf(62) as int == 45 && CharOf(63) as int == 95
  {
  }

  // ------------------------------------------------------- encoding

  /** The characters that carry data. */
  function Data(x: seq<Byte>): string {
    if |x| == 0 then ""
    else if |x| == 1 then [CharOf(x[0] / 4), CharOf(x[0] % 4 * 16)]
    else if |x| == 2 then [CharOf(x[0] / 4), CharOf(x[0] % 4 * 16 + x[1] / 16), CharOf(x[1] % 16 * 4)]
    else
      [CharOf(x[0] / 4), CharOf(x[0] % 4 * 16 + x[1] / 16), CharOf(x[1] % 16 * 4 + x[2] / 64), CharOf(x[2] % 64)]
      + Data(x[3..])
  }

  function Pads(k: nat): (s: string)
    ensures |s| == k
  {
    if k == 0 then "" else ['='] + Pads(k - 1)
  }

  function PadsFor(n: nat): nat { if n % 3 == 0 then 0 else 3 - n % 3 }

  /** The standard encoding: padded to whole groups of four. */
  function Encode(x: seq<Byte>): string {
    Data(x) + Pads(PadsFor(|x|))
  }

  /** `rstrip("=")`. */
  function StripPads(s: string): string {
    if s != "" && s[|s| - 1] == '=' then StripPads(s[..|s| - 1]) else s
  }

  function B64(x: seq<Byte>): string { StripPads(Encode(x)) }

  // ------------------------------------------------------- decoding

  /** The bits carried over from the digits of an unfinished group. */
  predicate Fits(quad: nat, left: nat) {
    || (quad == 0 && left == 0) || (quad == 1 && left < 64)
    || (quad == 2 && left < 16) || (quad == 3 && left < 4)
  }

  /** The decoding machine: `quad` digits of the current group are read and `left` is what they leave over;
      `pads` counts the padding signs since the last digit. Other characters are skipped. */
  function Read(s: string, quad: nat, left: nat, pads: nat): Option<seq<Byte>>
    requires Fits(quad, left)
  {
    if s == "" then
      if quad == 0 then Some([]) else None
    else if s[0] == '=' then
      if quad < 2 then Read(s[1..], quad, left, pads)
      else if quad + pads + 1 >= 4 then Some([])
      else Read(s[1..], quad, left, pads + 1)
    else
      match DigitOf(s[0])
      case None => Read(s[1..], quad, left, pads)
      case Some(d) =>
        if quad == 0 then Read(s[1..], 1, d, 0)
        else if quad == 1 then Emit(left * 4 + d / 16, Read(s[1..], 2, d % 16, 0))
        else if quad == 2 then Emit(left * 16 + d / 4, Read(s[1..], 3, d % 4, 0))
        else Emit(left * 64 + d, Read(s[1..], 0, 0, 0))
  }

  function Emit(b: Byte, rest: Option<seq<Byte>>): Option<seq<Byte>> {
    if rest.Some? then Some([b] + rest.value) else None
  }

  predicate Ascii(s: string) { forall i :: 0 <= i < |s| ==> s[i] as int < 128 }

  /** Restores the padding from the length alone. */
  function Unb64(s: string): Option<seq<Byte>> {
    if Ascii(s) then Read(s + Pads((-|s|) % 4), 0, 0, 0) else None
  }

  // ------------------------------------------------------- round trip

  lemma {:induction false} DataShape(x: seq<Byte>)
    ensures forall i :: 0 <= i < |Data(x)| ==> UrlSafe(Data(x)[i])
    ensures |Data(x)| == |x| / 3 * 4 + (if |x| % 3 == 0 then 0 else |x| % 3 + 1)
  {
    if |x| >= 3 {
      DataShape(x[3..]);
    }
  }

  lemma {:induction false} StripPadsRemoves(s: string, k: nat)
    requires s == "" || s[|s| - 1] != '='
    ensures StripPads(s + Pads(k)) == s
  {
    var t := s + Pads(k);
    if k == 0 {
      assert t == s;
    } else {
      PadsEnd(k);
      assert t[|t| - 1] == '=' && t[..|t| - 1] == s + Pads(k)[..k - 1];
      StripPadsRemoves(s, k - 1);
    }
  }

  lemma {:induction false} PadsEnd(k: nat)
    requires k > 0
    ensures Pads(k)[k - 1] == '=' && Pads(k)[..k - 1] == Pads(k - 1)
  {
    if k > 1 {
      PadsEnd(k - 1);
    }
  }

  /** The digit that stands at `k`, or zero beyond the end. */
  function DigitAt(s: string, k: nat): int {
    if k < |s| && DigitOf(s[k]).Some? then DigitOf(s[k]).value else 0
  }

  function ByteAt(x: seq<Byte>, k: nat): int { if k < |x| then x[k] else 0 }

  /** What the four digits from `k` on are worth in base 64. */
  function DigitsWorth(s: string, k: nat): int {
    DigitAt(s, k) * 262144 + DigitAt(s, k + 1) * 4096 + DigitAt(s, k + 2) * 64 + DigitAt(s, k + 3)
  }

  function BytesWorth(x: seq<Byte>, k: nat): int {
    ByteAt(x, k) * 65536 + ByteAt(x, k + 1) * 256 + ByteAt(x, k + 2)
  }

  /** Every four digits write in base 64 the number that three bytes write in base 256, zeros standing in past the
      end. */
  lemma {:induction false} DataCarriesBits(x: seq<Byte>, g: nat)
    requires 3 * g < |x|
    ensures DigitsWorth(Data(x), 4 * g) == BytesWorth(x, 3 * g)
  {
    if g == 0 {
      FirstGroupCarries(x);
    } else {
      DataCarriesBits(x[3..], g - 1);
      NextDigits(x, 4 * (g - 1));
      NextBytes(x, 3 * (g - 1));
      hide DigitsWorth, BytesWorth, Data;
      assert 4 * (g - 1) + 4 == 4 * g && 3 * (g - 1) + 3 == 3 * g;
    }
  }

  lemma NextDigits(x: seq<Byte>, k: nat)
    requires |x| >= 3
    ensures DigitsWorth(Data(x), k + 4) == DigitsWorth(Data(x[3..]), k)
  {
    NextDigit(x, k);
    NextDigit(x, k + 1);
    NextDigit(x, k + 2);
    NextDigit(x, k + 3);
    hide DigitAt, Data;
  }

  lemma NextBytes(x: seq<Byte>, k: nat)
    requires |x| >= 3
    ensures BytesWorth(x, k + 3) == BytesWorth(x[3..], k)
  {
    assert forall j: nat :: j < |x[3..]| ==> x[3..][j] == x[j + 3];
  }

  lemma NextDigit(x: seq<Byte>, k: nat)
    requires |x| >= 3
    ensures DigitAt(Data(x), k + 4) == DigitAt(Data(x[3..]), k)
  {
    hide DigitOf, CharOf;
    assert k < |Data(x[3..])| ==> Data(x)[k + 4] == Data(x[3..])[k];
  }

  lemma FirstGroupCarries(x: seq<Byte>)
    requires |x| > 0
    ensures DigitsWorth(Data(x), 0) == BytesWorth(x, 0)
  {
    forall n: Digit ensures DigitOf(CharOf(n)) == Some(n) {
      CharOfDigit(n);
    }
    hide DigitOf, CharOf;
    assert x[0] == x[0] / 4 * 4 + x[0] % 4;
    if |x| == 1 {
      assert |Data(x)| == 2;
    } else if |x| == 2 {
      assert x[1] == x[1] / 16 * 16 + x[1] % 16;
      assert |Data(x)| == 3;
    } else {
      assert x[1] == x[1] / 16 * 16 + x[1] % 16;
      assert x[2] == x[2] / 64 * 64 + x[2] % 64;
    }
  }

  lemma Remainder(m: int, q: int, d: int)
    requires m == 4 * q + d && 0 <= d < 4
    ensures m % 4 == d
  {
  }

  lemma PadsFromLength(n: nat, m: int)
    requires m == n / 3 * 4 + (if n % 3 == 0 then 0 else n % 3 + 1)
    ensures (-m) % 4 == PadsFor(n) && m % 4 != 1
  {
    var q, r := n / 3, n % 3;
    if r == 0 {
      Remainder(m, q, 0);
      Remainder(-m, -q, 0);
    } else {
      Remainder(m, q, r + 1);
      Remainder(-m, -q - 1, 3 - r);
    }
  }

  /** Stripping removes exactly the padding, and the stripped length alone gives it back. */
  lemma PaddingRestored(x: seq<Byte>)
    ensures B64(x) == Data(x)
    ensures B64(x) + Pads((-|B64(x)|) % 4) == Encode(x)
    ensures |B64(x)| % 4 != 1
  {
    hide Data, StripPads, Pads, PadsFor;
    var k := PadsFor(|x|);
    DataShape(x);
    PadsFromLength(|x|, |Data(x)|);
    assert Data(x) == "" || Data(x)[|Data(x)| - 1] != '=';
    StripPadsRemoves(Data(x), k);
  }

  // one step of the machine

  lemma ReadDigit(c: char, d: Digit, rest: string, quad: nat, left: nat, pads: nat)
    requires Fits(quad, left) && DigitOf(c) == Some(d)
    ensures Read([c] + rest, quad, left, pads)
            == if quad == 0 then Read(rest, 1, d, 0)
               else if quad == 1 then Emit(left * 4 + d / 16, Read(rest, 2, d % 16, 0))
               else if quad == 2 then Emit(left * 16 + d / 4, Read(rest, 3, d % 4, 0))
               else Emit(left * 64 + d, Read(rest, 0, 0, 0))
  {
    var s := [c] + rest;
    assert s[1..] == rest && c != '=';
  }

  lemma ReadPads(quad: nat, left: nat)
    requires Fits(quad, left)
    ensures quad == 1 ==> Read(Pads(3), quad, left, 0) == None
    ensures quad == 2 ==> Read(Pads(2), quad, left, 0) == Some([])
    ensures quad == 3 ==> Read(Pads(1), quad, left, 0) == Some([])
    ensures Read(Pads(0), 0, 0, 0) == Some([])
  {
    assert Pads(1) == "=" && Pads(2) == "==" && Pads(3) == "===";
    assert Pads(3)[1..] == "==" && Pads(2)[1..] == "=";
    if quad == 1 {
      assert Read("=", 1, left, 0) == None;
      assert Read("==", 1, left, 0) == None;
    }
  }

  function Group(a: Byte, b: Byte, c: Byte): string {
    [CharOf(a / 4), CharOf(a % 4 * 16 + b / 16), CharOf(b % 16 * 4 + c / 64), CharOf(c % 64)]
  }

  lemma ReadGroup(a: Byte, b: Byte, c: Byte, rest: string)
    ensures Read(Group(a, b, c) + rest, 0, 0, 0)
            == Emit(a, Emit(b, Emit(c, Read(rest, 0, 0, 0))))
  {
    hide CharOf, DigitOf, UrlSafe, Read, Emit;
    var d0, d1, d2, d3 := a / 4, a % 4 * 16 + b / 16, b % 16 * 4 + c / 64, c % 64;
    CharOfDigit(d0);
    CharOfDigit(d1);
    CharOfDigit(d2);
    CharOfDigit(d3);
    var r3 := [CharOf(d3)] + rest;
    var r2 := [CharOf(d2)] + r3;
    var r1 := [CharOf(d1)] + r2;
    assert Group(a, b, c) + rest == [CharOf(d0)] + r1;
    ReadDigit(CharOf(d0), d0, r1, 0, 0, 0);
    ReadDigit(CharOf(d1), d1, r2, 1, d0, 0);
    ReadDigit(CharOf(d2), d2, r3, 2, d1 % 16, 0);
    ReadDigit(CharOf(d3), d3, rest, 3, d2 % 4, 0);
  }

  lemma LastByte(a: Byte)
    ensures Read([CharOf(a / 4), CharOf(a % 4 * 16)] + Pads(2), 0, 0, 0) == Emit(a, Some([]))
  {
    hide CharOf, DigitOf, UrlSafe, Read, Pads, Emit;
    var d0, d1 := a / 4, a % 4 * 16;
    CharOfDigit(d0);
    CharOfDigit(d1);
    var r1 := [CharOf(d1)] + Pads(2);
    assert [CharOf(d0), CharOf(d1)] + Pads(2) == [CharOf(d0)] + r1;
    ReadDigit(CharOf(d0), d0, r1, 0, 0, 0);
    ReadDigit(CharOf(d1), d1, Pads(2), 1, d0, 0);
    ReadPads(2, d1 % 16);
  }

  lemma LastTwoBytes(a: Byte, b: Byte)
    ensures Read([CharOf(a / 4), CharOf(a % 4 * 16 + b / 16), CharOf(b % 16 * 4)] + Pads(1), 0, 0, 0)
            == Emit(a, Emit(b, Some([])))
  {
    hide CharOf, DigitOf, UrlSafe, Read, Pads, Emit;
    var d0, d1, d2 := a / 4, a % 4 * 16 + b / 16, b % 16 * 4;
    CharOfDigit(d0);
    CharOfDigit(d1);
    CharOfDigit(d2);
    var r2 := [CharOf(d2)] + Pads(1);
    var r1 := [CharOf(d1)] + r2;
    assert [CharOf(d0), CharOf(d1), CharOf(d2)] + Pads(1) == [CharOf(d0)] + r1;
    ReadDigit(CharOf(d0), d0, r1, 0, 0, 0);
    ReadDigit(CharOf(d1), d1, r2, 1, d0, 0);
    ReadDigit(CharOf(d2), d2, Pads(1), 2, d1 % 16, 0);
    ReadPads(3, d2 % 4);
  }

  lemma LastGroup(x: seq<Byte>)
    requires |x| < 3
    ensures Read(Encode(x), 0, 0, 0) == Some(x)
  {
    hide CharOf, Read, Pads;
    if |x| == 0 {
      ReadPads(0, 0);
      assert Encode(x) == Pads(0);
    } else if |x| == 1 {
      LastByte(x[0]);
      assert x == [x[0]] + [];
    } else {
      LastTwoBytes(x[0], x[1]);
      assert x == [x[0]] + ([x[1]] + []);
    }
  }

  lemma EncodeGroup(x: seq<Byte>)
    requires |x| >= 3
    ensures Encode(x) == Group(x[0], x[1], x[2]) + Encode(x[3..])
  {
  }

  lemma {:induction false} ReadsData(x: seq<Byte>)
    ensures Read(Encode(x), 0, 0, 0) == Some(x)
  {
    hide CharOf, DigitOf, Read, UrlSafe, Pads, Group;
    if |x| < 3 {
      LastGroup(x);
    } else {
      ReadsData(x[3..]);
      ReadGroup(x[0], x[1], x[2], Encode(x[3..]));
      EncodeGroup(x);
      assert x == [x[0]] + ([x[1]] + ([x[2]] + x[3..]));
    }
  }

  /** Decoding undoes encoding, for every byte string. */
  lemma RoundTrip(x: seq<Byte>)
    ensures Unb64(B64(x)) == Some(x)
  {
    hide Data, Read, Pads, B64, Encode;
    PaddingRestored(x);
    DataShape(x);
    ReadsData(x);
  }

  /** So the encoding separates byte strings, and a dot never occurs in it. */
  lemma Injective(x: seq<Byte>, y: seq<Byte>)
    ensures B64(x) == B64(y) ==> x == y
    ensures '.' !in B64(x) && '=' !in B64(x)
  {
    hide Data, Unb64, B64, Encode, Pads;
    RoundTrip(x);
    RoundTrip(y);
    PaddingRestored(x);
    DataShape(x);
  }

  /** Text over the URL-safe alphabet decodes exactly when its length is not one more than a multiple
      of four, and then to three bytes for every four characters, rounded down. */
  lemma DecodesExactly(s: string)
    requires forall i :: 0 <= i < |s| ==> UrlSafe(s[i])
    ensures Unb64(s).Some? <==> |s| % 4 != 1
    ensures Unb64(s).Some? ==> |Unb64(s).value| == |s| * 3 / 4
  {
    hide Read, Pads;
    ReadsText(s, 0, 0, Pads((-|s|) % 4));
  }

  /** Reading on from `quad` digits into a group, to the padding the whole length asks for. */
  lemma {:induction false} ReadsText(s: string, quad: nat, left: nat, pads: string)
    requires forall i :: 0 <= i < |s| ==> UrlSafe(s[i])
    requires Fits(quad, left) && pads == Pads((-(quad + |s|)) % 4)
    ensures var r := Read(s + pads, quad, left, 0);
            && (r.Some? <==> (quad + |s|) % 4 != 1)
            && (r.Some? ==> |r.value| == (quad + |s|) * 3 / 4 - Emitted(quad))
  {
    hide Read, Pads, DigitOf, CharOf;
    if s == "" {
      ReadPads(quad, left);
      assert s + pads == pads;
    } else {
      DigitOfChar(s[0]);
      var d := DigitOf(s[0]).value;
      assert s + pads == [s[0]] + (s[1..] + pads);
      ReadDigit(s[0], d, s[1..] + pads, quad, left, 0);
      var left' := if quad == 0 then d else if quad == 1 then d % 16 else if quad == 2 then d % 4 else 0;
      SamePadding(quad, |s|);
      ReadsText(s[1..], (quad + 1) % 4, left', pads);
    }
  }

  /** How many bytes of a group its first `quad` digits have settled. */
  function Emitted(quad: nat): nat { if quad < 2 then 0 else quad - 1 }

  lemma SamePadding(quad: nat, n: nat)
    requires quad < 4 && n > 0
    ensures var q := (quad + 1) % 4;
            && q == (if quad == 3 then 0 else quad + 1)
            && (-(quad + n)) % 4 == (-(q + (n - 1))) % 4
            && (q + (n - 1)) % 4 == (quad + n) % 4
            && (q + (n - 1)) * 3 / 4 == (quad + n) * 3 / 4 - (if quad == 3 then 3 else 0)
  {
  }
}
