/** What every other module shares: optional values, results, bytes, and the order of strings. */
module Basics {
  datatype Option<+T> = None | Some(value: T)

  datatype Result<+T, +E> = Ok(value: T) | Err(error: E)

  type Byte = b: int | 0 <= b < 256

  function Repeat<T>(x: T, k: nat): (s: seq<T>)
    ensures |s| == k && forall i :: 0 <= i < k ==> s[i] == x
  {
    seq(k, _ => x)
  }

  /** Order of strings by code point. */
  predicate TextLess(a: string, b: string) {
    b != "" && (a == "" || a[0] < b[0] || (a[0] == b[0] && TextLess(a[1..], b[1..])))
  }

  lemma {:induction false} TextLessTrichotomy(a: string, b: string)
    ensures !(TextLess(a, b) && TextLess(b, a))
    ensures a != b ==> TextLess(a, b) || TextLess(b, a)
    ensures !TextLess(a, a)
  {
    if a != "" {
      TextLessTrichotomy(a[1..], a[1..]);
    }
    if a != "" && b != "" {
      TextLessTrichotomy(a[1..], b[1..]);
      if a[0] == b[0] && a[1..] == b[1..] {
        assert a == [a[0]] + a[1..] && b == [b[0]] + b[1..];
      }
    }
  }

  /** `a` and `b` share their first `k` characters, and there `a` ends or has the lower character. */
  predicate LowerAt(a: string, b: string, k: nat) {
    k <= |a| && k < |b| && a[..k] == b[..k] && (k == |a| || a[k] < b[k])
  }

  /** The order is decided at the first character in which two strings differ. */
  lemma {:induction false} TextLessExactly(a: string, b: string)
    ensures TextLess(a, b) <==> exists k: nat :: LowerAt(a, b, k)
  {
    if a == "" || b == "" || a[0] != b[0] {
      assert TextLess(a, b) ==> LowerAt(a, b, 0);
      assert forall k: nat :: LowerAt(a, b, k) && k > 0 ==> a[..k][0] == b[..k][0];
    } else {
      TextLessExactly(a[1..], b[1..]);
      forall k: nat ensures LowerAt(a[1..], b[1..], k) <==> LowerAt(a, b, k + 1) {
        LaterLower(a, b, k);
      }
      if k: nat :| LowerAt(a, b, k) {
        assert LowerAt(a[1..], b[1..], k - 1);
      }
    }
  }

  lemma LaterLower(a: string, b: string, k: nat)
    requires a != "" && b != "" && a[0] == b[0]
    ensures LowerAt(a[1..], b[1..], k) <==> LowerAt(a, b, k + 1)
  {
    if k < |a| && k < |b| {
      assert a[..k + 1] == [a[0]] + a[1..][..k] && b[..k + 1] == [b[0]] + b[1..][..k];
    }
  }

  lemma {:induction false} TextLessTransitive(a: string, b: string, c: string)
    requires TextLess(a, b) && TextLess(b, c)
    ensures TextLess(a, c)
  {
    if a != "" && a[0] == b[0] && b[0] == c[0] {
      TextLessTransitive(a[1..], b[1..], c[1..]);
    }
  }
}
