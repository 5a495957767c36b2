/** Shared result types, the errors the Python code raises, and small string helpers. */
module Common {

  datatype Option<+T> = None | Some(value: T)

  datatype Result<+T, +E> = Ok(value: T) | Err(error: E)

  /** The exceptions the modelled code raises, by Python class. */
  datatype Error =
    | NotionApiError(message: string)   // NotionAPIError(message)
    | KeyError(key: string)             // a missing dict key
    | TypeError(reason: string)         // an operator applied to the wrong type

  /** `sub` occurs in `s` at position `i`. */
  predicate OccursAt(sub: string, s: string, i: nat)
  {
    i + |sub| <= |s| && s[i..i + |sub|] == sub
  }

  /** Python's `sub in s` on two strings: a substring test. */
  function IsSubstring(sub: string, s: string): (r: bool)
    ensures r <==> exists i: nat :: OccursAt(sub, s, i)
    decreases |s|
  {
    if |sub| <= |s| && s[..|sub|] == sub then
      assert OccursAt(sub, s, 0);
      true
    else if |s| <= |sub| then
      assert forall i: nat :: !OccursAt(sub, s, i) by {
        forall i: nat ensures !OccursAt(sub, s, i) {
          if i == 0 && |s| == |sub| { assert s[..|sub|] == s[0..|sub|]; }
        }
      }
      false
    else
      var rest := IsSubstring(sub, s[1..]);
      assert forall i: nat :: OccursAt(sub, s, i + 1) <==> OccursAt(sub, s[1..], i) by {
        forall i: nat ensures OccursAt(sub, s, i + 1) <==> OccursAt(sub, s[1..], i) {
          if i + 1 + |sub| <= |s| { assert s[i + 1..i + 1 + |sub|] == s[1..][i..i + |sub|]; }
        }
      }
      assert !OccursAt(sub, s, 0);
      assert (exists i: nat :: OccursAt(sub, s, i)) ==> exists i: nat :: OccursAt(sub, s[1..], i) by {
        if exists i: nat :: OccursAt(sub, s, i) {
          var i: nat :| OccursAt(sub, s, i);
          assert i != 0;
          assert OccursAt(sub, s[1..], i - 1);
        }
      }
      rest
  }

  /** Python's `str(n)` for a non-negative integer: its decimal digits. */
  function DecimalString(n: nat): (r: string)
    ensures |r| >= 1
    ensures forall i :: 0 <= i < |r| ==> '0' <= r[i] <= '9'
    ensures n < 10 <==> |r| == 1
  {
    if n < 10 then [Digit(n)] else DecimalString(n / 10) + [Digit(n % 10)]
  }

  function Digit(d: nat): (c: char)
    requires d < 10
    ensures '0' <= c <= '9' && c as int - '0' as int == d
  {
    (d + '0' as int) as char
  }

  /** Reading decimal digits back: the partner of `DecimalString`. */
  function DecimalValue(s: string): (n: nat)
    requires forall i :: 0 <= i < |s| ==> '0' <= s[i] <= '9'
  {
    if s == [] then 0 else 10 * DecimalValue(s[..|s| - 1]) + (s[|s| - 1] as int - '0' as int)
  }

  lemma {:induction false} DecimalRoundTrip(n: nat)
    ensures DecimalValue(DecimalString(n)) == n
  {
    if n >= 10 {
      var s := DecimalString(n);
      assert s[..|s| - 1] == DecimalString(n / 10);
      DecimalRoundTrip(n / 10);
    }
  }

  /**
   * `a` is `b` with some elements left out: the first element of `a` is either matched by
   * the first of `b` or `b`'s first element is skipped.
   */
  predicate IsSubsequence<T(==)>(a: seq<T>, b: seq<T>)
    decreases |b|
  {
    a == [] || (b != [] && ((a[0] == b[0] && IsSubsequence(a[1..], b[1..])) || IsSubsequence(a, b[1..])))
  }

  lemma {:induction false} SubsequenceReflexive<T>(a: seq<T>)
    ensures IsSubsequence(a, a)
  {
    if a != [] { SubsequenceReflexive(a[1..]); }
  }

  lemma {:induction false} SubsequenceExtendLeft<T>(a: seq<T>, b: seq<T>, z: seq<T>)
    requires IsSubsequence(a, b)
    ensures IsSubsequence(a, z + b)
    decreases |z|
  {
    if z == [] {
      assert z + b == b;
    } else if a != [] {
      assert (z + b)[1..] == z[1..] + b;
      SubsequenceExtendLeft(a, b, z[1..]);
    }
  }

  lemma {:induction false} SubsequenceConcat<T>(a1: seq<T>, b1: seq<T>, a2: seq<T>, b2: seq<T>)
    requires IsSubsequence(a1, b1) && IsSubsequence(a2, b2)
    ensures IsSubsequence(a1 + a2, b1 + b2)
    decreases |b1|
  {
    if a1 == [] {
      assert a1 + a2 == a2;
      SubsequenceExtendLeft(a2, b2, b1);
    } else {
      assert b1 != [];
      assert (a1 + a2)[0] == a1[0] && (b1 + b2)[0] == b1[0];
      assert (b1 + b2)[1..] == b1[1..] + b2;
      if a1[0] == b1[0] && IsSubsequence(a1[1..], b1[1..]) {
        assert (a1 + a2)[1..] == a1[1..] + a2;
        SubsequenceConcat(a1[1..], b1[1..], a2, b2);
      } else {
        SubsequenceConcat(a1, b1[1..], a2, b2);
      }
    }
  }
}
