/**
 * String helpers with Kotlin's semantics: `split` on a literal delimiter,
 * the text of a nullable value in a string template, and the decimal form
 * of a number.
 */
module Strings {
  import opened Wrappers

  /** `sep` occurs in `s` at position `j`. */
  predicate OccursAt(s: string, sep: string, j: int)
  {
    0 <= j && j + |sep| <= |s| && s[j..j + |sep|] == sep
  }

  /** Position of the first occurrence of `sep` in `s` (Kotlin's `indexOf`). */
  function IndexOf(s: string, sep: string): (r: Option<nat>)
    requires |sep| > 0
    ensures r.Some? ==> OccursAt(s, sep, r.value)
    ensures r.Some? ==> forall j :: 0 <= j < r.value ==> !OccursAt(s, sep, j)
    ensures r.None? ==> forall j :: 0 <= j <= |s| ==> !OccursAt(s, sep, j)
    decreases |s|
  {
    if |s| < |sep| then None
    else if s[..|sep|] == sep then Some(0)
    else
      match IndexOf(s[1..], sep)
      case None =>
        assert forall j :: 1 <= j <= |s| ==> (OccursAt(s, sep, j) ==> OccursAt(s[1..], sep, j - 1));
        None
      case Some(i) =>
        assert OccursAt(s[1..], sep, i);
        assert s[1..][i..i + |sep|] == s[i + 1..i + 1 + |sep|];
        assert forall j :: 1 <= j < i + 1 ==> (OccursAt(s, sep, j) ==> OccursAt(s[1..], sep, j - 1));
        Some(i + 1)
  }

  /** `parts` joined with `sep` between neighbours (Kotlin's `joinToString(sep)`). */
  function Join(parts: seq<string>, sep: string): string
  {
    if |parts| == 0 then ""
    else if |parts| == 1 then parts[0]
    else parts[0] + sep + Join(parts[1..], sep)
  }

  /**
   * Kotlin's `s.split(sep)` for a literal delimiter: the pieces between
   * non-overlapping occurrences, found from the left, empty pieces kept.
   */
  function Split(s: string, sep: string): (r: seq<string>)
    requires |sep| > 0
    ensures |r| >= 1
    ensures Join(r, sep) == s
    ensures forall k :: 0 <= k < |r| ==> IndexOf(r[k], sep).None?
    decreases |s|
  {
    match IndexOf(s, sep)
    case None => [s]
    case Some(i) =>
      var head, rest := s[..i], s[i + |sep|..];
      assert s == head + sep + rest;
      assert IndexOf(head, sep).None? by {
        forall j | 0 <= j <= |head| ensures !OccursAt(head, sep, j) {
          if OccursAt(head, sep, j) {
            assert s[j..j + |sep|] == head[j..j + |sep|];
            assert OccursAt(s, sep, j);
          }
        }
      }
      [head] + Split(rest, sep)
  }

  /** A string free of `c` splits on any delimiter starting with `c` into itself. */
  lemma {:induction false} SplitWithout(a: string, sep: string)
    requires |sep| > 0 && sep[0] !in a
    ensures Split(a, sep) == [a]
  {
  }

  /**
   * When the first piece holds no first character of the delimiter, splitting
   * `a + sep + b` cuts exactly after `a`.
   */
  lemma {:induction false} SplitAfter(a: string, sep: string, b: string)
    requires |sep| > 0 && sep[0] !in a
    ensures Split(a + sep + b, sep) == [a] + Split(b, sep)
  {
    var s := a + sep + b;
    assert s[|a|..|a| + |sep|] == sep;
    assert OccursAt(s, sep, |a|);
    var r := IndexOf(s, sep);
    assert r.Some?;
    assert r.value == |a|;
    assert s[..|a|] == a;
    assert s[|a| + |sep|..] == b;
  }

  /** The text Kotlin's string template gives a nullable string: "null" for null. */
  function Text(x: Option<string>): (r: string)
    ensures x.Some? ==> r == x.value
    ensures x.None? ==> r == "null"
  {
    x.GetOr("null")
  }

  /** Decimal digit character of `d`. */
  function Digit(d: nat): (c: char)
    requires d < 10
    ensures '0' <= c <= '9'
  {
    ('0' as int + d) as char
  }

  /** Decimal form of a natural number, as `Long.toString` writes it. */
  function NatToString(n: nat): (r: string)
    ensures |r| > 0
    ensures forall i :: 0 <= i < |r| ==> '0' <= r[i] <= '9'
  {
    if n < 10 then [Digit(n)] else NatToString(n / 10) + [Digit(n % 10)]
  }

  /** The number a string of decimal digits denotes, most significant digit first. */
  function DecimalValue(s: string): int
  {
    if s == [] then 0 else DecimalValue(s[..|s| - 1]) * 10 + (s[|s| - 1] as int - '0' as int)
  }

  /** Reading the decimal form back gives the number. */
  lemma {:induction false} NatToStringValue(n: nat)
    ensures DecimalValue(NatToString(n)) == n
  {
    if n >= 10 {
      var s := NatToString(n);
      assert s[..|s| - 1] == NatToString(n / 10);
      NatToStringValue(n / 10);
    }
  }

  /** Different numbers have different decimal forms. */
  lemma NatToStringInjective(a: nat, b: nat)
    requires NatToString(a) == NatToString(b)
    ensures a == b
  {
    NatToStringValue(a);
    NatToStringValue(b);
  }
}
