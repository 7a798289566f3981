/** String utilities the Python back end and the TypeScript front end rely on:
    case folding, prefix and substring tests, `str.strip()`, `join`, and the
    decimal rendering of integers. */
module Strings {
  import opened Common

  // ---------------------------------------------------------------------------
  // Case folding (ASCII letters only)
  // ---------------------------------------------------------------------------

  function LowerChar(c: char): char {
    if 'A' <= c <= 'Z' then (c as int + 32) as char else c
  }

  /** A string without upper-case ASCII letters is its own lower-casing. */
  lemma LowerFixed(s: string)
    requires forall i :: 0 <= i < |s| ==> !('A' <= s[i] <= 'Z')
    ensures Lower(s) == s
  {
  }

  /** `str.lower()` / `String.prototype.toLowerCase()` restricted to ASCII letters. */
  function Lower(s: string): (r: string)
    ensures |r| == |s|
    ensures forall i :: 0 <= i < |s| ==> r[i] == LowerChar(s[i])
  {
    seq(|s|, i requires 0 <= i < |s| => LowerChar(s[i]))
  }

  /** Lower-casing twice is lower-casing once. */
  lemma LowerIdempotent(s: string)
    ensures Lower(Lower(s)) == Lower(s)
  {
    assert forall i :: 0 <= i < |s| ==> LowerChar(LowerChar(s[i])) == LowerChar(s[i]);
  }

  // ---------------------------------------------------------------------------
  // Prefixes and substrings
  // ---------------------------------------------------------------------------

  /** `s.startswith(p)` / `s.startsWith(p)`. */
  predicate StartsWith(s: string, p: string) {
    |p| <= |s| && s[..|p|] == p
  }

  /** `p` occurs in `s` starting at offset `i`. */
  predicate OccursAt(s: string, p: string, i: int) {
    0 <= i <= |s| - |p| && s[i..i + |p|] == p
  }

  /** `p in s` (Python) / `s.includes(p)`: does `p` occur in `s` at some position? */
  predicate Contains(s: string, p: string)
    decreases |s|
  {
    StartsWith(s, p) || (|s| > 0 && Contains(s[1..], p))
  }

  /** The scanning definition of `Contains` agrees with "there is an offset
      at which `p` occurs". */
  lemma {:induction false} ContainsIff(s: string, p: string)
    ensures Contains(s, p) <==> exists i :: OccursAt(s, p, i)
    decreases |s|
  {
    if StartsWith(s, p) {
      assert OccursAt(s, p, 0);
    } else if |s| == 0 {
      forall i | OccursAt(s, p, i) ensures false {
      }
    } else {
      ContainsIff(s[1..], p);
      var t := s[1..];
      if Contains(t, p) {
        var j :| OccursAt(t, p, j);
        assert s[j + 1..j + 1 + |p|] == t[j..j + |p|];
        assert OccursAt(s, p, j + 1);
      } else {
        forall i | OccursAt(s, p, i) ensures i == 0 {
          if i != 0 {
            OccursShift(s, p, i);
          }
        }
      }
    }
  }

  lemma OccursShift(s: string, p: string, i: int)
    requires OccursAt(s, p, i) && i > 0
    ensures OccursAt(s[1..], p, i - 1)
  {
    assert s[1..][i - 1..i - 1 + |p|] == s[i..i + |p|];
  }

  /** `s.replace(/^prefix/, '')`: drop one leading occurrence of `prefix`, if any. */
  function RemovePrefix(s: string, prefix: string): (r: string)
    ensures StartsWith(s, prefix) ==> prefix + r == s
    ensures !StartsWith(s, prefix) ==> r == s
  {
    if StartsWith(s, prefix) then s[|prefix|..] else s
  }

  /** First index at or after `from` holding `c`, if any. */
  function IndexOf(s: string, c: char, from: nat): (r: Option<nat>)
    ensures r.Some? ==> from <= r.value < |s|
    decreases |s| - from
  {
    if from >= |s| then None
    else if s[from] == c then Some(from)
    else IndexOf(s, c, from + 1)
  }

  /** The search finds the first occurrence at or after `from`, and reports
      None only when there is none. */
  lemma {:induction false} IndexOfSound(s: string, c: char, from: nat)
    ensures IndexOf(s, c, from).Some? ==>
      var k := IndexOf(s, c, from).value;
      from <= k < |s| && s[k] == c && forall m :: from <= m < k ==> s[m] != c
    ensures IndexOf(s, c, from).None? ==> forall m :: from <= m < |s| ==> s[m] != c
    decreases |s| - from
  {
    if from < |s| && s[from] != c {
      IndexOfSound(s, c, from + 1);
    }
  }

  // ---------------------------------------------------------------------------
  // Python `str.strip()`
  // ---------------------------------------------------------------------------

  /** Exactly the characters for which Python's `str.isspace()` holds. */
  predicate IsSpace(c: char) {
    || c == ' ' || ('\t' <= c <= '\r') || ('\U{1C}' <= c <= '\U{1F}')
    || c == '\U{85}' || c == '\U{A0}' || c == '\U{1680}'
    || ('\U{2000}' <= c <= '\U{200A}') || c == '\U{2028}' || c == '\U{2029}'
    || c == '\U{202F}' || c == '\U{205F}' || c == '\U{3000}'
  }

  predicate AllSpace(s: string) {
    forall i :: 0 <= i < |s| ==> IsSpace(s[i])
  }

  /** Number of leading whitespace characters. */
  function LeadingSpaces(s: string): (n: nat)
    ensures n <= |s| && AllSpace(s[..n])
    ensures n == |s| || !IsSpace(s[n])
  {
    if |s| == 0 || !IsSpace(s[0]) then 0
    else
      var k := LeadingSpaces(s[1..]);
      assert s[..k + 1] == [s[0]] + s[1..][..k];
      k + 1
  }

  /** Whitespace followed by one more whitespace character is whitespace. */
  lemma AllSpaceSnoc(a: string, c: char)
    requires AllSpace(a) && IsSpace(c)
    ensures AllSpace(a + [c])
  {
    forall i | 0 <= i < |a| + 1 ensures IsSpace((a + [c])[i]) {
      if i < |a| {
        assert (a + [c])[i] == a[i];
      }
    }
  }

  /** One more trailing whitespace character, given the count for all but the
      last character. */
  lemma TrailingStep(s: string, k: nat)
    requires |s| > 0 && IsSpace(s[|s| - 1])
    requires k <= |s| - 1 && AllSpace(s[..|s| - 1][|s| - 1 - k..])
    requires k == |s| - 1 || !IsSpace(s[..|s| - 1][|s| - 1 - k - 1])
    ensures AllSpace(s[|s| - (k + 1)..])
    ensures k + 1 == |s| || !IsSpace(s[|s| - (k + 1) - 1])
  {
    var init := s[..|s| - 1];
    AllSpaceSnoc(init[|init| - k..], s[|s| - 1]);
    assert s[|s| - (k + 1)..] == init[|init| - k..] + [s[|s| - 1]];
  }

  /** Number of trailing whitespace characters. */
  function TrailingSpaces(s: string): (n: nat)
    ensures n <= |s| && AllSpace(s[|s| - n..])
    ensures n == |s| || !IsSpace(s[|s| - n - 1])
  {
    if |s| == 0 || !IsSpace(s[|s| - 1]) then 0
    else
      var k := TrailingSpaces(s[..|s| - 1]);
      TrailingStep(s, k);
      k + 1
  }

  /** `r` is `s` with whitespace removed from both ends: an infix of `s` such that
      everything before and after it is whitespace. */
  predicate TrimmedInfix(s: string, r: string, i: int, j: int) {
    0 <= i <= j <= |s| && r == s[i..j] && AllSpace(s[..i]) && AllSpace(s[j..])
  }

  /** `s.strip()`: the unique infix of `s` obtained by removing whitespace at
      both ends, whose own ends are not whitespace. */
  function Strip(s: string): (r: string)
    ensures exists i, j :: TrimmedInfix(s, r, i, j)
    ensures r == [] || (!IsSpace(r[0]) && !IsSpace(r[|r| - 1]))
  {
    var a := LeadingSpaces(s);
    var t := s[a..];
    var b := TrailingSpaces(t);
    var r := t[..|t| - b];
    assert r == s[a..|s| - b];
    assert s[|s| - b..] == t[|t| - b..];
    assert TrimmedInfix(s, r, a, |s| - b);
    r
  }

  // ---------------------------------------------------------------------------
  // join
  // ---------------------------------------------------------------------------

  /** `sep.join(parts)` (Python) / `parts.join(sep)` (JavaScript). */
  function Join(parts: seq<string>, sep: string): string
    decreases |parts|
  {
    if |parts| == 0 then ""
    else if |parts| == 1 then parts[0]
    else parts[0] + sep + Join(parts[1..], sep)
  }

  /** Joining two non-empty lists is joining each and gluing with one separator. */
  lemma {:induction false} JoinConcat(a: seq<string>, b: seq<string>, sep: string)
    requires |a| > 0 && |b| > 0
    ensures Join(a + b, sep) == Join(a, sep) + sep + Join(b, sep)
    decreases |a|
  {
    if |a| == 1 {
      assert (a + b)[1..] == b;
    } else {
      assert (a + b)[1..] == a[1..] + b;
      JoinConcat(a[1..], b, sep);
    }
  }

  // ---------------------------------------------------------------------------
  // Decimal rendering of integers
  // ---------------------------------------------------------------------------

  function DigitChar(d: nat): (c: char)
    requires d < 10
    ensures '0' <= c <= '9' && c as int - '0' as int == d
  {
    ('0' as int + d) as char
  }

  /** `str(n)` / `n.toString()` for a natural number. */
  function NatToString(n: nat): (r: string)
    ensures |r| >= 1
    ensures forall i :: 0 <= i < |r| ==> '0' <= r[i] <= '9'
    ensures |r| == 1 <==> n < 10
  {
    if n < 10 then [DigitChar(n)] else NatToString(n / 10) + [DigitChar(n % 10)]
  }

  /** `str(i)` / `i.toString()` for any integer. */
  function IntToString(i: int): (r: string)
    ensures i >= 0 ==> r == NatToString(i)
    ensures i < 0 ==> r == "-" + NatToString(-i)
  {
    if i < 0 then "-" + NatToString(-i) else NatToString(i)
  }

  /** The value of a string of decimal digits. */
  function DigitsValue(s: string): nat
    requires forall i :: 0 <= i < |s| ==> '0' <= s[i] <= '9'
  {
    if |s| == 0 then 0 else 10 * DigitsValue(s[..|s| - 1]) + (s[|s| - 1] as int - '0' as int)
  }

  /** Rendering is injective: reading the digits back yields the number. */
  lemma {:induction false} NatToStringRoundTrip(n: nat)
    ensures DigitsValue(NatToString(n)) == n
  {
    if n >= 10 {
      var s := NatToString(n);
      assert s[..|s| - 1] == NatToString(n / 10);
      NatToStringRoundTrip(n / 10);
    }
  }

  /** A run of `n` copies of `c`. */
  function Repeat(c: char, n: nat): (r: string)
    ensures |r| == n && forall i :: 0 <= i < n ==> r[i] == c
  {
    seq(n, _ => c)
  }

  /** `s.padStart(width, c)`: left-pad with `c` up to `width` characters. */
  function PadStart(s: string, width: nat, c: char): (r: string)
    ensures |s| >= width ==> r == s
    ensures |s| < width ==> |r| == width && r[width - |s|..] == s
    ensures forall i :: 0 <= i < |r| - |s| ==> r[i] == c
  {
    if |s| >= width then s else Repeat(c, width - |s|) + s
  }

  /** Python's `'%02d' % n` for `0 <= n < 100`, which coincides with
      `n.toString().padStart(2, '0')`. */
  function Pad2(n: nat): (r: string)
    requires n < 100
    ensures |r| == 2
    ensures r[0] == DigitChar(n / 10) && r[1] == DigitChar(n % 10)
  {
    if n < 10 then
      assert NatToString(n) == [DigitChar(n)];
      PadStart(NatToString(n), 2, '0')
    else
      assert NatToString(n) == NatToString(n / 10) + [DigitChar(n % 10)];
      assert NatToString(n / 10) == [DigitChar(n / 10)];
      PadStart(NatToString(n), 2, '0')
  }
}
