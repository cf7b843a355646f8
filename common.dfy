/** Small value types and string operations shared by the rest of the model:
    the C++ standard-library and Boost string calls the server relies on,
    written out on `seq<char>`. */
module Common {

  datatype Option<T> = None | Some(value: T)

  /** `s` begins with `p`. */
  predicate StartsWith(s: string, p: string) {
    |p| <= |s| && s[..|p|] == p
  }

  /** `s` ends with `p` (`s.substr(s.length() - |p|) == p`). */
  predicate EndsWith(s: string, p: string) {
    |p| <= |s| && s[|s| - |p|..] == p
  }

  /** `s.find(pat) != npos`, written as a left-to-right scan. */
  predicate Contains(s: string, pat: string)
    decreases |s|
  {
    StartsWith(s, pat) || (|s| > 0 && Contains(s[1..], pat))
  }

  /** `pat` occurs in `s` at index `i`. */
  predicate MatchAt(s: string, pat: string, i: int) {
    0 <= i <= |s| - |pat| && s[i..i + |pat|] == pat
  }

  /** The scan agrees with "`pat` occurs at some index of `s`". */
  lemma {:induction false} ContainsIff(s: string, pat: string)
    ensures Contains(s, pat) <==> exists i :: MatchAt(s, pat, i)
    decreases |s|
  {
    if |s| > 0 {
      ContainsIff(s[1..], pat);
      if Contains(s[1..], pat) {
        var i :| MatchAt(s[1..], pat, i);
        assert s[i + 1..i + 1 + |pat|] == s[1..][i..i + |pat|];
        assert MatchAt(s, pat, i + 1);
      }
      if StartsWith(s, pat) {
        assert MatchAt(s, pat, 0);
      }
      if exists i :: MatchAt(s, pat, i) {
        var i :| MatchAt(s, pat, i);
        if i > 0 {
          assert s[1..][i - 1..i - 1 + |pat|] == s[i..i + |pat|];
          assert MatchAt(s[1..], pat, i - 1);
        } else {
          assert StartsWith(s, pat);
        }
      }
    } else {
      if exists i :: MatchAt(s, pat, i) {
        var i :| MatchAt(s, pat, i);
        assert |pat| == 0;
      }
      assert StartsWith(s, pat) <==> |pat| == 0;
      if |pat| == 0 {
        assert MatchAt(s, pat, 0);
      }
    }
  }

  /** A text lacking some character of the pattern does not contain it. */
  lemma CharMissing(s: string, pat: string, k: nat)
    requires k < |pat| && pat[k] !in s
    ensures !Contains(s, pat)
  {
    ContainsIff(s, pat);
  }

  /** `boost::replace_all(s, pat, rep)`: every non-overlapping occurrence of
      `pat`, found scanning left to right, is replaced by `rep`. */
  function ReplaceAll(s: string, pat: string, rep: string): string
    requires |pat| > 0
    decreases |s|
  {
    if |s| < |pat| then s
    else if s[..|pat|] == pat then rep + ReplaceAll(s[|pat|..], pat, rep)
    else [s[0]] + ReplaceAll(s[1..], pat, rep)
  }

  /** Number of replacements `ReplaceAll` performs. */
  function Occurrences(s: string, pat: string): nat
    requires |pat| > 0
    decreases |s|
  {
    if |s| < |pat| then 0
    else if s[..|pat|] == pat then 1 + Occurrences(s[|pat|..], pat)
    else Occurrences(s[1..], pat)
  }

  /** When the replacement is one character longer than the pattern, each
      replacement adds exactly one character. */
  lemma {:induction false} ReplaceAllLength(s: string, pat: string, rep: string)
    requires |pat| > 0 && |rep| == |pat| + 1
    ensures |ReplaceAll(s, pat, rep)| == |s| + Occurrences(s, pat)
    decreases |s|
  {
    if |s| < |pat| {
    } else if s[..|pat|] == pat {
      ReplaceAllLength(s[|pat|..], pat, rep);
    } else {
      ReplaceAllLength(s[1..], pat, rep);
    }
  }

  /** Text without the pattern comes back unchanged, and then no replacement happened. */
  lemma {:induction false} ReplaceAllAbsent(s: string, pat: string, rep: string)
    requires |pat| > 0
    requires !Contains(s, pat)
    ensures ReplaceAll(s, pat, rep) == s
    ensures Occurrences(s, pat) == 0
    decreases |s|
  {
    if |s| >= |pat| {
      assert s[..|pat|] != pat;
      ReplaceAllAbsent(s[1..], pat, rep);
      assert s == [s[0]] + s[1..];
    }
  }

  /** The three parts of a concatenation sit where they were put. */
  lemma ConcatParts(a: string, b: string, c: string)
    ensures StartsWith(a + b + c, a)
    ensures MatchAt(a + b + c, b, |a|)
    ensures EndsWith(a + b + c, c)
  {
    assert (a + b + c)[..|a|] == a;
    assert (a + b + c)[|a|..|a| + |b|] == b;
    assert (a + b + c)[|a + b + c| - |c|..] == c;
  }

  /** C++ integer division, which truncates toward zero (Dafny's `/` is Euclidean). */
  function CDiv(a: int, b: int): (q: int)
    requires b > 0
    ensures a >= 0 ==> 0 <= q && q * b <= a < (q + 1) * b
    ensures a < 0 ==> q <= 0 && (q - 1) * b < a <= q * b
  {
    if a >= 0 then a / b else -((-a) / b)
  }

  /** `x / 100 == 3` for a C++ integer `x`. */
  predicate Is3xx(x: int) {
    CDiv(x, 100) == 3
  }

  /** Under truncating division, `x / 100 == 3` is exactly the 3xx range. */
  lemma Is3xxRange(x: int)
    ensures Is3xx(x) <==> 300 <= x <= 399
  {
  }

  /** `std::to_string` of a non-negative number: its decimal digits, with no
      leading zero. */
  function NatToString(n: nat): (r: string)
    ensures |r| > 0
    ensures forall i :: 0 <= i < |r| ==> '0' <= r[i] <= '9'
    ensures DecimalValue(r) == n
    ensures |r| > 1 ==> r[0] != '0'
    ensures n > 0 ==> r[0] != '0'
    decreases n
  {
    if n < 10 then [Digit(n)]
    else
      var init := NatToString(n / 10);
      var r := init + [Digit(n % 10)];
      assert r[..|r| - 1] == init;
      r
  }

  function Digit(d: nat): (c: char)
    requires d < 10
    ensures '0' <= c <= '9'
    ensures c as int - '0' as int == d
  {
    ['0', '1', '2', '3', '4', '5', '6', '7', '8', '9'][d]
  }

  /** The number a string of decimal digits stands for, read from the left. */
  function DecimalValue(s: string): int
    decreases |s|
  {
    if |s| == 0 then 0 else 10 * DecimalValue(s[..|s| - 1]) + (s[|s| - 1] as int - '0' as int)
  }
}
