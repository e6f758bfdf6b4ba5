/** The Kotlin standard-library string operations the source uses, as pure
    functions over `seq<char>`. */
module KotlinText {
  import opened Wrappers

  predicate StartsWith(s: string, prefix: string) {
    |prefix| <= |s| && s[..|prefix|] == prefix
  }

  /** `removePrefix`: drops `prefix` when `s` starts with it, else returns `s`. */
  function RemovePrefix(s: string, prefix: string): (r: string)
    ensures StartsWith(s, prefix) ==> prefix + r == s
    ensures !StartsWith(s, prefix) ==> r == s
  {
    if StartsWith(s, prefix) then s[|prefix|..] else s
  }

  /** Index of the last occurrence of `c` in `s`. */
  function LastIndexOf(s: string, c: char): (r: Option<nat>)
    ensures r.None? <==> c !in s
    ensures r.Some? ==> r.value < |s| && s[r.value] == c && c !in s[r.value + 1..]
  {
    if |s| == 0 then None
    else if s[|s| - 1] == c then Some(|s| - 1)
    else
      var r := LastIndexOf(s[..|s| - 1], c);
      assert s == s[..|s| - 1] + [s[|s| - 1]];
      assert r.Some? ==> s[r.value + 1..] == s[..|s| - 1][r.value + 1..] + [s[|s| - 1]];
      r
  }

  /** `substringBeforeLast(delimiter)` for a one-character delimiter; when the
      delimiter is missing the whole string is returned (Kotlin's default). */
  function SubstringBeforeLast(s: string, c: char): (r: string)
    ensures c in s ==> exists tail :: s == r + [c] + tail && c !in tail
    ensures c !in s ==> r == s
  {
    match LastIndexOf(s, c)
    case None => s
    case Some(i) =>
      assert s == s[..i] + [c] + s[i + 1..];
      s[..i]
  }

  /** The text before the last delimiter is determined by the string. */
  lemma LastSeparatorUnique(a: string, b: string, a2: string, b2: string, c: char)
    requires a + [c] + b == a2 + [c] + b2 && c !in b && c !in b2
    ensures a == a2 && b == b2
  {
    var s := a + [c] + b;
    forall k | |a| < k < |s| ensures s[k] != c {
      assert s[k] == b[k - |a| - 1];
    }
    forall k | |a2| < k < |s| ensures s[k] != c {
      assert s[k] == (a2 + [c] + b2)[k] == b2[k - |a2| - 1];
    }
    assert s[|a|] == c;
    assert s[|a2|] == (a2 + [c] + b2)[|a2|] == c;
    assert |a| == |a2|;
    assert a == s[..|a|] == (a2 + [c] + b2)[..|a2|] == a2;
    assert b == s[|a| + 1..] == (a2 + [c] + b2)[|a2| + 1..] == b2;
  }

  /** `substringBeforeLast` on a string built with its delimiter. */
  lemma SubstringBeforeLastOf(a: string, b: string, c: char)
    requires c !in b
    ensures SubstringBeforeLast(a + [c] + b, c) == a
  {
    var s := a + [c] + b;
    assert s[|a|] == c;
    var r := SubstringBeforeLast(s, c);
    var tail :| s == r + [c] + tail && c !in tail;
    LastSeparatorUnique(r, tail, a, b, c);
  }

  /** `Char.isWhitespace()` on the JVM: `Character.isWhitespace` or
      `Character.isSpaceChar`. */
  predicate IsWhitespace(c: char) {
    || c == ' ' || ('\t' <= c <= '\r')
    || ('\U{1C}' <= c <= '\U{1F}')
    || c == '\U{A0}' || c == '\U{1680}'
    || ('\U{2000}' <= c <= '\U{200A}')
    || c == '\U{2028}' || c == '\U{2029}' || c == '\U{202F}' || c == '\U{205F}' || c == '\U{3000}'
  }

  /** `isBlank()`: empty or whitespace only. */
  predicate IsBlank(s: string) {
    forall i :: 0 <= i < |s| ==> IsWhitespace(s[i])
  }

  // ---------------------------------------------------------------------------
  // String.replace(oldValue, newValue)

  predicate OccursAt(s: string, pat: string, i: nat) {
    i + |pat| <= |s| && s[i..i + |pat|] == pat
  }

  predicate Occurs(s: string, pat: string) {
    exists i: nat | i <= |s| :: OccursAt(s, pat, i)
  }

  /** `replace(pat, rep)`: every non-overlapping occurrence of `pat`, scanning
      left to right, is replaced by `rep`; replaced text is not rescanned.
      A replacement as long as the pattern keeps the length, and replacing a
      pattern by itself changes nothing. */
  function ReplaceAll(s: string, pat: string, rep: string): (r: string)
    requires |pat| > 0
    ensures |rep| == |pat| ==> |r| == |s|
    ensures rep == pat ==> r == s
    decreases |s|
  {
    if StartsWith(s, pat) then
      assert rep == pat ==> pat + s[|pat|..] == s;
      rep + ReplaceAll(s[|pat|..], pat, rep)
    else if |s| == 0 then s
    else [s[0]] + ReplaceAll(s[1..], pat, rep)
  }

  /** A string in which `pat` never occurs is returned unchanged. */
  lemma {:induction false} ReplaceAllAbsent(s: string, pat: string, rep: string)
    requires |pat| > 0 && !Occurs(s, pat)
    ensures ReplaceAll(s, pat, rep) == s
    decreases |s|
  {
    if StartsWith(s, pat) {
      assert OccursAt(s, pat, 0);
      assert false;
    } else if |s| > 0 {
      forall i: nat | i <= |s[1..]|
        ensures !OccursAt(s[1..], pat, i)
      {
        if OccursAt(s[1..], pat, i) {
          assert s[i + 1..i + 1 + |pat|] == s[1..][i..i + |pat|];
          assert OccursAt(s, pat, i + 1);
        }
      }
      ReplaceAllAbsent(s[1..], pat, rep);
      assert s == [s[0]] + s[1..];
    }
  }

  /** Text that cannot start an occurrence is copied through unchanged. */
  lemma {:induction false} ReplaceAllSkip(x: string, y: string, pat: string, rep: string)
    requires |pat| > 0 && pat[0] !in x
    ensures ReplaceAll(x + y, pat, rep) == x + ReplaceAll(y, pat, rep)
    decreases |x|
  {
    if |x| > 0 {
      assert (x + y)[0] == x[0];
      assert !StartsWith(x + y, pat) by {
        if |pat| <= |x + y| {
          assert (x + y)[..|pat|][0] != pat[0];
        }
      }
      assert (x + y)[1..] == x[1..] + y;
      ReplaceAllSkip(x[1..], y, pat, rep);
      calc {
        ReplaceAll(x + y, pat, rep);
        [x[0]] + ReplaceAll(x[1..] + y, pat, rep);
        [x[0]] + (x[1..] + ReplaceAll(y, pat, rep));
        { assert x == [x[0]] + x[1..]; }
        x + ReplaceAll(y, pat, rep);
      }
    } else {
      assert x + y == y;
    }
  }

  /** An occurrence at the front is replaced and scanning resumes after it. */
  lemma ReplaceAllHead(y: string, pat: string, rep: string)
    requires |pat| > 0
    ensures ReplaceAll(pat + y, pat, rep) == rep + ReplaceAll(y, pat, rep)
  {
    assert (pat + y)[..|pat|] == pat;
    assert (pat + y)[|pat|..] == y;
  }

  /** A placeholder token: `{`, then a name free of braces, then `}`. */
  predicate IsToken(t: string) {
    && |t| >= 2 && t[0] == '{' && t[|t| - 1] == '}'
    && forall i :: 0 < i < |t| - 1 ==> t[i] != '{' && t[i] != '}'
  }

  lemma TokenNotPrefix(t: string, y: string, pat: string)
    requires IsToken(t) && IsToken(pat) && t != pat
    ensures !StartsWith(t + y, pat)
  {
    if |pat| <= |t + y| {
      var u := (t + y)[..|pat|];
      if |pat| < |t| {
        // `pat` closes where `t` still runs on
        assert u[|pat| - 1] == t[|pat| - 1] != '}';
        assert u != pat;
      } else if |pat| == |t| {
        assert u == t;
      } else {
        // `t` closes where `pat` still runs on
        assert u[|t| - 1] == '}' != pat[|t| - 1];
        assert u != pat;
      }
    }
  }

  /** A different placeholder token is left in place by the replacement. */
  lemma ReplaceAllOtherToken(t: string, y: string, pat: string, rep: string)
    requires IsToken(t) && IsToken(pat) && t != pat
    ensures ReplaceAll(t + y, pat, rep) == t + ReplaceAll(y, pat, rep)
  {
    var rest := t[1..];
    assert t + y == [t[0]] + (rest + y);
    assert pat[0] !in rest by {
      forall i | 0 <= i < |rest| ensures rest[i] != '{' {
        assert rest[i] == t[i + 1];
      }
    }
    TokenNotPrefix(t, y, pat);
    calc {
      ReplaceAll(t + y, pat, rep);
      [t[0]] + ReplaceAll(rest + y, pat, rep);
      { ReplaceAllSkip(rest, y, pat, rep); }
      [t[0]] + (rest + ReplaceAll(y, pat, rep));
      t + ReplaceAll(y, pat, rep);
    }
  }

  /** `indexOf(c)`, with `|s|` standing for "not found". */
  function IndexOf(s: string, c: char): (i: nat)
    ensures i <= |s|
    ensures c !in s[..i]
    ensures i < |s| ==> s[i] == c
  {
    if |s| == 0 then 0
    else if s[0] == c then 0
    else
      var i := IndexOf(s[1..], c);
      assert s[..i + 1] == [s[0]] + s[1..][..i];
      1 + i
  }

  /** The first `c` of `a + [c] + b` is the one after `a` when `a` has none. */
  lemma IndexOfSeparator(a: string, c: char, b: string)
    requires c !in a
    ensures IndexOf(a + [c] + b, c) == |a|
  {
    var u := a + [c] + b;
    var i := IndexOf(u, c);
    assert u[..|a|] == a;
    assert u[|a|] == c;
    assert c in u[..|a| + 1];
    assert forall j | 0 <= j < |a| :: u[j] == a[j];
  }

  /** A separator character that neither left part contains splits a joined
      string uniquely. */
  lemma SplitAtSeparator(a: string, b: string, c: string, d: string, sep: char)
    requires sep !in a && sep !in c && a + [sep] + b == c + [sep] + d
    ensures a == c && b == d
  {
    var u := a + [sep] + b;
    IndexOfSeparator(a, sep, b);
    IndexOfSeparator(c, sep, d);
    assert a == u[..|a|] == c;
    assert b == u[|a| + 1..] == d;
  }

  // ---------------------------------------------------------------------------
  // Int.toString() and padStart

  function Digit(d: int): (c: char)
    requires 0 <= d < 10
    ensures IsDigit(c)
  {
    (48 + d) as char
  }

  predicate IsDigit(c: char) { '0' <= c <= '9' }

  function DigitValue(c: char): (d: nat)
    requires IsDigit(c)
    ensures d < 10
  {
    c as int - 48
  }

  /** Decimal digits of a natural number, without leading zeros. */
  function NatToString(n: nat): (s: string)
    ensures |s| > 0
    ensures forall i :: 0 <= i < |s| ==> IsDigit(s[i])
    ensures |s| > 1 ==> s[0] != '0'
  {
    if n < 10 then [Digit(n)] else NatToString(n / 10) + [Digit(n % 10)]
  }

  /** Kotlin `Int.toString()`: a minus sign for negative values. */
  function IntToString(n: int): (s: string)
    ensures |s| > 0
    ensures '{' !in s && '}' !in s && '/' !in s
    ensures n < 0 <==> s[0] == '-'
  {
    if n < 0 then "-" + NatToString(-n) else NatToString(n)
  }

  /** Reads a string of decimal digits back as a number. */
  function ParseDigits(s: string): nat
    requires forall i :: 0 <= i < |s| ==> IsDigit(s[i])
  {
    if |s| == 0 then 0 else ParseDigits(s[..|s| - 1]) * 10 + DigitValue(s[|s| - 1])
  }

  lemma {:induction false} NatToStringRoundTrip(n: nat)
    ensures ParseDigits(NatToString(n)) == n
  {
    if n >= 10 {
      NatToStringRoundTrip(n / 10);
      var s := NatToString(n);
      assert s[..|s| - 1] == NatToString(n / 10);
    }
  }

  /** Distinct integers print differently. */
  lemma IntToStringInjective(a: int, b: int)
    requires IntToString(a) == IntToString(b)
    ensures a == b
  {
    if a < 0 {
      assert IntToString(a)[1..] == NatToString(-a);
      assert IntToString(b)[1..] == NatToString(-b);
      NatToStringRoundTrip(-a);
      NatToStringRoundTrip(-b);
    } else {
      NatToStringRoundTrip(a);
      NatToStringRoundTrip(b);
    }
  }

  /** `padStart(length, c)`. */
  function PadStart(s: string, length: nat, c: char): (r: string)
    ensures |r| == if |s| >= length then |s| else length
    ensures r[|r| - |s|..] == s
    ensures forall i :: 0 <= i < |r| - |s| ==> r[i] == c
  {
    if |s| >= length then s else seq(length - |s|, _ => c) + s
  }

  // ---------------------------------------------------------------------------
  // String.compareTo

  /** `a.compareTo(b) <= 0`: lexicographic order on characters, a proper
      prefix ordered first. */
  predicate LessEq(a: string, b: string) {
    if |a| == 0 then true
    else if |b| == 0 then false
    else if a[0] != b[0] then a[0] < b[0]
    else LessEq(a[1..], b[1..])
  }

  lemma LessEqReflexive(a: string)
    ensures LessEq(a, a)
  {
  }

  lemma LessEqTotal(a: string, b: string)
    ensures LessEq(a, b) || LessEq(b, a)
  {
  }

  lemma LessEqTransitive(a: string, b: string, c: string)
    requires LessEq(a, b) && LessEq(b, c)
    ensures LessEq(a, c)
  {
  }
}
