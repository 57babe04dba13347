/**
 * The JavaScript string operations the pages rely on, over `seq<char>`:
 * `startsWith`, `indexOf`, `replace` with a string pattern (first occurrence
 * only), `trim`, `split('\n')`, and the decimal rendering of a status code
 * inside a template literal.
 */
module Text {

  /** The characters `trim` removes in this model (a fixed ASCII set). */
  predicate IsWhitespace(c: char) {
    c == ' ' || c == '\t' || c == '\n' || c == '\r' || c == '\U{B}' || c == '\U{C}'
  }

  predicate AllWhitespace(s: string) {
    forall i :: 0 <= i < |s| ==> IsWhitespace(s[i])
  }

  /** `s.startsWith(p)` */
  predicate StartsWith(s: string, p: string) {
    |p| <= |s| && s[..|p|] == p
  }

  /** `p` occurs in `s` at position `i`. */
  predicate OccursAt(s: string, p: string, i: int) {
    0 <= i && i + |p| <= |s| && s[i..i + |p|] == p
  }

  /** `s.indexOf(p)`: the first position at which `p` occurs, or -1. */
  function IndexOf(s: string, p: string): (r: int)
    ensures -1 <= r <= |s|
    ensures r == -1 <==> forall i :: 0 <= i <= |s| ==> !OccursAt(s, p, i)
    ensures r != -1 ==> OccursAt(s, p, r) && forall i :: 0 <= i < r ==> !OccursAt(s, p, i)
    decreases |s|
  {
    if StartsWith(s, p) then assert OccursAt(s, p, 0); 0
    else if |s| == 0 then -1
    else
      assert !OccursAt(s, p, 0);
      var k := IndexOf(s[1..], p);
      assert forall i :: 1 <= i <= |s| ==> (OccursAt(s, p, i) <==> OccursAt(s[1..], p, i - 1)) by {
        forall i | 1 <= i <= |s|
          ensures OccursAt(s, p, i) <==> OccursAt(s[1..], p, i - 1)
        {
          if i + |p| <= |s| {
            assert s[1..][i - 1..i - 1 + |p|] == s[i..i + |p|];
          }
        }
      }
      if k == -1 then -1
      else
        assert OccursAt(s[1..], p, k);
        assert OccursAt(s, p, k + 1);
        k + 1
  }

  /** `s.replace(p, '')` with a string pattern: only the FIRST occurrence is removed. */
  function RemoveFirst(s: string, p: string): (r: string)
    ensures IndexOf(s, p) == -1 ==> r == s
    ensures IndexOf(s, p) != -1 ==> |r| == |s| - |p|
    ensures IndexOf(s, p) != -1 ==> s == r[..IndexOf(s, p)] + p + r[IndexOf(s, p)..]
  {
    var i := IndexOf(s, p);
    if i == -1 then s
    else
      var r := s[..i] + s[i + |p|..];
      assert r[..i] == s[..i] && r[i..] == s[i + |p|..];
      assert s == s[..i] + s[i..i + |p|] + s[i + |p|..];
      r
  }

  /** A string that starts with `p` loses exactly that prefix. */
  lemma RemoveFirstOfPrefix(s: string, p: string)
    requires StartsWith(s, p)
    ensures RemoveFirst(s, p) == s[|p|..]
  {
    assert OccursAt(s, p, 0);
  }

  /** Number of leading whitespace characters. */
  function LeadingSpace(s: string): (k: nat)
    ensures k <= |s|
    ensures forall i :: 0 <= i < k ==> IsWhitespace(s[i])
    ensures k < |s| ==> !IsWhitespace(s[k])
    decreases |s|
  {
    if |s| > 0 && IsWhitespace(s[0]) then LeadingSpace(s[1..]) + 1 else 0
  }

  /** Number of trailing whitespace characters. */
  function TrailingSpace(s: string): (k: nat)
    ensures k <= |s|
    ensures forall i :: |s| - k <= i < |s| ==> IsWhitespace(s[i])
    ensures k < |s| ==> !IsWhitespace(s[|s| - k - 1])
    decreases |s|
  {
    if |s| > 0 && IsWhitespace(s[|s| - 1]) then TrailingSpace(s[..|s| - 1]) + 1 else 0
  }

  /** `s.trim()` */
  function Trim(s: string): string {
    var t := s[LeadingSpace(s)..];
    t[..|t| - TrailingSpace(t)]
  }

  /**
   * What `trim` means: the result is a slice `s[i..j]`, everything cut off on
   * either side is whitespace, and the result neither starts nor ends with
   * whitespace.
   */
  lemma TrimSpec(s: string)
    ensures var i, j := LeadingSpace(s), |s| - TrailingSpace(s[LeadingSpace(s)..]);
      && i <= j <= |s|
      && Trim(s) == s[i..j]
      && AllWhitespace(s[..i]) && AllWhitespace(s[j..])
      && (Trim(s) != [] ==> !IsWhitespace(Trim(s)[0]) && !IsWhitespace(Trim(s)[|Trim(s)| - 1]))
  {
    var i := LeadingSpace(s);
    var t := s[i..];
    var k := TrailingSpace(t);
    var j := |s| - k;
    assert t[..|t| - k] == s[i..j];
    forall n | 0 <= n < |s[j..]| ensures IsWhitespace(s[j..][n]) {
      assert s[j..][n] == t[|t| - k + n];
    }
    if i < j {
      assert t[0] == s[i];
    }
  }

  /** The result of `trim` has no whitespace at either end. */
  lemma TrimmedEnds(s: string)
    ensures Trim(s) == [] || (!IsWhitespace(Trim(s)[0]) && !IsWhitespace(Trim(s)[|Trim(s)| - 1]))
  {
    TrimSpec(s);
  }

  /** Trimming a trimmed string changes nothing. */
  lemma TrimIdempotent(s: string)
    ensures Trim(Trim(s)) == Trim(s)
  {
    TrimmedEnds(s);
    TrimOfTrimmed(Trim(s));
  }

  /** A string with neither leading nor trailing whitespace is its own trim. */
  lemma TrimOfTrimmed(s: string)
    requires s == [] || (!IsWhitespace(s[0]) && !IsWhitespace(s[|s| - 1]))
    ensures Trim(s) == s
  {
    assert LeadingSpace(s) == 0;
    assert s[0..] == s;
  }

  /** `trim()` yields the empty string exactly for whitespace-only input. */
  lemma TrimEmptyIff(s: string)
    ensures Trim(s) == [] <==> AllWhitespace(s)
  {
    TrimSpec(s);
    var i := LeadingSpace(s);
    if Trim(s) == [] {
      assert i == |s|;
    } else {
      assert !IsWhitespace(s[i]);
    }
  }

  /** A string that starts with a non-space character keeps it as the first character of its trim. */
  lemma TrimKeepsFirst(s: string)
    requires s != [] && !IsWhitespace(s[0])
    ensures Trim(s) != [] && Trim(s)[0] == s[0]
  {
    assert LeadingSpace(s) == 0;
    assert s[0..] == s;
    var k := TrailingSpace(s);
    assert k < |s|;
  }

  /** Number of occurrences of `c` in `s`. */
  function Count(s: string, c: char): (n: nat)
    ensures n <= |s|
  {
    if s == [] then 0 else (if s[0] == c then 1 else 0) + Count(s[1..], c)
  }

  /** `s.split('\n')`: never empty; `k` newlines give `k + 1` pieces. */
  function SplitLines(s: string): (r: seq<string>)
    ensures |r| >= 1
  {
    if s == [] then [""]
    else
      var rest := SplitLines(s[1..]);
      if s[0] == '\n' then [""] + rest
      else [[s[0]] + rest[0]] + rest[1..]
  }

  /** `lines.join('\n')`, the inverse of `SplitLines`. */
  function JoinLines(lines: seq<string>): string
    requires |lines| >= 1
  {
    if |lines| == 1 then lines[0] else lines[0] + "\n" + JoinLines(lines[1..])
  }

  predicate NoNewline(s: string) {
    forall i :: 0 <= i < |s| ==> s[i] != '\n'
  }

  /** One piece per newline, plus one. */
  lemma {:induction false} SplitLinesCount(s: string)
    ensures |SplitLines(s)| == Count(s, '\n') + 1
  {
    if s != [] {
      SplitLinesCount(s[1..]);
    }
  }

  /** No piece contains the separator. */
  lemma {:induction false} SplitLinesNoNewline(s: string)
    ensures forall k :: 0 <= k < |SplitLines(s)| ==> NoNewline(SplitLines(s)[k])
  {
    if s != [] {
      SplitLinesNoNewline(s[1..]);
      var rest := SplitLines(s[1..]);
      if s[0] != '\n' {
        var head := [s[0]] + rest[0];
        assert NoNewline(rest[0]);
        assert forall i :: 1 <= i < |head| ==> head[i] == rest[0][i - 1];
      }
    }
  }

  /** Joining the pieces back with newlines gives the original text. */
  lemma {:induction false} JoinSplitLines(s: string)
    ensures JoinLines(SplitLines(s)) == s
  {
    if s != [] {
      JoinSplitLines(s[1..]);
      var rest := SplitLines(s[1..]);
      if s[0] == '\n' {
        assert SplitLines(s)[1..] == rest;
        assert s == "" + "\n" + s[1..];
      } else if |rest| == 1 {
        assert s == [s[0]] + s[1..];
      } else {
        assert SplitLines(s)[1..] == rest[1..];
        assert JoinLines(rest) == rest[0] + "\n" + JoinLines(rest[1..]);
        assert s == [s[0]] + s[1..];
      }
    }
  }

  /** Splitting newline-free pieces joined by newlines gives the pieces back. */
  lemma {:induction false} SplitJoinLines(lines: seq<string>)
    requires |lines| >= 1
    requires forall k :: 0 <= k < |lines| ==> NoNewline(lines[k])
    ensures SplitLines(JoinLines(lines)) == lines
  {
    if |lines| == 1 {
      SplitNoNewline(lines[0]);
    } else {
      SplitJoinLines(lines[1..]);
      SplitConcat(lines[0], JoinLines(lines[1..]));
      SplitNoNewline(lines[0]);
      assert lines == [lines[0]] + lines[1..];
    }
  }

  /** A newline-free string is a single piece. */
  lemma {:induction false} SplitNoNewline(s: string)
    requires NoNewline(s)
    ensures SplitLines(s) == [s]
  {
    if s != [] {
      SplitNoNewline(s[1..]);
      assert s == [s[0]] + s[1..];
    }
  }

  /**
   * Splitting is compositional: the lines of `a + "\n" + b` are the lines of
   * `a` followed by the lines of `b`, so the order of the source text is kept.
   */
  lemma {:induction false} SplitConcat(a: string, b: string)
    ensures SplitLines(a + "\n" + b) == SplitLines(a) + SplitLines(b)
  {
    if a == [] {
      assert a + "\n" + b == "\n" + b;
      assert ("\n" + b)[1..] == b;
    } else {
      var s := a + "\n" + b;
      assert s[0] == a[0];
      assert s[1..] == a[1..] + "\n" + b;
      SplitConcat(a[1..], b);
    }
  }

  function DigitChar(d: nat): char
    requires d < 10
  {
    ('0' as int + d) as char
  }

  /** The decimal digits of `n`, as `${n}` renders a non-negative integer. */
  function NatToString(n: nat): (r: string)
    ensures |r| >= 1
    ensures forall i :: 0 <= i < |r| ==> '0' <= r[i] <= '9'
  {
    if n < 10 then [DigitChar(n)] else NatToString(n / 10) + [DigitChar(n % 10)]
  }

  /** The value of a string of decimal digits. */
  function DecimalValue(s: string): nat
    requires forall i :: 0 <= i < |s| ==> '0' <= s[i] <= '9'
  {
    if s == [] then 0 else 10 * DecimalValue(s[..|s| - 1]) + (s[|s| - 1] - '0') as nat
  }

  /**
   * Reading the rendered digits back gives the number, and the digits never
   * start with a redundant '0': the rendering is the canonical decimal one.
   */
  lemma {:induction false} NatToStringValue(n: nat)
    ensures DecimalValue(NatToString(n)) == n
    ensures NatToString(n)[0] == '0' <==> n == 0
  {
    if n >= 10 {
      NatToStringValue(n / 10);
      var r := NatToString(n);
      assert r[0] == NatToString(n / 10)[0];
      assert r[..|r| - 1] == NatToString(n / 10);
      assert (r[|r| - 1] - '0') as nat == n % 10;
    }
  }
}
