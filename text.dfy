/**
 * Python string operations used throughout the pipeline, over `seq<char>`.
 * Whitespace and letter case are ASCII-only (see README).
 */
module Text {
  import opened Wrappers

  /**
   * Python's `str.isspace()` restricted to ASCII: space, \t, \n, \r, \v, \f
   * and the four separators \x1c to \x1f.
   */
  predicate IsSpace(c: char) {
    c == ' ' || c == '\t' || c == '\n' || c == '\r' || c == '\U{000B}' || c == '\U{000C}'
    || '\U{001C}' <= c <= '\U{001F}'
  }

  predicate IsDigit(c: char) { '0' <= c <= '9' }

  predicate IsLowerAlnum(c: char) { 'a' <= c <= 'z' || IsDigit(c) }

  /** Regex `\w` over ASCII. */
  predicate IsWordChar(c: char) { 'a' <= c <= 'z' || 'A' <= c <= 'Z' || IsDigit(c) || c == '_' }

  function LowerChar(c: char): (r: char)
    ensures 'A' <= c <= 'Z' ==> r as int == c as int + 32
    ensures !('A' <= c <= 'Z') ==> r == c
    ensures !('A' <= r <= 'Z')
  {
    if 'A' <= c <= 'Z' then (c as int + 32) as char else c
  }

  /** `s.lower()`: same length, every upper-case ASCII letter mapped down. */
  function Lower(s: string): (r: string)
    ensures |r| == |s|
    ensures forall i :: 0 <= i < |s| ==> r[i] == LowerChar(s[i])
  {
    seq(|s|, i requires 0 <= i < |s| => LowerChar(s[i]))
  }

  /** Lower-casing twice is lower-casing once. */
  lemma LowerIdempotent(s: string)
    ensures Lower(Lower(s)) == Lower(s)
  {
    assert forall i :: 0 <= i < |s| ==> LowerChar(LowerChar(s[i])) == LowerChar(s[i]);
  }

  /** `sub` occurs in `s` at position `i`. */
  predicate OccursAt(s: string, sub: string, i: int) {
    0 <= i && i + |sub| <= |s| && s[i..i + |sub|] == sub
  }

  /** Python's `sub in s`. */
  predicate Contains(s: string, sub: string) {
    exists i :: 0 <= i <= |s| - |sub| && OccursAt(s, sub, i)
  }

  lemma ContainsWitness(s: string, sub: string, i: int)
    requires OccursAt(s, sub, i)
    ensures Contains(s, sub)
  {
  }

  /** Whatever `a` contains, `a` embedded in a longer text contains too. */
  lemma ContainsInfix(pre: string, a: string, post: string, sub: string)
    requires Contains(a, sub)
    ensures Contains(pre + a + post, sub)
  {
    var i :| 0 <= i <= |a| - |sub| && OccursAt(a, sub, i);
    assert (pre + a + post)[|pre| + i..|pre| + i + |sub|] == a[i..i + |sub|];
    ContainsWitness(pre + a + post, sub, |pre| + i);
  }

  lemma ContainsSelf(s: string)
    ensures Contains(s, s)
  {
    assert s[0..|s|] == s;
    ContainsWitness(s, s, 0);
  }

  /** `s.startswith(p)`. */
  predicate StartsWith(s: string, p: string) { p <= s }

  /** `s.endswith(p)`. */
  predicate EndsWith(s: string, p: string) {
    |p| <= |s| && s[|s| - |p|..] == p
  }

  /**
   * `s.find(sub, start)`: the first occurrence of `sub` at or after `from`,
   * `None` for Python's -1.
   */
  function FindFrom(s: string, sub: string, from: nat): (r: Option<nat>)
    decreases |s| - from
    ensures r.Some? ==> from <= r.value && OccursAt(s, sub, r.value)
    ensures r.Some? ==> forall j :: from <= j < r.value ==> !OccursAt(s, sub, j)
    ensures r.None? ==> forall j :: from <= j ==> !OccursAt(s, sub, j)
  {
    if from + |sub| > |s| then None
    else if s[from..from + |sub|] == sub then Some(from)
    else FindFrom(s, sub, from + 1)
  }

  lemma FindFromContains(s: string, sub: string)
    ensures FindFrom(s, sub, 0).Some? <==> Contains(s, sub)
  {
    var r := FindFrom(s, sub, 0);
    if r.Some? {
      ContainsWitness(s, sub, r.value);
    }
  }

  /** The first index at or after `from` holding `c`, if any (`s.find(c, from)`). */
  function FindChar(s: string, c: char, from: nat): (r: Option<nat>)
    decreases |s| - from
    ensures r.Some? ==> from <= r.value < |s| && s[r.value] == c
    ensures r.Some? ==> forall j :: from <= j < r.value ==> s[j] != c
    ensures r.None? ==> forall j :: from <= j < |s| ==> s[j] != c
  {
    if from >= |s| then None
    else if s[from] == c then Some(from)
    else FindChar(s, c, from + 1)
  }

  /** The index of the first non-whitespace character at or after `i` (`|s|` if there is none). */
  function SkipSpaces(s: string, i: nat): (j: nat)
    requires i <= |s|
    ensures i <= j <= |s|
    ensures j == |s| || !IsSpace(s[j])
    ensures forall k :: i <= k < j ==> IsSpace(s[k])
    decreases |s| - i
  {
    if i < |s| && IsSpace(s[i]) then SkipSpaces(s, i + 1) else i
  }

  function LStrip(s: string): (r: string)
    ensures |r| <= |s| && r == s[|s| - |r|..]
    ensures r == [] || !IsSpace(r[0])
    ensures forall i :: 0 <= i < |s| - |r| ==> IsSpace(s[i])
  {
    s[SkipSpaces(s, 0)..]
  }

  function RStrip(s: string): (r: string)
    ensures r <= s
    ensures r == [] || !IsSpace(r[|r| - 1])
    ensures forall i :: |r| <= i < |s| ==> IsSpace(s[i])
  {
    if |s| > 0 && IsSpace(s[|s| - 1]) then RStrip(s[..|s| - 1]) else s
  }

  /** `s.strip()`: leading and trailing whitespace removed. */
  function Strip(s: string): (r: string)
    ensures |r| <= |s|
    ensures r == [] || (!IsSpace(r[0]) && !IsSpace(r[|r| - 1]))
  {
    RStrip(LStrip(s))
  }

  /** The stripped parts, in order. */
  function StripAll(parts: seq<string>): (r: seq<string>)
    ensures |r| == |parts|
    ensures forall i :: 0 <= i < |parts| ==> r[i] == Strip(parts[i])
  {
    seq(|parts|, i requires 0 <= i < |parts| => Strip(parts[i]))
  }

  /** Neither starts nor ends with whitespace: what `strip()` returns. */
  predicate Trimmed(s: string) {
    s == [] || (!IsSpace(s[0]) && !IsSpace(s[|s| - 1]))
  }

  lemma StripIsTrimmed(s: string)
    ensures Trimmed(Strip(s))
  {
  }

  /** A text that is blank after stripping is blank after right-stripping too. */
  lemma BlankRStrip(s: string)
    requires Strip(s) == []
    ensures RStrip(s) == []
    decreases |s|
  {
    if |s| > 0 && IsSpace(s[0]) {
      BlankRStrip(s[1..]);
    }
  }

  lemma RStripIdempotent(s: string)
    ensures RStrip(RStrip(s)) == RStrip(s)
  {
  }

  /** Right-stripping preserves the prefix order. */
  lemma RStripMonotone(x: string, y: string)
    requires x <= y
    ensures RStrip(x) <= RStrip(y)
  {
    var rx, ry := RStrip(x), RStrip(y);
    if rx != [] {
      assert y[|rx| - 1] == rx[|rx| - 1];
    }
  }

  /** A text that neither starts nor ends with whitespace is its own strip. */
  lemma StripTrimmed(s: string)
    requires s == [] || (!IsSpace(s[0]) && !IsSpace(s[|s| - 1]))
    ensures Strip(s) == s
  {
  }

  lemma StripIdempotent(s: string)
    ensures Strip(Strip(s)) == Strip(s)
  {
    StripTrimmed(Strip(s));
  }

  /** An occurrence inside an occurrence is an occurrence in the outer text. */
  lemma OccursWithin(s: string, t: string, u: string, a: nat, b: nat)
    requires OccursAt(s, t, a) && OccursAt(t, u, b)
    ensures OccursAt(s, u, a + b)
  {
    assert t == s[a..a + |t|];
    forall k | 0 <= k < |u|
      ensures s[a + b + k] == u[k]
    {
      assert u[k] == t[b + k] == s[a + b + k];
    }
    assert s[a + b..a + b + |u|] == u;
  }

  /** Every part of a join occurs in it. */
  lemma {:induction false} JoinOccurs(parts: seq<string>, sep: string, i: nat)
    requires i < |parts|
    ensures exists a :: OccursAt(Join(parts, sep), parts[i], a)
    decreases |parts|
  {
    var joined := Join(parts, sep);
    if |parts| == 1 {
      assert joined[0..|parts[0]|] == parts[0];
      assert OccursAt(joined, parts[i], 0);
    } else if i == 0 {
      assert joined[0..|parts[0]|] == parts[0];
      assert OccursAt(joined, parts[i], 0);
    } else {
      JoinOccurs(parts[1..], sep, i - 1);
      var rest := Join(parts[1..], sep);
      var a :| OccursAt(rest, parts[1..][i - 1], a);
      var off := |parts[0]| + |sep|;
      assert joined == parts[0] + sep + rest;
      assert joined[off..] == rest;
      assert OccursAt(joined, rest, off);
      OccursWithin(joined, rest, parts[i], off, a);
    }
  }

  /** An occurrence that starts with a non-space character survives `lstrip`, shifted left. */
  lemma LStripKeepsOccurrence(s: string, t: string, a: nat)
    requires OccursAt(s, t, a) && |t| > 0 && !IsSpace(t[0])
    ensures a >= |s| - |LStrip(s)|
    ensures OccursAt(LStrip(s), t, a - (|s| - |LStrip(s)|))
  {
    var j := SkipSpaces(s, 0);
    var l := s[j..];
    assert LStrip(s) == l;
    assert s[a] == t[0] && !IsSpace(s[a]);
    assert a >= j;
    forall k | 0 <= k < |t|
      ensures l[a - j + k] == t[k]
    {
      assert s[a..a + |t|][k] == s[a + k];
    }
    assert l[a - j..a - j + |t|] == t;
  }

  /** An occurrence that ends with a non-space character survives `rstrip`. */
  lemma RStripKeepsOccurrence(s: string, t: string, a: nat)
    requires OccursAt(s, t, a) && |t| > 0 && !IsSpace(t[|t| - 1])
    ensures OccursAt(RStrip(s), t, a)
  {
    var rs := RStrip(s);
    assert s[a + |t| - 1] == t[|t| - 1];
    assert rs[a..a + |t|] == s[a..a + |t|];
  }

  /** A text without outer whitespace that occurs in `s` also occurs in `s.strip()`. */
  lemma StripKeepsTrimmed(s: string, t: string, a: nat)
    requires OccursAt(s, t, a)
    requires t == [] || (!IsSpace(t[0]) && !IsSpace(t[|t| - 1]))
    ensures Contains(Strip(s), t)
  {
    if t == [] {
      assert Strip(s)[0..0] == t;
      ContainsWitness(Strip(s), t, 0);
    } else {
      LStripKeepsOccurrence(s, t, a);
      var b := a - (|s| - |LStrip(s)|);
      RStripKeepsOccurrence(LStrip(s), t, b);
      ContainsWitness(Strip(s), t, b);
    }
  }

  /** `s.strip(c)` for a single character `c`. */
  function StripChar(s: string, c: char): (r: string)
    ensures |r| <= |s|
    ensures r == [] || (r[0] != c && r[|r| - 1] != c)
    decreases |s|
  {
    if |s| > 0 && s[0] == c then StripChar(s[1..], c)
    else if |s| > 0 && s[|s| - 1] == c then StripChar(s[..|s| - 1], c)
    else s
  }

  /** `s[:n]` for `n >= 0`. */
  function Take<T>(s: seq<T>, n: nat): (r: seq<T>)
    ensures |r| == if n <= |s| then n else |s|
    ensures r <= s
  {
    if n <= |s| then s[..n] else s
  }

  /**
   * `s.split(sep)` for a non-empty separator: the pieces between
   * non-overlapping occurrences, scanned left to right.
   */
  function Split(s: string, sep: string): (r: seq<string>)
    requires |sep| > 0
    ensures |r| >= 1
    decreases |s|
  {
    match FindFrom(s, sep, 0)
    case None => [s]
    case Some(i) => [s[..i]] + Split(s[i + |sep|..], sep)
  }

  /** `sep.join(parts)`. */
  function Join(parts: seq<string>, sep: string): string
    decreases |parts|
  {
    if |parts| == 0 then ""
    else if |parts| == 1 then parts[0]
    else parts[0] + sep + Join(parts[1..], sep)
  }

  /** A join starts with its first part. */
  lemma JoinStart(parts: seq<string>, sep: string)
    requires parts != []
    ensures StartsWith(Join(parts, sep), parts[0])
  {
    if |parts| > 1 {
      var rest := sep + Join(parts[1..], sep);
      assert (parts[0] + rest)[..|parts[0]|] == parts[0];
    }
  }

  /** Splitting and joining back with the same separator restores the text. */
  lemma {:induction false} JoinSplit(s: string, sep: string)
    requires |sep| > 0
    ensures Join(Split(s, sep), sep) == s
    decreases |s|
  {
    match FindFrom(s, sep, 0)
    case None =>
    case Some(i) =>
      var rest := s[i + |sep|..];
      var parts := Split(rest, sep);
      JoinSplit(rest, sep);
      assert ([s[..i]] + parts)[1..] == parts;
      assert Join([s[..i]] + parts, sep) == s[..i] + sep + Join(parts, sep);
      assert s == s[..i] + s[i..i + |sep|] + rest;
  }

  /** No piece of a split contains the separator. */
  lemma {:induction false} SplitPiecesFree(s: string, sep: string)
    requires |sep| > 0
    ensures forall k :: 0 <= k < |Split(s, sep)| ==> !Contains(Split(s, sep)[k], sep)
    decreases |s|
  {
    match FindFrom(s, sep, 0)
    case None =>
      assert Split(s, sep) == [s];
      if Contains(s, sep) {
        FindFromContains(s, sep);
      }
    case Some(i) =>
      var rest := s[i + |sep|..];
      SplitPiecesFree(rest, sep);
      var head := s[..i];
      if Contains(head, sep) {
        var j :| 0 <= j <= |head| - |sep| && OccursAt(head, sep, j);
        assert s[j..j + |sep|] == head[j..j + |sep|];
        assert OccursAt(s, sep, j);
      }
  }

  /**
   * An occurrence of `sub` in `x + z + y` lies within `x` or within `y`
   * when no character of the non-empty `z` occurs in `sub`.
   */
  lemma ContainsAcross(x: string, z: string, y: string, sub: string)
    requires |sub| > 0 && z != []
    requires forall k :: 0 <= k < |z| ==> z[k] !in sub
    requires Contains(x + z + y, sub)
    ensures Contains(x, sub) || Contains(y, sub)
  {
    var s := x + z + y;
    var i :| 0 <= i <= |s| - |sub| && OccursAt(s, sub, i);
    if i + |sub| <= |x| {
      assert x[i..i + |sub|] == s[i..i + |sub|];
      ContainsWitness(x, sub, i);
    } else if i >= |x| + |z| {
      var j := i - |x| - |z|;
      assert s[|x| + |z|..] == y;
      assert y[j..j + |sub|] == s[|x| + |z|..][j..j + |sub|] == s[i..i + |sub|];
      ContainsWitness(y, sub, j);
    } else {
      StraddleChar(x, z, y, sub, i);
      assert false;
    }
  }

  /** An occurrence that overlaps `z` in `x + z + y` shares a character with `z`. */
  lemma StraddleChar(x: string, z: string, y: string, sub: string, i: int)
    requires |sub| > 0 && z != [] && OccursAt(x + z + y, sub, i) && i < |x| + |z| && |x| < i + |sub|
    ensures exists k :: 0 <= k < |z| && z[k] in sub
  {
    var s := x + z + y;
    var p := if i >= |x| then i else |x|;
    assert s[p] == z[p - |x|];
    assert s[i..i + |sub|][p - i] == sub[p - i];
    assert z[p - |x|] == sub[p - i];
  }

  /** A text without the first character of `sub` does not contain it. */
  lemma MissingFirstChar(s: string, sub: string)
    requires |sub| > 0 && sub[0] !in s
    ensures !Contains(s, sub)
  {
  }

  /** Whatever contains `sub` contains each of its prefixes. */
  lemma ContainsPrefix(s: string, sub: string, n: nat)
    requires Contains(s, sub) && n <= |sub|
    ensures Contains(s, sub[..n])
  {
    var i :| 0 <= i <= |s| - |sub| && OccursAt(s, sub, i);
    assert s[i..i + n] == s[i..i + |sub|][..n];
    ContainsWitness(s, sub[..n], i);
  }

  /**
   * Padded with one space on each side, a text contains `sub` (which does
   * not start with a space) only if it contains `sub` less its last character.
   */
  lemma ContainsPadded(name: string, sub: string)
    requires |sub| > 0 && sub[0] != ' '
    requires Contains(" " + name + " ", sub)
    ensures Contains(name, sub[..|sub| - 1])
  {
    var s := " " + name + " ";
    var i :| 0 <= i <= |s| - |sub| && OccursAt(s, sub, i);
    assert s[i..i + |sub|][0] == s[i];
    assert i >= 1;
    var j := i - 1;
    assert name[j..j + |sub| - 1] == s[i..i + |sub| - 1] == sub[..|sub| - 1];
    ContainsWitness(name, sub[..|sub| - 1], j);
  }

  /**
   * A join contains `sub` only if one of its parts does, when no character
   * of the non-empty separator occurs in `sub`.
   */
  lemma {:induction false} JoinContains(parts: seq<string>, sep: string, sub: string)
    requires |sub| > 0 && sep != []
    requires forall k :: 0 <= k < |sep| ==> sep[k] !in sub
    requires Contains(Join(parts, sep), sub)
    ensures exists k :: 0 <= k < |parts| && Contains(parts[k], sub)
    decreases |parts|
  {
    if |parts| > 1 {
      ContainsAcross(parts[0], sep, Join(parts[1..], sep), sub);
      if !Contains(parts[0], sub) {
        JoinContains(parts[1..], sep, sub);
        var k :| 0 <= k < |parts[1..]| && Contains(parts[1..][k], sub);
        assert parts[k + 1] == parts[1..][k];
      }
    }
  }

  /** Python's `s.replace(pat, rep)` for a non-empty pattern. */
  function Replace(s: string, pat: string, rep: string): string
    requires |pat| > 0
    decreases |s|
  {
    if |s| < |pat| then s
    else if pat <= s then rep + Replace(s[|pat|..], pat, rep)
    else [s[0]] + Replace(s[1..], pat, rep)
  }

  /** The decimal digit for `d`. */
  function DigitChar(d: nat): (c: char)
    requires d < 10
    ensures IsDigit(c) && c as int - '0' as int == d
  {
    (('0' as int) + d) as char
  }

  /** `str(n)` for a natural number. */
  function NatToString(n: nat): (r: string)
    ensures |r| >= 1
    ensures forall i :: 0 <= i < |r| ==> IsDigit(r[i])
    decreases n
  {
    if n < 10 then [DigitChar(n)] else NatToString(n / 10) + [DigitChar(n % 10)]
  }

  /** Distinct numbers print differently. */
  lemma {:induction false} NatToStringInjective(a: nat, b: nat)
    requires NatToString(a) == NatToString(b)
    ensures a == b
    decreases a
  {
    var ra, rb := NatToString(a), NatToString(b);
    if a < 10 && b < 10 {
      assert ra[0] == DigitChar(a) && rb[0] == DigitChar(b);
    } else if a >= 10 && b >= 10 {
      assert ra[|ra| - 1] == DigitChar(a % 10);
      assert rb[|rb| - 1] == DigitChar(b % 10);
      assert NatToString(a / 10) == ra[..|ra| - 1] == rb[..|rb| - 1] == NatToString(b / 10);
      NatToStringInjective(a / 10, b / 10);
    }
  }

  /** `str(i)` for any integer. */
  function IntToString(i: int): (r: string)
    ensures |r| >= 1
  {
    if i < 0 then "-" + NatToString(-i) else NatToString(i)
  }

  /** The longest prefix without whitespace. */
  function TakeWord(s: string): (r: string)
    ensures r <= s
    ensures forall i :: 0 <= i < |r| ==> !IsSpace(r[i])
    ensures |r| == |s| || IsSpace(s[|r|])
  {
    if |s| == 0 || IsSpace(s[0]) then "" else [s[0]] + TakeWord(s[1..])
  }

  /** `s.split()`: the maximal whitespace-free runs, in order. */
  function Words(s: string): (r: seq<string>)
    ensures forall k :: 0 <= k < |r| ==> |r[k]| > 0
    decreases |s|
  {
    var j := SkipSpaces(s, 0);
    if j == |s| then []
    else
      var w := TakeWord(s[j..]);
      [w] + Words(s[j + |w|..])
  }

  /** Python's `splitlines()` boundaries. */
  predicate IsLineBreak(c: char) {
    c == '\n' || c == '\r' || c == '\U{000B}' || c == '\U{000C}' || c == '\U{001C}' || c == '\U{001D}'
    || c == '\U{001E}' || c == '\U{0085}' || c == '\U{2028}' || c == '\U{2029}'
  }

  /** The index of the first line break at or after `from`, or `|s|`. */
  function LineEnd(s: string, from: nat): (r: nat)
    requires from <= |s|
    ensures from <= r <= |s|
    ensures r < |s| ==> IsLineBreak(s[r])
    ensures forall j :: from <= j < r ==> !IsLineBreak(s[j])
    decreases |s| - from
  {
    if from == |s| || IsLineBreak(s[from]) then from else LineEnd(s, from + 1)
  }

  /**
   * `s.splitlines()`: lines without their terminators; `\r\n` is one
   * terminator and a final terminator opens no extra line.
   */
  function SplitLines(s: string): (r: seq<string>)
    ensures s == [] <==> r == []
    ensures forall k :: 0 <= k < |r| ==> forall j :: 0 <= j < |r[k]| ==> !IsLineBreak(r[k][j])
    decreases |s|
  {
    if s == [] then []
    else
      var e := LineEnd(s, 0);
      if e == |s| then [s]
      else
        var skip := if s[e] == '\r' && e + 1 < |s| && s[e + 1] == '\n' then 2 else 1;
        [s[..e]] + SplitLines(s[e + skip..])
  }

  /** Number of occurrences of `c` in `s` (`s.count(c)`). */
  function CountChar(s: string, c: char): (r: nat)
    ensures r <= |s|
  {
    if s == [] then 0 else (if s[0] == c then 1 else 0) + CountChar(s[1..], c)
  }

  lemma {:induction false} CountCharAppend(a: string, b: string, c: char)
    ensures CountChar(a + b, c) == CountChar(a, c) + CountChar(b, c)
    decreases |a|
  {
    if a == [] {
      assert a + b == b;
    } else {
      assert (a + b)[1..] == a[1..] + b;
      CountCharAppend(a[1..], b, c);
    }
  }
  /** Python's `a < b` on strings: by code point at the first difference, a proper prefix first. */
  predicate LexLess(a: string, b: string)
    decreases |a|
  {
    b != [] && (a == [] || a[0] < b[0] || (a[0] == b[0] && LexLess(a[1..], b[1..])))
  }

  lemma {:induction false} LexLessIrreflexive(a: string)
    ensures !LexLess(a, a)
    decreases |a|
  {
    if a != [] {
      LexLessIrreflexive(a[1..]);
    }
  }

  lemma {:induction false} LexLessTransitive(a: string, b: string, c: string)
    requires LexLess(a, b) && LexLess(b, c)
    ensures LexLess(a, c)
    decreases |a|
  {
    if a != [] && a[0] == b[0] && b[0] == c[0] {
      LexLessTransitive(a[1..], b[1..], c[1..]);
    }
  }

  /** Two different strings are ordered one way or the other. */
  lemma {:induction false} LexLessTotal(a: string, b: string)
    requires a != b
    ensures LexLess(a, b) || LexLess(b, a)
    decreases |a|
  {
    if a != [] && b != [] && a[0] == b[0] {
      assert a == [a[0]] + a[1..] && b == [b[0]] + b[1..];
      LexLessTotal(a[1..], b[1..]);
    }
  }
}
