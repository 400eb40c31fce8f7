/**
 * `pattern.finditer(text)`: the non-overlapping matches of a pattern, found
 * left to right, each search resuming where the previous match ended.  The
 * scan is stated over a matcher -- the answer of the pattern at each
 * position of a text of length `n` -- so that it holds for every pattern.
 */
module PatternScan {
  import opened Wrappers
  import opened Text
  import opened SourcePatterns

  /** What a pattern answers at each position of the text. */
  type Matcher = nat -> Option<Hit>

  /** The matcher of pattern `p` over `s`. */
  function Hits(p: Pattern, s: string): Matcher {
    (i: nat) => if i <= |s| then MatchAt(p, s, i) else None
  }

  /** A match at `i` ends after `i` and within the text. */
  predicate ValidAt(m: Matcher, n: nat, i: nat) {
    m(i).Some? ==> i < m(i).value.end <= n
  }

  predicate Valid(m: Matcher, n: nat) {
    forall i: nat :: i < n ==> ValidAt(m, n, i)
  }

  lemma HitsValid(p: Pattern, s: string)
    ensures Valid(Hits(p, s), |s|)
  {
    forall i: nat | i < |s|
      ensures ValidAt(Hits(p, s), |s|, i)
    {
      var r := MatchAt(p, s, i);
      assert Hits(p, s)(i) == r;
    }
  }

  /** One match of `finditer`: its span and the text the parser keeps. */
  datatype Found = Found(start: nat, end: nat, text: string)

  /** Where the search resumes after a match at `i` (its end, for a valid matcher). */
  function Resume(h: Hit, n: nat, i: nat): (r: nat)
    ensures i < r
    ensures i < n ==> r <= n
  {
    if i < h.end <= n then h.end else i + 1
  }

  /** The matches found by searching from position `i` on. */
  function Scan(m: Matcher, n: nat, i: nat): seq<Found>
    requires i <= n
    decreases n - i
  {
    if i == n then []
    else
      match m(i)
      case None => Scan(m, n, i + 1)
      case Some(h) =>
        var next := Resume(h, n, i);
        [Found(i, next, h.text)] + Scan(m, n, next)
  }

  /** The matches of pattern `p` in `s`, as `finditer` yields them. */
  function FindAll(p: Pattern, s: string): seq<Found> {
    Scan(Hits(p, s), |s|, 0)
  }

  /** `finditer`, as the loop that drives it: try the pattern at each position, skip past each match. */
  method FindIter(m: Matcher, n: nat) returns (found: seq<Found>)
    ensures found == Scan(m, n, 0)
  {
    found := [];
    var i := 0;
    while i < n
      invariant i <= n
      invariant found + Scan(m, n, i) == Scan(m, n, 0)
      decreases n - i
    {
      match m(i)
      case None =>
        i := i + 1;
      case Some(h) =>
        var next := Resume(h, n, i);
        found := found + [Found(i, next, h.text)];
        i := next;
    }
  }

  /** The 1-based line a match starts on: one more than the newlines before it. */
  function LineOf(s: string, start: nat): (r: int)
    ensures r >= 1
  {
    CountChar(Take(s, start), '\n') + 1
  }

  /** Every reported match is a match of the pattern at its start, found at or after `i`. */
  lemma {:induction false} ScanSound(m: Matcher, n: nat, i: nat)
    requires i <= n && Valid(m, n)
    ensures forall f :: f in Scan(m, n, i) ==>
      i <= f.start < f.end <= n && m(f.start) == Some(Hit(f.end, f.text))
    decreases n - i
  {
    if i < n {
      assert ValidAt(m, n, i);
      match m(i)
      case None => ScanSound(m, n, i + 1);
      case Some(h) => ScanSound(m, n, h.end);
    }
  }

  /** Each match ends before the next one starts. */
  predicate Ordered(r: seq<Found>) {
    forall k :: 0 <= k < |r| - 1 ==> r[k].end <= r[k + 1].start
  }

  /** Matches come in text order and never overlap. */
  lemma {:induction false} ScanOrdered(m: Matcher, n: nat, i: nat)
    requires i <= n
    ensures Ordered(Scan(m, n, i))
    decreases n - i
  {
    if i < n {
      match m(i)
      case None =>
        ScanOrdered(m, n, i + 1);
        assert Scan(m, n, i) == Scan(m, n, i + 1);
      case Some(h) =>
        var next := Resume(h, n, i);
        ScanOrdered(m, n, next);
        ScanStarts(m, n, next);
        var rest := Scan(m, n, next);
        var r := Scan(m, n, i);
        assert r == [Found(i, next, h.text)] + rest;
        if |rest| > 0 {
          assert rest[0] in rest;
        }
        forall k | 0 <= k < |r| - 1
          ensures r[k].end <= r[k + 1].start
        {
          if k > 0 {
            assert r[k] == rest[k - 1] && r[k + 1] == rest[k];
          } else {
            assert r[1] == rest[0];
          }
        }
    }
  }

  /** Every match found from `i` on starts at or after `i`. */
  lemma {:induction false} ScanStarts(m: Matcher, n: nat, i: nat)
    requires i <= n
    ensures forall f :: f in Scan(m, n, i) ==> i <= f.start
    decreases n - i
  {
    if i < n {
      match m(i)
      case None => ScanStarts(m, n, i + 1);
      case Some(h) => ScanStarts(m, n, Resume(h, n, i));
    }
  }

  /**
   * No match is missed: every position where the pattern matches is the
   * start of a reported match or lies inside one.
   */
  lemma {:induction false} ScanComplete(m: Matcher, n: nat, i: nat, j: nat)
    requires i <= j < n && m(j).Some?
    ensures exists f :: f in Scan(m, n, i) && f.start <= j < f.end
    decreases n - i
  {
    match m(i)
    case None =>
      ScanComplete(m, n, i + 1, j);
      var f :| f in Scan(m, n, i + 1) && f.start <= j < f.end;
      assert f in Scan(m, n, i);
    case Some(h) =>
      var next := Resume(h, n, i);
      var r := Scan(m, n, i);
      assert r[0] == Found(i, next, h.text);
      if j >= next {
        ScanComplete(m, n, next, j);
        var f :| f in Scan(m, n, next) && f.start <= j < f.end;
        assert f in r;
      }
  }
}
