/**
 * A markdown document as keyed `## ` sections: heading recognition, key
 * normalisation, parsing with de-duplicated keys, and re-serialisation with
 * some section bodies replaced.
 */
module MarkdownSections {
  import opened Wrappers
  import opened Text

  // ---------------------------------------------------------------------
  // Section keys
  // ---------------------------------------------------------------------

  /** The canonical section keys, in the order their variants are tried. */
  const SectionKeys: seq<string> := ["overview", "architecture", "modules", "changelog"]

  /** The heading variants that select each canonical key. */
  const SectionVariants: seq<seq<string>> := [
    ["project overview", "overview"],
    ["architecture", "system design"],
    ["key modules", "modules"],
    ["changelog", "change log", "recent changes"]
  ]

  /** Some variant of the canonical key at `k` occurs in `lower`. */
  predicate MentionsKey(lower: string, k: nat)
    requires k < 4
  {
    exists v :: v in SectionVariants[k] && Contains(lower, v)
  }

  /** The first canonical key at index `k` or later that `lower` mentions. */
  function FirstMentionedKey(lower: string, k: nat): (r: Option<nat>)
    requires k <= 4
    ensures r.Some? ==> k <= r.value < 4 && MentionsKey(lower, r.value)
    ensures r.Some? ==> forall j :: k <= j < r.value ==> !MentionsKey(lower, j)
    ensures r.None? ==> forall j :: k <= j < 4 ==> !MentionsKey(lower, j)
    decreases 4 - k
  {
    if k == 4 then None
    else if MentionsKey(lower, k) then Some(k)
    else FirstMentionedKey(lower, k + 1)
  }

  /** The characters kept by the slug: `[a-z0-9]`. */
  predicate IsSlugChar(c: char) { IsLowerAlnum(c) || c == '_' }

  /** Drops a leading run of characters outside `[a-z0-9]`. */
  function SkipNonAlnum(s: string): (r: string)
    ensures |r| <= |s| && r == s[|s| - |r|..]
    ensures r == [] || IsLowerAlnum(r[0])
  {
    if s != [] && !IsLowerAlnum(s[0]) then SkipNonAlnum(s[1..]) else s
  }

  /** `re.sub(r'[^a-z0-9]+', '_', s)`: every maximal run outside `[a-z0-9]` becomes one `_`. */
  function Slug(s: string): (r: string)
    ensures forall i :: 0 <= i < |r| ==> IsSlugChar(r[i])
    ensures forall i, j :: 0 <= i && j == i + 1 < |r| ==> r[i] != '_' || r[j] != '_'
    ensures s != [] && IsLowerAlnum(s[0]) ==> r != [] && r[0] == s[0]
    ensures (forall i :: 0 <= i < |s| ==> IsLowerAlnum(s[i])) ==> r == s
    decreases |s|
  {
    if s == [] then []
    else if IsLowerAlnum(s[0]) then [s[0]] + Slug(s[1..])
    else "_" + Slug(SkipNonAlnum(s[1..]))
  }

  lemma StripCharKeepsSlugChars(s: string)
    requires forall i :: 0 <= i < |s| ==> IsSlugChar(s[i])
    ensures forall i :: 0 <= i < |StripChar(s, '_')| ==> IsSlugChar(StripChar(s, '_')[i])
    decreases |s|
  {
    if |s| > 0 && s[0] == '_' {
      StripCharKeepsSlugChars(s[1..]);
    } else if |s| > 0 && s[|s| - 1] == '_' {
      StripCharKeepsSlugChars(s[..|s| - 1]);
    }
  }

  /** Every canonical key is a slug of at most 40 characters. */
  lemma SectionKeysAreSlugs(k: nat)
    requires k < 4
    ensures |SectionKeys[k]| <= 40 && forall i :: 0 <= i < |SectionKeys[k]| ==> IsSlugChar(SectionKeys[k][i])
  {
  }

  /**
   * `_normalize_section_key`: the first canonical key, in table order, one of
   * whose variants occurs in the lower-cased heading; otherwise a slug of the
   * heading without outer `_`, cut to 40 characters.
   */
  function NormalizeSectionKey(heading: string): (r: string)
    ensures forall k :: (0 <= k < 4 && MentionsKey(Lower(heading), k)
              && (forall j :: 0 <= j < k ==> !MentionsKey(Lower(heading), j))) ==> r == SectionKeys[k]
    ensures (forall k :: 0 <= k < 4 ==> !MentionsKey(Lower(heading), k))
              ==> r == Take(StripChar(Slug(Lower(heading)), '_'), 40)
    ensures |r| <= 40
    ensures forall i :: 0 <= i < |r| ==> IsSlugChar(r[i])
  {
    var lower := Lower(heading);
    match FirstMentionedKey(lower, 0)
    case Some(k) => SectionKeysAreSlugs(k); SectionKeys[k]
    case None =>
      StripCharKeepsSlugChars(Slug(lower));
      Take(StripChar(Slug(lower), '_'), 40)
  }

  // ---------------------------------------------------------------------
  // Heading recognition: the regex `^##\s+(.+)$` in multi-line mode
  // ---------------------------------------------------------------------

  /** The end of the whitespace run starting at `i`. */
  function SpaceRunEnd(s: string, i: nat): (r: nat)
    requires i <= |s|
    ensures i <= r <= |s|
    ensures r == |s| || !IsSpace(s[r])
    ensures forall j :: i <= j < r ==> IsSpace(s[j])
    decreases |s| - i
  {
    if i == |s| || !IsSpace(s[i]) then i else SpaceRunEnd(s, i + 1)
  }

  /** Where `.+` starting at `i` stops: the next `\n`, or the end of the text. */
  function EndOfLine(s: string, i: nat): (r: nat)
    requires i <= |s|
    ensures i <= r <= |s|
    ensures r == |s| || s[r] == '\n'
    ensures forall j :: i <= j < r ==> s[j] != '\n'
  {
    match FindChar(s, '\n', i)
    case Some(j) => j
    case None => |s|
  }

  /** The largest index in `[lo, hi)` whose character is not `\n`. */
  function LastNonNewline(s: string, lo: nat, hi: nat): (r: Option<nat>)
    requires hi <= |s|
    ensures r.Some? ==> lo <= r.value < hi && s[r.value] != '\n'
    ensures r.Some? ==> forall j :: r.value < j < hi ==> s[j] == '\n'
    ensures r.None? ==> forall j :: lo <= j < hi ==> s[j] == '\n'
    decreases hi
  {
    if hi <= lo then None
    else if s[hi - 1] != '\n' then Some(hi - 1)
    else LastNonNewline(s, lo, hi - 1)
  }

  /**
   * The match of `\s{minWs,}(.+)` followed by an end of line, tried at `i`:
   * the start and the end of the `.+` part.  The whitespace run is greedy and
   * may cross line breaks; when it reaches the end of the text the regex
   * backtracks to the last character it may give to `.+`.
   */
  function SpacesThenLine(s: string, i: nat, minWs: nat): (r: Option<(nat, nat)>)
    requires i <= |s|
    ensures r.Some? ==> i + minWs <= r.value.0 < r.value.1 <= |s|
    ensures r.Some? ==> forall j :: i <= j < r.value.0 ==> IsSpace(s[j])
    ensures r.Some? ==> forall j :: r.value.0 <= j < r.value.1 ==> s[j] != '\n'
    ensures r.Some? ==> r.value.1 == |s| || s[r.value.1] == '\n'
  {
    var q := SpaceRunEnd(s, i);
    if q - i < minWs then None
    else if q < |s| then Some((q, EndOfLine(s, q)))
    else
      match LastNonNewline(s, i + minWs, q)
      case None => None
      case Some(k) => Some((k, EndOfLine(s, k)))
  }

  /** Multi-line `^`: the start of the text or just after a `\n`. */
  predicate IsLineStart(s: string, p: nat) {
    p <= |s| && (p == 0 || s[p - 1] == '\n')
  }

  /** A heading match: where it starts, where the captured text starts, where it ends. */
  datatype HeadingMatch = HeadingMatch(start: nat, textStart: nat, end: nat)

  predicate WellPlaced(s: string, m: HeadingMatch) {
    m.start + 2 < m.textStart < m.end <= |s|
  }

  /** `^##\s+(.+)$` tried at line start `p`. */
  function HeadingAt(s: string, p: nat): (r: Option<HeadingMatch>)
    requires IsLineStart(s, p)
    ensures r.Some? ==> r.value.start == p && WellPlaced(s, r.value)
    ensures r.Some? ==> s[p..p + 2] == "##"
  {
    if p + 2 <= |s| && s[p..p + 2] == "##" then
      match SpacesThenLine(s, p + 2, 1)
      case None => None
      case Some((a, e)) => Some(HeadingMatch(p, a, e))
    else None
  }

  /** `finditer` of the heading regex from position `pos`: successive non-overlapping matches. */
  function HeadingMatches(s: string, pos: nat): (r: seq<HeadingMatch>)
    ensures forall i :: 0 <= i < |r| ==>
      && WellPlaced(s, r[i]) && pos <= r[i].start && IsLineStart(s, r[i].start)
      && s[r[i].start..r[i].start + 2] == "##"
    ensures forall i, j :: 0 <= i < j < |r| ==> r[i].end <= r[j].start
    decreases |s| + 1 - pos
  {
    if pos > |s| then []
    else if IsLineStart(s, pos) && HeadingAt(s, pos).Some? then
      var m := HeadingAt(s, pos).value;
      [m] + HeadingMatches(s, m.end)
    else HeadingMatches(s, pos + 1)
  }

  /** The heading text of a match: the captured group, stripped (empty for a match outside `s`). */
  function HeadingText(s: string, m: HeadingMatch): string {
    if m.textStart <= m.end <= |s| then Strip(s[m.textStart..m.end]) else ""
  }

  /** Where the body of match `i` ends: the start of the next heading, or the end of the text. */
  function BodyEnd(s: string, ms: seq<HeadingMatch>, i: nat): nat {
    if i + 1 < |ms| then ms[i + 1].start else |s|
  }

  /**
   * The body of match `i`, stripped: the text between the end of its line and
   * the next heading (empty for matches that are not in document order).
   */
  function BodyText(s: string, ms: seq<HeadingMatch>, i: nat): string
    requires i < |ms|
  {
    var e := BodyEnd(s, ms, i);
    if ms[i].end <= e <= |s| then Strip(s[ms[i].end..e]) else ""
  }

  // ---------------------------------------------------------------------
  // De-duplicated keys
  // ---------------------------------------------------------------------

  /** The `n`-th key tried for `base`: `base`, then `base_2`, `base_3`, ... */
  function Candidate(base: string, n: nat): string
    requires n >= 1
  {
    if n == 1 then base else base + "_" + NatToString(n)
  }

  lemma {:induction false} CandidateInjective(base: string, a: nat, b: nat)
    requires a >= 1 && b >= 1
    requires Candidate(base, a) == Candidate(base, b)
    ensures a == b
  {
    if a != 1 && b != 1 {
      var ca, cb := Candidate(base, a), Candidate(base, b);
      assert ca[|base| + 1..] == NatToString(a);
      assert cb[|base| + 1..] == NatToString(b);
      NatToStringInjective(a, b);
    }
  }

  /** A candidate whose index is not among the indices already tried is not among them. */
  lemma CandidateFresh(base: string, tried: set<string>, k: nat)
    requires k >= 1
    requires forall t :: t in tried ==> exists n :: 1 <= n < k && t == Candidate(base, n)
    ensures Candidate(base, k) !in tried
  {
    if Candidate(base, k) in tried {
      var n :| 1 <= n < k && Candidate(base, k) == Candidate(base, n);
      CandidateInjective(base, n, k);
    }
  }

  lemma SubsetCardinality<T>(a: set<T>, b: set<T>)
    requires a <= b
    ensures |a| <= |b|
  {
    if a != {} {
      var x :| x in a;
      SubsetCardinality(a - {x}, b - {x});
    }
  }

  /** `key` is the first of `base`'s candidates outside `taken`. */
  ghost predicate FirstFreeCandidate(key: string, base: string, taken: set<string>) {
    exists n :: n >= 1 && key == Candidate(base, n) && key !in taken
      && forall m :: 1 <= m < n ==> Candidate(base, m) in taken
  }

  /** The set of keys in a sequence. */
  function KeySet(keys: seq<string>): (r: set<string>)
    ensures forall k :: k in r <==> k in keys
  {
    set k | k in keys
  }

  /** The de-duplication loop of `_parse_markdown_sections`: try `base`, `base_2`, ... until one is free. */
  method UniqueKey(base: string, sections: map<string, string>) returns (key: string)
    ensures key !in sections
    ensures FirstFreeCandidate(key, base, sections.Keys)
  {
    key := base;
    var suffix := 2;
    ghost var tried: set<string> := {};
    while key in sections
      invariant suffix >= 2
      invariant key == Candidate(base, suffix - 1)
      invariant tried <= sections.Keys
      invariant |tried| == suffix - 2
      invariant forall t :: t in tried ==> exists n :: 1 <= n < suffix - 1 && t == Candidate(base, n)
      invariant forall n :: 1 <= n < suffix - 1 ==> Candidate(base, n) in sections
      decreases |sections.Keys| - |tried|
    {
      CandidateFresh(base, tried, suffix - 1);
      tried := tried + {key};
      SubsetCardinality(tried, sections.Keys);
      key := base + "_" + NatToString(suffix);
      suffix := suffix + 1;
    }
  }

  // ---------------------------------------------------------------------
  // Parsing
  // ---------------------------------------------------------------------

  /** Sections by key, the keys in document order, and each key's original heading. */
  datatype ParsedDocument = ParsedDocument(
    sections: map<string, string>,
    order: seq<string>,
    headings: map<string, string>)

  /** The key under which a document without any heading is kept whole. */
  const FullKey: string := "__full__"

  /** Matches that lie inside `s`, in document order, without overlapping. */
  ghost predicate InDocumentOrder(s: string, ms: seq<HeadingMatch>) {
    && (forall i :: 0 <= i < |ms| ==> WellPlaced(s, ms[i]))
    && (forall i, j :: 0 <= i < j < |ms| ==> ms[i].end <= ms[j].start)
  }

  /**
   * `doc` holds one section for each of the first `n` matches, in order: a
   * distinct key for each (the first free candidate of its normalised
   * heading), the heading text, and the body.
   */
  ghost predicate SectionsOf(content: string, ms: seq<HeadingMatch>, n: nat, doc: ParsedDocument) {
    && n <= |ms|
    && |doc.order| == n
    && (forall i, j :: 0 <= i < j < |doc.order| ==> doc.order[i] != doc.order[j])
    && doc.sections.Keys == doc.headings.Keys == KeySet(doc.order)
    && (forall i :: 0 <= i < |doc.order| ==> doc.headings[doc.order[i]] == HeadingText(content, ms[i]))
    && (forall i :: 0 <= i < |doc.order| ==> doc.sections[doc.order[i]] == BodyText(content, ms, i))
    && (forall i :: 0 <= i < |doc.order| ==>
          FirstFreeCandidate(doc.order[i], NormalizeSectionKey(HeadingText(content, ms[i])), KeySet(doc.order[..i])))
  }

  /** One step of `_parse_markdown_sections`: the heading text and the body of match `idx`. */
  method ReadSection(content: string, ms: seq<HeadingMatch>, idx: nat) returns (heading: string, body: string)
    requires InDocumentOrder(content, ms) && idx < |ms|
    ensures heading == HeadingText(content, ms[idx])
    ensures body == BodyText(content, ms, idx)
  {
    var m := ms[idx];
    assert WellPlaced(content, m);
    heading := Strip(content[m.textStart..m.end]);
    var end := if idx + 1 < |ms| then ms[idx + 1].start else |content|;
    assert idx + 1 < |ms| ==> WellPlaced(content, ms[idx + 1]) && m.end <= ms[idx + 1].start;
    body := Strip(content[m.end..end]);
  }

  /** The loop of `_parse_markdown_sections` over the heading matches. */
  method CollectSections(content: string, ms: seq<HeadingMatch>) returns (doc: ParsedDocument)
    requires InDocumentOrder(content, ms)
    ensures SectionsOf(content, ms, |ms|, doc)
  {
    var sections: map<string, string> := map[];
    var order: seq<string> := [];
    var headings: map<string, string> := map[];
    for idx := 0 to |ms|
      invariant |order| == idx
      invariant SectionsOf(content, ms, idx, ParsedDocument(sections, order, headings))
    {
      var heading, body := ReadSection(content, ms, idx);
      var key := UniqueKey(NormalizeSectionKey(heading), sections);
      ghost var before := ParsedDocument(sections, order, headings);
      sections := sections[key := body];
      headings := headings[key := heading];
      order := order + [key];
      SectionsStep(content, ms, idx, before, ParsedDocument(sections, order, headings), key);
    }
    doc := ParsedDocument(sections, order, headings);
  }

  /** `doc` is what `_parse_markdown_sections` makes of `content`. */
  ghost predicate IsParseOf(content: string, doc: ParsedDocument) {
    (HeadingMatches(content, 0) == [] ==>
      doc == ParsedDocument(map[FullKey := content], [FullKey], map[FullKey := "Document"])) &&
    (HeadingMatches(content, 0) != [] ==> SectionsOf(content, HeadingMatches(content, 0), |HeadingMatches(content, 0)|, doc))
  }

  /** `_parse_markdown_sections` */
  method ParseMarkdownSections(content: string) returns (doc: ParsedDocument)
    ensures HeadingMatches(content, 0) == [] ==>
      doc == ParsedDocument(map[FullKey := content], [FullKey], map[FullKey := "Document"])
    ensures HeadingMatches(content, 0) != [] ==> SectionsOf(content, HeadingMatches(content, 0), |HeadingMatches(content, 0)|, doc)
    ensures IsParseOf(content, doc)
  {
    var ms := HeadingMatches(content, 0);
    if |ms| == 0 {
      return ParsedDocument(map[FullKey := content], [FullKey], map[FullKey := "Document"]);
    }
    doc := CollectSections(content, ms);
  }

  /** Adding the section of match `idx` under a fresh key extends the correspondence by one. */
  lemma SectionsStep(content: string, ms: seq<HeadingMatch>, idx: nat, before: ParsedDocument, after: ParsedDocument, key: string)
    requires idx < |ms|
    requires SectionsOf(content, ms, idx, before)
    requires key !in before.sections
    requires FirstFreeCandidate(key, NormalizeSectionKey(HeadingText(content, ms[idx])), before.sections.Keys)
    requires after == ParsedDocument(
      before.sections[key := BodyText(content, ms, idx)],
      before.order + [key],
      before.headings[key := HeadingText(content, ms[idx])])
    ensures SectionsOf(content, ms, idx + 1, after)
  {
    assert key !in before.order;
    AppendDistinct(before.order, key);
    AppendKeySet(before.order, key);
    assert after.sections.Keys == before.sections.Keys + {key};
    assert after.headings.Keys == before.headings.Keys + {key};
    StepValues(content, ms, idx, before, after, key);
    StepFirstFree(content, ms, idx, before.order, key);
    assert after.order == before.order + [key];
  }

  lemma StepValues(content: string, ms: seq<HeadingMatch>, idx: nat, before: ParsedDocument, after: ParsedDocument, key: string)
    requires idx < |ms| && |before.order| == idx
    requires before.sections.Keys == before.headings.Keys == KeySet(before.order)
    requires forall i :: 0 <= i < idx ==> before.headings[before.order[i]] == HeadingText(content, ms[i])
    requires forall i :: 0 <= i < idx ==> before.sections[before.order[i]] == BodyText(content, ms, i)
    requires key !in before.order
    requires after == ParsedDocument(
      before.sections[key := BodyText(content, ms, idx)],
      before.order + [key],
      before.headings[key := HeadingText(content, ms[idx])])
    ensures forall i :: 0 <= i < idx + 1 ==> after.headings[after.order[i]] == HeadingText(content, ms[i])
    ensures forall i :: 0 <= i < idx + 1 ==> after.sections[after.order[i]] == BodyText(content, ms, i)
  {
    forall i | 0 <= i < idx + 1
      ensures after.headings[after.order[i]] == HeadingText(content, ms[i])
      ensures after.sections[after.order[i]] == BodyText(content, ms, i)
    {
      if i < idx {
        assert after.order[i] == before.order[i] != key;
      }
    }
  }

  lemma StepFirstFree(content: string, ms: seq<HeadingMatch>, idx: nat, order: seq<string>, key: string)
    requires idx < |ms| && |order| == idx
    requires forall i :: 0 <= i < idx ==>
      FirstFreeCandidate(order[i], NormalizeSectionKey(HeadingText(content, ms[i])), KeySet(order[..i]))
    requires FirstFreeCandidate(key, NormalizeSectionKey(HeadingText(content, ms[idx])), KeySet(order))
    ensures forall i :: 0 <= i < idx + 1 ==>
      FirstFreeCandidate((order + [key])[i], NormalizeSectionKey(HeadingText(content, ms[i])), KeySet((order + [key])[..i]))
  {
    forall i | 0 <= i < idx + 1
      ensures FirstFreeCandidate((order + [key])[i], NormalizeSectionKey(HeadingText(content, ms[i])), KeySet((order + [key])[..i]))
    {
      assert (order + [key])[..i] == order[..i];
      if i == idx {
        assert order[..idx] == order;
      }
    }
  }

  lemma AppendDistinct(order: seq<string>, key: string)
    requires forall i, j :: 0 <= i < j < |order| ==> order[i] != order[j]
    requires key !in order
    ensures forall i, j :: 0 <= i < j < |order + [key]| ==> (order + [key])[i] != (order + [key])[j]
  {
  }

  lemma AppendKeySet(order: seq<string>, key: string)
    ensures KeySet(order + [key]) == KeySet(order) + {key}
  {
  }

  // ---------------------------------------------------------------------
  // Re-serialisation
  // ---------------------------------------------------------------------

  predicate IsUpper(c: char) { 'A' <= c <= 'Z' }

  predicate IsLetter(c: char) { 'a' <= c <= 'z' || IsUpper(c) }

  function UpperChar(c: char): char {
    if 'a' <= c <= 'z' then (c as int - 32) as char else c
  }

  /** `s.title()`: a letter right after a non-letter is upper-cased, every other letter lower-cased. */
  function Title(s: string, afterLetter: bool): (r: string)
    ensures |r| == |s|
    decreases |s|
  {
    if s == [] then []
    else
      var c := if IsLetter(s[0]) && !afterLetter then UpperChar(s[0]) else LowerChar(s[0]);
      [c] + Title(s[1..], IsLetter(s[0]))
  }

  /** The heading written for `key`: its original heading, or the key title-cased. */
  function HeadingFor(parsed: ParsedDocument, key: string): string {
    if key in parsed.headings then parsed.headings[key] else Title(Replace(key, "_", " "), false)
  }

  /** The body written for `key`, stripped: the replacement, else the parsed body, else nothing. */
  function BodyFor(parsed: ParsedDocument, updated: map<string, string>, key: string): (r: string)
    ensures r == [] || (!IsSpace(r[0]) && !IsSpace(r[|r| - 1]))
  {
    if key in updated then Strip(updated[key])
    else if key in parsed.sections then Strip(parsed.sections[key])
    else ""
  }

  /** The text `_merge_sections` emits for one key. */
  function Block(parsed: ParsedDocument, updated: map<string, string>, key: string): (r: string)
  {
    "## " + HeadingFor(parsed, key) + "\n" + BodyFor(parsed, updated, key) + "\n"
  }

  /** The blocks for `parsed.order`, one per key, in order. */
  function Blocks(parsed: ParsedDocument, updated: map<string, string>): (r: seq<string>)
    ensures |r| == |parsed.order|
    ensures forall i :: 0 <= i < |r| ==> r[i] == Block(parsed, updated, parsed.order[i])
  {
    seq(|parsed.order|, i requires 0 <= i < |parsed.order| => Block(parsed, updated, parsed.order[i]))
  }

  /** The merged document body. */
  function MergedText(parsed: ParsedDocument, updated: map<string, string>): string {
    Strip(Join(Blocks(parsed, updated), "\n"))
  }

  /** `_merge_sections` */
  method MergeSections(parsed: ParsedDocument, updated: map<string, string>) returns (r: string)
    ensures r == MergedText(parsed, updated)
  {
    var lines: seq<string> := [];
    for i := 0 to |parsed.order|
      invariant |lines| == i
      invariant forall j :: 0 <= j < i ==> lines[j] == Block(parsed, updated, parsed.order[j])
    {
      var key := parsed.order[i];
      var heading := HeadingFor(parsed, key);
      var body := BodyFor(parsed, updated, key);
      lines := lines + ["## " + heading + "\n" + body + "\n"];
    }
    assert lines == Blocks(parsed, updated);
    r := Strip(Join(lines, "\n"));
  }

  /** Replacements for keys outside `parsed.order` have no effect on the merged text. */
  lemma {:induction false} MergeIgnoresForeignKeys(parsed: ParsedDocument, updated: map<string, string>, extra: map<string, string>)
    requires forall k :: k in extra ==> k !in parsed.order
    ensures MergedText(parsed, updated + extra) == MergedText(parsed, updated)
  {
    var a, b := Blocks(parsed, updated + extra), Blocks(parsed, updated);
    forall i | 0 <= i < |a|
      ensures a[i] == b[i]
    {
      var key := parsed.order[i];
      assert key !in extra;
      assert BodyFor(parsed, updated + extra, key) == BodyFor(parsed, updated, key);
    }
    assert a == b;
  }

  /** The body written for any key of the document is present in the merged text. */
  lemma MergeKeepsBody(parsed: ParsedDocument, updated: map<string, string>, i: nat)
    requires i < |parsed.order|
    ensures Contains(MergedText(parsed, updated), BodyFor(parsed, updated, parsed.order[i]))
  {
    var key := parsed.order[i];
    var blocks := Blocks(parsed, updated);
    var joined := Join(blocks, "\n");
    JoinOccurs(blocks, "\n", i);
    var a :| OccursAt(joined, blocks[i], a);
    var body := BodyFor(parsed, updated, key);
    var head := "## " + HeadingFor(parsed, key) + "\n";
    assert blocks[i] == head + body + "\n";
    assert blocks[i][|head|..|head| + |body|] == body;
    OccursWithin(joined, blocks[i], body, a, |head|);
    StripKeepsTrimmed(joined, body, a + |head|);
  }

  /** A replacement given for a key of the document is present in the merged text. */
  lemma MergeKeepsUpdate(parsed: ParsedDocument, updated: map<string, string>, key: string)
    requires key in parsed.order && key in updated
    ensures Contains(MergedText(parsed, updated), Strip(updated[key]))
  {
    var i :| 0 <= i < |parsed.order| && parsed.order[i] == key;
    MergeKeepsBody(parsed, updated, i);
  }

  /** A key of the document without a replacement keeps its parsed body in the merged text. */
  lemma MergeKeepsUntouched(parsed: ParsedDocument, updated: map<string, string>, key: string)
    requires key in parsed.order && key !in updated && key in parsed.sections
    ensures Contains(MergedText(parsed, updated), Strip(parsed.sections[key]))
  {
    var i :| 0 <= i < |parsed.order| && parsed.order[i] == key;
    MergeKeepsBody(parsed, updated, i);
  }
}
