/**
 * The change analyzer node itself: the sections a change affects (guessed
 * from the file names, or read from the LLM's answer), the per-file change
 * summaries in the order of the changed files, and the node, which stores
 * both in the pipeline state.
 */
module ChangeAnalysis {
  import opened Wrappers
  import opened Text
  import opened Records
  import opened Collections
  import opened PipelineState
  import opened PartialUpdate
  import opened ChangeAnalyzer

  const AllowedTargets: set<string> := {"overview", "architecture", "modules", "changelog"}
  const AnalyzerFailurePrefix: string := "Change analyzer failed: "
  const AnalyzerLlmRequired: string := "LLM is required for non-mock mode"

  // ---------------------------------------------------------------------
  // `_identify_target_sections`
  // ---------------------------------------------------------------------

  /** The sections one changed file suggests, from substrings of its lowercased path. */
  function PathSections(f: string): (r: set<string>)
    ensures r <= AllowedTargets - {"changelog"}
  {
    var lf := Lower(f);
    (if Contains(lf, "main") || Contains(lf, "app") || Contains(lf, "config") then {"overview"} else {})
    + (if Contains(lf, "router") || Contains(lf, "endpoint") || Contains(lf, "controller") then {"architecture", "modules"} else {})
    + (if Contains(lf, "model") || Contains(lf, "schema") || Contains(lf, "entity") then {"modules"} else {})
    + (if Contains(lf, "service") || Contains(lf, "handler") then {"modules"} else {})
  }

  /** The union of the sections the files suggest. */
  function PathsSections(files: seq<string>): (r: set<string>)
    ensures r <= AllowedTargets - {"changelog"}
    decreases |files|
  {
    if files == [] then {} else PathsSections(files[..|files| - 1]) + PathSections(files[|files| - 1])
  }

  /** `_identify_target_sections`: a set filled file by file plus `changelog`, returned as a list in some order. */
  method IdentifyTargetSections(files: seq<string>) returns (r: seq<string>)
    ensures forall k :: k in r <==> k in PathsSections(files) + {"changelog"}
    ensures "changelog" in r && Distinct(r)
  {
    var targets: set<string> := {};
    for i := 0 to |files|
      invariant targets == PathsSections(files[..i])
    {
      assert files[..i + 1][..i] == files[..i];
      targets := targets + PathSections(files[i]);
    }
    assert files[..|files|] == files;
    targets := targets + {"changelog"};
    r := SeqOfSet(targets);
  }

  /**
   * The analyzer's guess and the generator's `_infer_target_sections` agree:
   * the generator's extra rule only adds `changelog`, which both always add.
   */
  lemma {:induction false} IdentifiedIsInferred(files: seq<string>)
    ensures PathsSections(files) + {"changelog"} == InferredTargets(files)
    decreases |files|
  {
    if files == [] {
      assert FilesSections(files) == {};
    } else {
      var f := files[|files| - 1];
      IdentifiedIsInferred(files[..|files| - 1]);
      assert FileSections(f) + {"changelog"} == PathSections(f) + {"changelog"};
    }
  }

  // ---------------------------------------------------------------------
  // `_extract_section_targets`
  // ---------------------------------------------------------------------

  const TargetsMarker: string := "section_targets:"

  /** A character of the class `[a-z,\s]` matched without regard to case. */
  predicate TargetChar(c: char) {
    'a' <= c <= 'z' || 'A' <= c <= 'Z' || c == ',' || IsSpace(c)
  }

  /** The end of the line at or after `i`: the next `\n`, or the end of the text. */
  function LineStop(t: string, i: nat): (e: nat)
    requires i <= |t|
    ensures i <= e <= |t| && (e == |t| || t[e] == '\n')
    ensures forall j :: i <= j < e ==> t[j] != '\n'
  {
    match FindChar(t, '\n', i)
    case Some(e) => e
    case None => |t|
  }

  /** The last `\n` in `t[lo..hi]`, if any. */
  function LastNewline(t: string, lo: nat, hi: nat): (r: Option<nat>)
    requires lo <= hi <= |t|
    ensures r.Some? ==> lo <= r.value < hi && t[r.value] == '\n'
    ensures r.None? ==> forall j :: lo <= j < hi ==> t[j] != '\n'
    decreases hi
  {
    if hi == lo then None
    else if t[hi - 1] == '\n' then Some(hi - 1)
    else LastNewline(t, lo, hi - 1)
  }

  /**
   * Group 1 of `re.search(r'section_targets:\s*([a-z,\s]+?)(?:\n|$)', t,
   * re.MULTILINE | re.IGNORECASE)`, searching from `from`.  At an occurrence
   * of the marker, the greedy `\s*` first takes the whole whitespace run;
   * the lazy group then ends at the first line end, and succeeds when every
   * character up to it is in the class.  Otherwise `\s*` gives back one
   * character at a time, and the group becomes a single whitespace
   * character: the last one of the text, or the one before the run's last
   * `\n`.  Without either, the search moves to the next occurrence.
   */
  function TargetsGroup(t: string, from: nat): (r: Option<string>)
    ensures r.Some? ==> |r.value| > 0 && forall i :: 0 <= i < |r.value| ==> TargetChar(r.value[i])
    ensures FindFrom(t, TargetsMarker, from).None? ==> r.None?
    decreases |t| - from
  {
    match FindFrom(t, TargetsMarker, from)
    case None => None
    case Some(p) =>
      var q := p + |TargetsMarker|;
      var w := SkipSpaces(t, q);
      var e := LineStop(t, w);
      if w < |t| && forall j :: w <= j < e ==> TargetChar(t[j]) then
        assert t[w] != '\n';
        Some(t[w..e])
      else if q < w && w == |t| then Some(t[w - 1..w])
      else if q < w && LastNewline(t, q + 1, w).Some? then
        var l := LastNewline(t, q + 1, w).value;
        Some(t[l - 1..l])
      else TargetsGroup(t, p + 1)
  }

  /** `re.sub(r'\s+', ' ', s)`: every whitespace run becomes one space. */
  function CollapseSpaces(s: string): (r: string)
    ensures |r| <= |s|
    decreases |s|
  {
    if s == [] then []
    else if !IsSpace(s[|s| - 1]) then CollapseSpaces(s[..|s| - 1]) + [s[|s| - 1]]
    else if |s| >= 2 && IsSpace(s[|s| - 2]) then CollapseSpaces(s[..|s| - 1])
    else CollapseSpaces(s[..|s| - 1]) + " "
  }

  /** The allowed section keys among `ts`, in order. */
  function KeepAllowed(ts: seq<string>): (r: seq<string>)
    ensures forall t :: t in r ==> t in AllowedTargets
    decreases |ts|
  {
    if ts == [] then []
    else
      var t := ts[|ts| - 1];
      KeepAllowed(ts[..|ts| - 1]) + (if t in AllowedTargets then [t] else [])
  }

  lemma {:induction false} KeepAllowedIff(ts: seq<string>, t: string)
    ensures t in KeepAllowed(ts) <==> t in AllowedTargets && t in ts
    decreases |ts|
  {
    if ts != [] {
      var init := ts[..|ts| - 1];
      KeepAllowedIff(init, t);
      assert ts == init + [ts[|ts| - 1]];
    }
  }

  /**
   * `[t for t in (x.strip() for x in parts if x.strip()) if t in allowed]`;
   * the filter on a non-empty strip is subsumed by the one on `allowed`,
   * which holds no empty key.
   */
  function AllowedTokens(parts: seq<string>): (r: seq<string>)
    ensures forall t :: t in r ==> t in AllowedTargets
  {
    KeepAllowed(StripAll(parts))
  }

  /** A key is listed exactly when it is allowed and some part strips to it. */
  lemma AllowedTokensIff(parts: seq<string>, t: string)
    ensures t in AllowedTokens(parts) <==> t in AllowedTargets && exists i :: 0 <= i < |parts| && Strip(parts[i]) == t
  {
    KeepAllowedIff(StripAll(parts), t);
  }

  /** The lower-cased answer's targets: the allowed keys listed after `section_targets:`, in order. */
  function TargetsIn(lt: string): (r: seq<string>)
    ensures forall t :: t in r ==> t in AllowedTargets
    ensures !Contains(lt, TargetsMarker) ==> r == []
  {
    FindFromContains(lt, TargetsMarker);
    match TargetsGroup(lt, 0)
    case None => []
    case Some(g) => AllowedTokens(Split(CollapseSpaces(Strip(g)), ","))
  }

  /** `_extract_section_targets`: the answer is searched without regard to case. */
  function ExtractSectionTargets(text: string): (r: seq<string>)
    ensures forall t :: t in r ==> t in AllowedTargets
    ensures !Contains(Lower(text), TargetsMarker) ==> r == []
  {
    TargetsIn(Lower(text))
  }

  /** A group of whitespace only lists no section. */
  lemma BlankGroupNoTargets(g: string)
    requires Strip(g) == []
    ensures AllowedTokens(Split(CollapseSpaces(Strip(g)), ",")) == []
  {
    assert FindFrom([], ",", 0) == None;
    assert Split([], ",") == [[]];
    assert AllowedTokens([[]]) == AllowedTokens([]) + [];
  }

  /** The text is lower-cased first, so the answer's capitalisation does not matter. */
  lemma ExtractIgnoresCase(text: string)
    ensures ExtractSectionTargets(Lower(text)) == ExtractSectionTargets(text)
  {
    LowerIdempotent(text);
  }

  // ---------------------------------------------------------------------
  // `_build_prompt`
  // ---------------------------------------------------------------------

  /** A line `_build_prompt` keeps: an added or a removed line. */
  predicate IsChangedLine(line: string) {
    StartsWith(line, "+") || StartsWith(line, "-")
  }

  /** The changed lines among `lines`, in order. */
  function ChangedLines(lines: seq<string>): (r: seq<string>)
    ensures |r| <= |lines|
    ensures forall i :: 0 <= i < |r| ==> IsChangedLine(r[i])
    decreases |lines|
  {
    if lines == [] then []
    else ChangedLines(lines[..|lines| - 1]) + (if IsChangedLine(lines[|lines| - 1]) then [lines[|lines| - 1]] else [])
  }

  /** The changed lines of a prefix are a prefix of the changed lines. */
  lemma {:induction false} ChangedLinesPrefix(lines: seq<string>, n: nat)
    requires n <= |lines|
    ensures ChangedLines(lines[..n]) <= ChangedLines(lines)
    decreases |lines|
  {
    if n < |lines| {
      var init := lines[..|lines| - 1];
      assert init[..n] == lines[..n];
      ChangedLinesPrefix(init, n);
    } else {
      assert lines[..n] == lines;
    }
  }

  const ExcerptLines: nat := 120
  const ExcerptChars: nat := 1500

  /** The part of a file's diff that `_build_prompt` puts in the prompt: its first 120 changed lines, cut to 1500 characters. */
  function DiffExcerpt(fileDiff: string): (r: string)
    ensures |r| <= ExcerptChars
    ensures r <= Join(Take(ChangedLines(Split(fileDiff, "\n")), ExcerptLines), "\n")
  {
    Take(Join(Take(ChangedLines(Split(fileDiff, "\n")), ExcerptLines), "\n"), ExcerptChars)
  }

  /** The loop of `_build_prompt`, which stops once more than 120 changed lines are collected. */
  method BuildExcerpt(fileDiff: string) returns (excerpt: string)
    ensures excerpt == DiffExcerpt(fileDiff)
  {
    var lines := Split(fileDiff, "\n");
    var changed: seq<string> := [];
    var i := 0;
    while i < |lines| && |changed| <= ExcerptLines
      invariant 0 <= i <= |lines|
      invariant changed == ChangedLines(lines[..i])
      invariant |changed| <= ExcerptLines + 1
    {
      assert lines[..i + 1][..i] == lines[..i];
      if IsChangedLine(lines[i]) {
        changed := changed + [lines[i]];
      }
      i := i + 1;
    }
    ChangedLinesPrefix(lines, i);
    if i == |lines| {
      assert lines[..i] == lines;
    }
    assert Take(changed, ExcerptLines) == Take(ChangedLines(lines), ExcerptLines);
    excerpt := Take(Join(Take(changed, ExcerptLines), "\n"), ExcerptChars);
  }

  /** A diff without added or removed lines gives an empty excerpt. */
  lemma NoChangedLinesEmptyExcerpt(fileDiff: string)
    requires ChangedLines(Split(fileDiff, "\n")) == []
    ensures DiffExcerpt(fileDiff) == []
  {
    assert Take(ChangedLines(Split(fileDiff, "\n")), ExcerptLines) == [];
  }

  // ---------------------------------------------------------------------
  // `_generate_file_summaries`
  // ---------------------------------------------------------------------

  /** How `_generate_file_summaries` runs: the mock, no LLM, or the LLM. */
  datatype SummaryMode = MockMode | NoLlmMode | LlmMode

  function ModeOf(useMock: bool, llmAvailable: bool): SummaryMode {
    if useMock then MockMode else if !llmAvailable then NoLlmMode else LlmMode
  }

  /** The summary of a low-priority file when the LLM is available: the name and the change type. */
  function LowSummary(f: string, m: DiffMap): (r: ChangeSummary)
    ensures r.file == f && r.priority == Low
  {
    var changeType := DetectChangeType(FindDiffForFile(f, m));
    ChangeSummary(f, changeType, f + " (" + changeType.Name() + ")", Low)
  }

  /**
   * `_summarize`: a file with no diff block gets a fixed text; otherwise
   * the LLM is asked about the excerpt of its block, and a failed call is
   * replaced by a fixed text.  `ask(file, excerpt)` stands for the call,
   * retries included.
   */
  function LlmSummary(f: string, priority: Priority, m: DiffMap, ask: (string, string) -> Reply): (r: ChangeSummary)
    ensures r.file == f && r.priority == priority
  {
    var fileDiff := FindDiffForFile(f, m);
    var changeType := DetectChangeType(fileDiff);
    var text :=
      if fileDiff == [] then f + " 변경 (Diff 상세 없음)"
      else match ask(f, DiffExcerpt(fileDiff))
        case Answer(t) => t
        case Failure(_) => f + " 파일 " + changeType.Name() + " (분석 실패)";
    ChangeSummary(f, changeType, text, priority)
  }

  /** The summary `_generate_file_summaries` returns for the file `f`. */
  function FileChangeSummary(f: string, m: DiffMap, mode: SummaryMode, ask: (string, string) -> Reply): (r: ChangeSummary)
    ensures r.file == f && r.priority == FilePriority(f)
  {
    var priority := FilePriority(f);
    if mode == LlmMode then
      if priority == Low then LowSummary(f, m) else LlmSummary(f, priority, m, ask)
    else
      var changeType := DetectChangeType(FindDiffForFile(f, m));
      ChangeSummary(f, changeType, InOrderText(f, changeType, mode), priority)
  }

  /** Every mode reads the change type off the file's own diff block. */
  lemma SummaryChangeType(f: string, m: DiffMap, mode: SummaryMode, ask: (string, string) -> Reply)
    ensures FileChangeSummary(f, m, mode, ask).changeType == DetectChangeType(FindDiffForFile(f, m))
  {
  }

  /** Low-priority files and files without a diff block never reach the LLM. */
  lemma SummaryWithoutLlm(f: string, m: DiffMap, mode: SummaryMode, ask1: (string, string) -> Reply, ask2: (string, string) -> Reply)
    requires mode != LlmMode || FilePriority(f) == Low || FindDiffForFile(f, m) == []
    ensures FileChangeSummary(f, m, mode, ask1) == FileChangeSummary(f, m, mode, ask2)
  {
  }

  /** A high- or medium-priority file with a diff block is summarised by the LLM's answer, or the failure text. */
  lemma SummaryFromLlm(f: string, m: DiffMap, ask: (string, string) -> Reply)
    requires FilePriority(f) != Low && FindDiffForFile(f, m) != []
    ensures FileChangeSummary(f, m, LlmMode, ask).summary ==
      match ask(f, DiffExcerpt(FindDiffForFile(f, m)))
      case Answer(t) => t
      case Failure(_) => f + " 파일 " + DetectChangeType(FindDiffForFile(f, m)).Name() + " (분석 실패)"
  {
  }

  /** One summary per file, in the order of `files`. */
  function ExpectedSummaries(files: seq<string>, m: DiffMap, mode: SummaryMode, ask: (string, string) -> Reply): (r: seq<ChangeSummary>)
    ensures |r| == |files|
    decreases |files|
  {
    if files == [] then []
    else ExpectedSummaries(files[..|files| - 1], m, mode, ask) + [FileChangeSummary(files[|files| - 1], m, mode, ask)]
  }

  /** The i-th summary is the one of the i-th changed file. */
  lemma {:induction false} ExpectedSummaryAt(files: seq<string>, m: DiffMap, mode: SummaryMode, ask: (string, string) -> Reply, i: nat)
    requires i < |files|
    ensures ExpectedSummaries(files, m, mode, ask)[i] == FileChangeSummary(files[i], m, mode, ask)
    decreases |files|
  {
    if i < |files| - 1 {
      var init := files[..|files| - 1];
      ExpectedSummaryAt(init, m, mode, ask, i);
      assert init[i] == files[i];
    }
  }

  /** `_summarize` */
  method Summarize(f: string, priority: Priority, m: DiffMap, ask: (string, string) -> Reply) returns (s: ChangeSummary)
    ensures s == LlmSummary(f, priority, m, ask)
  {
    var fileDiff := FindDiffForFile(f, m);
    var changeType := DetectChangeType(fileDiff);
    if fileDiff == [] {
      return ChangeSummary(f, changeType, f + " 변경 (Diff 상세 없음)", priority);
    }
    var excerpt := BuildExcerpt(fileDiff);
    var text;
    match ask(f, excerpt) {
      case Answer(t) => text := t;
      case Failure(_) => text := f + " 파일 " + changeType.Name() + " (분석 실패)";
    }
    s := ChangeSummary(f, changeType, text, priority);
  }

  /**
   * `_generate_file_summaries`: the mock and no-LLM modes summarise the
   * files in order; with the LLM, low-priority files are summarised first,
   * the others by `_summarize`, and the list is put back in the order of
   * `changed_files` through a dictionary keyed by file name.
   */
  method GenerateFileSummaries(files: seq<string>, diff: string, mode: SummaryMode, ask: (string, string) -> Reply)
    returns (r: seq<ChangeSummary>)
    ensures r == ExpectedSummaries(files, DiffMapOf(diff), mode, ask)
  {
    var m := ParseDiffToMap(diff);
    if mode != LlmMode {
      r := SummariesInOrder(files, m, mode, ask);
      return;
    }
    var summaries, highMedium := SummarizeLow(files, m);
    summaries := SummarizePending(summaries, highMedium, m, ask);
    assert highMedium[..|highMedium|] == highMedium;
    r := RestoreOrder(files, summaries, m, ask);
  }

  /** The text the mock and no-LLM modes give a file whose change has type `changeType`. */
  function InOrderText(f: string, changeType: ChangeType, mode: SummaryMode): string {
    if mode == MockMode then f + " 파일이 " + changeType.Name() + "되었습니다." else f + " 파일 변경"
  }

  /** One more file in the mock and no-LLM modes adds its summary at the end. */
  lemma InOrderStep(files: seq<string>, i: nat, m: DiffMap, mode: SummaryMode, ask: (string, string) -> Reply)
    requires mode != LlmMode && i < |files|
    ensures var f := files[i];
      var changeType := DetectChangeType(FindDiffForFile(f, m));
      ExpectedSummaries(files[..i + 1], m, mode, ask)
        == ExpectedSummaries(files[..i], m, mode, ask) + [ChangeSummary(f, changeType, InOrderText(f, changeType, mode), FilePriority(f))]
  {
    assert files[..i + 1][..i] == files[..i];
  }

  /** The mock and no-LLM loops: one summary per file, in order. */
  method SummariesInOrder(files: seq<string>, m: DiffMap, mode: SummaryMode, ask: (string, string) -> Reply)
    returns (r: seq<ChangeSummary>)
    requires mode != LlmMode
    ensures r == ExpectedSummaries(files, m, mode, ask)
  {
    r := [];
    for i := 0 to |files|
      invariant r == ExpectedSummaries(files[..i], m, mode, ask)
    {
      var f := files[i];
      var changeType := DetectChangeType(FindDiffForFile(f, m));
      var text := InOrderText(f, changeType, mode);
      r := r + [ChangeSummary(f, changeType, text, FilePriority(f))];
      InOrderStep(files, i, m, mode, ask);
    }
    assert files[..|files|] == files;
  }

  /** The summaries of the low-priority files among `files`, in order. */
  function LowSummaries(files: seq<string>, m: DiffMap): (r: seq<ChangeSummary>)
    decreases |files|
  {
    if files == [] then []
    else
      var f := files[|files| - 1];
      LowSummaries(files[..|files| - 1], m) + (if FilePriority(f) == Low then [LowSummary(f, m)] else [])
  }

  /** The other files, each with its priority, in order. */
  function HighMediumFiles(files: seq<string>): (r: seq<(string, Priority)>)
    decreases |files|
  {
    if files == [] then []
    else
      var f := files[|files| - 1];
      HighMediumFiles(files[..|files| - 1]) + (if FilePriority(f) != Low then [(f, FilePriority(f))] else [])
  }

  /** What `_summarize` makes of the pending files, in order. */
  function PendingSummaries(pending: seq<(string, Priority)>, m: DiffMap, ask: (string, string) -> Reply): (r: seq<ChangeSummary>)
    decreases |pending|
  {
    if pending == [] then []
    else
      var e := pending[|pending| - 1];
      PendingSummaries(pending[..|pending| - 1], m, ask) + [LlmSummary(e.0, e.1, m, ask)]
  }

  /** The first loop of the LLM mode: low-priority files are summarised at once, the others are set aside. */
  method SummarizeLow(files: seq<string>, m: DiffMap) returns (summaries: seq<ChangeSummary>, highMedium: seq<(string, Priority)>)
    ensures summaries == LowSummaries(files, m)
    ensures highMedium == HighMediumFiles(files)
  {
    summaries, highMedium := [], [];
    for i := 0 to |files|
      invariant summaries == LowSummaries(files[..i], m)
      invariant highMedium == HighMediumFiles(files[..i])
    {
      assert files[..i + 1][..i] == files[..i];
      var f := files[i];
      var p := FilePriority(f);
      if p == Low {
        var changeType := DetectChangeType(FindDiffForFile(f, m));
        summaries := summaries + [ChangeSummary(f, changeType, f + " (" + changeType.Name() + ")", p)];
      } else {
        highMedium := highMedium + [(f, p)];
      }
    }
    assert files[..|files|] == files;
  }

  /**
   * The pool of `_summarize` calls: each set-aside file's summary is added
   * to those collected so far.  The pool adds them in completion order; the
   * model adds them in submission order, which the reordering by file name
   * makes irrelevant.
   */
  method SummarizePending(summaries: seq<ChangeSummary>, highMedium: seq<(string, Priority)>, m: DiffMap, ask: (string, string) -> Reply)
    returns (all: seq<ChangeSummary>)
    ensures all == summaries + PendingSummaries(highMedium, m, ask)
  {
    all := summaries;
    for k := 0 to |highMedium|
      invariant all == summaries + PendingSummaries(highMedium[..k], m, ask)
    {
      var s := Summarize(highMedium[k].0, highMedium[k].1, m, ask);
      assert highMedium[..k + 1][..k] == highMedium[..k];
      all := all + [s];
    }
    assert highMedium[..|highMedium|] == highMedium;
  }

  /** A low-priority summary is the one the LLM mode returns for its file. */
  lemma {:induction false} LowSummaryMatches(files: seq<string>, m: DiffMap, ask: (string, string) -> Reply, s: ChangeSummary)
    requires s in LowSummaries(files, m)
    ensures s == FileChangeSummary(s.file, m, LlmMode, ask)
    decreases |files|
  {
    var init := files[..|files| - 1];
    if s in LowSummaries(init, m) {
      LowSummaryMatches(init, m, ask, s);
    }
  }

  lemma {:induction false} HighMediumPriorities(files: seq<string>)
    ensures forall e :: e in HighMediumFiles(files) ==> e.1 == FilePriority(e.0) && e.1 != Low
    decreases |files|
  {
    if files != [] {
      HighMediumPriorities(files[..|files| - 1]);
    }
  }

  /** A summary of a set-aside file is the one the LLM mode returns for that file. */
  lemma {:induction false} PendingSummaryMatches(pending: seq<(string, Priority)>, m: DiffMap, ask: (string, string) -> Reply, s: ChangeSummary)
    requires forall e :: e in pending ==> e.1 == FilePriority(e.0) && e.1 != Low
    requires s in PendingSummaries(pending, m, ask)
    ensures s == FileChangeSummary(s.file, m, LlmMode, ask)
    decreases |pending|
  {
    var init := pending[..|pending| - 1];
    if s in PendingSummaries(init, m, ask) {
      assert forall e :: e in init ==> e in pending;
      PendingSummaryMatches(init, m, ask, s);
    } else {
      assert pending[|pending| - 1] in pending;
    }
  }

  /** The summaries the LLM mode collects before reordering them. */
  function Collected(files: seq<string>, m: DiffMap, ask: (string, string) -> Reply): seq<ChangeSummary> {
    LowSummaries(files, m) + PendingSummaries(HighMediumFiles(files), m, ask)
  }

  /** Every summary the LLM mode collects is the one it returns for that summary's file. */
  lemma CollectedMatches(files: seq<string>, m: DiffMap, ask: (string, string) -> Reply, s: ChangeSummary)
    requires s in Collected(files, m, ask)
    ensures s == FileChangeSummary(s.file, m, LlmMode, ask)
  {
    if s in LowSummaries(files, m) {
      LowSummaryMatches(files, m, ask, s);
    } else {
      HighMediumPriorities(files);
      PendingSummaryMatches(HighMediumFiles(files), m, ask, s);
    }
  }

  /** The summaries of a prefix of the pending files are a prefix of theirs. */
  lemma {:induction false} PendingPrefix(pending: seq<(string, Priority)>, n: nat, m: DiffMap, ask: (string, string) -> Reply)
    requires n <= |pending|
    ensures PendingSummaries(pending[..n], m, ask) <= PendingSummaries(pending, m, ask)
    decreases |pending|
  {
    if n < |pending| {
      var init := pending[..|pending| - 1];
      assert init[..n] == pending[..n];
      PendingPrefix(init, n, m, ask);
    } else {
      assert pending[..n] == pending;
    }
  }

  /** An element of `a + c` is one of `b + d` when `a` and `c` are prefixes of `b` and `d`. */
  lemma InPrefixes<T>(a: seq<T>, b: seq<T>, c: seq<T>, d: seq<T>, x: T)
    requires a <= b && c <= d && x in a + c
    ensures x in b + d
  {
    if x in a {
      var i :| 0 <= i < |a| && a[i] == x;
      assert b[i] == x;
    } else {
      var i :| 0 <= i < |c| && c[i] == x;
      assert d[i] == x;
      assert (b + d)[|b| + i] == x;
    }
  }

  /** What the LLM mode collects for a prefix of the files it still collects for all of them. */
  lemma CollectedGrows(files: seq<string>, m: DiffMap, ask: (string, string) -> Reply, s: ChangeSummary)
    requires files != [] && s in Collected(files[..|files| - 1], m, ask)
    ensures s in Collected(files, m, ask)
  {
    var init := files[..|files| - 1];
    var hm := HighMediumFiles(init);
    var hmAll := HighMediumFiles(files);
    assert hmAll[..|hm|] == hm;
    PendingPrefix(hmAll, |hm|, m, ask);
    InPrefixes(LowSummaries(init, m), LowSummaries(files, m), PendingSummaries(hm, m, ask), PendingSummaries(hmAll, m, ask), s);
  }

  /** The last file's summary is collected. */
  lemma LastCollected(files: seq<string>, m: DiffMap, ask: (string, string) -> Reply)
    requires files != []
    ensures FileChangeSummary(files[|files| - 1], m, LlmMode, ask) in Collected(files, m, ask)
  {
    var init := files[..|files| - 1];
    var last := files[|files| - 1];
    var hm := HighMediumFiles(init);
    if FilePriority(last) != Low {
      var e := (last, FilePriority(last));
      assert HighMediumFiles(files) == hm + [e];
      assert (hm + [e])[..|hm|] == hm;
      assert PendingSummaries(hm + [e], m, ask) == PendingSummaries(hm, m, ask) + [LlmSummary(last, e.1, m, ask)];
    }
  }

  /** Every changed file's summary is among those the LLM mode collects. */
  lemma {:induction false} SummaryCollected(files: seq<string>, m: DiffMap, ask: (string, string) -> Reply, f: string)
    requires f in files
    ensures FileChangeSummary(f, m, LlmMode, ask) in Collected(files, m, ask)
    decreases |files|
  {
    var init := files[..|files| - 1];
    if f == files[|files| - 1] {
      LastCollected(files, m, ask);
    } else {
      assert f in init;
      SummaryCollected(init, m, ask, f);
      CollectedGrows(files, m, ask, FileChangeSummary(f, m, LlmMode, ask));
    }
  }

  /** `[order_map[f] for f in changed_files if f in order_map]` */
  method RestoreOrder(files: seq<string>, summaries: seq<ChangeSummary>, m: DiffMap, ask: (string, string) -> Reply)
    returns (r: seq<ChangeSummary>)
    requires summaries == Collected(files, m, ask)
    ensures r == ExpectedSummaries(files, m, LlmMode, ask)
  {
    var orderMap := OrderMap(summaries);
    r := [];
    for i := 0 to |files|
      invariant r == ExpectedSummaries(files[..i], m, LlmMode, ask)
    {
      assert files[..i + 1][..i] == files[..i];
      var f := files[i];
      SummaryCollected(files, m, ask, f);
      if f in orderMap {
        CollectedMatches(files, m, ask, orderMap[f]);
        r := r + [orderMap[f]];
      } else {
        assert false;
      }
    }
    assert files[..|files|] == files;
  }

  /** `{s["file"]: s for s in summaries}`: a later summary of the same file replaces an earlier one. */
  method OrderMap(summaries: seq<ChangeSummary>) returns (orderMap: map<string, ChangeSummary>)
    ensures forall j :: 0 <= j < |summaries| ==> summaries[j].file in orderMap
    ensures forall f :: f in orderMap ==> orderMap[f] in summaries && orderMap[f].file == f
  {
    orderMap := map[];
    for k := 0 to |summaries|
      invariant forall j :: 0 <= j < k ==> summaries[j].file in orderMap
      invariant forall f :: f in orderMap ==> orderMap[f] in summaries && orderMap[f].file == f
    {
      orderMap := orderMap[summaries[k].file := summaries[k]];
    }
  }

  // ---------------------------------------------------------------------
  // The aggregate analysis
  // ---------------------------------------------------------------------

  /** The mock analysis: a fixed template naming the files, the commit message and the number of `+` in the diff. */
  function MockAnalysis(files: seq<string>, commitMessage: string, diff: string): (r: string)
    ensures StartsWith(r, "## 주요 변경사항\n- 파일 수정: " + Join(files, ", ") + "\n- 커밋 메시지: " + commitMessage + "\n")
    ensures EndsWith(r, "- 추가/수정 라인(+): " + NatToString(CountChar(diff, '+')) + "\n")
  {
    var head := "## 주요 변경사항\n- 파일 수정: " + Join(files, ", ") + "\n- 커밋 메시지: " + commitMessage + "\n";
    var tail := "- 추가/수정 라인(+): " + NatToString(CountChar(diff, '+')) + "\n";
    var r := head + "\n## 변경 이유\n코드 개선 및 기능 추가를 위한 변경\n\n"
      + "## 영향 범위\n수정된 파일들의 관련 기능에 영향\n\n" + "## 기술적 세부사항\n" + tail;
    assert r[..|head|] == head;
    assert r[|r| - |tail|..] == tail;
    r
  }

  /**
   * Python's `str(x)` of a JSON scalar.  A list or a dictionary is written
   * as its opening and closing bracket around `...` (see README).
   */
  function JsonStr(j: Json): (r: string)
    ensures j.JString? ==> r == j.s
    ensures j.JList? || j.JDict? ==> |r| > 0 && (r[0] == '[' || r[0] == '{')
  {
    match j
    case JNull => "None"
    case JBool(b) => if b then "True" else "False"
    case JNumber(n) => IntToString(n)
    case JString(s) => s
    case JList(_) => "[...]"
    case JDict(_) => "{...}"
  }

  /** `str(x).strip().lower()` for each listed value. */
  function TargetTexts(items: seq<Json>): (r: seq<string>)
    ensures |r| == |items|
    ensures forall i :: 0 <= i < |items| ==> r[i] == Lower(Strip(JsonStr(items[i])))
  {
    seq(|items|, i requires 0 <= i < |items| => Lower(Strip(JsonStr(items[i]))))
  }

  /** `[str(x).strip().lower() for x in sections if str(x).strip().lower() in allowed]` */
  function JsonTargets(items: seq<Json>): (r: seq<string>)
    ensures forall t :: t in r ==> t in AllowedTargets
  {
    KeepAllowed(TargetTexts(items))
  }

  /** A key is taken from the JSON list exactly when some listed value reads as it. */
  lemma JsonTargetsIff(items: seq<Json>, t: string)
    ensures t in JsonTargets(items) <==>
      t in AllowedTargets && exists i :: 0 <= i < |items| && Lower(Strip(JsonStr(items[i]))) == t
  {
    KeepAllowedIff(TargetTexts(items), t);
  }

  /** A single allowed key is kept. */
  lemma KeepAllowedSingle(t: string)
    requires t in AllowedTargets
    ensures KeepAllowed([t]) == [t]
  {
    assert [t][..0] == [];
  }

  /** A JSON string is read without its surrounding whitespace and capitals: `" Overview "` names `overview`. */
  lemma JsonTargetsReadStrings(s: string)
    requires Lower(Strip(s)) in AllowedTargets
    ensures JsonTargets([JString(s)]) == [Lower(Strip(s))]
  {
    var t := Lower(Strip(s));
    assert TargetTexts([JString(s)]) == [t];
    KeepAllowedSingle(t);
  }

  /** The keys of the JSON answer that `analysis_result` is built from, in order. */
  const SummaryKeys: seq<string> := ["summary", "reasons", "impact", "details"]

  /** One block of `analysis_result`: the key as a heading and the list's values as bullets, if the key holds a non-empty list. */
  function SummaryBlock(fields: map<string, Json>, key: string): (r: Option<string>)
    ensures r.Some? <==> key in fields && fields[key].JList? && fields[key].items != []
    ensures r.Some? ==> StartsWith(r.value, "## " + key + "\n- ")
  {
    if key in fields && fields[key].JList? && fields[key].items != [] then
      var items := fields[key].items;
      var text := Join(seq(|items|, i requires 0 <= i < |items| => JsonStr(items[i])), "\n- ");
      var head := "## " + key + "\n- ";
      assert (head + text)[..|head|] == head;
      Some(head + text)
    else None
  }

  /** The blocks of the keys, in order, skipping keys without a block. */
  function SummaryBlocks(fields: map<string, Json>, keys: seq<string>): (r: seq<string>)
    decreases |keys|
  {
    if keys == [] then []
    else
      var rest := SummaryBlocks(fields, keys[1..]);
      match SummaryBlock(fields, keys[0])
      case Some(b) => [b] + rest
      case None => rest
  }

  /** `"\n\n".join(summary_md)` */
  function SummaryMarkdown(fields: map<string, Json>): string {
    Join(SummaryBlocks(fields, SummaryKeys), "\n\n")
  }

  /** A key contributes a block exactly when it holds a non-empty list. */
  lemma {:induction false} SummaryBlocksEmpty(fields: map<string, Json>, keys: seq<string>)
    ensures SummaryBlocks(fields, keys) == [] <==>
      forall k :: k in keys ==> !(k in fields && fields[k].JList? && fields[k].items != [])
    decreases |keys|
  {
    if keys != [] {
      SummaryBlocksEmpty(fields, keys[1..]);
      assert forall k :: k in keys <==> k == keys[0] || k in keys[1..];
    }
  }

  /** `analysis_result` is empty exactly when none of the four keys holds a non-empty list. */
  lemma SummaryMarkdownEmpty(fields: map<string, Json>)
    ensures SummaryMarkdown(fields) == "" <==>
      forall k :: k in SummaryKeys ==> !(k in fields && fields[k].JList? && fields[k].items != [])
  {
    SummaryBlocksEmpty(fields, SummaryKeys);
    var blocks := SummaryBlocks(fields, SummaryKeys);
    if blocks != [] {
      BlockNonEmpty(fields, SummaryKeys, 0);
      JoinStart(blocks, "\n\n");
    }
  }

  /** Every block starts with its heading, so it is never empty. */
  lemma {:induction false} BlockNonEmpty(fields: map<string, Json>, keys: seq<string>, i: nat)
    requires i < |SummaryBlocks(fields, keys)|
    ensures |SummaryBlocks(fields, keys)[i]| > 0
    decreases |keys|
  {
    var b := SummaryBlock(fields, keys[0]);
    if b.Some? && i > 0 {
      BlockNonEmpty(fields, keys[1..], i - 1);
    } else if b.None? {
      BlockNonEmpty(fields, keys[1..], i);
    }
  }

  /**
   * What the aggregate LLM analysis leaves: the analysis text, the targets
   * when it yields any, and the parsed JSON when it is truthy; or the
   * message of the exception raised, with the JSON stored before it.
   */
  datatype Analysis =
    | Analysed(result: string, targets: Option<seq<string>>, json: Option<Json>)
    | AnalysisFailed(message: string, json: Option<Json>)

  /**
   * The LLM path of `change_analyzer_node` after the call: `reply` is the
   * call's outcome and `parse` stands for `json.loads`, `None` where it
   * raises.  A falsy JSON value is treated as no JSON; a truthy value other
   * than a dictionary fails on its first `get`.
   */
  function AggregateAnalysis(reply: Reply, parse: string -> Option<Json>): (r: Analysis)
    ensures reply.Failure? ==> r == AnalysisFailed(reply.message, None)
    ensures r.Analysed? && r.targets.Some? ==> forall t :: t in r.targets.value ==> t in AllowedTargets
    ensures r.json.Some? ==> reply.Answer? && parse(reply.text) == r.json && JsonTruthy(r.json.value)
  {
    match reply
    case Failure(e) => AnalysisFailed(e, None)
    case Answer(text) =>
      match parse(text)
      case Some(j) =>
        if !JsonTruthy(j) then Analysed(text, Some(ExtractSectionTargets(text)), None)
        else if j.JDict? then
          var targets :=
            if "section_targets" in j.fields && j.fields["section_targets"].JList?
            then Some(JsonTargets(j.fields["section_targets"].items)) else None;
          Analysed(SummaryMarkdown(j.fields), targets, Some(j))
        else AnalysisFailed("'" + JsonTypeName(j) + "' object has no attribute 'get'", Some(j))
      case None => Analysed(text, Some(ExtractSectionTargets(text)), None)
  }

  /** An answer that is not JSON is kept as it is, its targets read off the `section_targets:` line. */
  lemma PlainAnswerFallsBack(text: string, parse: string -> Option<Json>)
    requires parse(text).None? || !JsonTruthy(parse(text).value)
    ensures AggregateAnalysis(Answer(text), parse) == Analysed(text, Some(ExtractSectionTargets(text)), None)
  {
  }

  /** A JSON dictionary becomes the markdown of its four lists, its `section_targets` list (if it is one) the targets. */
  lemma DictAnswer(text: string, parse: string -> Option<Json>, fields: map<string, Json>)
    requires parse(text) == Some(JDict(fields)) && fields != map[]
    ensures AggregateAnalysis(Answer(text), parse).Analysed?
    ensures AggregateAnalysis(Answer(text), parse).result == SummaryMarkdown(fields)
    ensures AggregateAnalysis(Answer(text), parse).targets.Some? <==>
      "section_targets" in fields && fields["section_targets"].JList?
  {
  }

  /** Only a truthy JSON value that is not a dictionary makes the analysis fail after the call succeeded. */
  lemma AnswerFailsOnlyOnNonDict(text: string, parse: string -> Option<Json>)
    ensures AggregateAnalysis(Answer(text), parse).AnalysisFailed? <==>
      parse(text).Some? && JsonTruthy(parse(text).value) && !parse(text).value.JDict?
  {
  }

  // ---------------------------------------------------------------------
  // The node
  // ---------------------------------------------------------------------

  /** `code_change.get("commit_message", "")`, and `""` without a commit. */
  function CommitMessage(codeChange: Option<CodeChangeInfo>): string {
    if codeChange.Some? then PyStr(codeChange.value.commitMessage) else ""
  }

  /** The LLM path's writes: the JSON when truthy, then the analysis and targets with status `generating`, or the error. */
  twostate predicate AnalysisStored(st: DocumentState, a: Analysis)
    reads st
  {
    && st.analysisJson == (if a.json.Some? then a.json else old(st.analysisJson))
    && match a
       case Analysed(result, targets, _) =>
         && st.analysisResult == Some(result)
         && st.targetDocSections == (if targets.Some? then targets else old(st.targetDocSections))
         && st.status == "generating" && st.error == old(st.error)
       case AnalysisFailed(message, _) =>
         && st.error == Some(AnalyzerFailurePrefix + message) && st.status == "error"
         && unchanged(st`analysisResult, st`targetDocSections)
  }

  /** The state writes at the end of the LLM path. */
  method StoreAnalysis(st: DocumentState, a: Analysis)
    modifies st`analysisResult, st`targetDocSections, st`analysisJson, st`status, st`error
    ensures AnalysisStored(st, a)
  {
    if a.json.Some? {
      st.analysisJson := a.json;
    }
    match a
    case Analysed(result, targets, _) =>
      if targets.Some? {
        st.targetDocSections := targets;
      }
      st.analysisResult := Some(result);
      st.status := "generating";
    case AnalysisFailed(message, _) =>
      st.error := Some(AnalyzerFailurePrefix + message);
      st.status := "error";
  }

  /** The mock path: the template analysis and the targets guessed from the file names, status `generating`. */
  method MockAnalysisBranch(st: DocumentState, files: seq<string>, commitMessage: string, diff: string)
    modifies st`analysisResult, st`targetDocSections, st`status
    ensures st.analysisResult == Some(MockAnalysis(files, commitMessage, diff))
    ensures st.targetDocSections.Some?
    ensures forall k :: k in st.targetDocSections.value <==> k in PathsSections(files) + {"changelog"}
    ensures st.status == "generating"
  {
    st.analysisResult := Some(MockAnalysis(files, commitMessage, diff));
    var targets := IdentifyTargetSections(files);
    st.targetDocSections := Some(targets);
    st.status := "generating";
  }

  /**
   * `change_analyzer_node`.  `llmAvailable` says whether an LLM was passed;
   * `ask` answers the per-file summary calls, `reply` is the outcome of the
   * aggregate call and `parse` stands for `json.loads`.  The file summaries
   * are stored first, in every mode.
   */
  method ChangeAnalyzerNode(st: DocumentState, useMock: bool, llmAvailable: bool, ask: (string, string) -> Reply,
                            reply: Reply, parse: string -> Option<Json>)
    modifies st`fileChangeSummaries, st`analysisResult, st`targetDocSections, st`analysisJson, st`status, st`error
    ensures st.fileChangeSummaries == Some(ExpectedSummaries(old(st.changedFiles).GetOr([]),
      DiffMapOf(old(st.diffContent).GetOr("")), ModeOf(useMock, llmAvailable), ask))
    ensures useMock ==>
      && st.analysisResult == Some(MockAnalysis(old(st.changedFiles).GetOr([]), CommitMessage(old(st.codeChange)),
           old(st.diffContent).GetOr("")))
      && st.targetDocSections.Some?
      && (forall k :: k in st.targetDocSections.value <==> k in PathsSections(old(st.changedFiles).GetOr([])) + {"changelog"})
      && st.status == "generating" && unchanged(st`analysisJson, st`error)
    ensures !useMock && !llmAvailable ==>
      st.error == Some(AnalyzerFailurePrefix + AnalyzerLlmRequired) && st.status == "error"
      && unchanged(st`analysisResult, st`targetDocSections, st`analysisJson)
    ensures !useMock && llmAvailable ==> AnalysisStored(st, AggregateAnalysis(reply, parse))
  {
    var diff := st.diffContent.GetOr("");
    var files := st.changedFiles.GetOr([]);
    var commitMessage := CommitMessage(st.codeChange);
    var summaries := GenerateFileSummaries(files, diff, ModeOf(useMock, llmAvailable), ask);
    st.fileChangeSummaries := Some(summaries);
    if useMock {
      MockAnalysisBranch(st, files, commitMessage, diff);
    } else if !llmAvailable {
      st.error := Some(AnalyzerFailurePrefix + AnalyzerLlmRequired);
      st.status := "error";
    } else {
      StoreAnalysis(st, AggregateAnalysis(reply, parse));
    }
  }
}
