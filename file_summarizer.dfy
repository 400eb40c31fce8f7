/**
 * The file summarizer node: one summary per parsed file, produced by a
 * strategy chosen once for the batch (mock, or the LLM with a fallback), and
 * the small helpers the LLM path uses to read the model's reply.
 */
module FileSummarizer {
  import opened Wrappers
  import opened Text
  import opened Records
  import opened PipelineState
  import RepositoryAnalyzer

  // ---------------------------------------------------------------------
  // Configuration

  /**
   * `FileSummarizerConfig.limit_files`: the first `limit` files when there
   * are more than that and the limit is positive, otherwise all of them.
   */
  function LimitFiles(files: seq<ParsedFile>, limit: int): seq<ParsedFile> {
    if |files| > limit > 0 then files[..limit] else files
  }

  /** The kept files are a prefix of the input, cut only by a positive limit. */
  lemma LimitFilesFacts(files: seq<ParsedFile>, limit: int)
    ensures LimitFiles(files, limit) <= files
    ensures limit > 0 && |files| > limit ==> |LimitFiles(files, limit)| == limit
    ensures limit <= 0 || |files| <= limit ==> LimitFiles(files, limit) == files
  {
  }

  /** `include_full_code` when given, else the environment's setting. */
  function UseFullCode(argument: Option<bool>, environment: bool): (r: bool)
    ensures argument.Some? ==> r == argument.value
    ensures argument.None? ==> r == environment
  {
    if argument.Some? then argument.value else environment
  }

  // ---------------------------------------------------------------------
  // Code previews

  const TruncationMarker := "\n... (truncated) ..."

  /** Full code cut to `maxCodeChars` characters, marked when it was cut. */
  function TruncateCode(raw: string, maxCodeChars: nat): string {
    if |raw| > maxCodeChars then raw[..maxCodeChars] + TruncationMarker else raw
  }

  /** Code that fits is kept whole; longer code keeps its first `maxCodeChars` characters and gains the marker. */
  lemma TruncateCodeFacts(raw: string, maxCodeChars: nat)
    ensures |TruncateCode(raw, maxCodeChars)| <= maxCodeChars + |TruncationMarker|
    ensures Take(raw, maxCodeChars) <= TruncateCode(raw, maxCodeChars)
    ensures |raw| <= maxCodeChars ==> TruncateCode(raw, maxCodeChars) == raw
    ensures |raw| > maxCodeChars ==>
      |TruncateCode(raw, maxCodeChars)| == maxCodeChars + |TruncationMarker|
      && EndsWith(TruncateCode(raw, maxCodeChars), TruncationMarker)
  {
  }

  /** Reading `<repository>/<file_path>` from disk. */
  datatype FileRead = NoSuchFile | ReadError | Contents(text: string)

  const PreviewChars := 500
  const NoPreview := "<no preview available>"
  const ReadErrorPreview := "<read error>"

  /**
   * `_get_file_content_preview`: the (truncated) full code when full code is
   * used, else the first 500 characters of the stored code, else of the file
   * on disk.
   */
  function Preview(info: ParsedFile, repo: string, useFullCode: bool, maxCodeChars: nat,
                   read: (string, string) -> FileRead): string
  {
    if useFullCode && info.fullCode.Some? then TruncateCode(info.fullCode.value, maxCodeChars)
    else if info.fullCode.Some? && info.fullCode.value != [] then Take(info.fullCode.value, PreviewChars)
    else match read(repo, info.filePath)
      case NoSuchFile => NoPreview
      case ReadError => ReadErrorPreview
      case Contents(text) => Take(text, PreviewChars)
  }

  /**
   * A full-code preview is bounded by the code limit plus the marker and
   * starts with the code; any other preview has at most 500 characters.
   */
  lemma PreviewBound(info: ParsedFile, repo: string, useFullCode: bool, maxCodeChars: nat,
                     read: (string, string) -> FileRead)
    ensures useFullCode && info.fullCode.Some? ==>
      |Preview(info, repo, useFullCode, maxCodeChars, read)| <= maxCodeChars + |TruncationMarker|
      && Take(info.fullCode.value, maxCodeChars) <= Preview(info, repo, useFullCode, maxCodeChars, read)
    ensures !(useFullCode && info.fullCode.Some?) ==> |Preview(info, repo, useFullCode, maxCodeChars, read)| <= PreviewChars
  {
    if useFullCode && info.fullCode.Some? {
      TruncateCodeFacts(info.fullCode.value, maxCodeChars);
    }
  }

  // ---------------------------------------------------------------------
  // Reading the model's reply

  /** One element of a list-valued `response.content`. */
  datatype Part = StrPart(s: string) | NonStrPart

  /** What `response.content` holds: a string, a list, or anything else (by its `str()`). */
  datatype Content = PlainText(text: string) | Parts(parts: seq<Part>) | Other(repr: string)

  /** The string elements of a list, in order. */
  function StringParts(ps: seq<Part>): seq<string>
    decreases |ps|
  {
    if ps == [] then []
    else if ps[0].StrPart? then [ps[0].s] + StringParts(ps[1..])
    else StringParts(ps[1..])
  }

  /** Exactly the string elements are kept, no more of them than there are parts. */
  lemma {:induction false} StringPartsFacts(ps: seq<Part>)
    ensures |StringParts(ps)| <= |ps|
    ensures forall s :: s in StringParts(ps) <==> StrPart(s) in ps
    decreases |ps|
  {
    if ps != [] {
      StringPartsFacts(ps[1..]);
      assert ps == [ps[0]] + ps[1..];
    }
  }

  /** `_extract_text`. */
  function ExtractText(c: Content): string {
    match c
    case PlainText(s) => s
    case Parts(ps) => Join(StringParts(ps), "\n")
    case Other(r) => r
  }

  /** A string is returned as it is; a list with only string elements is their newline join. */
  lemma ExtractTextFacts(c: Content)
    ensures c.PlainText? ==> ExtractText(c) == c.text
    ensures c.Parts? && (forall k :: 0 <= k < |c.parts| ==> c.parts[k].StrPart?) ==>
      |StringParts(c.parts)| == |c.parts|
  {
    if c.Parts? && (forall k :: 0 <= k < |c.parts| ==> c.parts[k].StrPart?) {
      AllStringParts(c.parts);
    }
  }

  lemma {:induction false} AllStringParts(ps: seq<Part>)
    requires forall k :: 0 <= k < |ps| ==> ps[k].StrPart?
    ensures |StringParts(ps)| == |ps|
    decreases |ps|
  {
    if ps != [] {
      AllStringParts(ps[1..]);
    }
  }

  const JsonFence := "```json"
  const Fence := "```"

  /**
   * Where the fenced JSON text starts: behind the first "```json", else
   * behind the first "```"; `None` when the reply has no fence.
   */
  function BlockStart(text: string): (r: Option<nat>)
    ensures r.Some? ==> r.value <= |text|
  {
    match FindFrom(text, JsonFence, 0)
    case Some(i) => Some(i + |JsonFence|)
    case None =>
      match FindFrom(text, Fence, 0)
      case Some(i) => Some(i + |Fence|)
      case None => None
  }

  /**
   * Python's `s[start:end]` where `end` is what `find` returned: `None` is
   * -1, which Python reads as `len(s) - 1`.
   */
  function SliceToFound(s: string, start: nat, end: Option<nat>): string {
    var stop := if end.Some? then end.value else |s| - 1;
    if start <= stop <= |s| then s[start..stop] else ""
  }

  /**
   * `_extract_json` as written: the stripped text between the opening fence
   * and the next "```".  When that closing fence is missing, `find` returns
   * -1 and the slice stops one character short of the end.
   */
  function ExtractJsonAsWritten(text: string): string {
    match BlockStart(text)
    case Some(start) => Strip(SliceToFound(text, start, FindFrom(text, Fence, start)))
    case None => text
  }

  /**
   * An unclosed fence loses the reply's last character: for
   * "```json\n{}" the as-written reading gives "{", the intended one "{}".
   */
  lemma ExtractJsonAsWrittenDropsLastChar(body: string)
    requires '`' !in body && body != []
    ensures ExtractJsonAsWritten(JsonFence + body) == Strip(body[..|body| - 1])
    ensures ExtractJson(JsonFence + body) == Strip(body)
  {
    var t := JsonFence + body;
    UnclosedFence(body);
    assert SliceToFound(t, 7, None) == body[..|body| - 1];
    assert t[7..] == body;
  }

  /** The text up to the closing fence, or the rest of the text when there is none. */
  function SliceToFence(s: string, start: nat, end: Option<nat>): string
    requires start <= |s|
    requires end.Some? ==> start <= end.value <= |s|
  {
    if end.Some? then s[start..end.value] else s[start..]
  }

  /**
   * `_extract_json` as evidently intended: an unclosed fence extends to the
   * end of the text.  The summarizer itself reads replies with
   * `ExtractJsonAsWritten`, as the code does.
   */
  function ExtractJson(text: string): string {
    match BlockStart(text)
    case Some(start) => Strip(SliceToFence(text, start, FindFrom(text, Fence, start)))
    case None => text
  }

  /** The first occurrence at or after `from` is the one at `k` when none comes earlier. */
  lemma FindFirstAt(s: string, sub: string, from: nat, k: nat)
    requires from <= k && OccursAt(s, sub, k)
    requires forall j :: from <= j < k ==> !OccursAt(s, sub, j)
    ensures FindFrom(s, sub, from) == Some(k)
  {
  }

  /** A text holding a "```json" fence holds a "```" fence. */
  lemma JsonFenceIsFence(text: string)
    ensures Contains(text, JsonFence) ==> Contains(text, Fence)
  {
    if Contains(text, JsonFence) {
      var i :| 0 <= i <= |text| - |JsonFence| && OccursAt(text, JsonFence, i);
      assert text[i..i + 3] == text[i..i + 7][..3];
      assert OccursAt(text, Fence, i);
    }
  }

  /** No fence at all: the reply is returned unchanged. */
  lemma ExtractJsonUnfenced(text: string)
    requires !Contains(text, Fence)
    ensures ExtractJson(text) == text
    ensures ExtractJsonAsWritten(text) == text
  {
    JsonFenceIsFence(text);
    FindFromContains(text, JsonFence);
    FindFromContains(text, Fence);
  }

  /** No backtick in `body`, so no fence starts inside it. */
  lemma NoFenceIn(pre: string, body: string, post: string)
    requires '`' !in body
    ensures forall j :: |pre| <= j < |pre| + |body| ==> !OccursAt(pre + body + post, Fence, j)
  {
    var t := pre + body + post;
    forall j | |pre| <= j < |pre| + |body|
      ensures !OccursAt(t, Fence, j)
    {
      assert Fence[0] == '`';
      assert t[j] == body[j - |pre|];
      assert body[j - |pre|] in body;
      assert j + |Fence| > |t| || t[j..j + |Fence|][0] == t[j];
    }
  }

  /** Wrapping a backtick-free JSON text in a "```json" fence and extracting it gives the text back, stripped. */
  lemma ExtractJsonFenced(body: string, rest: string)
    requires '`' !in body
    ensures ExtractJson(JsonFence + body + Fence + rest) == Strip(body)
    ensures ExtractJsonAsWritten(JsonFence + body + Fence + rest) == Strip(body)
  {
    var t := JsonFence + body + Fence + rest;
    assert t[..7] == JsonFence;
    assert OccursAt(t, JsonFence, 0);
    FindFirstAt(t, JsonFence, 0, 0);
    NoFenceIn(JsonFence, body, Fence + rest);
    assert t == JsonFence + body + (Fence + rest);
    assert t[7 + |body|..7 + |body| + 3] == Fence;
    FindFirstAt(t, Fence, 7, 7 + |body|);
    assert t[7..7 + |body|] == body;
  }

  /** A plain "```" fence is read the same way when the reply has no "```json" fence. */
  lemma ExtractJsonPlainFenced(body: string, rest: string)
    requires '`' !in body
    requires !Contains(Fence + body + Fence + rest, JsonFence)
    ensures ExtractJson(Fence + body + Fence + rest) == Strip(body)
    ensures ExtractJsonAsWritten(Fence + body + Fence + rest) == Strip(body)
  {
    var t := Fence + body + Fence + rest;
    FindFromContains(t, JsonFence);
    PlainFences(body, rest);
    assert t[3..3 + |body|] == body;
  }

  /** The fences around a backtick-free text are the first two of the reply. */
  lemma PlainFences(body: string, rest: string)
    requires '`' !in body
    ensures FindFrom(Fence + body + Fence + rest, Fence, 0) == Some(0)
    ensures FindFrom(Fence + body + Fence + rest, Fence, 3) == Some(3 + |body|)
  {
    var t := Fence + body + Fence + rest;
    assert t[..3] == Fence;
    assert OccursAt(t, Fence, 0);
    FindFirstAt(t, Fence, 0, 0);
    NoFenceIn(Fence, body, Fence + rest);
    assert t == Fence + body + (Fence + rest);
    assert t[3 + |body|..3 + |body| + 3] == Fence;
    FindFirstAt(t, Fence, 3, 3 + |body|);
  }

  /** Behind an opening "```json" and a backtick-free text there is no closing fence. */
  lemma UnclosedFence(body: string)
    requires '`' !in body
    ensures FindFrom(JsonFence + body, JsonFence, 0) == Some(0)
    ensures FindFrom(JsonFence + body, Fence, 7).None?
  {
    var t := JsonFence + body;
    assert t[..7] == JsonFence;
    assert OccursAt(t, JsonFence, 0);
    FindFirstAt(t, JsonFence, 0, 0);
    NoFenceIn(JsonFence, body, "");
    assert t == JsonFence + body + "";
    assert |t| == 7 + |body|;
  }

  /** With the intended reading, an unclosed fence keeps everything after it. */
  lemma ExtractJsonUnclosed(body: string)
    requires '`' !in body
    ensures ExtractJson(JsonFence + body) == Strip(body)
  {
    var t := JsonFence + body;
    assert t[..7] == JsonFence;
    assert OccursAt(t, JsonFence, 0);
    FindFirstAt(t, JsonFence, 0, 0);
    UnclosedFence(body);
    assert t[7..] == body;
  }

  // ---------------------------------------------------------------------
  // Summaries

  /** An ASCII letter: the characters `str.title()` treats as cased here. */
  predicate IsLetter(c: char) { 'a' <= c <= 'z' || 'A' <= c <= 'Z' }

  function UpperChar(c: char): (r: char)
    ensures 'a' <= c <= 'z' ==> r as int == c as int - 32
    ensures !('a' <= c <= 'z') ==> r == c
  {
    if 'a' <= c <= 'z' then (c as int - 32) as char else c
  }

  /**
   * `str.title()`: a letter is upper-cased when it follows a non-letter (or
   * starts the text) and lower-cased otherwise.
   */
  function Title(s: string): (r: string) {
    seq(|s|, i requires 0 <= i < |s| =>
      if !IsLetter(s[i]) then s[i]
      else if i == 0 || !IsLetter(s[i - 1]) then UpperChar(s[i])
      else LowerChar(s[i]))
  }

  /** Title-casing keeps the length and the letter positions, and doing it twice changes nothing. */
  lemma TitleFacts(s: string)
    ensures |Title(s)| == |s|
    ensures forall i :: 0 <= i < |s| ==> (IsLetter(Title(s)[i]) <==> IsLetter(s[i]))
    ensures s != [] && 'a' <= s[0] <= 'z' ==> 'A' <= Title(s)[0] <= 'Z'
    ensures Title(Title(s)) == Title(s)
  {
    var t := Title(s);
    assert forall i :: 0 <= i < |s| ==> (IsLetter(t[i]) <==> IsLetter(s[i]));
    forall i | 0 <= i < |s|
      ensures Title(t)[i] == t[i]
    {
      if IsLetter(s[i]) && !(i == 0 || !IsLetter(s[i - 1])) {
        assert !('A' <= t[i] <= 'Z');
      }
    }
  }

  /** The purpose and role a mock summary gives files whose stem names the key. */
  datatype MockPattern = MockPattern(key: string, purpose: string, role: string)

  /** The mock patterns, in the order they are tried. */
  const MockPatterns: seq<MockPattern> := [
    MockPattern("main", "애플리케이션의 진입점 역할", "초기화 및 설정 모듈"),
    MockPattern("model", "데이터 모델 정의", "스키마 및 ORM 매핑"),
    MockPattern("schema", "데이터 구조 정의", "Pydantic 기반 검증"),
    MockPattern("test", "테스트 모듈", "테스트 케이스 실행 및 검증"),
    MockPattern("router", "API 라우팅 기능", "엔드포인트 관리"),
    MockPattern("service", "비즈니스 로직 처리", "서비스 계층 역할")]

  /** The index of the first pattern at or after `k` whose key occurs in `name`. */
  function FirstPattern(name: string, ps: seq<MockPattern>, k: nat): (r: Option<nat>)
    ensures r.Some? ==> k <= r.value < |ps| && Contains(name, ps[r.value].key)
    ensures r.Some? ==> forall j :: k <= j < r.value ==> !Contains(name, ps[j].key)
    ensures r.None? ==> forall j :: k <= j < |ps| ==> !Contains(name, ps[j].key)
    decreases |ps| - k
  {
    if k >= |ps| then None
    else if Contains(name, ps[k].key) then Some(k)
    else FirstPattern(name, ps, k + 1)
  }

  /** The role given a file matching no pattern. */
  const DefaultMockRole := "모듈 기능 제공"

  /**
   * The purpose and role of a mock summary: those of the first pattern whose
   * key occurs in the lower-cased stem, else a purpose naming the language.
   */
  function MockPurposeRole(stem: string, language: string): (string, string) {
    match FirstPattern(Lower(stem), MockPatterns, 0)
    case Some(k) => (MockPatterns[k].purpose, MockPatterns[k].role)
    case None => (Title(language) + " 기능 모듈", DefaultMockRole)
  }

  /** The code block a mock summary carries: the (truncated) full code, only when full code is used. */
  function CodeBlock(info: ParsedFile, useFullCode: bool, maxCodeChars: nat): Option<string> {
    if useFullCode && info.fullCode.Some? then Some(TruncateCode(info.fullCode.value, maxCodeChars)) else None
  }

  /** `_generate_mock_file_summary`. */
  function MockSummary(info: ParsedFile, useFullCode: bool, maxCodeChars: nat): FileSummary {
    var pr := MockPurposeRole(RepositoryAnalyzer.Stem(info.filePath), info.language);
    var code := CodeBlock(info, useFullCode, maxCodeChars);
    FileSummary(info.filePath, info.language, Some(pr.0), Some(pr.1),
                |info.functions|, |info.classes|, |info.imports|, info.loc, MockMethod,
                Some(code.Some? && code.value != []), code)
  }

  /**
   * A stem naming `main` and `test` is an entry point, since `main` is tried
   * first; case does not matter.
   */
  lemma MockPatternOrder()
    ensures MockPurposeRole("Test_Main", "python").0 == "애플리케이션의 진입점 역할"
  {
    var n := Lower("Test_Main");
    assert n == "test_main";
    assert OccursAt(n, "main", 5);
  }

  /** The stated full code is exactly the code block, and is never claimed when full code is off. */
  lemma MockSummaryCode(info: ParsedFile, useFullCode: bool, maxCodeChars: nat)
    ensures var r := MockSummary(info, useFullCode, maxCodeChars);
      (r.includedFullCode == Some(true) <==> r.fullCode.Some? && r.fullCode.value != [])
      && (!useFullCode ==> r.fullCode.None?)
      && (r.fullCode.Some? ==> |r.fullCode.value| <= maxCodeChars + |TruncationMarker|)
  {
    if useFullCode && info.fullCode.Some? {
      TruncateCodeFacts(info.fullCode.value, maxCodeChars);
    }
  }

  const FallbackPurpose := "언어 기반 기본 소스 파일"
  const FallbackRole := "구현 및 기능 제공"

  /** `_generate_fallback_file_summary`. */
  function FallbackSummary(info: ParsedFile): FileSummary {
    FileSummary(info.filePath, info.language, Some(FallbackPurpose), Some(FallbackRole),
                |info.functions|, |info.classes|, |info.imports|, info.loc, FallbackMethod, None, None)
  }

  /** A string field of the model's JSON object; any other value counts as absent. */
  function StringField(fields: map<string, Json>, key: string): Option<string> {
    if key in fields && fields[key].JString? then Some(fields[key].s) else None
  }

  /**
   * `_generate_file_summary_with_llm`: `None` when the call raises, the JSON
   * does not parse, or it is not an object (spreading it raises); otherwise
   * the object's purpose and role with counts taken from the parse result.
   * The JSON text is cut out of the reply as written, so an unclosed fence
   * loses the reply's last character.
   * `ask` is the model asked about a file with its preview; `parse` is
   * `json.loads`, `None` where it raises.
   */
  function LlmSummary(info: ParsedFile, preview: string, useFullCode: bool,
                      ask: (ParsedFile, string) -> Result<Content>, parse: string -> Option<Json>): Option<FileSummary>
  {
    match ask(info, preview)
    case Raised(_) => None
    case Ok(content) =>
      match parse(ExtractJsonAsWritten(ExtractText(content)))
      case Some(JDict(fields)) =>
        Some(FileSummary(info.filePath, info.language, StringField(fields, "purpose"), StringField(fields, "role"),
                         |info.functions|, |info.classes|, |info.imports|, info.loc, LlmMethod,
                         Some(useFullCode && info.fullCode.Some?), None))
      case _ => None
  }

  /** How every file of a batch is summarized. */
  datatype Strategy = MockStrategy | LlmStrategy

  /** `_get_summarizer_strategy`: mock when asked for or when there is no API key. */
  function StrategyOf(useMock: bool, apiKey: Option<string>): (r: Strategy)
    ensures r == LlmStrategy <==> !useMock && apiKey.Some? && apiKey.value != []
  {
    if useMock || apiKey.None? || apiKey.value == [] then MockStrategy else LlmStrategy
  }

  /** What one summary depends on besides its file. */
  datatype Settings = Settings(repositoryPath: string, useFullCode: bool, maxCodeChars: nat)

  /** The services the LLM strategy calls: the model, `json.loads` and the file system. */
  datatype Services = Services(
    ask: (ParsedFile, string) -> Result<Content>,
    parse: string -> Option<Json>,
    read: (string, string) -> FileRead)

  /** The strategy applied to one file: the LLM summary, or the fallback when it gives none. */
  function Summarize(strategy: Strategy, cfg: Settings, svc: Services, info: ParsedFile): FileSummary {
    match strategy
    case MockStrategy => MockSummary(info, cfg.useFullCode, cfg.maxCodeChars)
    case LlmStrategy =>
      var preview := Preview(info, cfg.repositoryPath, cfg.useFullCode, cfg.maxCodeChars, svc.read);
      match LlmSummary(info, preview, cfg.useFullCode, svc.ask, svc.parse)
      case Some(s) => s
      case None => FallbackSummary(info)
  }

  /** The callable `_get_summarizer_strategy` returns. */
  function Summarizer(strategy: Strategy, cfg: Settings, svc: Services): ParsedFile -> FileSummary {
    info => Summarize(strategy, cfg, svc, info)
  }

  /**
   * Whatever the strategy, a summary describes its own file: same path and
   * language, the parse result's counts and line count.  The LLM strategy
   * falls back exactly when the LLM gives no summary.
   */
  lemma SummarizeDescribesFile(strategy: Strategy, cfg: Settings, svc: Services, info: ParsedFile)
    ensures var r := Summarize(strategy, cfg, svc, info);
      r.filePath == info.filePath && r.language == info.language
      && r.functionsCount == |info.functions| && r.classesCount == |info.classes|
      && r.importsCount == |info.imports| && r.loc == info.loc
      && (strategy == MockStrategy <==> r.generation == MockMethod)
  {
  }

  /** Each file's summary, in file order. */
  function Summaries(files: seq<ParsedFile>, summarize: ParsedFile -> FileSummary): (r: seq<FileSummary>)
    ensures |r| == |files|
  {
    seq(|files|, i requires 0 <= i < |files| => summarize(files[i]))
  }

  /** The sequential loop: one summary per file, in file order. */
  method SummarizeSequentially(files: seq<ParsedFile>, summarize: ParsedFile -> FileSummary)
    returns (summaries: seq<FileSummary>)
    ensures summaries == Summaries(files, summarize)
  {
    summaries := [];
    for i := 0 to |files|
      invariant summaries == Summaries(files[..i], summarize)
    {
      summaries := summaries + [summarize(files[i])];
    }
    assert files[..|files|] == files;
  }

  // ---------------------------------------------------------------------
  // Completion order

  /** `0, 1, …, n - 1`. */
  function Indices(n: nat): (r: seq<nat>)
    ensures |r| == n && forall i :: 0 <= i < n ==> r[i] == i
  {
    seq(n, i requires 0 <= i < n => i)
  }

  /** An order in which `n` tasks may finish: each index exactly once. */
  predicate IsCompletionOrder(order: seq<nat>, n: nat) {
    multiset(order) == multiset(Indices(n))
  }

  /** A completion order of `n` tasks lists `n` indices, each below `n`. */
  lemma CompletionOrderBounds(order: seq<nat>, n: nat)
    requires IsCompletionOrder(order, n)
    ensures |order| == n
    ensures forall k :: 0 <= k < |order| ==> order[k] < n
  {
    assert |order| == |multiset(order)| == |multiset(Indices(n))| == n;
    forall k | 0 <= k < |order|
      ensures order[k] < n
    {
      assert order[k] in multiset(Indices(n));
    }
  }

  /** The elements of `xs` taken in the order `order` names them. */
  function Reorder<T>(xs: seq<T>, order: seq<nat>): (r: seq<T>)
    requires forall k :: 0 <= k < |order| ==> order[k] < |xs|
    ensures |r| == |order|
  {
    seq(|order|, k requires 0 <= k < |order| => xs[order[k]])
  }

  /** Reordering by a concatenation is concatenating the reorderings. */
  lemma ReorderConcat<T>(xs: seq<T>, a: seq<nat>, b: seq<nat>)
    requires forall k :: 0 <= k < |a| ==> a[k] < |xs|
    requires forall k :: 0 <= k < |b| ==> b[k] < |xs|
    ensures forall k :: 0 <= k < |a + b| ==> (a + b)[k] < |xs|
    ensures Reorder(xs, a + b) == Reorder(xs, a) + Reorder(xs, b)
  {
  }

  /** Removing one position removes one occurrence of its element. */
  lemma RemoveAt<T>(b: seq<T>, m: nat)
    requires m < |b|
    ensures multiset(b[..m] + b[m + 1..]) == multiset(b) - multiset{b[m]}
  {
    assert b == b[..m] + [b[m]] + b[m + 1..];
    assert multiset(b) == multiset(b[..m]) + multiset{b[m]} + multiset(b[m + 1..]);
  }

  /** Reordering by index lists with the same elements gives the same multiset. */
  lemma {:induction false} ReorderSameIndices<T>(xs: seq<T>, a: seq<nat>, b: seq<nat>)
    requires forall k :: 0 <= k < |a| ==> a[k] < |xs|
    requires forall k :: 0 <= k < |b| ==> b[k] < |xs|
    requires multiset(a) == multiset(b)
    ensures multiset(Reorder(xs, a)) == multiset(Reorder(xs, b))
    decreases |a|
  {
    if a == [] {
      assert |b| == |multiset(b)| == 0;
      assert Reorder(xs, b) == [];
    } else {
      var l := a[|a| - 1];
      var a' := a[..|a| - 1];
      assert a == a' + [l];
      assert l in multiset(b) by {
        assert multiset(a) == multiset(a') + multiset{l};
      }
      var m :| 0 <= m < |b| && b[m] == l;
      var b' := b[..m] + b[m + 1..];
      RemoveAt(b, m);
      assert multiset(a') == multiset(b') by {
        assert multiset(a) == multiset(a') + multiset{l};
      }
      ReorderRemove(xs, b, m);
      ReorderSameIndices(xs, a', b');
      ReorderStep(xs, a, b, m);
    }
  }

  /** The inductive step: removing the last index of `a` and the same index from `b` keeps the multisets equal. */
  lemma ReorderStep<T>(xs: seq<T>, a: seq<nat>, b: seq<nat>, m: nat)
    requires forall k :: 0 <= k < |a| ==> a[k] < |xs|
    requires forall k :: 0 <= k < |b| ==> b[k] < |xs|
    requires a != [] && m < |b| && b[m] == a[|a| - 1]
    requires var b' := b[..m] + b[m + 1..];
      (forall k :: 0 <= k < |b'| ==> b'[k] < |xs|)
      && multiset(Reorder(xs, a[..|a| - 1])) == multiset(Reorder(xs, b'))
    ensures multiset(Reorder(xs, a)) == multiset(Reorder(xs, b))
  {
    var l := a[|a| - 1];
    var a' := a[..|a| - 1];
    assert a == a' + [l];
    ReorderRemove(xs, b, m);
    ReorderConcat(xs, a', [l]);
    assert multiset(Reorder(xs, a)) == multiset(Reorder(xs, a')) + multiset{xs[l]};
  }

  /** Reordering by `b` is reordering by `b` without position `m`, plus the element `m` names. */
  lemma ReorderRemove<T>(xs: seq<T>, b: seq<nat>, m: nat)
    requires forall k :: 0 <= k < |b| ==> b[k] < |xs|
    requires m < |b|
    ensures var b' := b[..m] + b[m + 1..];
      (forall k :: 0 <= k < |b'| ==> b'[k] < |xs|)
      && multiset(Reorder(xs, b)) == multiset(Reorder(xs, b')) + multiset{xs[b[m]]}
  {
    assert b == b[..m] + [b[m]] + b[m + 1..];
    ReorderConcat(xs, b[..m] + [b[m]], b[m + 1..]);
    ReorderConcat(xs, b[..m], [b[m]]);
    ReorderConcat(xs, b[..m], b[m + 1..]);
  }

  /** Results gathered in any completion order are the same results, each once. */
  lemma CompletionOrderPermutes<T>(xs: seq<T>, order: seq<nat>)
    requires IsCompletionOrder(order, |xs|)
    ensures forall k :: 0 <= k < |order| ==> order[k] < |xs|
    ensures multiset(Reorder(xs, order)) == multiset(xs)
  {
    CompletionOrderBounds(order, |xs|);
    ReorderSameIndices(xs, order, Indices(|xs|));
    assert Reorder(xs, Indices(|xs|)) == xs;
  }

  /** The parallel path: results appended as their tasks finish. */
  method SummarizeInCompletionOrder(files: seq<ParsedFile>, summarize: ParsedFile -> FileSummary, order: seq<nat>)
    returns (summaries: seq<FileSummary>)
    requires forall k :: 0 <= k < |order| ==> order[k] < |files|
    ensures summaries == Reorder(Summaries(files, summarize), order)
  {
    summaries := [];
    for k := 0 to |order|
      invariant |summaries| == k
      invariant forall j :: 0 <= j < k ==> summaries[j] == summarize(files[order[j]])
    {
      summaries := summaries + [summarize(files[order[k]])];
    }
  }

  // ---------------------------------------------------------------------
  // The node

  const NoParsedFiles := "No parsed_files to summarize"
  const GeneratingDocument := "generating_document"

  /** The files the node summarizes: the parsed files, limited. */
  function TargetFiles(parsed: Option<seq<ParsedFile>>, limit: int): seq<ParsedFile> {
    LimitFiles(if parsed.Some? then parsed.value else [], limit)
  }

  /** The parallel path is taken for several files, several workers and no mock mode. */
  predicate Parallel(fileCount: nat, maxWorkers: int, useMock: bool) {
    fileCount > 1 && (if maxWorkers > 1 then maxWorkers else 1) > 1 && !useMock
  }

  /** The summaries the node stores. */
  function NodeSummaries(files: seq<ParsedFile>, summarize: ParsedFile -> FileSummary,
                         parallel: bool, order: seq<nat>): seq<FileSummary>
    requires IsCompletionOrder(order, |files|)
  {
    CompletionOrderBounds(order, |files|);
    if parallel then Reorder(Summaries(files, summarize), order) else Summaries(files, summarize)
  }

  /**
   * Whichever path runs, the node stores one summary per file, the same
   * summaries as the sequential path; only their order may differ.
   */
  lemma NodeSummariesOnePerFile(files: seq<ParsedFile>, summarize: ParsedFile -> FileSummary,
                                parallel: bool, order: seq<nat>)
    requires IsCompletionOrder(order, |files|)
    ensures |NodeSummaries(files, summarize, parallel, order)| == |files|
    ensures multiset(NodeSummaries(files, summarize, parallel, order)) == multiset(Summaries(files, summarize))
    ensures !parallel ==> NodeSummaries(files, summarize, parallel, order) == Summaries(files, summarize)
  {
    CompletionOrderBounds(order, |files|);
    CompletionOrderPermutes(Summaries(files, summarize), order);
  }

  /**
   * `file_summarizer_node`.  `limit`, `fullCodeSetting`, `maxCodeChars` and
   * `maxWorkers` are the environment's settings; `order` is the order in
   * which the parallel tasks finish.
   */
  method FileSummarizerNode(st: DocumentState, useMock: bool, apiKey: Option<string>,
                            includeFullCode: Option<bool>, fullCodeSetting: bool, limit: int,
                            maxCodeChars: nat, maxWorkers: int, svc: Services, order: seq<nat>)
    requires IsCompletionOrder(order, |TargetFiles(st.parsedFiles, limit)|)
    modifies st`fileSummaries, st`status, st`error
    ensures old(st.parsedFiles).None? || old(st.parsedFiles).value == [] ==>
      st.status == "error" && st.error == Some(NoParsedFiles) && unchanged(st`fileSummaries)
    ensures old(st.parsedFiles).Some? && old(st.parsedFiles).value != [] ==>
      var files := TargetFiles(old(st.parsedFiles), limit);
      var cfg := Settings(old(st.repositoryPath).GetOr(""), UseFullCode(includeFullCode, fullCodeSetting), maxCodeChars);
      st.fileSummaries == Some(NodeSummaries(files, Summarizer(StrategyOf(useMock, apiKey), cfg, svc),
                                             Parallel(|files|, maxWorkers, useMock), order))
      && st.status == GeneratingDocument && unchanged(st`error)
  {
    if st.parsedFiles.None? || st.parsedFiles.value == [] {
      st.Fail(NoParsedFiles);
      return;
    }
    var files := LimitFiles(st.parsedFiles.value, limit);
    var cfg := Settings(st.repositoryPath.GetOr(""), UseFullCode(includeFullCode, fullCodeSetting), maxCodeChars);
    var summarize := Summarizer(StrategyOf(useMock, apiKey), cfg, svc);
    var summaries;
    if Parallel(|files|, maxWorkers, useMock) {
      CompletionOrderPermutes(Summaries(files, summarize), order);
      summaries := SummarizeInCompletionOrder(files, summarize, order);
    } else {
      summaries := SummarizeSequentially(files, summarize);
    }
    st.fileSummaries := Some(summaries);
    st.status := GeneratingDocument;
  }
}
