/**
 * The file-parser node: for each selected file, resolve its language, find
 * it on disk, parse it with the best parser available and keep its code when
 * it is small; or, in mock mode, produce mock results.  The file system is
 * an oracle from a path to what reading that path yields.
 */
module FileParser {
  import opened Wrappers
  import opened Text
  import opened Records
  import opened PipelineState
  import RepositoryAnalyzer
  import opened TreeSitterParser
  import opened MockParser

  /** What reading a path yields: nothing there, a read that raised, or the decoded text. */
  datatype FileOnDisk = Absent | Unreadable(reason: string) | Readable(content: string)

  type Disk = string -> FileOnDisk

  // ---------------------------------------------------------------------
  // Paths and languages

  /** No upper-case ASCII letter. */
  predicate NoUpper(s: string) {
    forall i :: 0 <= i < |s| ==> !('A' <= s[i] <= 'Z')
  }

  /**
   * `os.path.splitext(p)[1]`: the last component's text from its last dot,
   * provided some character other than a dot comes before that dot.
   */
  function Extension(p: string): (r: string)
    ensures r != [] ==> r[0] == '.' && '.' !in r[1..] && '/' !in r
  {
    var name := RepositoryAnalyzer.BaseName(p);
    match RepositoryAnalyzer.LastIndexOf(name, '.')
    case None => ""
    case Some(i) => if exists j :: 0 <= j < i && name[j] != '.' then name[i..] else ""
  }

  /** The language an extension names, or `unknown`. */
  function ExtensionLanguage(ext: string): string {
    if ext == ".py" then "python"
    else if ext == ".js" || ext == ".mjs" then "javascript"
    else if ext == ".ts" then "typescript"
    else if ext == ".java" then "java"
    else if ext == ".cpp" || ext == ".cc" || ext == ".cxx" then "cpp"
    else if ext == ".c" then "c"
    else if ext == ".go" then "go"
    else "unknown"
  }

  /** `_resolve_language`: the declared language, lower-cased, when there is one; else by extension. */
  function ResolveLanguage(info: CodeFile): string {
    var declared := Lower(info.language.GetOr(""));
    if declared != [] then declared else ExtensionLanguage(Lower(Extension(info.path)))
  }

  /** `os.path.join(a, b)` on POSIX: an absolute `b` replaces `a`, otherwise one separator joins them. */
  function JoinPath(a: string, b: string): (r: string)
    ensures EndsWith(r, b)
    ensures (b == [] || b[0] != '/') ==> a <= r && (a != [] && a[|a| - 1] != '/' ==> |r| > |a| && r[|a|] == '/')
    ensures b != [] && b[0] == '/' ==> r == b
  {
    if b != [] && b[0] == '/' then b
    else if a == [] || a[|a| - 1] == '/' then a + b
    else a + "/" + b
  }

  /** The path read for a file: its `full_path` when set, else its path under the repository. */
  function FilePathOf(info: CodeFile, repositoryPath: string): string {
    var full := info.fullPath.GetOr("");
    if full != [] then full else JoinPath(repositoryPath, info.path)
  }

  // ---------------------------------------------------------------------
  // One file

  /** `_minimal_error_record`: the declared facts about the file, an error, and nothing parsed. */
  function MinimalErrorRecord(info: CodeFile, message: string): ParsedFile {
    ParsedFile(info.path, info.language.GetOr(""), info.size.GetOr(0), [], [], [], [], 0, 0, Some(message), None)
  }

  /** What the loop appends for one file. */
  function ParseResult(info: CodeFile, repositoryPath: string, fullCodeLimit: int, disk: Disk, trees: TreeOracle): ParsedFile {
    var path := FilePathOf(info, repositoryPath);
    if path == [] then MinimalErrorRecord(info, "File not found")
    else
      match disk(path)
      case Absent => MinimalErrorRecord(info, "File not found")
      case Unreadable(reason) => MinimalErrorRecord(info, reason)
      case Readable(content) =>
        var r := BestEffort(content, info, ResolveLanguage(info), trees);
        r.(filePath := info.path, fullCode := if |content| <= fullCodeLimit then Some(content) else r.fullCode)
  }

  /** The body of the loop for one file. */
  method ParseFile(info: CodeFile, repositoryPath: string, fullCodeLimit: int, disk: Disk, trees: TreeOracle)
    returns (r: ParsedFile)
    ensures r == Parser(repositoryPath, fullCodeLimit, disk, trees)(info)
  {
    var language := ResolveLanguage(info);
    var path := FilePathOf(info, repositoryPath);
    if path == [] {
      return MinimalErrorRecord(info, "File not found");
    }
    var file := disk(path);
    match file
    case Absent =>
      r := MinimalErrorRecord(info, "File not found");
    case Unreadable(reason) =>
      r := MinimalErrorRecord(info, reason);
    case Readable(content) =>
      r := ParseWithBestEffort(content, info, language, trees);
      r := r.(filePath := info.path);
      if |content| <= fullCodeLimit {
        r := r.(fullCode := Some(content));
      }
  }

  // ---------------------------------------------------------------------
  // The node

  /** The per-file parse, as a value the loop applies. */
  function Parser(repositoryPath: string, fullCodeLimit: int, disk: Disk, trees: TreeOracle): CodeFile -> ParsedFile {
    info => ParseResult(info, repositoryPath, fullCodeLimit, disk, trees)
  }

  /** `parse` applied to each file, in file order. */
  function Each(files: seq<CodeFile>, parse: CodeFile -> ParsedFile): (r: seq<ParsedFile>)
    ensures |r| == |files|
    ensures forall k :: 0 <= k < |files| ==> r[k] == parse(files[k])
  {
    seq(|files|, k requires 0 <= k < |files| => parse(files[k]))
  }

  /** Each file's result, in file order. */
  function ParseResults(files: seq<CodeFile>, repositoryPath: string, fullCodeLimit: int, disk: Disk, trees: TreeOracle)
    : seq<ParsedFile>
  {
    Each(files, Parser(repositoryPath, fullCodeLimit, disk, trees))
  }

  /** The loop over the files: parse each, append its result. */
  method ParseAll(files: seq<CodeFile>, repositoryPath: string, fullCodeLimit: int, disk: Disk, trees: TreeOracle)
    returns (parsed: seq<ParsedFile>)
    ensures parsed == ParseResults(files, repositoryPath, fullCodeLimit, disk, trees)
  {
    var parse := Parser(repositoryPath, fullCodeLimit, disk, trees);
    parsed := [];
    for i := 0 to |files|
      invariant parsed == Each(files[..i], parse)
    {
      var r := ParseFile(files[i], repositoryPath, fullCodeLimit, disk, trees);
      assert files[..i + 1] == files[..i] + [files[i]];
      parsed := parsed + [r];
    }
    assert files[..|files|] == files;
  }

  /** Each file's mock result, in file order. */
  function MockResults(files: seq<CodeFile>): (r: seq<ParsedFile>)
    ensures |r| == |files|
    ensures forall k :: 0 <= k < |files| ==> r[k] == MockParse(files[k])
  {
    seq(|files|, k requires 0 <= k < |files| => MockParse(files[k]))
  }

  /**
   * `file_parser_node`: with no files, an error; otherwise one result per
   * file, mock or parsed, and the pipeline moves on to summarising.
   */
  method FileParserNode(st: DocumentState, useMock: bool, fullCodeLimit: int, disk: Disk, trees: TreeOracle)
    modifies st`parsedFiles, st`status, st`error
    ensures st.codeFiles.None? || st.codeFiles.value == [] ==>
      st.error == Some("No code files to parse") && st.status == "error" && st.parsedFiles == old(st.parsedFiles)
    ensures st.codeFiles.Some? && st.codeFiles.value != [] ==>
      var files := st.codeFiles.value;
      st.parsedFiles == Some(if useMock then MockResults(files)
                             else ParseResults(files, old(st.repositoryPath).GetOr(""), fullCodeLimit, disk, trees))
      && st.status == "summarizing_files" && st.error == old(st.error)
  {
    if st.codeFiles.None? || st.codeFiles.value == [] {
      st.Fail("No code files to parse");
      return;
    }
    var files := st.codeFiles.value;
    var repositoryPath := st.repositoryPath.GetOr("");
    if useMock {
      st.parsedFiles := Some(MockResults(files));
      st.status := "summarizing_files";
      return;
    }
    var parsed := ParseAll(files, repositoryPath, fullCodeLimit, disk, trees);
    st.parsedFiles := Some(parsed);
    st.status := "summarizing_files";
  }

  // ---------------------------------------------------------------------
  // Properties

  /**
   * A declared language wins, lower-cased; without one the extension decides,
   * case-insensitively, and names a language with a grammar or `unknown`.
   * Either way the result has no upper-case letter.
   */
  lemma ResolveLanguageFacts(info: CodeFile)
    ensures var r := ResolveLanguage(info);
      NoUpper(r) && r != []
      && (info.language.GetOr("") != [] ==> r == Lower(info.language.value))
      && (info.language.GetOr("") == [] ==> r == "unknown" || r in SupportedLanguages)
  {
    var declared := Lower(info.language.GetOr(""));
    if declared == [] {
      ExtensionLanguageNamed(Lower(Extension(info.path)));
    }
  }

  /** The extension table names a language with a grammar, or `unknown`, in lower case. */
  lemma ExtensionLanguageNamed(ext: string)
    ensures var r := ExtensionLanguage(ext);
      NoUpper(r) && (r == "unknown" || r in SupportedLanguages)
  {
    var r := ExtensionLanguage(ext);
    assert r in ["python", "javascript", "typescript", "java", "cpp", "c", "go", "unknown"];
  }

  /** The extension is case-folded before the lookup: `.PY` is Python like `.py`. */
  lemma UpperCaseExtension(stem: string)
    requires stem != [] && stem[0] != '.' && '.' !in stem && '/' !in stem
    ensures ResolveLanguage(CodeFile(stem + ".PY", None, None, None, None, None)) == "python"
  {
    var p := stem + ".PY";
    assert '/' !in p;
    assert RepositoryAnalyzer.BaseName(p) == p;
    assert p[|stem|] == '.' && '.' !in p[|stem| + 1..];
    assert RepositoryAnalyzer.LastIndexOf(p, '.') == Some(|stem|);
    assert p[0] != '.';
    assert Extension(p) == ".PY";
    assert Lower(".PY") == ".py";
  }

  /** A name that only starts with a dot has no extension, so its language is unknown. */
  lemma DotFileUnknown(rest: string)
    requires '.' !in rest && '/' !in rest
    ensures ResolveLanguage(CodeFile("." + rest, None, None, None, None, None)) == "unknown"
  {
    var p := "." + rest;
    assert '/' !in p;
    assert RepositoryAnalyzer.BaseName(p) == p;
    assert RepositoryAnalyzer.LastIndexOf(p, '.') == Some(0);
    assert Extension(p) == "";
  }

  /**
   * Each result keeps the file's relative path.  A result has an error
   * exactly when the file could not be found or read, and then nothing is
   * parsed; the code is kept exactly when the file was read and is within
   * the limit, and then it is the file's whole text.
   */
  lemma ParseResultFacts(info: CodeFile, repositoryPath: string, fullCodeLimit: int, disk: Disk, trees: TreeOracle)
    ensures var r := ParseResult(info, repositoryPath, fullCodeLimit, disk, trees);
      var path := FilePathOf(info, repositoryPath);
      var read := if path == [] then Absent else disk(path);
      r.filePath == info.path
      && (r.parsingError.Some? <==> !read.Readable?)
      && (r.parsingError.Some? ==>
            r.functions == [] && r.classes == [] && r.imports == [] && r.comments == []
            && r.complexityScore == 0 && r.loc == 0)
      && (r.parsingError == Some("File not found") <== read.Absent?)
      && (r.fullCode.Some? <==> read.Readable? && |read.content| <= fullCodeLimit)
      && (r.fullCode.Some? ==> r.fullCode.value == read.content)
  {
    var path := FilePathOf(info, repositoryPath);
    if path != [] && disk(path).Readable? {
      BestEffortClean(disk(path).content, info, ResolveLanguage(info), trees);
    }
  }

  /**
   * The node emits one result per file, in file order, each for its own
   * file; with no files it records the error instead.
   */
  lemma NodeResultsPerFile(files: seq<CodeFile>, useMock: bool, repositoryPath: string, fullCodeLimit: int,
                           disk: Disk, trees: TreeOracle)
    ensures var r := if useMock then MockResults(files) else ParseResults(files, repositoryPath, fullCodeLimit, disk, trees);
      |r| == |files| && forall k :: 0 <= k < |files| ==> r[k].filePath == files[k].path
  {
    forall k | 0 <= k < |files| && !useMock
      ensures ParseResults(files, repositoryPath, fullCodeLimit, disk, trees)[k].filePath == files[k].path
    {
      assert ParseResults(files, repositoryPath, fullCodeLimit, disk, trees)[k]
        == ParseResult(files[k], repositoryPath, fullCodeLimit, disk, trees);
      ParseResultFacts(files[k], repositoryPath, fullCodeLimit, disk, trees);
    }
  }
}
