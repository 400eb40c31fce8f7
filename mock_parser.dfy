/**
 * The mock parse result used when parsing is switched to mock mode: a fixed
 * set of functions chosen by the file's language and name, and a line count
 * estimated from the file size.
 */
module MockParser {
  import opened Wrappers
  import opened Text
  import opened Records
  import RepositoryAnalyzer

  /** Bytes per line assumed when estimating a line count from a size. */
  const BytesPerLine := 20

  /** The mock functions: decided by language and by words in the file's stem. */
  function MockFunctions(language: string, stem: string): seq<FunctionInfo> {
    if language == "python" then
      if Contains(stem, "main") || Contains(stem, "app") then
        [FunctionInfo("main", 10, 25, "Main entry"), FunctionInfo("setup_app", 30, 45, "Setup")]
      else if Contains(stem, "test") then
        [FunctionInfo("test_example", 8, 15, "Test")]
      else
        [FunctionInfo("process_" + stem, 5, 20, "Process")]
    else if language == "javascript" || language == "typescript" then
      [FunctionInfo(stem + "Handler", 5, 20, "Handler")]
    else []
  }

  /** The mock imports: only a Python entry-point file has any. */
  function MockImports(language: string, stem: string): seq<string> {
    if language == "python" && (Contains(stem, "main") || Contains(stem, "app")) then
      ["from fastapi import FastAPI", "import uvicorn"]
    else []
  }

  /** `generate_mock_parsing_result`. */
  function MockParse(info: CodeFile): ParsedFile {
    var language := info.language.GetOr("");
    var stem := RepositoryAnalyzer.Stem(info.path);
    var functions := MockFunctions(language, stem);
    var classes: seq<ClassInfo> := [];
    var size := info.size.GetOr(0);
    ParsedFile(info.path, language, size, functions, classes, MockImports(language, stem),
      ["Mock " + language + " file " + stem], |functions| + 2 * |classes|, size / BytesPerLine, None, None)
  }

  /**
   * The line estimate is the size floor-divided by twenty, for any size; the
   * complexity is the function count, since a mock has no classes; there is
   * exactly one comment, naming the language and the stem.
   */
  lemma MockEstimates(info: CodeFile)
    ensures var r := MockParse(info);
      var size := info.size.GetOr(0);
      BytesPerLine * r.loc <= size < BytesPerLine * r.loc + BytesPerLine
      && r.classes == [] && r.complexityScore == |r.functions|
      && r.comments == ["Mock " + r.language + " file " + RepositoryAnalyzer.Stem(info.path)]
      && r.filePath == info.path && r.size == size && r.parsingError.None?
  {
  }

  /**
   * Which mock a Python file gets: an entry point when its stem mentions
   * `main` or `app`, a test when it mentions `test` but neither of those,
   * otherwise one `process_` function named after it.
   */
  lemma PythonMocks(info: CodeFile)
    requires info.language == Some("python")
    ensures var r := MockParse(info);
      var stem := RepositoryAnalyzer.Stem(info.path);
      (Contains(stem, "main") || Contains(stem, "app") <==> |r.functions| == 2 && |r.imports| == 2)
      && (|r.functions| == 1 <==> r.imports == [])
      && (r.imports == [] && Contains(stem, "test") <==> r.functions == [FunctionInfo("test_example", 8, 15, "Test")])
      && (r.imports == [] && !Contains(stem, "test") ==> r.functions[0].name == "process_" + stem)
  {
  }

  /** A JavaScript or TypeScript file gets one handler named after its stem; other languages get none. */
  lemma OtherLanguageMocks(info: CodeFile)
    requires info.language != Some("python")
    ensures var r := MockParse(info);
      r.imports == []
      && (info.language == Some("javascript") || info.language == Some("typescript") ==>
            r.functions == [FunctionInfo(RepositoryAnalyzer.Stem(info.path) + "Handler", 5, 20, "Handler")])
      && (info.language != Some("javascript") && info.language != Some("typescript") ==> r.functions == [])
  {
  }
}
