/**
 * The regex-based parsers used when no syntax tree is available: one each
 * for Python, JavaScript/TypeScript and Java, and a generic one that only
 * counts lines and collects comments.
 */
module FallbackParser {
  import opened Wrappers
  import opened Text
  import opened Records
  import opened SourcePatterns
  import opened PatternScan
  import opened CommentExtraction

  /** A function record per match, starting on the match's line and `span` lines long. */
  function FunctionRecords(s: string, fs: seq<Found>, span: int): (r: seq<FunctionInfo>)
    ensures |r| == |fs|
    ensures forall k :: 0 <= k < |fs| ==>
      r[k] == FunctionInfo(fs[k].text, LineOf(s, fs[k].start), LineOf(s, fs[k].start) + span, "")
  {
    seq(|fs|, k requires 0 <= k < |fs| => FunctionInfo(fs[k].text, LineOf(s, fs[k].start), LineOf(s, fs[k].start) + span, ""))
  }

  /** A class record per match, starting on the match's line and `span` lines long. */
  function ClassRecords(s: string, fs: seq<Found>, span: int): (r: seq<ClassInfo>)
    ensures |r| == |fs|
    ensures forall k :: 0 <= k < |fs| ==>
      r[k] == ClassInfo(fs[k].text, LineOf(s, fs[k].start), LineOf(s, fs[k].start) + span)
  {
    seq(|fs|, k requires 0 <= k < |fs| => ClassInfo(fs[k].text, LineOf(s, fs[k].start), LineOf(s, fs[k].start) + span))
  }

  /** One more match adds its function record at the end. */
  lemma FunctionRecordsSnoc(s: string, ms: seq<Found>, i: nat, span: int)
    requires i < |ms|
    ensures FunctionRecords(s, ms[..i + 1], span)
      == FunctionRecords(s, ms[..i], span) + [FunctionInfo(ms[i].text, LineOf(s, ms[i].start), LineOf(s, ms[i].start) + span, "")]
  {
    var fs, f := ms[..i], ms[i];
    assert ms[..i + 1] == fs + [f];
    var r, t := FunctionRecords(s, fs + [f], span), FunctionRecords(s, fs, span);
    forall k | 0 <= k < |fs| ensures r[k] == t[k] {
      assert (fs + [f])[k] == fs[k];
    }
    assert (fs + [f])[|fs|] == f;
  }

  /** One more match adds its class record at the end. */
  lemma ClassRecordsSnoc(s: string, ms: seq<Found>, i: nat, span: int)
    requires i < |ms|
    ensures ClassRecords(s, ms[..i + 1], span)
      == ClassRecords(s, ms[..i], span) + [ClassInfo(ms[i].text, LineOf(s, ms[i].start), LineOf(s, ms[i].start) + span)]
  {
    var fs, f := ms[..i], ms[i];
    assert ms[..i + 1] == fs + [f];
    var r, t := ClassRecords(s, fs + [f], span), ClassRecords(s, fs, span);
    forall k | 0 <= k < |fs| ensures r[k] == t[k] {
      assert (fs + [f])[k] == fs[k];
    }
    assert (fs + [f])[|fs|] == f;
  }

  /** `f"import from '{imp}'"` per matched module name. */
  function ModuleImports(fs: seq<Found>): (r: seq<string>)
    ensures |r| == |fs|
    ensures forall k :: 0 <= k < |fs| ==> r[k] == "import from '" + fs[k].text + "'"
  {
    seq(|fs|, k requires 0 <= k < |fs| => "import from '" + fs[k].text + "'")
  }

  /** What `parse_python_fallback` returns. */
  function PythonResult(content: string, info: CodeFile): ParsedFile {
    var functions := FunctionRecords(content, FindAll(PythonDef, content), 10);
    var classes := ClassRecords(content, FindAll(PythonClass, content), 20);
    ParsedFile(info.path, "python", info.size.GetOr(0), functions, classes,
      Texts(FindAll(PythonImport, content)), Comments(content),
      |functions| + 2 * |classes|, |SplitLines(content)|, None, None)
  }

  /** What `parse_javascript_fallback` returns. */
  function JavaScriptResult(content: string, info: CodeFile): ParsedFile {
    var functions := FunctionRecords(content, FindAll(JsFunction, content), 5);
    var classes := ClassRecords(content, FindAll(JsClass, content), 10);
    ParsedFile(info.path, info.language.GetOr("javascript"), info.size.GetOr(0), functions, classes,
      ModuleImports(FindAll(JsImport, content)), Comments(content),
      |functions| + 2 * |classes|, |SplitLines(content)|, None, None)
  }

  /** What `parse_java_fallback` returns. */
  function JavaResult(content: string, info: CodeFile): ParsedFile {
    var functions := FunctionRecords(content, FindAll(JavaMethod, content), 5);
    var classes := ClassRecords(content, FindAll(JavaClass, content), 20);
    ParsedFile(info.path, "java", info.size.GetOr(0), functions, classes,
      Texts(FindAll(JavaImport, content)), Comments(content),
      |functions| + 2 * |classes|, |SplitLines(content)|, None, None)
  }

  /** What `parse_generic` returns. */
  function GenericResult(content: string, info: CodeFile): ParsedFile {
    ParsedFile(info.path, info.language.GetOr("unknown"), info.size.GetOr(0), [], [], [],
      Comments(content), 1, |SplitLines(content)|, None, None)
  }

  // ---------------------------------------------------------------------
  // The parsers' loops

  /** `for m in pattern.finditer(content): functions.append(...)`. */
  method CollectFunctions(content: string, p: Pattern, span: int) returns (functions: seq<FunctionInfo>)
    ensures functions == FunctionRecords(content, FindAll(p, content), span)
  {
    var matches := FindIter(Hits(p, content), |content|);
    functions := AppendFunctions(content, matches, span);
  }

  /** The body of the function loop: one record per match, in match order. */
  method AppendFunctions(content: string, matches: seq<Found>, span: int) returns (functions: seq<FunctionInfo>)
    ensures functions == FunctionRecords(content, matches, span)
  {
    functions := [];
    for k := 0 to |matches|
      invariant functions == FunctionRecords(content, matches[..k], span)
    {
      var line := LineOf(content, matches[k].start);
      functions := functions + [FunctionInfo(matches[k].text, line, line + span, "")];
      FunctionRecordsSnoc(content, matches, k, span);
    }
    assert matches[..|matches|] == matches;
  }

  /** `for m in pattern.finditer(content): classes.append(...)`. */
  method CollectClasses(content: string, p: Pattern, span: int) returns (classes: seq<ClassInfo>)
    ensures classes == ClassRecords(content, FindAll(p, content), span)
  {
    var matches := FindIter(Hits(p, content), |content|);
    classes := AppendClasses(content, matches, span);
  }

  /** The body of the class loop: one record per match, in match order. */
  method AppendClasses(content: string, matches: seq<Found>, span: int) returns (classes: seq<ClassInfo>)
    ensures classes == ClassRecords(content, matches, span)
  {
    classes := [];
    for k := 0 to |matches|
      invariant classes == ClassRecords(content, matches[..k], span)
    {
      var line := LineOf(content, matches[k].start);
      classes := classes + [ClassInfo(matches[k].text, line, line + span)];
      ClassRecordsSnoc(content, matches, k, span);
    }
    assert matches[..|matches|] == matches;
  }

  /** `for m in pattern.finditer(content): imports.append(m.group(1).strip())`. */
  method CollectImports(content: string, p: Pattern) returns (imports: seq<string>)
    ensures imports == Texts(FindAll(p, content))
  {
    var matches := FindIter(Hits(p, content), |content|);
    imports := [];
    for k := 0 to |matches|
      invariant imports == Texts(matches[..k])
    {
      imports := imports + [matches[k].text];
    }
    assert matches[..|matches|] == matches;
  }

  /** `parse_python_fallback`. */
  method PythonFallback(content: string, info: CodeFile) returns (r: ParsedFile)
    ensures r == PythonResult(content, info)
  {
    var functions := CollectFunctions(content, PythonDef, 10);
    var classes := CollectClasses(content, PythonClass, 20);
    var imports := CollectImports(content, PythonImport);
    var comments := ExtractComments(content);
    r := ParsedFile(info.path, "python", info.size.GetOr(0), functions, classes, imports, comments,
      |functions| + 2 * |classes|, |SplitLines(content)|, None, None);
  }

  /** `parse_javascript_fallback`; every match captures a name, so none is skipped. */
  method JavaScriptFallback(content: string, info: CodeFile) returns (r: ParsedFile)
    ensures r == JavaScriptResult(content, info)
  {
    var functions := CollectFunctions(content, JsFunction, 5);
    var classes := CollectClasses(content, JsClass, 10);
    var modules := FindIter(Hits(JsImport, content), |content|);
    var imports: seq<string> := [];
    for k := 0 to |modules|
      invariant imports == ModuleImports(modules[..k])
    {
      imports := imports + ["import from '" + modules[k].text + "'"];
    }
    assert modules[..|modules|] == modules;
    var comments := ExtractComments(content);
    r := ParsedFile(info.path, info.language.GetOr("javascript"), info.size.GetOr(0), functions, classes,
      imports, comments, |functions| + 2 * |classes|, |SplitLines(content)|, None, None);
  }

  /** `parse_java_fallback`. */
  method JavaFallback(content: string, info: CodeFile) returns (r: ParsedFile)
    ensures r == JavaResult(content, info)
  {
    var functions := CollectFunctions(content, JavaMethod, 5);
    var classes := CollectClasses(content, JavaClass, 20);
    var imports := CollectImports(content, JavaImport);
    var comments := ExtractComments(content);
    r := ParsedFile(info.path, "java", info.size.GetOr(0), functions, classes, imports, comments,
      |functions| + 2 * |classes|, |SplitLines(content)|, None, None);
  }

  /** `parse_generic`. */
  method GenericParse(content: string, info: CodeFile) returns (r: ParsedFile)
    ensures r == GenericResult(content, info)
  {
    var comments := ExtractComments(content);
    r := ParsedFile(info.path, info.language.GetOr("unknown"), info.size.GetOr(0), [], [], [], comments,
      1, |SplitLines(content)|, None, None);
  }

  // ---------------------------------------------------------------------
  // Properties

  /**
   * Each record comes from a match of its pattern: it carries the captured,
   * non-empty name, starts on the line of the match -- one more than the
   * newlines before it -- and ends `span` lines later.
   */
  lemma RecordsFromMatches(content: string, p: Pattern, span: int)
    requires CapturesName(p)
    ensures var fs := FindAll(p, content);
      var r := FunctionRecords(content, fs, span);
      forall k :: 0 <= k < |fs| ==>
        fs[k].start < |content| && MatchAt(p, content, fs[k].start) == Some(Hit(fs[k].end, r[k].name))
        && r[k].name != []
        && r[k].lineStart == CountChar(content[..fs[k].start], '\n') + 1
        && r[k].lineEnd == r[k].lineStart + span
  {
    var fs := FindAll(p, content);
    HitsValid(p, content);
    ScanSound(Hits(p, content), |content|, 0);
    forall k | 0 <= k < |fs|
      ensures fs[k].start < |content| && MatchAt(p, content, fs[k].start) == Some(Hit(fs[k].end, fs[k].text))
      ensures fs[k].text != []
    {
      assert fs[k] in fs;
      assert Hits(p, content)(fs[k].start) == MatchAt(p, content, fs[k].start);
      NamedHits(p, content, fs[k].start);
    }
  }

  /**
   * The Python `def` pattern is anchored at a line start: a function is
   * recorded only for a `def` at the very start of a line, so an indented
   * method is never counted.
   */
  lemma PythonDefsAnchored(content: string, info: CodeFile)
    ensures var fs := FindAll(PythonDef, content);
      var r := PythonResult(content, info);
      |r.functions| == |fs|
      && forall k :: 0 <= k < |fs| ==>
        LineStart(content, fs[k].start) && OccursAt(content, "def", fs[k].start)
        && r.functions[k].name == fs[k].text
        && r.functions[k].lineEnd == r.functions[k].lineStart + 10
  {
    var fs := FindAll(PythonDef, content);
    HitsValid(PythonDef, content);
    ScanSound(Hits(PythonDef, content), |content|, 0);
    forall k | 0 <= k < |fs|
      ensures LineStart(content, fs[k].start) && OccursAt(content, "def", fs[k].start)
    {
      assert fs[k] in fs;
      assert Hits(PythonDef, content)(fs[k].start) == PythonDefAt(content, fs[k].start);
    }
  }

  /**
   * The shape every fallback result shares: the relative path, a line count
   * from `splitlines`, complexity as functions plus twice the classes, at
   * most ten comments, and no parsing error or full code.
   */
  predicate CommonShape(r: ParsedFile, content: string, info: CodeFile) {
    r.filePath == info.path && r.loc == |SplitLines(content)|
    && r.complexityScore == |r.functions| + 2 * |r.classes| && |r.comments| <= MaxComments
    && r.parsingError.None? && r.fullCode.None?
  }

  /**
   * The three language parsers share that shape; a function record spans 10
   * lines in Python and 5 in JavaScript and Java, a class record 20, 10 and
   * 20.
   */
  lemma FallbackShape(content: string, info: CodeFile)
    ensures CommonShape(PythonResult(content, info), content, info)
    ensures CommonShape(JavaScriptResult(content, info), content, info)
    ensures CommonShape(JavaResult(content, info), content, info)
    ensures forall f :: f in PythonResult(content, info).functions ==> f.lineEnd == f.lineStart + 10
    ensures forall f :: f in JavaScriptResult(content, info).functions ==> f.lineEnd == f.lineStart + 5
    ensures forall f :: f in JavaResult(content, info).functions ==> f.lineEnd == f.lineStart + 5
    ensures forall c :: c in PythonResult(content, info).classes ==> c.lineEnd == c.lineStart + 20
    ensures forall c :: c in JavaScriptResult(content, info).classes ==> c.lineEnd == c.lineStart + 10
    ensures forall c :: c in JavaResult(content, info).classes ==> c.lineEnd == c.lineStart + 20
  {
    CommentsFacts(content);
  }

  /** `parse_generic` finds no definitions and always reports complexity 1. */
  lemma GenericFindsNothing(content: string, info: CodeFile)
    ensures var r := GenericResult(content, info);
      r.functions == [] && r.classes == [] && r.imports == [] && r.complexityScore == 1
      && r.loc == |SplitLines(content)| && |r.comments| <= MaxComments
  {
    CommentsFacts(content);
  }

  /**
   * Every JavaScript import match captures a non-empty module name, so the
   * `if imp` guard never skips one: one import entry per match, in order.
   */
  lemma JsImportsNamed(content: string, info: CodeFile)
    ensures var fs := FindAll(JsImport, content);
      var imports := JavaScriptResult(content, info).imports;
      |imports| == |fs|
      && forall k :: 0 <= k < |fs| ==> fs[k].text != [] && imports[k] == "import from '" + fs[k].text + "'"
  {
    var fs := FindAll(JsImport, content);
    HitsValid(JsImport, content);
    ScanSound(Hits(JsImport, content), |content|, 0);
    forall k | 0 <= k < |fs|
      ensures fs[k].text != []
    {
      assert fs[k] in fs;
      assert Hits(JsImport, content)(fs[k].start) == JsImportAt(content, fs[k].start);
    }
  }
}
