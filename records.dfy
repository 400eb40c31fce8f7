/**
 * The records that travel through the document pipeline's state: the commit
 * and its file changes as loaded from the database, the existing document,
 * the repository files, their parse results and their summaries.
 */
module Records {
  import opened Wrappers

  /** Python's `str(x)` for a value that may be `None`. */
  function PyStr(o: Option<string>): string {
    match o
    case Some(s) => s
    case None => "None"
  }

  /** The outcome of one call into a foreign service (the LLM): its text, or the message of the exception it raised. */
  datatype Reply = Answer(text: string) | Failure(message: string)

  /** A commit as the data loader copies it into the state. */
  datatype CodeChangeInfo = CodeChangeInfo(
    id: int,
    commitSha: string,
    commitMessage: Option<string>,
    author: Option<string>,
    timestamp: Option<string>)

  /** One changed file of a commit. */
  datatype FileChangeInfo = FileChangeInfo(
    filename: string,
    status: Option<string>,
    changes: int,
    additions: int,
    deletions: int,
    patch: Option<string>)

  /** The stored document the pipeline may update; `title == None` is a record without that key. */
  datatype ExistingDocument = ExistingDocument(
    id: int,
    title: Option<string>,
    content: string,
    summary: Option<string>)

  /** Bookkeeping for one section touched by an incremental update. */
  datatype SectionUpdate = SectionUpdate(key: string, oldLength: nat, newLength: nat, changed: bool)

  /** A per-file change summary produced by the change analyzer. */
  datatype ChangeSummary = ChangeSummary(file: string, changeType: ChangeType, summary: string, priority: Priority)

  /** How a file changed, as read from its diff block. */
  datatype ChangeType = Added | Deleted | Modified {
    /** The name the source stores. */
    function Name(): string {
      match this
      case Added => "added"
      case Deleted => "deleted"
      case Modified => "modified"
    }
  }

  /** How much a changed file matters to the document. */
  datatype Priority = High | Medium | Low {
    /** The name the source stores. */
    function Name(): string {
      match this
      case High => "high"
      case Medium => "medium"
      case Low => "low"
    }
  }

  /** A repository file selected for parsing. */
  datatype CodeFile = CodeFile(
    path: string,
    fullPath: Option<string>,
    language: Option<string>,
    size: Option<int>,
    isTest: Option<bool>,
    isConfig: Option<bool>)

  /** Counters and listings describing a downloaded repository. */
  datatype RepoStructure = RepoStructure(
    totalFiles: nat,
    codeFiles: nat,
    testFiles: nat,
    docFiles: nat,
    directories: seq<string>,
    languages: Option<set<string>>)

  datatype FunctionInfo = FunctionInfo(name: string, lineStart: int, lineEnd: int, docstring: string)

  datatype ClassInfo = ClassInfo(name: string, lineStart: int, lineEnd: int)

  /** What a parser reports for one source file. */
  datatype ParsedFile = ParsedFile(
    filePath: string,
    language: string,
    size: int,
    functions: seq<FunctionInfo>,
    classes: seq<ClassInfo>,
    imports: seq<string>,
    comments: seq<string>,
    complexityScore: int,
    loc: int,
    parsingError: Option<string>,
    fullCode: Option<string>)

  datatype GenerationMethod = MockMethod | LlmMethod | FallbackMethod

  /**
   * The summary of one parsed file.  `purpose` and `role` are absent when an
   * LLM reply did not supply them as strings; `includedFullCode` is absent in
   * a fallback summary, which has no such key.
   */
  datatype FileSummary = FileSummary(
    filePath: string,
    language: string,
    purpose: Option<string>,
    role: Option<string>,
    functionsCount: nat,
    classesCount: nat,
    importsCount: nat,
    loc: int,
    generation: GenerationMethod,
    includedFullCode: Option<bool>,
    fullCode: Option<string>)

  /**
   * A value `json.loads` returns.  A dictionary is a map, since only `get`
   * is applied to one; numbers are integers.
   */
  datatype Json =
    | JNull
    | JBool(b: bool)
    | JNumber(n: int)
    | JString(s: string)
    | JList(items: seq<Json>)
    | JDict(fields: map<string, Json>)

  /** Python truthiness of a JSON value. */
  predicate JsonTruthy(j: Json) {
    match j
    case JNull => false
    case JBool(b) => b
    case JNumber(n) => n != 0
    case JString(s) => s != []
    case JList(items) => items != []
    case JDict(fields) => fields != map[]
  }

  /** The name of the Python type of a JSON value. */
  function JsonTypeName(j: Json): string {
    match j
    case JNull => "NoneType"
    case JBool(_) => "bool"
    case JNumber(_) => "int"
    case JString(_) => "str"
    case JList(_) => "list"
    case JDict(_) => "dict"
  }
}
