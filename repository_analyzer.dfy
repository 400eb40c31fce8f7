/**
 * The repository analyzer node: the repository is downloaded as a zip of
 * one of its branches, and the extracted tree is walked for code files and
 * counters.  The HTTP client, the temporary directory and the file system
 * listing are parameters.
 */
module RepositoryAnalyzer {
  import opened Wrappers
  import opened Text
  import opened Records
  import opened PipelineState
  import opened Collections

  /** Files larger than this many bytes are not analysed. */
  const BigFileSize: int := 5 * 1024 * 1024

  // ---------------------------------------------------------------------
  // Paths

  /** The index of the last occurrence of `c` in `s`. */
  function LastIndexOf(s: string, c: char): (r: Option<nat>)
    ensures r.Some? ==> r.value < |s| && s[r.value] == c && c !in s[r.value + 1..]
    ensures r.None? ==> c !in s
    decreases |s|
  {
    if s == [] then None
    else if s[|s| - 1] == c then Some(|s| - 1)
    else
      var r := LastIndexOf(s[..|s| - 1], c);
      assert r.Some? ==> s[r.value + 1..] == s[..|s| - 1][r.value + 1..] + [s[|s| - 1]];
      assert r.None? ==> s == s[..|s| - 1] + [s[|s| - 1]];
      r
  }

  /** `Path(p).parent` for a normalised path: `.` when it has one component, `/` for a root child. */
  function ParentPath(p: string): string {
    match LastIndexOf(p, '/')
    case None => "."
    case Some(k) => if k == 0 then "/" else p[..k]
  }

  /** `Path(p).name`: the last component. */
  function BaseName(p: string): (r: string)
    ensures '/' !in r
  {
    match LastIndexOf(p, '/')
    case None => p
    case Some(k) => p[k + 1..]
  }

  /**
   * `Path(p).suffix`: the last component's text from its last dot, unless
   * that dot opens or closes the name.
   */
  function Suffix(p: string): (r: string)
    ensures r != [] ==> r[0] == '.' && |r| >= 2 && |r| < |BaseName(p)|
  {
    var name := BaseName(p);
    match LastIndexOf(name, '.')
    case None => ""
    case Some(i) => if 0 < i < |name| - 1 then name[i..] else ""
  }

  /** `Path(p).stem`: the last component without its suffix. */
  function Stem(p: string): (r: string)
    ensures r + Suffix(p) == BaseName(p)
  {
    var name := BaseName(p);
    name[..|name| - |Suffix(p)|]
  }

  // ---------------------------------------------------------------------
  // Download

  /** The branch asked for first: the metadata's `default_branch` on HTTP 200, else `main`. */
  function DefaultBranch(metaStatus: Option<int>, metaBranch: Option<string>): (r: string)
    ensures metaStatus != Some(200) || metaBranch.None? ==> r == "main"
    ensures metaStatus == Some(200) && metaBranch.Some? ==> r == metaBranch.value
  {
    if metaStatus == Some(200) then metaBranch.GetOr("main") else "main"
  }

  /** The candidates without repeats, each kept where it first occurs. */
  function Dedup(s: seq<string>): seq<string>
    decreases |s|
  {
    if s == [] then []
    else
      var d := Dedup(s[..|s| - 1]);
      if s[|s| - 1] in d then d else d + [s[|s| - 1]]
  }

  /** Deduplication keeps every candidate once and adds nothing. */
  lemma {:induction false} DedupProperties(s: seq<string>)
    ensures Distinct(Dedup(s))
    ensures forall x :: x in Dedup(s) <==> x in s
    decreases |s|
  {
    if s != [] {
      var init := s[..|s| - 1];
      DedupProperties(init);
      assert s == init + [s[|s| - 1]];
    }
  }

  /** The loop that builds `branches_to_try`. */
  method BranchesToTry(defaultBranch: string) returns (branches: seq<string>)
    ensures branches == Dedup([defaultBranch, "main", "master"])
  {
    var candidates := [defaultBranch, "main", "master"];
    branches := [];
    var i := 0;
    while i < |candidates|
      invariant 0 <= i <= |candidates|
      invariant branches == Dedup(candidates[..i])
    {
      assert candidates[..i + 1][..i] == candidates[..i];
      if candidates[i] !in branches {
        branches := branches + [candidates[i]];
      }
      i := i + 1;
    }
    assert candidates[..i] == candidates;
  }

  /** The branches tried: the default branch, then `main` and `master` when they differ from it. */
  lemma BranchesTried(d: string)
    ensures Dedup([d, "main", "master"]) ==
      if d == "main" then ["main", "master"]
      else if d == "master" then ["master", "main"]
      else [d, "main", "master"]
  {
    var s := [d, "main", "master"];
    assert s[..1] == [d] && s[..2] == [d, "main"] && s[..2][..1] == [d];
    assert Dedup(s[..1]) == [d] by {
      assert s[..1][..0] == [];
    }
  }

  /**
   * What one download attempt of a branch ended with: the HTTP status and
   * the names in the extraction directory afterwards (meaningful on 200),
   * or an exception (from the request, the write or the extraction).
   */
  datatype Attempt = Responded(code: int, entries: seq<string>) | Errored

  /**
   * The outcome of trying `branches` in order: the first extracted entry
   * of the first branch answered with 200 (none if the zip was empty);
   * nothing once 403 is answered or the branches run out.
   */
  function Downloaded(extractPath: string, branches: seq<string>, fetch: string -> Attempt): Option<string>
    decreases |branches|
  {
    if branches == [] then None
    else match fetch(branches[0])
      case Errored => Downloaded(extractPath, branches[1..], fetch)
      case Responded(code, entries) =>
        if code == 200 then (if entries == [] then None else Some(extractPath + "/" + entries[0]))
        else if code == 403 then None
        else Downloaded(extractPath, branches[1..], fetch)
  }

  /** Every other status than 200 and 403, and every exception, moves on to the next branch. */
  predicate MovesOn(a: Attempt) {
    a.Errored? || (a.code != 200 && a.code != 403)
  }

  /**
   * A downloaded path comes from the first branch that did not move on,
   * which answered 200; every branch before it moved on.
   */
  lemma {:induction false} DownloadedFromFirst200(extractPath: string, branches: seq<string>, fetch: string -> Attempt)
    requires Downloaded(extractPath, branches, fetch).Some?
    ensures exists i :: (0 <= i < |branches| && fetch(branches[i]).Responded? && fetch(branches[i]).code == 200
      && fetch(branches[i]).entries != []
      && Downloaded(extractPath, branches, fetch) == Some(extractPath + "/" + fetch(branches[i]).entries[0])
      && forall j :: 0 <= j < i ==> MovesOn(fetch(branches[j])))
    decreases |branches|
  {
    if MovesOn(fetch(branches[0])) {
      DownloadedFromFirst200(extractPath, branches[1..], fetch);
      var i :| 0 <= i < |branches[1..]| && fetch(branches[1..][i]).Responded? && fetch(branches[1..][i]).code == 200
        && fetch(branches[1..][i]).entries != []
        && Downloaded(extractPath, branches[1..], fetch) == Some(extractPath + "/" + fetch(branches[1..][i]).entries[0])
        && forall j :: 0 <= j < i ==> MovesOn(fetch(branches[1..][j]));
      assert forall j :: 0 <= j < i + 1 ==> MovesOn(fetch(branches[j])) by {
        forall j | 0 <= j < i + 1
          ensures MovesOn(fetch(branches[j]))
        {
          if j > 0 {
            assert branches[j] == branches[1..][j - 1];
          }
        }
      }
      assert branches[i + 1] == branches[1..][i];
    }
  }

  /** A 403 on a branch tried ends the download with nothing, whatever later branches would answer. */
  lemma {:induction false} ForbiddenStops(extractPath: string, branches: seq<string>, fetch: string -> Attempt, i: nat)
    requires i < |branches| && fetch(branches[i]).Responded? && fetch(branches[i]).code == 403
    requires forall j :: 0 <= j < i ==> MovesOn(fetch(branches[j]))
    ensures Downloaded(extractPath, branches, fetch) == None
    decreases i
  {
    if i > 0 {
      assert forall j :: 0 <= j < i - 1 ==> branches[1..][j] == branches[j + 1];
      ForbiddenStops(extractPath, branches[1..], fetch, i - 1);
    }
  }

  /** The loop over `branches_to_try`. */
  method TryBranches(extractPath: string, branches: seq<string>, fetch: string -> Attempt) returns (path: Option<string>)
    ensures path == Downloaded(extractPath, branches, fetch)
  {
    var i := 0;
    while i < |branches|
      invariant 0 <= i <= |branches|
      invariant Downloaded(extractPath, branches[i..], fetch) == Downloaded(extractPath, branches, fetch)
    {
      assert branches[i..][1..] == branches[i + 1..];
      var attempt := fetch(branches[i]);
      if attempt.Responded? {
        if attempt.code == 200 {
          if attempt.entries != [] {
            return Some(extractPath + "/" + attempt.entries[0]);
          }
          return None;
        } else if attempt.code == 403 {
          break;
        }
      }
      i := i + 1;
    }
    path := None;
  }

  /**
   * `_download_repository_zip_sync`.  `tempDir` is the directory `mkdtemp`
   * created; `metaStatus` is the metadata request's status (`None` when it
   * raised) and `metaBranch` its `default_branch`.
   */
  function DownloadResult(tempDir: string, metaStatus: Option<int>, metaBranch: Option<string>,
                          fetch: string -> Attempt): Option<string>
  {
    Downloaded(tempDir + "/extracted", Dedup([DefaultBranch(metaStatus, metaBranch), "main", "master"]), fetch)
  }

  method DownloadRepositoryZip(tempDir: string, metaStatus: Option<int>, metaBranch: Option<string>,
                               fetch: string -> Attempt) returns (path: Option<string>)
    ensures path == DownloadResult(tempDir, metaStatus, metaBranch, fetch)
  {
    var branches := BranchesToTry(DefaultBranch(metaStatus, metaBranch));
    path := TryBranches(tempDir + "/extracted", branches, fetch);
  }

  // ---------------------------------------------------------------------
  // Cleanup

  const TempPrefix: string := "repo_analysis_"

  /**
   * `cleanup_repository_path`: the directory removed, if any: the
   * grandparent of an existing path, and only when its name carries the
   * temporary-directory prefix.
   */
  function CleanupTarget(repoPath: string, pathExists: bool): (r: Option<string>)
    ensures r.Some? ==> repoPath != [] && pathExists && StartsWith(BaseName(r.value), TempPrefix)
    ensures r.Some? ==> r.value == ParentPath(ParentPath(repoPath))
  {
    var grand := ParentPath(ParentPath(repoPath));
    if repoPath != [] && pathExists && StartsWith(BaseName(grand), TempPrefix) then Some(grand) else None
  }

  /** The last `c` of `a + [c] + b` is the one after `a` when `b` has none. */
  lemma {:induction false} LastIndexAfter(a: string, c: char, b: string)
    requires c !in b
    ensures LastIndexOf(a + [c] + b, c) == Some(|a|)
    decreases |b|
  {
    var s := a + [c] + b;
    if b != [] {
      assert s[..|s| - 1] == a + [c] + b[..|b| - 1];
      LastIndexAfter(a, c, b[..|b| - 1]);
    }
  }

  /** Cleaning up a downloaded repository removes the whole temporary directory. */
  lemma CleanupRemovesTempDir(tempDir: string, entry: string)
    requires tempDir != [] && StartsWith(BaseName(tempDir), TempPrefix)
    requires entry != [] && '/' !in entry
    ensures CleanupTarget(tempDir + "/extracted" + "/" + entry, true) == Some(tempDir)
  {
    var ext := tempDir + "/extracted";
    LastIndexAfter(ext, '/', entry);
    assert ext + "/" + entry == ext + ['/'] + entry;
    assert (ext + "/" + entry)[..|ext|] == ext;
    LastIndexAfter(tempDir, '/', "extracted");
    assert ext == tempDir + ['/'] + "extracted";
    assert ext[..|tempDir|] == tempDir;
  }

  // ---------------------------------------------------------------------
  // Classification of files

  /** Whether any of `patterns` occurs in `s`. */
  predicate ContainsAny(s: string, patterns: seq<string>) {
    exists k :: 0 <= k < |patterns| && Contains(s, patterns[k])
  }

  /** Paths holding one of these are skipped (a plain substring test, so `*.pyc` is literal). */
  const IgnorePatterns: seq<string> := [
    "__pycache__", ".git", ".svn", "node_modules", ".vscode", ".idea",
    "venv", "env", ".env", "build", "dist", "target", ".pytest_cache",
    ".coverage", "*.pyc", "*.pyo", "*.pyd", ".DS_Store", "Thumbs.db"]

  /** A file whose path merely contains `env` (such as `environment.py`) is ignored. */
  lemma EnvSubstringIgnored(e: RepoEntry)
    requires e.isFile && Contains(e.relPath, "env")
    ensures Classify(e) == IgnoredFile
  {
    assert IgnorePatterns[7] == "env";
  }

  lemma EnvironmentPyIgnored(fullPath: string, size: Option<int>)
    ensures Classify(RepoEntry("environment.py", fullPath, true, size)) == IgnoredFile
  {
    assert OccursAt("environment.py", "env", 0);
    EnvSubstringIgnored(RepoEntry("environment.py", fullPath, true, size));
  }

  /**
   * The `*.pyc`, `*.pyo` and `*.pyd` patterns match only a literal `*`:
   * for a path without one, the other sixteen patterns decide.
   */
  lemma StarPatternsLiteral(path: string)
    requires '*' !in path
    ensures ContainsAny(path, IgnorePatterns) <==> ContainsAny(path, IgnorePatterns[..14] + IgnorePatterns[17..])
  {
    var rest := IgnorePatterns[..14] + IgnorePatterns[17..];
    if ContainsAny(path, IgnorePatterns) {
      var k :| 0 <= k < |IgnorePatterns| && Contains(path, IgnorePatterns[k]);
      if 14 <= k < 17 {
        MissingFirstChar(path, IgnorePatterns[k]);
      }
      var j := if k < 14 then k else k - 3;
      assert rest[j] == IgnorePatterns[k];
    }
    if ContainsAny(path, rest) {
      var j :| 0 <= j < |rest| && Contains(path, rest[j]);
      var k := if j < 14 then j else j + 3;
      assert rest[j] == IgnorePatterns[k];
    }
  }

  /** The language of each code extension. */
  const CodeExtensions: map<string, string> := map[
    ".py" := "python", ".js" := "javascript", ".ts" := "typescript", ".jsx" := "javascript",
    ".tsx" := "typescript", ".java" := "java", ".cpp" := "cpp", ".c" := "c", ".h" := "c",
    ".hpp" := "cpp", ".go" := "go", ".rs" := "rust", ".php" := "php", ".rb" := "ruby",
    ".cs" := "csharp", ".kt" := "kotlin", ".swift" := "swift", ".scala" := "scala",
    ".sh" := "shell", ".sql" := "sql", ".html" := "html", ".css" := "css", ".scss" := "scss",
    ".yaml" := "yaml", ".yml" := "yaml", ".json" := "json", ".xml" := "xml",
    ".md" := "markdown", ".rst" := "rst"]

  const TestPatterns: seq<string> := ["test_", "_test.", "/test/", "/tests/", ".test.", ".spec."]

  const ConfigPatterns: seq<string> := [
    "config", "setting", "requirements.txt", "package.json", "Dockerfile",
    "docker-compose", ".env", "makefile", "cmake", ".yml", ".yaml"]

  const MainNames: seq<string> := ["main.py", "app.py", "index.", "server.", "__init__.py"]

  /** `_is_test_file`: a test pattern occurs in the lower-cased path. */
  predicate IsTestFile(path: string) {
    ContainsAny(Lower(path), TestPatterns)
  }

  /** `_is_config_file`: a config pattern occurs in the lower-cased path. */
  predicate IsConfigFile(path: string) {
    ContainsAny(Lower(path), ConfigPatterns)
  }

  /**
   * The `Dockerfile` pattern is compared with a lower-cased path, so it
   * never matches: a path is a config file exactly when one of the other
   * patterns occurs in it.
   */
  lemma DockerfileNeverMatches(path: string)
    ensures IsConfigFile(path) <==> ContainsAny(Lower(path), ConfigPatterns[..4] + ConfigPatterns[5..])
  {
    var s := Lower(path);
    var rest := ConfigPatterns[..4] + ConfigPatterns[5..];
    LowerHasNoUpper(path, "Dockerfile");
    if IsConfigFile(path) {
      var k :| 0 <= k < |ConfigPatterns| && Contains(s, ConfigPatterns[k]);
      assert k != 4;
      var j := if k < 4 then k else k - 1;
      assert rest[j] == ConfigPatterns[k];
    }
    if ContainsAny(s, rest) {
      var j :| 0 <= j < |rest| && Contains(s, rest[j]);
      var k := if j < 4 then j else j + 1;
      assert rest[j] == ConfigPatterns[k];
    }
  }

  /** A lower-cased text contains nothing that starts with an upper-case letter. */
  lemma LowerHasNoUpper(path: string, sub: string)
    requires |sub| > 0 && 'A' <= sub[0] <= 'Z'
    ensures !Contains(Lower(path), sub)
  {
  }

  /** `_get_file_priority`: 1 for entry points, 2 for configuration and read-me files, 3 for sources, 4 for tests. */
  function FilePriority(path: string): (r: int)
    ensures 1 <= r <= 4
    ensures r == 1 <==> ContainsAny(Lower(path), MainNames)
    ensures r == 2 ==> IsConfigFile(path) || Contains(Lower(path), "readme")
    ensures r == 3 ==> !IsTestFile(path)
    ensures r == 4 ==> IsTestFile(path)
  {
    var name := Lower(path);
    if ContainsAny(name, MainNames) then 1
    else if IsConfigFile(path) || Contains(name, "readme") then 2
    else if !IsTestFile(path) then 3
    else 4
  }

  // ---------------------------------------------------------------------
  // Walking the extracted tree

  /**
   * One entry of `repo_path.rglob('*')`: its path relative to the
   * repository (with `/` separators), its full path, whether it is a file,
   * and its size (`None` when `stat` fails).
   */
  datatype RepoEntry = RepoEntry(relPath: string, fullPath: string, isFile: bool, size: Option<int>)

  /** What the walk makes of one entry. */
  datatype Outcome =
    | NotAFile
    | IgnoredFile
    | Skipped          // a code file too large, or whose size cannot be read
    | OtherFile        // counted, its directory recorded, not analysed
    | Code(file: CodeFile, language: string)

  /** The record the walk keeps for a code file. */
  function Record(e: RepoEntry, language: string): CodeFile {
    CodeFile(e.relPath, Some(e.fullPath), Some(language), e.size,
             Some(IsTestFile(e.relPath)), Some(IsConfigFile(e.relPath)))
  }

  function Classify(e: RepoEntry): (o: Outcome)
    ensures o.Code? ==> o.file.path == e.relPath && o.file.language == Some(o.language)
  {
    if !e.isFile then NotAFile
    else if ContainsAny(e.relPath, IgnorePatterns) then IgnoredFile
    else
      var ext := Lower(Suffix(e.relPath));
      if ext !in CodeExtensions then OtherFile
      else if e.size.None? || e.size.value > BigFileSize then Skipped
      else Code(Record(e, CodeExtensions[ext]), CodeExtensions[ext])
  }

  /** A code file kept by the walk: not ignored, of a known extension, and small enough. */
  predicate KeptFile(f: CodeFile) {
    && !ContainsAny(f.path, IgnorePatterns)
    && Lower(Suffix(f.path)) in CodeExtensions
    && f.language == Some(CodeExtensions[Lower(Suffix(f.path))])
    && f.size.Some? && f.size.value <= BigFileSize
    && f.isTest == Some(IsTestFile(f.path)) && f.isConfig == Some(IsConfigFile(f.path))
  }

  /** Strictly ascending in Python's string order (so without repeats). */
  predicate SortedStrict(s: seq<string>) {
    forall i, j :: 0 <= i < j < |s| ==> LexLess(s[i], s[j])
  }

  /** Adding `x` to a set kept as a strictly ascending sequence. */
  function InsertSorted(s: seq<string>, x: string): seq<string>
    decreases |s|
  {
    if s == [] then [x]
    else if x == s[0] then s
    else if LexLess(x, s[0]) then [x] + s
    else [s[0]] + InsertSorted(s[1..], x)
  }

  /** Insertion adds `x` and nothing else, and keeps the sequence strictly ascending. */
  lemma {:induction false} InsertSortedFacts(s: seq<string>, x: string)
    requires SortedStrict(s)
    ensures SortedStrict(InsertSorted(s, x))
    ensures forall y :: y in InsertSorted(s, x) <==> y in s || y == x
    decreases |s|
  {
    if s == [] || x == s[0] {
    } else if LexLess(x, s[0]) {
      forall j | 0 <= j < |s|
        ensures LexLess(x, s[j])
      {
        if j > 0 {
          LexLessTransitive(x, s[0], s[j]);
        }
      }
    } else {
      LexLessTotal(x, s[0]);
      InsertSortedFacts(s[1..], x);
      var t := InsertSorted(s[1..], x);
      forall y | y in t
        ensures LexLess(s[0], y)
      {
        if y != x {
          var j :| 0 <= j < |s[1..]| && s[1..][j] == y;
          assert s[j + 1] == y;
        }
      }
      assert s == [s[0]] + s[1..];
    }
  }

  /** `language in ['markdown', 'rst']`. */
  predicate IsDocLanguage(language: string) {
    language == "markdown" || language == "rst"
  }

  /** The outcome of each entry of a listing. */
  function Outcomes(es: seq<RepoEntry>): (os: seq<Outcome>)
    ensures |os| == |es|
    ensures forall i :: 0 <= i < |es| ==> os[i] == Classify(es[i])
  {
    seq(|es|, i requires 0 <= i < |es| => Classify(es[i]))
  }

  /** The records of the code files, in listing order (`code_files` before the sort). */
  function KeptFiles(os: seq<Outcome>): seq<CodeFile>
    decreases |os|
  {
    if os == [] then []
    else KeptFiles(os[..|os| - 1]) + (var o := os[|os| - 1]; if o.Code? then [o.file] else [])
  }

  /** `total_files`: every file is counted, ignored or not. */
  function FileCount(os: seq<Outcome>): nat
    decreases |os|
  {
    if os == [] then 0 else FileCount(os[..|os| - 1]) + (if os[|os| - 1].NotAFile? then 0 else 1)
  }

  /** Whether a kept file is flagged as a test (`is_test`). */
  predicate IsFlaggedTest(f: CodeFile) {
    f.isTest == Some(true)
  }

  /** Whether an outcome is a code file flagged as a test. */
  predicate IsTestOutcome(o: Outcome) {
    o.Code? && o.file.isTest == Some(true)
  }

  /** Whether an outcome is a documentation file that is not a test. */
  predicate IsDocOutcome(o: Outcome) {
    o.Code? && o.file.isTest != Some(true) && IsDocLanguage(o.language)
  }

  /** Whether the walk records the directory of an entry: a file neither ignored nor skipped. */
  predicate RecordsDir(o: Outcome) {
    o.OtherFile? || o.Code?
  }

  /** The recorded directories, as a set kept in ascending order. */
  function DirsOf(es: seq<RepoEntry>, os: seq<Outcome>): seq<string>
    requires |os| == |es|
    decreases |es|
  {
    if es == [] then []
    else
      var dirs := DirsOf(es[..|es| - 1], os[..|os| - 1]);
      var parent := ParentPath(es[|es| - 1].relPath);
      if RecordsDir(os[|os| - 1]) && parent != "." then InsertSorted(dirs, parent) else dirs
  }

  /** The walk's variables: kept files, recorded directories and counters. */
  datatype Walk = Walk(files: seq<CodeFile>, dirs: seq<string>, total: nat, code: nat, tests: nat, docs: nat)

  /** The walk over a listing. */
  function WalkOf(es: seq<RepoEntry>): Walk {
    var os := Outcomes(es);
    Walk(KeptFiles(os), DirsOf(es, os), FileCount(os), |KeptFiles(os)|,
         CountWhere(os, IsTestOutcome), CountWhere(os, IsDocOutcome))
  }

  /** Test and documentation files are code files, and code files are files. */
  lemma {:induction false} CountsOrdered(os: seq<Outcome>)
    ensures CountWhere(os, IsTestOutcome) + CountWhere(os, IsDocOutcome) <= |KeptFiles(os)| <= FileCount(os) <= |os|
    decreases |os|
  {
    if os != [] {
      CountsOrdered(os[..|os| - 1]);
    }
  }

  /** The test count is the number of kept files flagged as tests. */
  lemma {:induction false} TestsAreFlagged(os: seq<Outcome>)
    ensures CountWhere(os, IsTestOutcome) == CountWhere(KeptFiles(os), IsFlaggedTest)
    decreases |os|
  {
    if os != [] {
      TestsAreFlagged(os[..|os| - 1]);
      var fs := KeptFiles(os);
      if os[|os| - 1].Code? {
        assert fs[..|fs| - 1] == KeptFiles(os[..|os| - 1]);
        assert fs[|fs| - 1] == os[|os| - 1].file;
      } else {
        assert fs == KeptFiles(os[..|os| - 1]);
      }
    }
  }

  /**
   * The walk's counters: one code count per kept file, every test or
   * documentation file is a code file, and every file of the listing is
   * counted once.
   */
  lemma WalkCounts(es: seq<RepoEntry>)
    ensures var w := WalkOf(es);
      && w.code == |w.files|
      && w.tests + w.docs <= w.code <= w.total <= |es|
      && w.tests == CountWhere(w.files, IsFlaggedTest)
  {
    CountsOrdered(Outcomes(es));
    TestsAreFlagged(Outcomes(es));
  }

  lemma {:induction false} KeptFilesMembers(os: seq<Outcome>, f: CodeFile)
    ensures f in KeptFiles(os) <==> exists i :: 0 <= i < |os| && os[i].Code? && os[i].file == f
    decreases |os|
  {
    if os != [] {
      var init := os[..|os| - 1];
      KeptFilesMembers(init, f);
      if exists i :: 0 <= i < |init| && init[i].Code? && init[i].file == f {
        var i :| 0 <= i < |init| && init[i].Code? && init[i].file == f;
        assert os[i] == init[i];
      }
      if exists i :: 0 <= i < |os| && os[i].Code? && os[i].file == f {
        var i :| 0 <= i < |os| && os[i].Code? && os[i].file == f;
        if i < |init| {
          assert init[i] == os[i];
        }
      }
    }
  }

  /** The kept files are exactly the records of the code files of the listing. */
  lemma WalkKeeps(es: seq<RepoEntry>, f: CodeFile)
    ensures f in WalkOf(es).files <==> exists i :: 0 <= i < |es| && Classify(es[i]).Code? && Classify(es[i]).file == f
  {
    KeptFilesMembers(Outcomes(es), f);
  }

  /** A code file's record passed every filter of the walk. */
  lemma ClassifiedKept(e: RepoEntry)
    requires Classify(e).Code?
    ensures KeptFile(Classify(e).file)
  {
  }

  /** Every file the walk keeps passed its filters. */
  lemma WalkFilesKept(es: seq<RepoEntry>, f: CodeFile)
    requires f in WalkOf(es).files
    ensures KeptFile(f)
  {
    WalkKeeps(es, f);
    var i :| 0 <= i < |es| && Classify(es[i]).Code? && Classify(es[i]).file == f;
    ClassifiedKept(es[i]);
  }

  /** Some entry whose outcome records a directory has `d` as its parent. */
  predicate ParentOfRecorded(es: seq<RepoEntry>, os: seq<Outcome>, d: string)
    requires |os| == |es|
  {
    exists i :: 0 <= i < |es| && RecordsDir(os[i]) && ParentPath(es[i].relPath) == d
  }

  /** Directories kept by insertion stay strictly ascending. */
  lemma {:induction false} DirsOfSorted(es: seq<RepoEntry>, os: seq<Outcome>)
    requires |os| == |es|
    ensures SortedStrict(DirsOf(es, os))
    decreases |es|
  {
    if es != [] {
      var init, oinit := es[..|es| - 1], os[..|os| - 1];
      DirsOfSorted(init, oinit);
      var parent := ParentPath(es[|es| - 1].relPath);
      if RecordsDir(os[|os| - 1]) && parent != "." {
        InsertSortedFacts(DirsOf(init, oinit), parent);
      }
    }
  }

  /** One more entry adds its own parent to the parents of recorded entries. */
  lemma ParentOfRecordedSnoc(es: seq<RepoEntry>, os: seq<Outcome>, d: string)
    requires |os| == |es| && es != []
    ensures ParentOfRecorded(es, os, d)
      <==> ParentOfRecorded(es[..|es| - 1], os[..|os| - 1], d)
           || (RecordsDir(os[|os| - 1]) && ParentPath(es[|es| - 1].relPath) == d)
  {
    var init, oinit := es[..|es| - 1], os[..|os| - 1];
    if ParentOfRecorded(init, oinit, d) {
      var i :| 0 <= i < |init| && RecordsDir(oinit[i]) && ParentPath(init[i].relPath) == d;
      assert es[i] == init[i] && os[i] == oinit[i];
    }
    if ParentOfRecorded(es, os, d) {
      var i :| 0 <= i < |es| && RecordsDir(os[i]) && ParentPath(es[i].relPath) == d;
      if i < |init| {
        assert init[i] == es[i] && oinit[i] == os[i];
      }
    }
  }

  /** A directory is recorded exactly when it is the parent, other than the root, of a recorded entry. */
  lemma {:induction false} DirsOfMembers(es: seq<RepoEntry>, os: seq<Outcome>, d: string)
    requires |os| == |es|
    ensures d in DirsOf(es, os) <==> d != "." && ParentOfRecorded(es, os, d)
    decreases |es|
  {
    if es != [] {
      var init, oinit := es[..|es| - 1], os[..|os| - 1];
      DirsOfMembers(init, oinit, d);
      DirsOfSorted(init, oinit);
      ParentOfRecordedSnoc(es, os, d);
      var parent := ParentPath(es[|es| - 1].relPath);
      if RecordsDir(os[|os| - 1]) && parent != "." {
        InsertSortedFacts(DirsOf(init, oinit), parent);
      }
    }
  }

  /**
   * The recorded directories are ascending, without repeats, and are the
   * parents, other than the repository root, of the files that are
   * neither ignored nor skipped.
   */
  lemma WalkDirs(es: seq<RepoEntry>, d: string)
    ensures SortedStrict(WalkOf(es).dirs)
    ensures d in WalkOf(es).dirs <==>
      d != "." && exists i :: 0 <= i < |es| && RecordsDir(Classify(es[i])) && ParentPath(es[i].relPath) == d
  {
    DirsOfSorted(es, Outcomes(es));
    DirsOfMembers(es, Outcomes(es), d);
  }

  // ---------------------------------------------------------------------
  // Ordering by priority

  /** `_get_file_priority` of a kept file's path. */
  function PriorityOf(f: CodeFile): (r: int)
    ensures 1 <= r <= 4
  {
    FilePriority(f.path)
  }

  /** The files whose key is `k`, in their order. */
  function WithKey(fs: seq<CodeFile>, key: CodeFile -> int, k: int): seq<CodeFile>
    decreases |fs|
  {
    if fs == [] then []
    else WithKey(fs[..|fs| - 1], key, k) + (if key(fs[|fs| - 1]) == k then [fs[|fs| - 1]] else [])
  }

  /** The files whose key is `k` or more, in their order. */
  function AtLeast(fs: seq<CodeFile>, key: CodeFile -> int, k: int): seq<CodeFile>
    decreases |fs|
  {
    if fs == [] then []
    else AtLeast(fs[..|fs| - 1], key, k) + (if key(fs[|fs| - 1]) >= k then [fs[|fs| - 1]] else [])
  }

  /** The files of key `k` followed by those of the later keys, up to 4. */
  function SortFrom(fs: seq<CodeFile>, key: CodeFile -> int, k: int): seq<CodeFile>
    requires 1 <= k <= 5
    decreases 5 - k
  {
    if k == 5 then [] else WithKey(fs, key, k) + SortFrom(fs, key, k + 1)
  }

  /** `code_files.sort(key=priority)`: Python's sort is stable, so this is the list it produces. */
  function SortByPriority(fs: seq<CodeFile>): seq<CodeFile> {
    SortFrom(fs, PriorityOf, 1)
  }

  lemma {:induction false} WithKeyMembers(fs: seq<CodeFile>, key: CodeFile -> int, k: int, f: CodeFile)
    ensures f in WithKey(fs, key, k) <==> f in fs && key(f) == k
    decreases |fs|
  {
    if fs != [] {
      WithKeyMembers(fs[..|fs| - 1], key, k, f);
      assert fs == fs[..|fs| - 1] + [fs[|fs| - 1]];
    }
  }

  lemma {:induction false} AtLeastSplit(fs: seq<CodeFile>, key: CodeFile -> int, k: int)
    ensures multiset(AtLeast(fs, key, k)) == multiset(WithKey(fs, key, k)) + multiset(AtLeast(fs, key, k + 1))
    decreases |fs|
  {
    if fs != [] {
      AtLeastSplit(fs[..|fs| - 1], key, k);
    }
  }

  lemma {:induction false} AtLeastBounds(fs: seq<CodeFile>, key: CodeFile -> int)
    requires forall f :: 1 <= key(f) <= 4
    ensures AtLeast(fs, key, 1) == fs && AtLeast(fs, key, 5) == []
    decreases |fs|
  {
    if fs != [] {
      AtLeastBounds(fs[..|fs| - 1], key);
      assert fs == fs[..|fs| - 1] + [fs[|fs| - 1]];
    }
  }

  lemma {:induction false} SortFromPermutes(fs: seq<CodeFile>, key: CodeFile -> int, k: int)
    requires 1 <= k <= 5
    requires forall f :: 1 <= key(f) <= 4
    ensures multiset(SortFrom(fs, key, k)) == multiset(AtLeast(fs, key, k))
    decreases 5 - k
  {
    if k == 5 {
      AtLeastBounds(fs, key);
    } else {
      SortFromPermutes(fs, key, k + 1);
      AtLeastSplit(fs, key, k);
    }
  }

  lemma {:induction false} SortFromMembers(fs: seq<CodeFile>, key: CodeFile -> int, k: int, f: CodeFile)
    requires 1 <= k <= 5
    requires f in SortFrom(fs, key, k)
    ensures k <= key(f)
    decreases 5 - k
  {
    if k < 5 {
      if f in WithKey(fs, key, k) {
        WithKeyMembers(fs, key, k, f);
      } else {
        SortFromMembers(fs, key, k + 1, f);
      }
    }
  }

  /** A block of key `k` followed by elements of larger keys is in key order, if the rest is. */
  lemma ConcatOrdered(a: seq<CodeFile>, b: seq<CodeFile>, key: CodeFile -> int, k: int)
    requires forall f :: f in a ==> key(f) == k
    requires forall f :: f in b ==> k < key(f)
    requires forall i, j :: 0 <= i < j < |b| ==> key(b[i]) <= key(b[j])
    ensures forall i, j :: 0 <= i < j < |a + b| ==> key((a + b)[i]) <= key((a + b)[j])
  {
    forall i, j | 0 <= i < j < |a + b|
      ensures key((a + b)[i]) <= key((a + b)[j])
    {
      if j < |a| {
        assert a[i] in a && a[j] in a;
      } else if i < |a| {
        assert a[i] in a && b[j - |a|] in b;
      } else {
        assert (a + b)[i] == b[i - |a|] && (a + b)[j] == b[j - |a|];
      }
    }
  }

  lemma {:induction false} SortFromOrdered(fs: seq<CodeFile>, key: CodeFile -> int, k: int)
    requires 1 <= k <= 5
    ensures forall i, j :: 0 <= i < j < |SortFrom(fs, key, k)| ==> key(SortFrom(fs, key, k)[i]) <= key(SortFrom(fs, key, k)[j])
    decreases 5 - k
  {
    if k < 5 {
      SortFromOrdered(fs, key, k + 1);
      var a, b := WithKey(fs, key, k), SortFrom(fs, key, k + 1);
      forall f | f in a ensures key(f) == k {
        WithKeyMembers(fs, key, k, f);
      }
      forall f | f in b ensures k < key(f) {
        SortFromMembers(fs, key, k + 1, f);
      }
      ConcatOrdered(a, b, key, k);
    }
  }

  /** The sorted files are the same files, in ascending priority. */
  lemma SortByPriorityIsSorted(fs: seq<CodeFile>)
    ensures multiset(SortByPriority(fs)) == multiset(fs)
    ensures forall i, j :: 0 <= i < j < |SortByPriority(fs)| ==>
      PriorityOf(SortByPriority(fs)[i]) <= PriorityOf(SortByPriority(fs)[j])
  {
    SortFromPermutes(fs, PriorityOf, 1);
    SortFromOrdered(fs, PriorityOf, 1);
    AtLeastBounds(fs, PriorityOf);
  }

  lemma {:induction false} WithKeyAppend(a: seq<CodeFile>, b: seq<CodeFile>, key: CodeFile -> int, k: int)
    ensures WithKey(a + b, key, k) == WithKey(a, key, k) + WithKey(b, key, k)
    decreases |b|
  {
    if b == [] {
      assert a + b == a;
    } else {
      var b' := b[..|b| - 1];
      WithKeyAppend(a, b', key, k);
      assert (a + b)[..|a + b| - 1] == a + b';
      assert (a + b)[|a + b| - 1] == b[|b| - 1];
    }
  }

  lemma {:induction false} WithKeyTwice(fs: seq<CodeFile>, key: CodeFile -> int, j: int, k: int)
    ensures WithKey(WithKey(fs, key, j), key, k) == if j == k then WithKey(fs, key, k) else []
    decreases |fs|
  {
    if fs != [] {
      var init, last := fs[..|fs| - 1], fs[|fs| - 1];
      WithKeyTwice(init, key, j, k);
      var tail := if key(last) == j then [last] else [];
      WithKeyAppend(WithKey(init, key, j), tail, key, k);
      if tail != [] {
        assert WithKey(tail, key, k) == WithKey([], key, k) + (if key(last) == k then [last] else []);
      }
    }
  }

  lemma {:induction false} SortFromStable(fs: seq<CodeFile>, key: CodeFile -> int, k: int, p: int)
    requires 1 <= k <= 5
    ensures WithKey(SortFrom(fs, key, k), key, p) == if k <= p <= 4 then WithKey(fs, key, p) else []
    decreases 5 - k
  {
    if k < 5 {
      SortFromStable(fs, key, k + 1, p);
      WithKeyAppend(WithKey(fs, key, k), SortFrom(fs, key, k + 1), key, p);
      WithKeyTwice(fs, key, k, p);
    }
  }

  lemma {:induction false} NoSuchKey(fs: seq<CodeFile>, key: CodeFile -> int, p: int)
    requires forall f :: 1 <= key(f) <= 4
    requires !(1 <= p <= 4)
    ensures WithKey(fs, key, p) == []
    decreases |fs|
  {
    if fs != [] {
      NoSuchKey(fs[..|fs| - 1], key, p);
    }
  }

  /** The sort is stable: the files of each priority keep their order. */
  lemma SortByPriorityIsStable(fs: seq<CodeFile>, p: int)
    ensures WithKey(SortByPriority(fs), PriorityOf, p) == WithKey(fs, PriorityOf, p)
  {
    SortFromStable(fs, PriorityOf, 1, p);
    if !(1 <= p <= 4) {
      NoSuchKey(fs, PriorityOf, p);
    }
  }

  // ---------------------------------------------------------------------
  // The structure analysis and the node

  /** The languages of the kept files (`list(set(...))`, kept as a set). */
  function Languages(fs: seq<CodeFile>): (r: set<string>)
    ensures forall f :: f in fs && f.language.Some? ==> f.language.value in r
  {
    set f | f in fs && f.language.Some? :: f.language.value
  }

  /** `repository_structure` after a walk. */
  function StructureOf(w: Walk): RepoStructure {
    RepoStructure(w.total, w.code, w.tests, w.docs, w.dirs, Some(Languages(w.files)))
  }

  /** One iteration of the walk's loop, given the entry's path and outcome. */
  method VisitEntry(path: string, o: Outcome, kept: seq<CodeFile>, dirs: seq<string>, total: nat, tests: nat, docs: nat)
    returns (kept': seq<CodeFile>, dirs': seq<string>, total': nat, tests': nat, docs': nat)
    ensures kept' == kept + (if o.Code? then [o.file] else [])
    ensures dirs' == if RecordsDir(o) && ParentPath(path) != "." then InsertSorted(dirs, ParentPath(path)) else dirs
    ensures total' == total + (if o.NotAFile? then 0 else 1)
    ensures tests' == tests + (if IsTestOutcome(o) then 1 else 0)
    ensures docs' == docs + (if IsDocOutcome(o) then 1 else 0)
  {
    kept', dirs', total', tests', docs' := kept, dirs, total, tests, docs;
    if o != NotAFile {
      total' := total + 1;
      if o != IgnoredFile && o != Skipped {
        if o.Code? {
          kept' := kept + [o.file];
          if o.file.isTest == Some(true) {
            tests' := tests + 1;
          } else if IsDocLanguage(o.language) {
            docs' := docs + 1;
          }
        }
        var parent := ParentPath(path);
        if parent != "." {
          dirs' := InsertSorted(dirs, parent);
        }
      }
    }
  }

  /** One more entry extends each of the walk's variables by what that entry contributes. */
  lemma AnalyzeStep(es: seq<RepoEntry>, i: nat)
    requires i < |es|
    ensures var os := Outcomes(es);
      var o := os[i];
      var parent := ParentPath(es[i].relPath);
      && KeptFiles(os[..i + 1]) == KeptFiles(os[..i]) + (if o.Code? then [o.file] else [])
      && DirsOf(es[..i + 1], os[..i + 1])
           == (if RecordsDir(o) && parent != "." then InsertSorted(DirsOf(es[..i], os[..i]), parent) else DirsOf(es[..i], os[..i]))
      && FileCount(os[..i + 1]) == FileCount(os[..i]) + (if o.NotAFile? then 0 else 1)
      && CountWhere(os[..i + 1], IsTestOutcome) == CountWhere(os[..i], IsTestOutcome) + (if IsTestOutcome(o) then 1 else 0)
      && CountWhere(os[..i + 1], IsDocOutcome) == CountWhere(os[..i], IsDocOutcome) + (if IsDocOutcome(o) then 1 else 0)
  {
    var os := Outcomes(es);
    assert es[..i + 1][..i] == es[..i] && os[..i + 1][..i] == os[..i];
  }

  /** `_analyze_repository_structure_sync` over the listing of the extracted repository. */
  method AnalyzeStructure(entries: seq<RepoEntry>) returns (files: seq<CodeFile>, structure: RepoStructure)
    ensures files == SortByPriority(WalkOf(entries).files)
    ensures structure == StructureOf(WalkOf(entries))
  {
    ghost var os := Outcomes(entries);
    var kept: seq<CodeFile> := [];
    var dirs: seq<string> := [];
    var total, code, tests, docs := 0, 0, 0, 0;
    var i := 0;
    while i < |entries|
      invariant 0 <= i <= |entries|
      invariant kept == KeptFiles(os[..i]) && code == |kept|
      invariant dirs == DirsOf(entries[..i], os[..i])
      invariant total == FileCount(os[..i])
      invariant tests == CountWhere(os[..i], IsTestOutcome) && docs == CountWhere(os[..i], IsDocOutcome)
    {
      var o := Classify(entries[i]);
      kept, dirs, total, tests, docs := VisitEntry(entries[i].relPath, o, kept, dirs, total, tests, docs);
      AnalyzeStep(entries, i);
      if o.Code? {
        code := code + 1;
      }
      i := i + 1;
    }
    assert entries[..i] == entries && os[..i] == os;
    structure := StructureOf(Walk(kept, dirs, total, code, tests, docs));
    files := SortByPriority(kept);
  }

  /** The files the mock mode reports, with their path and language only. */
  const MockFiles: seq<CodeFile> := [
    CodeFile("main.py", None, Some("python"), None, None, None),
    CodeFile("src/app.py", None, Some("python"), None, None, None),
    CodeFile("src/models/user.py", None, Some("python"), None, None, None),
    CodeFile("src/utils/helper.py", None, Some("python"), None, None, None),
    CodeFile("tests/test_app.py", None, Some("python"), None, None, None),
    CodeFile("README.md", None, Some("markdown"), None, None, None),
    CodeFile("requirements.txt", None, Some("text"), None, None, None)]

  /** The mock structure: fixed counters and directories, no `languages` key. */
  const MockStructure: RepoStructure :=
    RepoStructure(|MockFiles|, 5, 1, 1, ["src", "src/models", "src/utils", "tests"], None)

  const NameRequired: string := "Repository name is required"
  const MockPath: string := "/mock/repository/path"
  const AnalyzingFiles: string := "analyzing_files"

  function DownloadFailed(name: string): string {
    "Failed to download repository: " + name
  }

  /**
   * `repository_analyzer_node`.  `tempDir` is the directory `mkdtemp`
   * creates, `metaStatus`/`metaBranch` and `fetch` the HTTP answers (the
   * access token is part of them), and `listing` the recursive listing of
   * an extracted repository.
   */
  method RepositoryAnalyzerNode(st: DocumentState, useMock: bool, tempDir: string, metaStatus: Option<int>,
                                metaBranch: Option<string>, fetch: string -> Attempt,
                                listing: string -> seq<RepoEntry>)
    modifies st`error, st`status, st`repositoryPath, st`codeFiles, st`repositoryStructure
    ensures old(st.repositoryName).None? || old(st.repositoryName) == Some("") ==>
      st.error == Some(NameRequired) && st.status == "error"
      && unchanged(st`repositoryPath, st`codeFiles, st`repositoryStructure)
    ensures old(st.repositoryName).Some? && old(st.repositoryName) != Some("") && useMock ==>
      st.repositoryPath == Some(MockPath) && st.codeFiles == Some(MockFiles)
      && st.repositoryStructure == Some(MockStructure) && st.status == AnalyzingFiles && unchanged(st`error)
    ensures old(st.repositoryName).Some? && old(st.repositoryName) != Some("") && !useMock ==>
      match DownloadResult(tempDir, metaStatus, metaBranch, fetch)
      case None =>
        st.error == Some(DownloadFailed(old(st.repositoryName).value)) && st.status == "error"
        && unchanged(st`repositoryPath, st`codeFiles, st`repositoryStructure)
      case Some(path) =>
        var w := WalkOf(listing(path));
        st.repositoryPath == Some(path) && st.codeFiles == Some(SortByPriority(w.files))
        && st.repositoryStructure == Some(StructureOf(w)) && st.status == AnalyzingFiles && unchanged(st`error)
  {
    var name := st.repositoryName;
    if name.None? || name.value == [] {
      st.error := Some(NameRequired);
      st.status := "error";
      return;
    }
    if useMock {
      st.repositoryPath := Some(MockPath);
      st.codeFiles := Some(MockFiles);
      st.repositoryStructure := Some(MockStructure);
      st.status := AnalyzingFiles;
      return;
    }
    var path := DownloadRepositoryZip(tempDir, metaStatus, metaBranch, fetch);
    if path.None? {
      st.error := Some(DownloadFailed(name.value));
      st.status := "error";
      return;
    }
    var files, structure := AnalyzeStructure(listing(path.value));
    st.repositoryPath := path;
    st.codeFiles := Some(files);
    st.repositoryStructure := Some(structure);
    st.status := AnalyzingFiles;
  }
}
