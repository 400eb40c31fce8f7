/**
 * The GitHub webhook filters: the shape check on the signature header, the
 * push and pull-request gates on the default branch, and the selection of
 * changed code files with their change totals.  The HMAC digest, the GitHub
 * API and the database are outside the model: the expected digest and the
 * API's answers are parameters, and what would be saved is returned.
 */
module WebhookHandler {
  import opened Wrappers
  import opened Text
  import RepositoryAnalyzer

  // ---------------------------------------------------------------------
  // Signature header

  const SignatureAlgorithm := "sha256"

  /** The digest a signature header carries: the header must read `sha256=<digest>` with exactly one `=`. */
  function HeaderDigest(header: Option<string>): Option<string> {
    match header
    case None => None
    case Some(h) =>
      var parts := Split(h, "=");
      if |parts| == 2 && parts[0] == SignatureAlgorithm then Some(parts[1]) else None
  }

  /**
   * `verify_webhook_signature`, given the hex digest the HMAC of the payload
   * under the secret produces: the header's digest must equal it.
   */
  function VerifySignature(header: Option<string>, expected: string): bool {
    match HeaderDigest(header)
    case None => false
    case Some(d) => d == expected
  }

  /** `sha256=` followed by text without `=` splits into the algorithm and that text. */
  lemma SplitSignature(d: string)
    requires '=' !in d
    ensures Split(SignatureAlgorithm + "=" + d, "=") == [SignatureAlgorithm, d]
  {
    var h := SignatureAlgorithm + "=" + d;
    assert h[..6] == SignatureAlgorithm && h[6..] == "=" + d;
    assert OccursAt(h, "=", 6);
    forall j | 0 <= j < 6 ensures !OccursAt(h, "=", j) {
      assert h[j] == SignatureAlgorithm[j];
    }
    assert FindFrom(h, "=", 0) == Some(6);
    assert h[7..] == d;
    forall j | 0 <= j ensures !OccursAt(d, "=", j) {
      if j < |d| {
        assert d[j] != '=';
      }
    }
    assert FindFrom(d, "=", 0).None?;
  }

  /**
   * A header carries digest `d` exactly when it reads `sha256=` followed by
   * `d`, and `d` has no `=`: a missing header, another algorithm name, no
   * `=` or a second `=` carries none.
   */
  lemma HeaderDigestShape(h: string, d: string)
    ensures HeaderDigest(Some(h)) == Some(d) <==> h == SignatureAlgorithm + "=" + d && '=' !in d
  {
    if HeaderDigest(Some(h)) == Some(d) {
      var parts := Split(h, "=");
      JoinSplit(h, "=");
      assert Join(parts, "=") == parts[0] + "=" + Join(parts[1..], "=");
      assert parts[1..] == [d];
      SplitPiecesFree(h, "=");
      if '=' in d {
        var k :| 0 <= k < |d| && d[k] == '=';
        assert d[k..k + 1] == "=";
        ContainsWitness(d, "=", k);
      }
    }
    if h == SignatureAlgorithm + "=" + d && '=' !in d {
      SplitSignature(d);
    }
  }

  /**
   * Since a hex digest has no `=`, a signature is accepted exactly when the
   * header is `sha256=` followed by that digest.
   */
  lemma SignatureAcceptedExactly(header: Option<string>, expected: string)
    requires '=' !in expected
    ensures VerifySignature(header, expected) <==> header == Some(SignatureAlgorithm + "=" + expected)
  {
    if header.Some? {
      HeaderDigestShape(header.value, expected);
    }
  }

  // ---------------------------------------------------------------------
  // Code files

  /** The extensions whose files count as code. */
  const CodeFileExtensions: set<string> :=
    {".py", ".js", ".ts", ".java", ".cpp", ".c", ".go", ".rs", ".php", ".rb", ".cs", ".kt", ".swift"}

  /** A file's extension: a dot and the text after the last dot, or nothing when there is no dot. */
  function FileExt(filename: string): (r: string)
    ensures r == [] <==> '.' !in filename
    ensures EndsWith(filename, r)
    ensures r != [] ==> r[0] == '.' && '.' !in r[1..]
  {
    match RepositoryAnalyzer.LastIndexOf(filename, '.')
    case None => ""
    case Some(i) =>
      assert filename[i..] == "." + filename[i + 1..];
      "." + filename[i + 1..]
  }

  /** A changed file as the GitHub API lists it. */
  datatype ChangedFile = ChangedFile(
    filename: string,
    status: Option<string>,
    changes: int,
    additions: int,
    deletions: int,
    patch: Option<string>)

  /** A code file with at least one changed line. */
  predicate IsCodeChange(f: ChangedFile) {
    FileExt(f.filename) in CodeFileExtensions && f.changes > 0
  }

  /** The code changes among the files, in order. */
  function CodeChanges(files: seq<ChangedFile>): seq<ChangedFile> {
    if files == [] then []
    else
      var last := files[|files| - 1];
      CodeChanges(files[..|files| - 1]) + (if IsCodeChange(last) then [last] else [])
  }

  /** The filtering loop of `extract_code_changes`. */
  method FilterCodeFiles(files: seq<ChangedFile>) returns (kept: seq<ChangedFile>)
    ensures kept == CodeChanges(files)
  {
    kept := [];
    for i := 0 to |files|
      invariant kept == CodeChanges(files[..i])
    {
      assert files[..i + 1][..i] == files[..i];
      var f := files[i];
      if FileExt(f.filename) in CodeFileExtensions && f.changes > 0 {
        kept := kept + [f];
      }
    }
    assert files[..|files|] == files;
  }

  /** The sum of the files' changed-line counts. */
  function TotalChanges(fs: seq<ChangedFile>): int {
    if fs == [] then 0 else TotalChanges(fs[..|fs| - 1]) + fs[|fs| - 1].changes
  }

  /** A file is kept exactly when it is one of the files and a code change. */
  lemma {:induction false} CodeChangesExact(files: seq<ChangedFile>, f: ChangedFile)
    ensures f in CodeChanges(files) <==> f in files && IsCodeChange(f)
  {
    if files != [] {
      var init := files[..|files| - 1];
      CodeChangesExact(init, f);
      assert files == init + [files[|files| - 1]];
    }
  }

  /** Kept files keep their order: the result is never longer than the input. */
  lemma {:induction false} CodeChangesShorter(files: seq<ChangedFile>)
    ensures |CodeChanges(files)| <= |files|
  {
    if files != [] {
      CodeChangesShorter(files[..|files| - 1]);
    }
  }

  lemma {:induction false} TotalAppend(a: seq<ChangedFile>, b: seq<ChangedFile>)
    ensures TotalChanges(a + b) == TotalChanges(a) + TotalChanges(b)
    decreases |b|
  {
    if b == [] {
      assert a + b == a;
    } else {
      var b' := b[..|b| - 1];
      assert (a + b)[..|a + b| - 1] == a + b';
      TotalAppend(a, b');
    }
  }

  /** Every kept file changed at least one line, so the total is at least the number of files. */
  lemma {:induction false} KeptTotalAtLeastCount(files: seq<ChangedFile>)
    ensures TotalChanges(CodeChanges(files)) >= |CodeChanges(files)|
  {
    if files != [] {
      var init := files[..|files| - 1];
      var last := files[|files| - 1];
      KeptTotalAtLeastCount(init);
      if IsCodeChange(last) {
        TotalAppend(CodeChanges(init), [last]);
        assert TotalChanges([last]) == last.changes;
      } else {
        assert CodeChanges(files) == CodeChanges(init) + [];
        assert CodeChanges(init) + [] == CodeChanges(init);
      }
    }
  }

  /** The total is positive exactly when some file is a code change. */
  lemma TotalPositiveExactly(files: seq<ChangedFile>)
    ensures TotalChanges(CodeChanges(files)) > 0 <==> exists f :: f in files && IsCodeChange(f)
  {
    KeptTotalAtLeastCount(files);
    if exists f :: f in files && IsCodeChange(f) {
      var f :| f in files && IsCodeChange(f);
      CodeChangesExact(files, f);
    } else if CodeChanges(files) != [] {
      var f := CodeChanges(files)[0];
      CodeChangesExact(files, f);
    }
  }

  // ---------------------------------------------------------------------
  // Push events

  /** A commit as the push payload lists it. */
  datatype Commit = Commit(id: Option<string>, message: string, timestamp: Option<string>)

  /** The commit-details request: the commit's files, or a status other than 200. */
  datatype CommitFetch = CommitFiles(files: seq<ChangedFile>) | CommitFetchFailed(status: int)

  /** What is kept of a commit: its short SHA, message, time, code files and their total. */
  datatype CommitChange = CommitChange(
    sha: string,
    message: string,
    timestamp: Option<string>,
    codeFiles: seq<ChangedFile>,
    totalChanges: int)

  /** The first eight characters of the commit id, or nothing. */
  function ShortSha(id: Option<string>): (r: string)
    ensures |r| <= 8 && r <= id.GetOr("")
    ensures |id.GetOr("")| >= 8 ==> |r| == 8
  {
    Take(id.GetOr(""), 8)
  }

  /** What `extract_code_changes` returns for a commit and the API's answer. */
  function CommitChangeOf(commit: Commit, fetch: CommitFetch): Option<CommitChange> {
    match fetch
    case CommitFetchFailed(_) => None
    case CommitFiles(files) =>
      var kept := CodeChanges(files);
      if kept == [] then None
      else Some(CommitChange(ShortSha(commit.id), commit.message, commit.timestamp, kept, TotalChanges(kept)))
  }

  /** `extract_code_changes`. */
  method ExtractCodeChanges(commit: Commit, fetch: CommitFetch) returns (r: Option<CommitChange>)
    ensures r == CommitChangeOf(commit, fetch)
  {
    if fetch.CommitFetchFailed? {
      return None;
    }
    var kept := FilterCodeFiles(fetch.files);
    if kept == [] {
      return None;
    }
    r := Some(CommitChange(ShortSha(commit.id), commit.message, commit.timestamp, kept, TotalChanges(kept)));
  }

  /**
   * A commit is kept exactly when the API answered and some file is a code
   * change; then its total is positive and covers every kept file.
   */
  lemma CommitChangeFacts(commit: Commit, fetch: CommitFetch)
    ensures var r := CommitChangeOf(commit, fetch);
      (r.Some? <==> fetch.CommitFiles? && exists f :: f in fetch.files && IsCodeChange(f))
      && (r.Some? ==>
            r.value.codeFiles != [] && r.value.totalChanges >= |r.value.codeFiles|
            && r.value.totalChanges == TotalChanges(r.value.codeFiles)
            && (forall f :: f in r.value.codeFiles ==> IsCodeChange(f))
            && |r.value.sha| <= 8 && r.value.sha <= commit.id.GetOr(""))
  {
    if fetch.CommitFiles? {
      TotalPositiveExactly(fetch.files);
      KeptTotalAtLeastCount(fetch.files);
      forall f | f in CodeChanges(fetch.files) ensures IsCodeChange(f) {
        CodeChangesExact(fetch.files, f);
      }
    }
  }

  /** A push: its ref, the repository's declared default branch and name, and its commits. */
  datatype PushEvent = PushEvent(ref: Option<string>, defaultBranch: Option<string>, fullName: Option<string>, commits: seq<Commit>)

  /** The branch pushes must target: the declared default, else `main`. */
  function PushBranch(ev: PushEvent): string {
    ev.defaultBranch.GetOr("main")
  }

  /** What is saved for a push: the grand total, every commit's code files, and the commits. */
  datatype SavedPush = SavedPush(repository: Option<string>, totalChanges: int, codeFiles: seq<ChangedFile>, commits: seq<CommitChange>)

  datatype PushOutcome =
    | PushIgnored(message: string)
    | PushHandled(message: string, changes: seq<CommitChange>, saved: Option<SavedPush>)

  /** What the extraction answers for each commit. */
  type Extractor = Commit -> Option<CommitChange>

  /** The extraction of each commit against the API's answers. */
  function Extraction(fetch: Commit -> CommitFetch): Extractor {
    c => CommitChangeOf(c, fetch(c))
  }

  /** The commits the extraction keeps, in order. */
  function Kept(commits: seq<Commit>, extract: Extractor): seq<CommitChange> {
    if commits == [] then []
    else
      var last := commits[|commits| - 1];
      Kept(commits[..|commits| - 1], extract) + (match extract(last) case Some(c) => [c] case None => [])
  }

  /** The commits a push keeps, in order. */
  function PushChanges(commits: seq<Commit>, fetch: Commit -> CommitFetch): seq<CommitChange> {
    Kept(commits, Extraction(fetch))
  }

  /** Every kept commit's code files, in order. */
  function AllCodeFiles(cs: seq<CommitChange>): seq<ChangedFile> {
    if cs == [] then [] else AllCodeFiles(cs[..|cs| - 1]) + cs[|cs| - 1].codeFiles
  }

  /** The sum of the commits' totals. */
  function SumTotals(cs: seq<CommitChange>): int {
    if cs == [] then 0 else SumTotals(cs[..|cs| - 1]) + cs[|cs| - 1].totalChanges
  }

  /** What `handle_push_event` returns and would save. */
  function HandlePush(ev: PushEvent, fetch: Commit -> CommitFetch): PushOutcome {
    var branch := PushBranch(ev);
    if ev.ref != Some("refs/heads/" + branch) then PushIgnored("Not " + branch + " branch, ignored")
    else
      var changes := PushChanges(ev.commits, fetch);
      PushHandled("Extracted code changes from " + NatToString(|changes|) + " commits", changes,
        if changes == [] then None else Some(SavedPush(ev.fullName, SumTotals(changes), AllCodeFiles(changes), changes)))
  }

  /** `handle_push_event`: the gate, then one extraction per commit. */
  method HandlePushEvent(ev: PushEvent, fetch: Commit -> CommitFetch) returns (r: PushOutcome)
    ensures r == HandlePush(ev, fetch)
  {
    var branch := PushBranch(ev);
    if ev.ref != Some("refs/heads/" + branch) {
      return PushIgnored("Not " + branch + " branch, ignored");
    }
    var commits := ev.commits;
    var extract := Extraction(fetch);
    var changes := [];
    for i := 0 to |commits|
      invariant changes == Kept(commits[..i], extract)
    {
      assert commits[..i + 1][..i] == commits[..i];
      var c := ExtractCodeChanges(commits[i], fetch(commits[i]));
      assert c == extract(commits[i]);
      if c.Some? {
        changes := changes + [c.value];
      }
    }
    assert commits[..|commits|] == commits;
    var saved := None;
    if changes != [] {
      saved := Some(SavedPush(ev.fullName, SumTotals(changes), AllCodeFiles(changes), changes));
    }
    r := PushHandled("Extracted code changes from " + NatToString(|changes|) + " commits", changes, saved);
  }

  /** A push is processed exactly when it targets the default branch (or `main`). */
  lemma PushGate(ev: PushEvent, fetch: Commit -> CommitFetch)
    ensures HandlePush(ev, fetch).PushHandled? <==> ev.ref == Some("refs/heads/" + PushBranch(ev))
    ensures ev.defaultBranch.None? && HandlePush(ev, fetch).PushHandled? ==> ev.ref == Some("refs/heads/main")
  {
    assert "refs/heads/" + "main" == "refs/heads/main";
  }

  lemma {:induction false} AllCodeFilesAppend(a: seq<CommitChange>, b: seq<CommitChange>)
    ensures AllCodeFiles(a + b) == AllCodeFiles(a) + AllCodeFiles(b)
    ensures SumTotals(a + b) == SumTotals(a) + SumTotals(b)
    decreases |b|
  {
    if b == [] {
      assert a + b == a;
    } else {
      var b' := b[..|b| - 1];
      assert (a + b)[..|a + b| - 1] == a + b';
      AllCodeFilesAppend(a, b');
    }
  }

  /** A kept commit's total is the sum over its files, which are at least one and each changed. */
  predicate WellFormed(c: CommitChange) {
    c.codeFiles != [] && c.totalChanges == TotalChanges(c.codeFiles) && c.totalChanges >= |c.codeFiles|
  }

  /** Every commit the extraction keeps is well formed. */
  lemma ExtractionWellFormed(fetch: Commit -> CommitFetch, c: Commit)
    ensures Extraction(fetch)(c).Some? ==> WellFormed(Extraction(fetch)(c).value)
  {
    CommitChangeFacts(c, fetch(c));
  }

  /** The commits kept from `init` and then from one more commit. */
  lemma KeptSnoc(commits: seq<Commit>, extract: Extractor)
    requires commits != []
    ensures var last := commits[|commits| - 1];
      Kept(commits, extract) == Kept(commits[..|commits| - 1], extract) + (match extract(last) case Some(c) => [c] case None => [])
  {
  }

  /**
   * When every extraction is well formed, the grand total is the total over
   * all kept files and at least their number, which is at least the number
   * of kept commits.
   */
  lemma {:induction false} KeptTotals(commits: seq<Commit>, extract: Extractor)
    requires forall k :: 0 <= k < |commits| && extract(commits[k]).Some? ==> WellFormed(extract(commits[k]).value)
    ensures var cs := Kept(commits, extract);
      SumTotals(cs) == TotalChanges(AllCodeFiles(cs)) && TotalChanges(AllCodeFiles(cs)) >= |AllCodeFiles(cs)| >= |cs|
  {
    if commits != [] {
      var init := commits[..|commits| - 1];
      var last := commits[|commits| - 1];
      assert forall k :: 0 <= k < |init| ==> init[k] == commits[k];
      KeptTotals(init, extract);
      var before := Kept(init, extract);
      KeptSnoc(commits, extract);
      match extract(last)
      case None =>
        assert Kept(commits, extract) == before + [];
        assert before + [] == before;
      case Some(c) =>
        assert WellFormed(c);
        AllCodeFilesAppend(before, [c]);
        assert AllCodeFiles([c]) == AllCodeFiles([]) + c.codeFiles;
        assert SumTotals([c]) == SumTotals([]) + c.totalChanges;
        TotalAppend(AllCodeFiles(before), c.codeFiles);
    }
  }

  /** Every kept commit is the extraction of one of the commits, and there are no more of them than commits. */
  lemma {:induction false} KeptOrigin(commits: seq<Commit>, extract: Extractor)
    ensures var cs := Kept(commits, extract);
      |cs| <= |commits| && forall c :: c in cs ==> exists k :: 0 <= k < |commits| && extract(commits[k]) == Some(c)
  {
    if commits != [] {
      var init := commits[..|commits| - 1];
      KeptOrigin(init, extract);
      KeptSnoc(commits, extract);
      forall c | c in Kept(commits, extract)
        ensures exists k :: 0 <= k < |commits| && extract(commits[k]) == Some(c)
      {
        if c in Kept(init, extract) {
          var k :| 0 <= k < |init| && extract(init[k]) == Some(c);
          assert commits[k] == init[k];
        } else {
          assert extract(commits[|commits| - 1]) == Some(c);
        }
      }
    }
  }

  /**
   * A processed push saves something exactly when some commit kept a code
   * file; the saved total is the sum over every saved file and is at least
   * the number of saved files, and every saved commit is the extraction of
   * one of the push's commits.
   */
  lemma PushSaved(ev: PushEvent, fetch: Commit -> CommitFetch)
    requires HandlePush(ev, fetch).PushHandled?
    ensures var r := HandlePush(ev, fetch);
      (r.saved.Some? <==> r.changes != [])
      && (r.saved.Some? ==>
            r.saved.value.totalChanges == TotalChanges(r.saved.value.codeFiles)
            && r.saved.value.totalChanges >= |r.saved.value.codeFiles| >= |r.changes|)
      && forall c :: c in r.changes ==>
           exists k :: 0 <= k < |ev.commits| && CommitChangeOf(ev.commits[k], fetch(ev.commits[k])) == Some(c)
  {
    var extract := Extraction(fetch);
    forall k | 0 <= k < |ev.commits| && extract(ev.commits[k]).Some?
      ensures WellFormed(extract(ev.commits[k]).value)
    {
      ExtractionWellFormed(fetch, ev.commits[k]);
    }
    KeptTotals(ev.commits, extract);
    KeptOrigin(ev.commits, extract);
  }

  // ---------------------------------------------------------------------
  // Pull-request events

  /** A pull-request event: the action, whether it merged, its base branch, its number, the repository. */
  datatype PullRequestEvent = PullRequestEvent(
    action: Option<string>,
    merged: bool,
    baseRef: Option<string>,
    defaultBranch: Option<string>,
    number: Option<int>,
    fullName: Option<string>)

  /** The PR-files request: the files, or a status other than 200. */
  datatype PrFetch = PrFiles(files: seq<ChangedFile>) | PrFetchFailed(status: int)

  /** What `extract_pr_code_changes` returns. */
  datatype PrChanges =
    | PrFetchError(message: string)
    | PrCodeChanges(totalCodeFiles: nat, totalChanges: int, files: seq<ChangedFile>)

  /** A PR file record does not keep the patch. */
  function WithoutPatches(fs: seq<ChangedFile>): (r: seq<ChangedFile>)
    ensures |r| == |fs|
    ensures forall k :: 0 <= k < |fs| ==> r[k] == fs[k].(patch := None)
  {
    seq(|fs|, k requires 0 <= k < |fs| => fs[k].(patch := None))
  }

  function PrChangesOf(fetch: PrFetch): PrChanges {
    match fetch
    case PrFetchFailed(status) => PrFetchError("Failed to fetch PR files: " + IntToString(status))
    case PrFiles(files) =>
      var kept := WithoutPatches(CodeChanges(files));
      PrCodeChanges(|kept|, TotalChanges(kept), kept)
  }

  /** `extract_pr_code_changes`: the filtering loop over the PR's files. */
  method ExtractPrCodeChanges(fetch: PrFetch) returns (r: PrChanges)
    ensures r == PrChangesOf(fetch)
  {
    if fetch.PrFetchFailed? {
      return PrFetchError("Failed to fetch PR files: " + IntToString(fetch.status));
    }
    var files := fetch.files;
    var kept := [];
    for i := 0 to |files|
      invariant kept == WithoutPatches(CodeChanges(files[..i]))
    {
      PrStep(files, i);
      var f := files[i];
      if FileExt(f.filename) in CodeFileExtensions && f.changes > 0 {
        kept := kept + [f.(patch := None)];
      }
    }
    assert files[..|files|] == files;
    r := PrCodeChanges(|kept|, TotalChanges(kept), kept);
  }

  /** One more file appends its patch-less record when it is a code change. */
  lemma PrStep(files: seq<ChangedFile>, i: nat)
    requires i < |files|
    ensures WithoutPatches(CodeChanges(files[..i + 1]))
      == WithoutPatches(CodeChanges(files[..i])) + (if IsCodeChange(files[i]) then [files[i].(patch := None)] else [])
  {
    assert files[..i + 1][..i] == files[..i];
    var before := CodeChanges(files[..i]);
    var tail := if IsCodeChange(files[i]) then [files[i]] else [];
    assert CodeChanges(files[..i + 1]) == before + tail;
    assert WithoutPatches(before + tail) == WithoutPatches(before) + WithoutPatches(tail);
  }

  lemma {:induction false} TotalWithoutPatches(fs: seq<ChangedFile>)
    ensures TotalChanges(WithoutPatches(fs)) == TotalChanges(fs)
  {
    if fs != [] {
      var init := fs[..|fs| - 1];
      TotalWithoutPatches(init);
      assert WithoutPatches(fs)[..|fs| - 1] == WithoutPatches(init);
    }
  }

  datatype PrOutcome =
    | PrIgnored(message: string)
    | PrHandled(message: string, changes: PrChanges, saved: bool)

  /** The branch a PR must merge into: the declared default, else `main`. */
  function PrBranch(ev: PullRequestEvent): string {
    ev.defaultBranch.GetOr("main")
  }

  /** The PR number as an f-string prints it. */
  function NumberText(n: Option<int>): string {
    match n
    case None => "None"
    case Some(v) => IntToString(v)
  }

  /** What `handle_pull_request_event` returns, and whether it saves. */
  function HandlePullRequest(ev: PullRequestEvent, fetch: PrFetch): PrOutcome {
    if ev.action != Some("closed") || !ev.merged then PrIgnored("PR not merged, ignored")
    else if ev.baseRef != Some(PrBranch(ev)) then PrIgnored("Not merged to " + PrBranch(ev) + ", ignored")
    else
      var changes := PrChangesOf(fetch);
      var total := if changes.PrCodeChanges? then changes.totalChanges else 0;
      PrHandled("Extracted code changes from merged PR #" + NumberText(ev.number), changes, total > 0)
  }

  /** `handle_pull_request_event`. */
  method HandlePullRequestEvent(ev: PullRequestEvent, fetch: PrFetch) returns (r: PrOutcome)
    ensures r == HandlePullRequest(ev, fetch)
  {
    if ev.action != Some("closed") || !ev.merged {
      return PrIgnored("PR not merged, ignored");
    }
    var branch := PrBranch(ev);
    if ev.baseRef != Some(branch) {
      return PrIgnored("Not merged to " + branch + ", ignored");
    }
    var changes := ExtractPrCodeChanges(fetch);
    var total := if changes.PrCodeChanges? then changes.totalChanges else 0;
    r := PrHandled("Extracted code changes from merged PR #" + NumberText(ev.number), changes, total > 0);
  }

  /**
   * A pull request's changes are saved exactly when it was closed as merged
   * into the default branch, its files were fetched, and one of them is a
   * changed code file.
   */
  lemma PrSavedExactly(ev: PullRequestEvent, fetch: PrFetch)
    ensures var r := HandlePullRequest(ev, fetch);
      (r.PrHandled? && r.saved)
        <==> ev.action == Some("closed") && ev.merged && ev.baseRef == Some(PrBranch(ev))
             && fetch.PrFiles? && exists f :: f in fetch.files && IsCodeChange(f)
  {
    if fetch.PrFiles? {
      TotalWithoutPatches(CodeChanges(fetch.files));
      TotalPositiveExactly(fetch.files);
    }
  }

  /** The PR record counts exactly the kept files, and each is a changed code file without its patch. */
  lemma PrChangesFacts(fetch: PrFetch)
    requires fetch.PrFiles?
    ensures var r := PrChangesOf(fetch);
      r.PrCodeChanges? && r.totalCodeFiles == |r.files| && r.totalChanges >= r.totalCodeFiles
      && forall k :: 0 <= k < |r.files| ==> IsCodeChange(r.files[k]) && r.files[k].patch.None?
  {
    var kept := CodeChanges(fetch.files);
    TotalWithoutPatches(kept);
    KeptTotalAtLeastCount(fetch.files);
    forall k | 0 <= k < |kept| ensures IsCodeChange(kept[k]) {
      assert kept[k] in kept;
      CodeChangesExact(fetch.files, kept[k]);
    }
  }

  // ---------------------------------------------------------------------
  // Dispatch

  datatype WebhookReply =
    | Forbidden
    | Reply(success: bool, message: string, eventType: string, repository: string, processed: bool)

  /**
   * `handle_webhook`: a bad signature is refused; pushes and pull requests
   * are handled; any other event is acknowledged and not processed.
   */
  function HandleWebhook(event: string, header: Option<string>, expected: string, repository: Option<string>,
                         push: PushEvent, pushFetch: Commit -> CommitFetch, pr: PullRequestEvent, prFetch: PrFetch): WebhookReply {
    if !VerifySignature(header, expected) then Forbidden
    else
      var name := repository.GetOr("unknown");
      if event == "push" then Reply(true, HandlePush(push, pushFetch).message, "push", name, true)
      else if event == "pull_request" then Reply(true, HandlePullRequest(pr, prFetch).message, "pull_request", name, true)
      else Reply(true, "Event " + event + " received but not processed", event, name, false)
  }

  /** Only a correctly signed push or pull request is processed. */
  lemma ProcessedOnlyWhenSigned(event: string, header: Option<string>, expected: string, repository: Option<string>,
                                push: PushEvent, pushFetch: Commit -> CommitFetch, pr: PullRequestEvent, prFetch: PrFetch)
    requires '=' !in expected
    ensures var r := HandleWebhook(event, header, expected, repository, push, pushFetch, pr, prFetch);
      (r.Reply? <==> header == Some(SignatureAlgorithm + "=" + expected))
      && (r.Reply? ==> (r.processed <==> event == "push" || event == "pull_request"))
  {
    SignatureAcceptedExactly(header, expected);
  }
}
