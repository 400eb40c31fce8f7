/**
 * The data loader node: the commit, its file changes, the repository name,
 * the latest stored document of that repository and one combined diff text
 * are loaded into the state.  Database queries are parameters.
 */
module DataLoader {
  import opened Wrappers
  import opened Text
  import opened Records
  import opened PipelineState
  import ChangeAnalyzer

  /** A commit row and the full name of its repository, if it has one. */
  datatype CodeChangeRow = CodeChangeRow(info: CodeChangeInfo, repository: Option<string>)

  const IdRequired: string := "code_change_id is required"
  const NoPatch: string := "(no patch)"

  /** `f"CodeChange not found: {code_change_id}"`. */
  function NotFound(id: int): string {
    "CodeChange not found: " + IntToString(id)
  }

  /** `fc.patch or '(no patch)'`. */
  function PatchText(patch: Option<string>): (r: string)
    ensures patch.Some? && patch.value != [] ==> r == patch.value
    ensures patch.None? || patch.value == [] ==> r == NoPatch
  {
    if patch.Some? && patch.value != [] then patch.value else NoPatch
  }

  /** The heading line of a file's block, after the newline that opens it. */
  function HeadLine(fc: FileChangeInfo): string {
    "\n### " + fc.filename + " (" + PyStr(fc.status) + ")"
  }

  /** The `+adds -dels` line of a file's block. */
  function CountsLine(fc: FileChangeInfo): string {
    "+" + IntToString(fc.additions) + " -" + IntToString(fc.deletions)
  }

  /** One file's block of the combined diff: heading, counts, a blank line, then the patch. */
  function DiffPart(fc: FileChangeInfo): (r: string)
    ensures |r| > 0 && r[0] == '\n'
  {
    HeadLine(fc) + "\n" + CountsLine(fc) + "\n\n" + PatchText(fc.patch) + "\n"
  }

  /** The blocks of all file changes, in order. */
  function DiffParts(fcs: seq<FileChangeInfo>): (r: seq<string>)
    ensures |r| == |fcs|
    ensures forall i :: 0 <= i < |fcs| ==> r[i] == DiffPart(fcs[i])
  {
    seq(|fcs|, i requires 0 <= i < |fcs| => DiffPart(fcs[i]))
  }

  /** The names of the changed files, in order. */
  function Filenames(fcs: seq<FileChangeInfo>): (r: seq<string>)
    ensures |r| == |fcs|
    ensures forall i :: 0 <= i < |fcs| ==> r[i] == fcs[i].filename
  {
    seq(|fcs|, i requires 0 <= i < |fcs| => fcs[i].filename)
  }

  /**
   * The loop of `data_loader_node` that assembles `diff_content` and
   * `changed_files`.
   */
  method AssembleDiff(fcs: seq<FileChangeInfo>) returns (diff: string, changed: seq<string>)
    ensures diff == Join(DiffParts(fcs), "\n")
    ensures changed == Filenames(fcs)
  {
    var parts: seq<string> := [];
    changed := [];
    var i := 0;
    while i < |fcs|
      invariant 0 <= i <= |fcs|
      invariant parts == DiffParts(fcs[..i])
      invariant changed == Filenames(fcs[..i])
    {
      changed := changed + [fcs[i].filename];
      parts := parts + [DiffPart(fcs[i])];
      i := i + 1;
    }
    assert fcs[..i] == fcs;
    diff := Join(parts, "\n");
  }

  /** The combined diff starts a new line, unless there are no file changes. */
  lemma AssembledDiffStart(fcs: seq<FileChangeInfo>)
    ensures var d := Join(DiffParts(fcs), "\n"); (fcs == [] <==> d == []) && (d != [] ==> d[0] == '\n')
  {
    var parts := DiffParts(fcs);
    if fcs != [] {
      JoinStart(parts, "\n");
      assert Join(parts, "\n")[0] == parts[0][0];
    }
  }

  /** The marker less its trailing space. */
  const MarkerWord: string := "diff --git"

  /** The heading line holds the marker only if the file name or status holds the word. */
  lemma HeadNoMarker(fc: FileChangeInfo)
    requires !Contains(fc.filename, MarkerWord) && !Contains(PyStr(fc.status), MarkerWord)
    ensures !Contains(HeadLine(fc), ChangeAnalyzer.DiffMarker)
  {
    var m := ChangeAnalyzer.DiffMarker;
    assert m[..|m| - 1] == MarkerWord;
    var status := PyStr(fc.status);
    var padded := " " + fc.filename + " ";
    var front := "\n##" + "#" + padded;
    assert HeadLine(fc) == front + "(" + (status + ")");
    if Contains(HeadLine(fc), m) {
      ContainsAcross(front, "(", status + ")", m);
      if Contains(front, m) {
        ContainsAcross("\n##", "#", padded, m);
        if Contains(padded, m) {
          ContainsPadded(fc.filename, m);
        } else {
          MissingFirstChar("\n##", m);
        }
      } else {
        assert status + ")" == status + ")" + "";
        ContainsAcross(status, ")", "", m);
        ContainsPrefix(status, m, |m| - 1);
      }
    }
  }

  /** The counts line is made of digits, signs and a space, none of them the marker's first character. */
  lemma CountsNoMarker(fc: FileChangeInfo)
    ensures !Contains(CountsLine(fc), ChangeAnalyzer.DiffMarker)
  {
    var a, d := IntToString(fc.additions), IntToString(fc.deletions);
    assert forall k :: 0 <= k < |a| ==> a[k] == '-' || IsDigit(a[k]);
    assert forall k :: 0 <= k < |d| ==> d[k] == '-' || IsDigit(d[k]);
    MissingFirstChar(CountsLine(fc), ChangeAnalyzer.DiffMarker);
  }

  /** A file's block holds the marker only if its patch does, or its name or status holds the word. */
  lemma PartNoMarker(fc: FileChangeInfo)
    requires !Contains(fc.filename, MarkerWord) && !Contains(PyStr(fc.status), MarkerWord)
    requires !Contains(PatchText(fc.patch), ChangeAnalyzer.DiffMarker)
    ensures !Contains(DiffPart(fc), ChangeAnalyzer.DiffMarker)
  {
    var m := ChangeAnalyzer.DiffMarker;
    var head, counts, patch := HeadLine(fc), CountsLine(fc), PatchText(fc.patch);
    var lines := head + "\n" + counts;
    assert DiffPart(fc) == lines + "\n\n" + (patch + "\n");
    if Contains(DiffPart(fc), m) {
      ContainsAcross(lines, "\n\n", patch + "\n", m);
      if Contains(lines, m) {
        ContainsAcross(head, "\n", counts, m);
        HeadNoMarker(fc);
        CountsNoMarker(fc);
      } else {
        assert patch + "\n" == patch + "\n" + "";
        ContainsAcross(patch, "\n", "", m);
      }
    }
  }

  /**
   * The combined diff contains `diff --git ` only if some patch does, so
   * long as no file name or status contains `diff --git`; then the change
   * analyzer's diff map for it is empty.
   */
  lemma AssembledDiffHasNoEntries(fcs: seq<FileChangeInfo>)
    requires forall i :: 0 <= i < |fcs| ==>
      !Contains(fcs[i].filename, MarkerWord) && !Contains(PyStr(fcs[i].status), MarkerWord)
      && !Contains(PatchText(fcs[i].patch), ChangeAnalyzer.DiffMarker)
    ensures !Contains(Join(DiffParts(fcs), "\n"), ChangeAnalyzer.DiffMarker)
    ensures ChangeAnalyzer.DiffMapOf(Join(DiffParts(fcs), "\n")) == []
  {
    var parts := DiffParts(fcs);
    var diff := Join(parts, "\n");
    if Contains(diff, ChangeAnalyzer.DiffMarker) {
      JoinContains(parts, "\n", ChangeAnalyzer.DiffMarker);
      var k :| 0 <= k < |parts| && Contains(parts[k], ChangeAnalyzer.DiffMarker);
      PartNoMarker(fcs[k]);
      assert false;
    }
    AssembledDiffStart(fcs);
    ChangeAnalyzer.NoMarkerNoEntries(diff);
  }

  /** The loader's writes on success. */
  twostate predicate Loaded(st: DocumentState, row: CodeChangeRow, fcs: seq<FileChangeInfo>,
                            new existing: Option<ExistingDocument>, token: string)
    reads st
  {
    && st.codeChange == Some(row.info)
    && st.accessToken == Some(token)
    && st.fileChanges == Some(fcs)
    && st.diffContent == Some(Join(DiffParts(fcs), "\n"))
    && st.changedFiles == Some(Filenames(fcs))
    && st.repositoryName == Some(row.repository.GetOr("unknown"))
    && st.existingDocument == existing
    && st.status == "analyzing" && st.error == old(st.error)
  }

  /**
   * `data_loader_node`.  `lookup` is the commit query, `filesOf` the file
   * change query, `latestDocument` the query for the repository's most
   * recently updated document with status `generated`, `edited` or
   * `reviewed`, and `tokenFor` the access token lookup (`""` when none).
   */
  method DataLoaderNode(st: DocumentState, lookup: int -> Option<CodeChangeRow>, filesOf: int -> seq<FileChangeInfo>,
                        latestDocument: string -> Option<ExistingDocument>, tokenFor: string -> string)
    modifies st`error, st`status, st`codeChange, st`accessToken, st`fileChanges, st`diffContent,
             st`changedFiles, st`repositoryName, st`existingDocument
    ensures old(st.codeChangeId).None? || old(st.codeChangeId) == Some(0) ==>
      st.error == Some(IdRequired) && st.status == "error"
      && unchanged(st`codeChange, st`accessToken, st`fileChanges, st`diffContent, st`changedFiles,
                   st`repositoryName, st`existingDocument)
    ensures old(st.codeChangeId).Some? && old(st.codeChangeId) != Some(0) && lookup(old(st.codeChangeId).value).None? ==>
      st.error == Some(NotFound(old(st.codeChangeId).value)) && st.status == "error"
      && unchanged(st`codeChange, st`accessToken, st`fileChanges, st`diffContent, st`changedFiles,
                   st`repositoryName, st`existingDocument)
    ensures old(st.codeChangeId).Some? && old(st.codeChangeId) != Some(0) && lookup(old(st.codeChangeId).value).Some? ==>
      var id := old(st.codeChangeId).value;
      var row := lookup(id).value;
      var repo := row.repository.GetOr("unknown");
      Loaded(st, row, filesOf(id), latestDocument(repo), tokenFor(repo))
  {
    if st.codeChangeId.None? || st.codeChangeId.value == 0 {
      st.error := Some(IdRequired);
      st.status := "error";
      return;
    }
    var id := st.codeChangeId.value;
    var row := lookup(id);
    if row.None? {
      st.error := Some(NotFound(id));
      st.status := "error";
      return;
    }
    LoadFound(st, row.value, filesOf(id), latestDocument, tokenFor);
  }

  /** The rest of `data_loader_node` once the commit is found. */
  method LoadFound(st: DocumentState, row: CodeChangeRow, fcs: seq<FileChangeInfo>,
                   latestDocument: string -> Option<ExistingDocument>, tokenFor: string -> string)
    modifies st`status, st`codeChange, st`accessToken, st`fileChanges, st`diffContent,
             st`changedFiles, st`repositoryName, st`existingDocument
    ensures var repo := row.repository.GetOr("unknown");
      Loaded(st, row, fcs, latestDocument(repo), tokenFor(repo))
  {
    var repo := "unknown";
    if row.repository.Some? {
      repo := row.repository.value;
    }
    var existing := latestDocument(repo);
    var diff, changed := AssembleDiff(fcs);
    var token := tokenFor(repo);
    st.codeChange := Some(row.info);
    st.accessToken := Some(token);
    st.fileChanges := Some(fcs);
    st.diffContent := Some(diff);
    st.changedFiles := Some(changed);
    st.repositoryName := Some(repo);
    st.existingDocument := existing;
    st.status := "analyzing";
  }
}
