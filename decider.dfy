/**
 * The document decider node: an existing document is updated under its own
 * title, otherwise a new whole-repository document is planned.
 */
module DocumentDecider {
  import opened Wrappers
  import opened Records
  import opened PipelineState
  import DocumentWorkflow

  const FailurePrefix: string := "Document decider failed: "

  /** The title of a new whole-repository document. */
  function NewDocumentTitle(repo: string): (r: string)
    ensures |repo| <= |r| && r[..|repo|] == repo
    ensures r[|repo|..] == " - Project Documentation"
  {
    repo + " - Project Documentation"
  }

  /** What the decider concludes from the loaded state. */
  datatype Decision =
    | UpdateExisting(title: string)
    | CreateNew(title: string)
    | MissingTitle

  /**
   * The decision for an optional existing document and repository name
   * (`unknown` when the key is absent).  A loaded document always has its
   * four keys, so it is truthy; one without a `title` raises `KeyError`.
   */
  function Decide(existing: Option<ExistingDocument>, repo: Option<string>): (d: Decision)
    ensures d.UpdateExisting? <==> existing.Some? && existing.value.title.Some?
    ensures d.UpdateExisting? ==> d.title == existing.value.title.value
    ensures d.CreateNew? <==> existing.None?
    ensures d.CreateNew? ==> d.title == NewDocumentTitle(repo.GetOr("unknown"))
  {
    match existing
    case None => CreateNew(NewDocumentTitle(repo.GetOr("unknown")))
    case Some(doc) =>
      match doc.title
      case Some(t) => UpdateExisting(t)
      case None => MissingTitle
  }

  /** `str(KeyError('title'))`. */
  const MissingTitleMessage: string := "'title'"

  /**
   * `document_decider_node`.  On success `status` and `error` are left as
   * they were; a document without a title has already set `should_update`
   * when the lookup of its title raises.
   */
  method DocumentDeciderNode(st: DocumentState)
    modifies st`shouldUpdate, st`documentTitle, st`needsFullAnalysis, st`error, st`status
    ensures Decide(old(st.existingDocument), old(st.repositoryName)).UpdateExisting? ==>
      st.shouldUpdate && st.documentTitle == old(st.existingDocument).value.title
          && st.needsFullAnalysis == Some(false) && unchanged(st`status, st`error)
    ensures old(st.existingDocument).None? ==>
      !st.shouldUpdate && st.needsFullAnalysis == Some(true)
      && st.documentTitle == Some(NewDocumentTitle(old(st.repositoryName).GetOr("unknown")))
      && unchanged(st`status, st`error)
    ensures Decide(old(st.existingDocument), old(st.repositoryName)).MissingTitle? ==>
      st.shouldUpdate && st.error == Some(FailurePrefix + MissingTitleMessage) && st.status == "error"
      && unchanged(st`documentTitle, st`needsFullAnalysis)
  {
    var existing := st.existingDocument;
    var repo := st.repositoryName.GetOr("unknown");
    if existing.Some? {
      st.shouldUpdate := true;
      if existing.value.title.None? {
        st.error := Some(FailurePrefix + MissingTitleMessage);
        st.status := "error";
        return;
      }
      st.documentTitle := existing.value.title;
      st.needsFullAnalysis := Some(false);
    } else {
      st.shouldUpdate := false;
      st.needsFullAnalysis := Some(true);
      st.documentTitle := Some(NewDocumentTitle(repo));
    }
  }

  /**
   * The decider picks the path of the run: with a loaded document (titled
   * or not, since `should_update` is set before the title is read) the
   * incremental path, without one the whole-repository path.
   */
  lemma DecisionPicksPath(existing: Option<ExistingDocument>, repo: Option<string>)
    ensures var shouldUpdate := !Decide(existing, repo).CreateNew?;
      DocumentWorkflow.Run(shouldUpdate)[2] ==
        if existing.Some? then DocumentWorkflow.ChangeAnalyzer else DocumentWorkflow.RepositoryAnalyzer
  {
    DocumentWorkflow.UpdateRun();
    DocumentWorkflow.CreateRun();
  }
}
