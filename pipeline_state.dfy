/**
 * The workflow state that every node of the document pipeline reads and
 * updates in place.  A field holding `None` is a key the state does not have.
 */
module PipelineState {
  import opened Wrappers
  import opened Records

  class DocumentState {
    // input
    var codeChangeId: Option<int>

    // loaded data
    var codeChange: Option<CodeChangeInfo>
    var fileChanges: Option<seq<FileChangeInfo>>
    var diffContent: Option<string>
    var changedFiles: Option<seq<string>>
    var repositoryName: Option<string>
    var accessToken: Option<string>
    var existingDocument: Option<ExistingDocument>
    var targetDocSections: Option<seq<string>>

    // analysis
    var analysisResult: Option<string>
    var fileChangeSummaries: Option<seq<ChangeSummary>>
    var analysisJson: Option<Json>

    // decision
    var shouldUpdate: bool
    var needsFullAnalysis: Option<bool>

    // generated document
    var documentTitle: Option<string>
    var documentContent: Option<string>
    var documentSummary: Option<string>
    var updatedSections: Option<seq<SectionUpdate>>

    // whole-repository analysis
    var repositoryPath: Option<string>
    var codeFiles: Option<seq<CodeFile>>
    var repositoryStructure: Option<RepoStructure>
    var parsedFiles: Option<seq<ParsedFile>>
    var fileSummaries: Option<seq<FileSummary>>

    // save result
    var documentId: Option<int>
    var action: Option<string>

    // progress
    var status: string
    var error: Option<string>

    /** The state a workflow run starts from: the change id, status `loading`, no update decided. */
    constructor Initial(id: int)
      ensures codeChangeId == Some(id) && status == "loading" && !shouldUpdate
      ensures codeChange.None? && fileChanges.None? && diffContent.None? && changedFiles.None?
      ensures repositoryName.None? && accessToken.None? && existingDocument.None? && targetDocSections.None?
      ensures analysisResult.None? && fileChangeSummaries.None? && analysisJson.None? && needsFullAnalysis.None?
      ensures documentTitle.None? && documentContent.None? && documentSummary.None? && updatedSections.None?
      ensures repositoryPath.None? && codeFiles.None? && repositoryStructure.None?
      ensures parsedFiles.None? && fileSummaries.None?
      ensures documentId.None? && action.None? && error.None?
    {
      codeChangeId := Some(id);
      codeChange := None;
      fileChanges := None;
      diffContent := None;
      changedFiles := None;
      repositoryName := None;
      accessToken := None;
      existingDocument := None;
      targetDocSections := None;
      analysisResult := None;
      fileChangeSummaries := None;
      analysisJson := None;
      shouldUpdate := false;
      needsFullAnalysis := None;
      documentTitle := None;
      documentContent := None;
      documentSummary := None;
      updatedSections := None;
      repositoryPath := None;
      codeFiles := None;
      repositoryStructure := None;
      parsedFiles := None;
      fileSummaries := None;
      documentId := None;
      action := None;
      status := "loading";
      error := None;
    }

    /** Records a failure: the message and status `error`, nothing else. */
    method Fail(message: string)
      modifies this`error, this`status
      ensures error == Some(message) && status == "error"
    {
      error := Some(message);
      status := "error";
    }
  }
}
