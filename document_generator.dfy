/**
 * The document generator node: a mock template, a whole-document LLM
 * rewrite, or an incremental update that re-generates only some `## `
 * sections of the stored document and splices them back in.
 */
module DocumentGenerator {
  import opened Wrappers
  import opened Text
  import opened Records
  import opened PipelineState
  import opened MarkdownSections
  import opened PartialUpdate

  const NoContentError: string := "No existing document content for partial update"
  const LlmRequiredError: string := "LLM is required for non-mock mode"
  const FailurePrefix: string := "Document generator failed: "
  const SkipMessage: string := "신규 문서 생성은 full_repository_document_generator에서 처리됩니다."

  /** `_env_partial_update_enabled`, given the value of `PARTIAL_DOC_UPDATE`. */
  function PartialUpdateEnabled(env: Option<string>): (r: bool)
    ensures env.None? ==> !r
    ensures r ==> env.Some? && |env.value| in {1, 3, 4}
  {
    Lower(env.GetOr("false")) in {"1", "true", "yes"}
  }

  /** The switch ignores case: any capitalisation of an accepted value is accepted. */
  lemma PartialUpdateEnabledIgnoresCase(v: string)
    ensures PartialUpdateEnabled(Some(v)) == PartialUpdateEnabled(Some(Lower(v)))
  {
    assert Lower(Lower(v)) == Lower(v);
  }


  /**
   * What `_handle_partial_update` writes: an error when there is no content
   * to start from, the document, its records and summary (status `saving`)
   * when the update completes, nothing when a section raised.
   */
  twostate predicate PartialStored(st: DocumentState, outcome: PartialOutcome)
    reads st
  {
    match outcome
    case NoContent =>
      st.error == Some(NoContentError) && st.status == "error"
      && unchanged(st`documentContent, st`updatedSections, st`documentSummary)
    case SectionFailed(_) =>
      unchanged(st`error, st`status, st`documentContent, st`updatedSections, st`documentSummary)
    case Updated(content, records, summary) =>
      && st.documentContent == Some(content)
      && st.updatedSections == Some(records)
      && st.documentSummary == Some(summary)
      && st.status == "saving" && st.error == old(st.error)
  }

  /**
   * `_handle_partial_update`.  The state is written only when the update
   * has no content to start from (an error) or completes (status
   * `saving`); an exception from a section leaves it untouched and is
   * handed to the caller.
   */
  method HandlePartialUpdate(st: DocumentState, useMock: bool, llmAvailable: bool, apiKeySet: bool, maxChars: int,
                             ask: (string, string) -> Reply)
    returns (outcome: PartialOutcome, ghost parsed: ParsedDocument, ghost targets: seq<string>, ghost mock: bool)
    modifies st`error, st`status, st`documentContent, st`updatedSections, st`documentSummary
    ensures PartialPlan(old(st.existingDocument), old(st.documentTitle), old(st.targetDocSections), old(st.changedFiles),
                        old(st.codeChange), useMock, llmAvailable, apiKeySet, maxChars, ask, outcome, parsed, targets, mock)
    ensures PartialStored(st, outcome)
  {
    outcome, parsed, targets, mock := PlanPartialUpdate(st.existingDocument, st.documentTitle, st.targetDocSections,
      st.changedFiles, st.codeChange, useMock, llmAvailable, apiKeySet, maxChars, ask);
    StoreOutcome(st, outcome);
  }

  /** The state writes at the end of `_handle_partial_update`. */
  method StoreOutcome(st: DocumentState, outcome: PartialOutcome)
    modifies st`error, st`status, st`documentContent, st`updatedSections, st`documentSummary
    ensures PartialStored(st, outcome)
  {
    match outcome
    case NoContent =>
      st.error := Some(NoContentError);
      st.status := "error";
    case SectionFailed(_) =>
    case Updated(content, records, summary) =>
      st.documentContent := Some(content);
      st.updatedSections := Some(records);
      st.documentSummary := Some(summary);
      st.status := "saving";
  }

  // ---------------------------------------------------------------------
  // The node
  // ---------------------------------------------------------------------

  /** The commit's short SHA in the mock template: its first 8 characters, or `unknown` without a commit. */
  function MockSha(codeChange: Option<CodeChangeInfo>): (r: string)
    ensures codeChange.None? ==> r == "unknown"
    ensures codeChange.Some? ==> r <= codeChange.value.commitSha && |r| <= 8
  {
    if codeChange.Some? then Take(codeChange.value.commitSha, 8) else "unknown"
  }

  /** The mock document for a commit. */
  function MockDocument(sha: string, analysis: string, message: string, files: seq<string>): (r: string)
    ensures StartsWith(r, "# " + sha + " ")
  {
    var r := "# " + sha + " 코드 변경사항\n\n##  변경사항 요약\n" + analysis
      + "\n\n##  커밋 정보\n- SHA: " + sha + "\n- 메시지: " + message
      + "\n- 변경된 파일: " + Join(files, ", ")
      + "\n\n##  상세 내용\nMock 모드로 생성된 문서입니다. \n실제 OpenAI API를 사용하면 더 상세한 분석이 제공됩니다.\n";
    assert r[..|"# " + sha + " "|] == "# " + sha + " ";
    r
  }

  /** The mock summary line. */
  function MockSummary(sha: string): string {
    sha + " 커밋의 코드 변경사항 문서"
  }

  /** Whether the node takes the incremental path. */
  predicate WantsPartial(st: DocumentState)
    reads st
  {
    st.shouldUpdate && st.targetDocSections.Some? && st.targetDocSections.value != []
  }

  /**
   * The incremental branch of the node has run: `_handle_partial_update`
   * with the node's LLM (so never the mock), an exception from a section
   * reported as a failure of the generator.
   */
  twostate predicate PartialBranchDone(st: DocumentState, maxChars: int, ask: (string, string) -> Reply,
                                       outcome: PartialOutcome, parsed: ParsedDocument, targets: seq<string>)
    reads st
  {
    && PartialPlan(old(st.existingDocument), old(st.documentTitle), old(st.targetDocSections), old(st.changedFiles),
                   old(st.codeChange), false, true, true, maxChars, ask, outcome, parsed, targets, false)
    && match outcome
       case NoContent =>
         st.error == Some(NoContentError) && st.status == "error"
         && unchanged(st`documentContent, st`updatedSections, st`documentSummary)
       case SectionFailed(e) =>
         st.error == Some(FailurePrefix + e) && st.status == "error"
         && unchanged(st`documentContent, st`updatedSections, st`documentSummary)
       case Updated(content, records, summary) =>
         st.documentContent == Some(content) && st.updatedSections == Some(records)
         && st.documentSummary == Some(summary) && st.status == "saving" && st.error == old(st.error)
  }

  /** The incremental branch of `document_generator_node`. */
  method PartialBranch(st: DocumentState, maxChars: int, ask: (string, string) -> Reply)
    returns (ghost outcome: PartialOutcome, ghost parsed: ParsedDocument, ghost targets: seq<string>)
    modifies st`error, st`status, st`documentContent, st`updatedSections, st`documentSummary
    ensures PartialBranchDone(st, maxChars, ask, outcome, parsed, targets)
  {
    var result, p, t, m := HandlePartialUpdate(st, false, true, true, maxChars, ask);
    outcome, parsed, targets := result, p, t;
    if result.SectionFailed? {
      st.error := Some(FailurePrefix + result.message);
      st.status := "error";
    }
  }

  /** The mock branch of the node has run: the template document and summary, status `saving`. */
  twostate predicate MockDone(st: DocumentState)
    reads st
  {
    var sha := MockSha(old(st.codeChange));
    && st.documentContent == Some(MockDocument(sha, old(st.analysisResult).GetOr(""),
         if old(st.codeChange).Some? then PyStr(old(st.codeChange).value.commitMessage) else "",
         old(st.changedFiles).GetOr([])))
    && st.documentSummary == Some(MockSummary(sha))
    && st.status == "saving" && st.error == old(st.error) && st.updatedSections == old(st.updatedSections)
  }

  /** The mock branch of `document_generator_node`. */
  method MockBranch(st: DocumentState)
    modifies st`status, st`documentContent, st`documentSummary
    ensures MockDone(st)
  {
    var sha := MockSha(st.codeChange);
    var message := if st.codeChange.Some? then PyStr(st.codeChange.value.commitMessage) else "";
    st.documentContent := Some(MockDocument(sha, st.analysisResult.GetOr(""), message, st.changedFiles.GetOr([])));
    st.documentSummary := Some(MockSummary(sha));
    st.status := "saving";
  }

  /**
   * The whole-document branch of the node has run: the first reply becomes
   * the document, the second its summary; a failed call stops the node with
   * an error after whatever the earlier call stored.
   */
  twostate predicate FullDone(st: DocumentState, fullReply: Reply, summaryReply: Reply)
    reads st
  {
    match fullReply
    case Failure(e) =>
      st.error == Some(FailurePrefix + e) && st.status == "error"
      && unchanged(st`documentContent, st`updatedSections, st`documentSummary)
    case Answer(doc) =>
      st.documentContent == Some(doc) && st.updatedSections == old(st.updatedSections)
      && match summaryReply
         case Failure(e) =>
           st.error == Some(FailurePrefix + e) && st.status == "error" && st.documentSummary == old(st.documentSummary)
         case Answer(summary) =>
           st.documentSummary == Some(summary) && st.status == "saving" && st.error == old(st.error)
  }

  /** The whole-document branch of `document_generator_node`. */
  method FullBranch(st: DocumentState, fullReply: Reply, summaryReply: Reply)
    modifies st`error, st`status, st`documentContent, st`documentSummary
    ensures FullDone(st, fullReply, summaryReply)
  {
    if fullReply.Failure? {
      st.error := Some(FailurePrefix + fullReply.message);
      st.status := "error";
      return;
    }
    st.documentContent := Some(fullReply.text);
    if summaryReply.Failure? {
      st.error := Some(FailurePrefix + summaryReply.message);
      st.status := "error";
      return;
    }
    st.documentSummary := Some(summaryReply.text);
    st.status := "saving";
  }

  /**
   * `document_generator_node`.  `llmAvailable` says whether an LLM was
   * passed; `fullReply` and `summaryReply` are the outcomes of the two calls
   * of a whole-document update; `ask` answers the per-section calls.
   */
  method DocumentGeneratorNode(st: DocumentState, useMock: bool, llmAvailable: bool, maxChars: int,
                               ask: (string, string) -> Reply, fullReply: Reply, summaryReply: Reply)
    returns (ghost outcome: PartialOutcome, ghost parsed: ParsedDocument, ghost targets: seq<string>)
    modifies st`error, st`status, st`documentContent, st`updatedSections, st`documentSummary
    ensures useMock ==> MockDone(st)
    ensures !useMock && !llmAvailable ==>
      st.error == Some(FailurePrefix + LlmRequiredError) && st.status == "error"
      && unchanged(st`documentContent, st`updatedSections, st`documentSummary)
    ensures !useMock && llmAvailable && !old(st.shouldUpdate) ==>
      st.status == "skip" && st.error == Some(SkipMessage)
      && unchanged(st`documentContent, st`updatedSections, st`documentSummary)
    ensures !useMock && llmAvailable && old(st.shouldUpdate) && !old(WantsPartial(st)) ==>
      FullDone(st, fullReply, summaryReply)
    ensures !useMock && llmAvailable && old(WantsPartial(st)) ==>
      PartialBranchDone(st, maxChars, ask, outcome, parsed, targets)
  {
    outcome, parsed, targets := NoContent, ParsedDocument(map[], [], map[]), [];
    if useMock {
      MockBranch(st);
    } else if !llmAvailable {
      st.error := Some(FailurePrefix + LlmRequiredError);
      st.status := "error";
    } else if !st.shouldUpdate {
      st.status := "skip";
      st.error := Some(SkipMessage);
    } else if WantsPartial(st) {
      outcome, parsed, targets := PartialBranch(st, maxChars, ask);
    } else {
      FullBranch(st, fullReply, summaryReply);
    }
  }
}
