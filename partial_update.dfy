/**
 * The incremental update of the document generator: which `## ` sections
 * to regenerate, how one section is regenerated (the LLM patch or the mock
 * annotation, on the section trimmed to a size limit), the run over all
 * target sections, and the document, records and summary it yields.
 */
module PartialUpdate {
  import opened Wrappers
  import opened Text
  import opened Records
  import opened Collections
  import opened MarkdownSections
  import opened SectionPatch

  const DefaultTitle: string := "Project Documentation"
  const IncrementalSummaryPrefix: string := "Incremental update applied to sections: "
  /** What Python raises when a `None` commit message is sliced. */
  const NoneSliceError: string := "'NoneType' object is not subscriptable"

  /** Python truthiness of an optional string. */
  predicate Truthy(o: Option<string>) {
    o.Some? && o.value != []
  }

  // ---------------------------------------------------------------------
  // Target sections
  // ---------------------------------------------------------------------

  /** The sections one changed file suggests, from substrings of its lowercased path. */
  function FileSections(f: string): (r: set<string>)
    ensures r <= {"overview", "architecture", "modules", "changelog"}
    ensures Contains(Lower(f), "router") ==> "architecture" in r && "modules" in r
  {
    var lf := Lower(f);
    (if Contains(lf, "main") || Contains(lf, "app") || Contains(lf, "config") then {"overview"} else {})
    + (if Contains(lf, "router") || Contains(lf, "endpoint") || Contains(lf, "controller") then {"architecture", "modules"} else {})
    + (if Contains(lf, "model") || Contains(lf, "schema") || Contains(lf, "entity") then {"modules"} else {})
    + (if Contains(lf, "service") || Contains(lf, "handler") then {"modules"} else {})
    + (if Contains(lf, "test") || Contains(lf, "spec") then {"changelog"} else {})
  }

  /** The union of the sections the files suggest. */
  function FilesSections(files: seq<string>): (r: set<string>)
    ensures r <= {"overview", "architecture", "modules", "changelog"}
    decreases |files|
  {
    if files == [] then {} else FilesSections(files[..|files| - 1]) + FileSections(files[|files| - 1])
  }

  /** `_infer_target_sections` as a set: the files' sections plus `changelog`. */
  function InferredTargets(files: seq<string>): (r: set<string>)
    ensures "changelog" in r
    ensures r <= {"overview", "architecture", "modules", "changelog"}
  {
    FilesSections(files) + {"changelog"}
  }

  /** Every file contributes all the sections it suggests. */
  lemma {:induction false} InferredTargetsCover(files: seq<string>, i: nat)
    requires i < |files|
    ensures FileSections(files[i]) <= InferredTargets(files)
    decreases |files|
  {
    if i < |files| - 1 {
      InferredTargetsCover(files[..|files| - 1], i);
    }
  }

  /** Only a file's own sections, and `changelog`, are inferred. */
  lemma {:induction false} InferredTargetsExact(files: seq<string>, key: string)
    requires key in InferredTargets(files) && key != "changelog"
    ensures exists i :: 0 <= i < |files| && key in FileSections(files[i])
    decreases |files|
  {
    if key in FileSections(files[|files| - 1]) {
    } else {
      InferredTargetsExact(files[..|files| - 1], key);
      var i :| 0 <= i < |files| - 1 && key in FileSections(files[..|files| - 1][i]);
      assert files[..|files| - 1][i] == files[i];
    }
  }

  /** `_infer_target_sections`: a set filled file by file, returned as a list in some order. */
  method InferTargetSections(files: seq<string>) returns (r: seq<string>)
    ensures forall k :: k in r <==> k in InferredTargets(files)
    ensures Distinct(r)
  {
    var targets: set<string> := {};
    for i := 0 to |files|
      invariant targets == FilesSections(files[..i])
    {
      assert files[..i + 1][..i] == files[..i];
      targets := targets + FileSections(files[i]);
    }
    assert files[..|files|] == files;
    targets := targets + {"changelog"};
    r := SeqOfSet(targets);
  }

  // ---------------------------------------------------------------------
  // One section of an incremental update
  // ---------------------------------------------------------------------

  /** `s[:n] if len(s) > n else s` with Python's slicing, where a negative `n` counts from the end. */
  function TrimToLimit(s: string, n: int): (r: string)
    ensures r <= s
    ensures |s| <= n ==> r == s
    ensures 0 <= n < |s| ==> |r| == n
    ensures n < 0 ==> |r| == if |s| + n >= 0 then |s| + n else 0
  {
    if |s| <= n then s
    else if n >= 0 then s[..n]
    else if |s| + n >= 0 then s[..|s| + n]
    else []
  }

  /** A section's parsed body, or `""` for a key the document does not have. */
  function SectionBody(parsed: ParsedDocument, key: string): string {
    if key in parsed.sections then parsed.sections[key] else ""
  }

  /**
   * The new text of one section (`_process_section`): the mock annotation,
   * or the LLM reply merged in as a changelog entry or as a patch.
   */
  function SectionText(key: string, trimmed: string, useMock: bool, commitMsg: Option<string>, reply: Reply): (r: Result<string>)
    ensures key == "changelog" && r.Ok? ==> RStrip(trimmed) <= r.value
    ensures !useMock && reply.Failure? ==> r == Raised(reply.message)
    ensures !useMock && reply.Answer? && IsNoChange(Strip(reply.text)) ==> r == Ok(trimmed)
    ensures useMock ==> (r.Ok? <==> commitMsg.Some?)
  {
    if useMock then
      match commitMsg
      case None => Raised(NoneSliceError)
      case Some(m) => Ok(UpdateSectionMock(key, trimmed, m))
    else
      match reply
      case Failure(e) => Raised(e)
      case Answer(t) =>
        if key == "changelog" then Ok(MergeChangelog(trimmed, Strip(t)))
        else Ok(MergedSection(trimmed, Strip(t)))
  }

  /** `_process_section` as a function of the key: the section trimmed to `max_chars`, then its new text. */
  function SectionStep(parsed: ParsedDocument, maxChars: int, useMock: bool, commitMsg: Option<string>,
                       ask: (string, string) -> Reply): string -> Result<string>
  {
    key => SectionText(key, TrimToLimit(SectionBody(parsed, key), maxChars), useMock, commitMsg,
                       ask(key, TrimToLimit(SectionBody(parsed, key), maxChars)))
  }

  /** The map of new section texts of an incremental update, and the new text of each target in order. */
  datatype SectionRun = SectionRun(updated: map<string, string>, outputs: seq<string>)

  /** The bookkeeping record of one section. */
  function UpdateRecord(key: string, before: string, after: string): (u: SectionUpdate)
    ensures u.key == key && u.oldLength == |before| && u.newLength == |after|
    ensures u.changed <==> Strip(after) != Strip(before)
  {
    SectionUpdate(key, |before|, |after|, Strip(after) != Strip(before))
  }

  /** The `updates` list: one record per target, in target order. */
  function UpdateRecords(parsed: ParsedDocument, targets: seq<string>, outputs: seq<string>): (r: seq<SectionUpdate>)
    requires |outputs| == |targets|
    ensures |r| == |targets|
    ensures forall i :: 0 <= i < |r| ==> r[i].key == targets[i] && r[i].oldLength == |SectionBody(parsed, targets[i])|
  {
    seq(|targets|, i requires 0 <= i < |targets| => UpdateRecord(targets[i], SectionBody(parsed, targets[i]), outputs[i]))
  }

  /** All target sections processed in order; the first exception aborts the run. */
  function RunSections(parsed: ParsedDocument, targets: seq<string>, step: string -> Result<string>): (r: Result<SectionRun>)
    ensures r.Ok? ==> |r.value.outputs| == |targets|
    decreases |targets|
  {
    if targets == [] then Ok(SectionRun(map[], []))
    else
      var front := RunSections(parsed, targets[..|targets| - 1], step);
      var key := targets[|targets| - 1];
      if front.Raised? then front
      else
        match step(key)
        case Raised(e) => Raised(e)
        case Ok(t) => Ok(SectionRun(front.value.updated[key := t], front.value.outputs + [t]))
  }

  /** Each target's output is what its step produced. */
  lemma {:induction false} RunSectionsOutputs(parsed: ParsedDocument, targets: seq<string>, step: string -> Result<string>, i: nat)
    requires RunSections(parsed, targets, step).Ok? && i < |targets|
    ensures step(targets[i]) == Ok(RunSections(parsed, targets, step).value.outputs[i])
    decreases |targets|
  {
    if i < |targets| - 1 {
      RunSectionsOutputs(parsed, targets[..|targets| - 1], step, i);
    }
  }

  /** A completed run has a new text for exactly the targeted keys. */
  lemma {:induction false} RunSectionsKeys(parsed: ParsedDocument, targets: seq<string>, step: string -> Result<string>)
    requires RunSections(parsed, targets, step).Ok?
    ensures RunSections(parsed, targets, step).value.updated.Keys == Elements(targets)
    decreases |targets|
  {
    if targets != [] {
      RunSectionsKeys(parsed, targets[..|targets| - 1], step);
    }
  }

  /** Every new text is what its key's step produced, however often the key is targeted. */
  lemma {:induction false} RunSectionsValues(parsed: ParsedDocument, targets: seq<string>, step: string -> Result<string>, key: string)
    requires RunSections(parsed, targets, step).Ok? && key in RunSections(parsed, targets, step).value.updated
    ensures step(key) == Ok(RunSections(parsed, targets, step).value.updated[key])
    decreases |targets|
  {
    if targets[|targets| - 1] != key {
      RunSectionsValues(parsed, targets[..|targets| - 1], step, key);
    }
  }

  /** Once a prefix of the targets raises, the whole run raises the same exception. */
  lemma {:induction false} RunSectionsAbort(parsed: ParsedDocument, targets: seq<string>, k: nat, step: string -> Result<string>)
    requires k <= |targets|
    requires RunSections(parsed, targets[..k], step).Raised?
    ensures RunSections(parsed, targets, step) == RunSections(parsed, targets[..k], step)
    decreases |targets|
  {
    if k < |targets| {
      assert targets[..|targets| - 1][..k] == targets[..k];
      RunSectionsAbort(parsed, targets[..|targets| - 1], k, step);
    } else {
      assert targets[..k] == targets;
    }
  }

  /** An incremental update never shortens the changelog it was given: the old text stays a prefix. */
  lemma ChangelogGrows(parsed: ParsedDocument, targets: seq<string>, maxChars: int, useMock: bool,
                       commitMsg: Option<string>, ask: (string, string) -> Reply)
    requires RunSections(parsed, targets, SectionStep(parsed, maxChars, useMock, commitMsg, ask)).Ok?
    requires "changelog" in RunSections(parsed, targets, SectionStep(parsed, maxChars, useMock, commitMsg, ask)).value.updated
    ensures RStrip(TrimToLimit(SectionBody(parsed, "changelog"), maxChars))
         <= RunSections(parsed, targets, SectionStep(parsed, maxChars, useMock, commitMsg, ask)).value.updated["changelog"]
  {
    var trimmed := TrimToLimit(SectionBody(parsed, "changelog"), maxChars);
    assert SectionStep(parsed, maxChars, useMock, commitMsg, ask)("changelog")
        == SectionText("changelog", trimmed, useMock, commitMsg, ask("changelog", trimmed));
    RunSectionsValues(parsed, targets, SectionStep(parsed, maxChars, useMock, commitMsg, ask), "changelog");
  }

  /**
   * A section longer than `max_chars` is merged from its first `max_chars`
   * characters only: a `[NO_CHANGE]` reply leaves the section cut short.
   */
  lemma NoChangeReplyTruncates(parsed: ParsedDocument, key: string, maxChars: int, commitMsg: Option<string>,
                               ask: (string, string) -> Reply)
    requires 0 <= maxChars < |SectionBody(parsed, key)|
    requires ask(key, SectionBody(parsed, key)[..maxChars]).Answer?
    requires IsNoChange(Strip(ask(key, SectionBody(parsed, key)[..maxChars]).text))
    ensures SectionStep(parsed, maxChars, false, commitMsg, ask)(key) == Ok(SectionBody(parsed, key)[..maxChars])
  {
    var trimmed := TrimToLimit(SectionBody(parsed, key), maxChars);
    assert trimmed == SectionBody(parsed, key)[..maxChars];
    assert SectionStep(parsed, maxChars, false, commitMsg, ask)(key)
        == SectionText(key, trimmed, false, commitMsg, ask(key, trimmed));
  }

  /** `_process_section` for one key. */
  method ProcessSection(parsed: ParsedDocument, key: string, maxChars: int, useMock: bool,
                        commitMsg: Option<string>, ask: (string, string) -> Reply)
    returns (r: Result<string>)
    ensures r == SectionStep(parsed, maxChars, useMock, commitMsg, ask)(key)
  {
    var before := if key in parsed.sections then parsed.sections[key] else "";
    var trimmed := if |before| > maxChars then TrimToLimit(before, maxChars) else before;
    assert before == SectionBody(parsed, key) && trimmed == TrimToLimit(before, maxChars);
    assert SectionStep(parsed, maxChars, useMock, commitMsg, ask)(key)
        == SectionText(key, trimmed, useMock, commitMsg, ask(key, trimmed));
    if useMock {
      if commitMsg.None? {
        return Raised(NoneSliceError);
      }
      return Ok(UpdateSectionMock(key, trimmed, commitMsg.value));
    }
    var reply := ask(key, trimmed);
    if reply.Failure? {
      return Raised(reply.message);
    }
    var generated := Strip(reply.text);
    if key == "changelog" {
      return Ok(MergeChangelog(trimmed, generated));
    }
    var merged := MergeSectionChanges(trimmed, generated);
    return Ok(merged);
  }

  /** The sequential section loop of `_handle_partial_update`: fills the new-text map and the records. */
  method UpdateSections(parsed: ParsedDocument, targets: seq<string>, maxChars: int, useMock: bool,
                        commitMsg: Option<string>, ask: (string, string) -> Reply)
    returns (r: Result<SectionRun>)
    ensures r == RunSections(parsed, targets, SectionStep(parsed, maxChars, useMock, commitMsg, ask))
  {
    ghost var step := SectionStep(parsed, maxChars, useMock, commitMsg, ask);
    var updated: map<string, string> := map[];
    var outputs: seq<string> := [];
    for i := 0 to |targets|
      invariant RunSections(parsed, targets[..i], step) == Ok(SectionRun(updated, outputs))
    {
      assert targets[..i + 1][..i] == targets[..i];
      var key := targets[i];
      var text := ProcessSection(parsed, key, maxChars, useMock, commitMsg, ask);
      if text.Raised? {
        RunSectionsAbort(parsed, targets, i + 1, step);
        return Raised(text.message);
      }
      updated := updated[key := text.value];
      outputs := outputs + [text.value];
    }
    assert targets[..|targets|] == targets;
    return Ok(SectionRun(updated, outputs));
  }

  // ---------------------------------------------------------------------
  // The incremental update
  // ---------------------------------------------------------------------

  /** The stored title, else the state's title, else the default; never empty. */
  function PartialTitle(existing: Option<ExistingDocument>, stateTitle: Option<string>): (r: string)
    ensures r != []
    ensures existing.Some? && Truthy(existing.value.title) ==> r == existing.value.title.value
    ensures !(existing.Some? && Truthy(existing.value.title)) && Truthy(stateTitle) ==> r == stateTitle.value
  {
    if existing.Some? && Truthy(existing.value.title) then existing.value.title.value
    else if Truthy(stateTitle) then stateTitle.value
    else DefaultTitle
  }

  /** The stored content the update starts from (`""` without a stored document). */
  function ExistingContent(existing: Option<ExistingDocument>): string {
    if existing.Some? then existing.value.content else ""
  }

  /** `(state.get('code_change') or {}).get('commit_message', '')` */
  function PartialCommitMessage(codeChange: Option<CodeChangeInfo>): Option<string> {
    if codeChange.None? then Some("") else codeChange.value.commitMessage
  }

  /** The document an incremental update produces. */
  function PartialDocument(title: string, body: string): (r: string)
    ensures StartsWith(r, "# " + title + "\n\n")
  {
    var r := "# " + title + "\n\n" + body;
    assert r[..|"# " + title + "\n\n"|] == "# " + title + "\n\n";
    r
  }

  /** The new sections reach the document, under their original headings. */
  lemma PartialDocumentKeepsUpdates(title: string, parsed: ParsedDocument, updated: map<string, string>, key: string)
    requires key in parsed.order && key in updated
    ensures Contains(PartialDocument(title, MergedText(parsed, updated)), Strip(updated[key]))
  {
    MergeKeepsUpdate(parsed, updated, key);
    var prefix := "# " + title + "\n\n";
    var body := MergedText(parsed, updated);
    ContainsInfix(prefix, body, "", Strip(updated[key]));
    assert prefix + body + "" == PartialDocument(title, body);
  }

  /** How an incremental update ends. */
  datatype PartialOutcome =
    | NoContent
    | SectionFailed(message: string)
    | Updated(content: string, records: seq<SectionUpdate>, summary: string)

  /**
   * The sections an incremental update works on: the requested ones when
   * there are any, otherwise the inferred ones, each once, in some order.
   */
  ghost predicate ChosenTargets(requested: Option<seq<string>>, changedFiles: Option<seq<string>>, targets: seq<string>) {
    if requested.Some? && requested.value != [] then targets == requested.value
    else Distinct(targets) && forall k :: k in targets <==> k in InferredTargets(changedFiles.GetOr([]))
  }

  /**
   * What `_handle_partial_update` makes of the stored document: without
   * content, nothing (and no parse and no targets); otherwise the stored content is parsed, the target
   * sections are run in order (the mock stands in when there is neither an
   * LLM nor an API key), and the first exception ends the update; a run
   * that completes yields the new document, one record per target and the
   * summary line.
   */
  ghost predicate PartialPlan(existing: Option<ExistingDocument>, stateTitle: Option<string>,
                              requested: Option<seq<string>>, changedFiles: Option<seq<string>>,
                              codeChange: Option<CodeChangeInfo>, useMock: bool, llmAvailable: bool, apiKeySet: bool,
                              maxChars: int, ask: (string, string) -> Reply,
                              outcome: PartialOutcome, parsed: ParsedDocument, targets: seq<string>, mock: bool)
  {
    && mock == (useMock || (!llmAvailable && !apiKeySet))
    && if ExistingContent(existing) == [] then outcome == NoContent && parsed == ParsedDocument(map[], [], map[]) && targets == []
    else
      && IsParseOf(ExistingContent(existing), parsed)
      && ChosenTargets(requested, changedFiles, targets)
      && RunOutcome(parsed, targets, maxChars, mock, PartialCommitMessage(codeChange), ask,
                    PartialTitle(existing, stateTitle), outcome)
  }

  /**
   * The outcome of running the target sections of `parsed` in order: the
   * first exception, or the document under `title` with the new sections
   * merged in, one record per target and the summary line.
   */
  ghost predicate RunOutcome(parsed: ParsedDocument, targets: seq<string>, maxChars: int, mock: bool,
                             commitMsg: Option<string>, ask: (string, string) -> Reply, title: string,
                             outcome: PartialOutcome)
  {
    match RunSections(parsed, targets, SectionStep(parsed, maxChars, mock, commitMsg, ask))
    case Raised(e) => outcome == SectionFailed(e)
    case Ok(run) =>
      outcome == Updated(PartialDocument(title, MergedText(parsed, run.updated)),
                         UpdateRecords(parsed, targets, run.outputs),
                         IncrementalSummaryPrefix + Join(targets, ", "))
  }

  /** The computation of `_handle_partial_update`, on the values it reads from the state. */
  method PlanPartialUpdate(existing: Option<ExistingDocument>, stateTitle: Option<string>,
                           requested: Option<seq<string>>, changedFiles: Option<seq<string>>,
                           codeChange: Option<CodeChangeInfo>, useMock: bool, llmAvailable: bool, apiKeySet: bool,
                           maxChars: int, ask: (string, string) -> Reply)
    returns (outcome: PartialOutcome, ghost parsed: ParsedDocument, ghost targets: seq<string>, ghost mock: bool)
    ensures PartialPlan(existing, stateTitle, requested, changedFiles, codeChange,
                        useMock, llmAvailable, apiKeySet, maxChars, ask, outcome, parsed, targets, mock)
  {
    var content := if existing.Some? then existing.value.content else "";
    if content == [] {
      return NoContent, ParsedDocument(map[], [], map[]), [], useMock || (!llmAvailable && !apiKeySet);
    }
    var doc := ParseMarkdownSections(content);
    parsed := doc;
    var commitMsg := if codeChange.Some? then codeChange.value.commitMessage else Some("");
    var sections := ChooseTargets(requested, changedFiles);
    targets := sections;
    var mode := useMock;
    if !mode && !llmAvailable && !apiKeySet {
      mode := true;
    }
    mock := mode;
    var title := PartialTitle(existing, stateTitle);
    outcome := RunTargets(doc, sections, maxChars, mode, commitMsg, ask, title);
    PartialPlanIntro(existing, stateTitle, requested, changedFiles, codeChange, useMock, llmAvailable, apiKeySet,
                     maxChars, ask, outcome, parsed, targets, mock);
  }

  /** The three stages of a non-empty update together make up the plan. */
  lemma PartialPlanIntro(existing: Option<ExistingDocument>, stateTitle: Option<string>,
                         requested: Option<seq<string>>, changedFiles: Option<seq<string>>,
                         codeChange: Option<CodeChangeInfo>, useMock: bool, llmAvailable: bool, apiKeySet: bool,
                         maxChars: int, ask: (string, string) -> Reply,
                         outcome: PartialOutcome, parsed: ParsedDocument, targets: seq<string>, mock: bool)
    requires ExistingContent(existing) != []
    requires IsParseOf(ExistingContent(existing), parsed)
    requires ChosenTargets(requested, changedFiles, targets)
    requires mock == (useMock || (!llmAvailable && !apiKeySet))
    requires RunOutcome(parsed, targets, maxChars, mock, PartialCommitMessage(codeChange), ask,
                        PartialTitle(existing, stateTitle), outcome)
    ensures PartialPlan(existing, stateTitle, requested, changedFiles, codeChange, useMock, llmAvailable, apiKeySet,
                        maxChars, ask, outcome, parsed, targets, mock)
  {
  }

  /** The section loop of `_handle_partial_update` and the document it assembles. */
  method RunTargets(parsed: ParsedDocument, targets: seq<string>, maxChars: int, mock: bool,
                    commitMsg: Option<string>, ask: (string, string) -> Reply, title: string)
    returns (outcome: PartialOutcome)
    ensures RunOutcome(parsed, targets, maxChars, mock, commitMsg, ask, title, outcome)
  {
    var run := UpdateSections(parsed, targets, maxChars, mock, commitMsg, ask);
    if run.Raised? {
      return SectionFailed(run.message);
    }
    var body := MergeSections(parsed, run.value.updated);
    outcome := Updated(PartialDocument(title, body), UpdateRecords(parsed, targets, run.value.outputs),
                       IncrementalSummaryPrefix + Join(targets, ", "));
  }

  /** The sections to update: the requested ones, or those inferred from the changed files. */
  method ChooseTargets(requested: Option<seq<string>>, changedFiles: Option<seq<string>>) returns (targets: seq<string>)
    ensures ChosenTargets(requested, changedFiles, targets)
  {
    if requested.Some? && requested.value != [] {
      targets := requested.value;
    } else {
      var files := if changedFiles.Some? then changedFiles.value else [];
      targets := InferTargetSections(files);
    }
  }

}
