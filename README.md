# A verified model of the document pipeline

This project models the deterministic core of a LangGraph pipeline that keeps
repository documentation in step with commits. A webhook records a commit. A
fixed graph of nodes then loads the commit, decides between an incremental and a
full update, analyses the diff, rewrites the affected `## ` sections of the stored
markdown document (or builds a new one from the repository), and saves the result.

The LLM, GitHub, the database and the filesystem are not modelled as such. Each
becomes a parameter: a reply (`Answer(text)` or `Failure(message)`), a function
from prompt inputs to replies, a list of HTTP status codes, an in-memory map of
rows, or a list of `(path, size)` records. Python strings are `seq<char>`, and
`str.strip`, `lower`, `split` and `join` are modelled over ASCII (whitespace is space, `\t`, `\n`, `\r`, `\v`, `\f` and `\x1c` to `\x1f`, as `str.isspace()` has it).

The pipeline state is one class, `PipelineState.DocumentState`. Its fields are
the keys of the state dictionary. Each node is a method that writes some of those
fields, and its `modifies` clause names exactly the fields it may write.

The file parser node turns each code file into a parse record. It uses a
tree-sitter syntax tree when a grammar and a tree are available: a recursive
walker class collects function, class and import nodes. Otherwise it falls back
to per-language regular expressions, each modelled as an explicit matcher and
scanned like `finditer`. The webhook handler checks the `sha256=` signature. For
a push to the default branch, or a pull request merged into it, it keeps only
the changed files that have a code extension and a positive change count.

## Model

| member | source | states |
|---|---|---|
| MarkdownSections.NormalizeSectionKey | domain/langgraph/nodes/document_generator_node.py:163-182 | the key is the first canonical key, in table order, one of whose variants occurs in the lower-cased heading; without one it is the heading's `[a-z0-9]`-run slug without outer `_`, cut to 40 characters; the result is always at most 40 slug characters |
| MarkdownSections.UniqueKey | domain/langgraph/nodes/document_generator_node.py:203-207 | the loop ends on the first of `base`, `base_2`, `base_3`, … that is not yet a key |
| MarkdownSections.ParseMarkdownSections | domain/langgraph/nodes/document_generator_node.py:184-213 | text without a heading line is the single section `__full__` holding all of it under the heading `Document`; otherwise one section per heading in document order, with distinct keys (the first free candidate of the normalised heading), one shared key set for sections, order and headings, and stripped bodies that start after their heading line |
| MarkdownSections.MergeSections | domain/langgraph/nodes/document_generator_node.py:215-222 | the merged text is the stripped join of one `## <heading>\n<body>\n` block per key of `order`, in order, with the replacement body when there is one |
| MarkdownSections.MergeIgnoresForeignKeys | domain/langgraph/nodes/document_generator_node.py:215-222 | replacements for keys outside `order` never change the merged text |
| MarkdownSections.MergeKeepsUpdate | domain/langgraph/nodes/document_generator_node.py:218-222 | the stripped replacement of every key of the document occurs in the merged text |
| MarkdownSections.MergeKeepsUntouched | domain/langgraph/nodes/document_generator_node.py:218-222 | a key without a replacement keeps its stripped parsed body in the merged text |
| SectionPatch.MergeChangelog | domain/langgraph/nodes/document_generator_node.py:332-342 | an empty entry or one containing `[NO_CHANGE]` leaves the changelog as it was; a blank changelog becomes the entry; otherwise the result is the right-stripped changelog, a newline and the entry, so the right-stripped old text is always a prefix (a blank one is replaced by the entry) |
| SectionPatch.MergeSectionChanges | domain/langgraph/nodes/document_generator_node.py:345-407 | the loops of `_merge_section_changes` compute `MergedSection`: the identity for an empty patch or one containing `[NO_CHANGE]`, and a stripped result otherwise |
| SectionPatch.ReplaceFirstMentioning | domain/langgraph/nodes/document_generator_node.py:372-391 | the first line (paragraph) containing the snippet's first 30 characters or the whole snippet is replaced and the others are kept; it reports whether one was found |
| SectionPatch.ApplyUpdateInserts | domain/langgraph/nodes/document_generator_node.py:361-396 | the text of a non-empty `[UPDATE: …]` block is present after it is applied, whether it replaced a line, a paragraph or was appended |
| SectionPatch.MergedSectionKeepsAdds | domain/langgraph/nodes/document_generator_node.py:398-407 | no non-empty `[ADD]` block is lost from a merged non-blank section |
| SectionPatch.MergedSectionKeepsLastUpdate | domain/langgraph/nodes/document_generator_node.py:357-407 | the last non-empty `[UPDATE: …]` block of a patch is present in the merged section |
| SectionPatch.UpdateSectionMock | domain/langgraph/nodes/document_generator_node.py:409-418 | the old section, right-stripped, is a prefix of the result; a changelog ends with `- <commit[:60]>`, another section with the `*Updated: <commit[:50]>*` line |
| PartialUpdate.InferTargetSections | domain/langgraph/nodes/document_generator_node.py:420-436 | the result lists, each once, exactly the sections the changed paths suggest plus `changelog` |
| PartialUpdate.InferredTargetsCover | domain/langgraph/nodes/document_generator_node.py:423-435 | every file contributes all the sections its path suggests |
| PartialUpdate.InferredTargetsExact | domain/langgraph/nodes/document_generator_node.py:423-435 | every inferred section other than `changelog` is suggested by some changed file |
| PartialUpdate.TrimToLimit | domain/langgraph/nodes/document_generator_node.py:482 | the trimmed section is a prefix of the section, the section itself when it fits, exactly `max_chars` long otherwise, with Python's meaning of a negative limit |
| PartialUpdate.SectionText | domain/langgraph/nodes/document_generator_node.py:483-488 | a changelog's new text keeps the trimmed old text as a prefix; a failed LLM call raises its message; a `[NO_CHANGE]` reply returns the trimmed text; the mock raises exactly when the commit message is `None` |
| PartialUpdate.ProcessSection | domain/langgraph/nodes/document_generator_node.py:474-492 | one section's new text is the step function of the update at that key |
| PartialUpdate.UpdateSections | domain/langgraph/nodes/document_generator_node.py:515-520 | the sequential loop over the targets computes `RunSections`: the first exception, or the map of new texts and the outputs in target order |
| PartialUpdate.RunSectionsOutputs | domain/langgraph/nodes/document_generator_node.py:515-520 | the i-th output is what the step produced for the i-th target |
| PartialUpdate.RunSectionsKeys | domain/langgraph/nodes/document_generator_node.py:515-520 | a completed run has new texts for exactly the targeted keys |
| PartialUpdate.RunSectionsValues | domain/langgraph/nodes/document_generator_node.py:515-520 | the new text of each key is what its step produced |
| PartialUpdate.RunSectionsAbort | domain/langgraph/nodes/document_generator_node.py:515-520 | once a prefix of the targets raises, the whole run raises the same exception |
| PartialUpdate.ChangelogGrows | domain/langgraph/nodes/document_generator_node.py:332-342 | an incremental update keeps the (trimmed) old changelog as a prefix of the new one |
| PartialUpdate.NoChangeReplyTruncates | domain/langgraph/nodes/document_generator_node.py:482-492 | a section longer than `max_chars` comes back as its first `max_chars` characters when the reply is `[NO_CHANGE]`: the tail is dropped |
| PartialUpdate.UpdateRecords | domain/langgraph/nodes/document_generator_node.py:489-492 | one record per target, in order, holding the key and the length of the untrimmed old section |
| PartialUpdate.UpdateRecord | domain/langgraph/nodes/document_generator_node.py:489-492 | `changed` holds iff the stripped new text differs from the stripped untrimmed old section |
| PartialUpdate.PartialTitle | domain/langgraph/nodes/document_generator_node.py:524 | the stored title, else the state's title, else `Project Documentation`; never empty |
| PartialUpdate.PartialDocument | domain/langgraph/nodes/document_generator_node.py:525 | the new document starts with `# <title>\n\n` |
| PartialUpdate.PartialDocumentKeepsUpdates | domain/langgraph/nodes/document_generator_node.py:523-528 | every new section text of a key of the document reaches the new document |
| PartialUpdate.ChooseTargets | domain/langgraph/nodes/document_generator_node.py:453 | requested sections are used as given; otherwise the inferred ones |
| PartialUpdate.RunTargets | domain/langgraph/nodes/document_generator_node.py:505-531 | a run that raises ends the update with that exception; a completed run yields the document, the records and the summary line naming the targets |
| PartialUpdate.PlanPartialUpdate | domain/langgraph/nodes/document_generator_node.py:438-531 | without stored content nothing is computed; otherwise the parse of the content, the chosen targets, the mock when there is neither an LLM nor an API key, and the run's outcome |
| DocumentGenerator.PartialUpdateEnabled | domain/langgraph/nodes/document_generator_node.py:536-537 | an unset variable disables the update; an enabling value has 1, 3 or 4 characters |
| DocumentGenerator.PartialUpdateEnabledIgnoresCase | domain/langgraph/nodes/document_generator_node.py:537 | the switch does not depend on the capitalisation of the value |
| DocumentGenerator.MockSha | domain/langgraph/nodes/document_generator_node.py:58 | the mock SHA is `unknown` without a commit, else a prefix of at most 8 characters of the commit SHA |
| DocumentGenerator.MockDocument | domain/langgraph/nodes/document_generator_node.py:61-74 | the mock document starts with `# <sha> ` |
| DocumentGenerator.HandlePartialUpdate | domain/langgraph/nodes/document_generator_node.py:438-534 | the outcome is the plan of the stored state; no content sets the error and status `error`; a completed run stores the document, records and summary with status `saving`; a raising section leaves the state alone |
| DocumentGenerator.MockBranch | domain/langgraph/nodes/document_generator_node.py:55-79 | the mock document and summary are stored with status `saving`, nothing else changes |
| DocumentGenerator.FullBranch | domain/langgraph/nodes/document_generator_node.py:85-153 | the first reply becomes the document and the second its summary with status `saving`; a failed call sets the prefixed error and status `error` after what was stored before it |
| DocumentGenerator.PartialBranch | domain/langgraph/nodes/document_generator_node.py:85-158 | the incremental path with the node's LLM; a raising section becomes the prefixed error with status `error` |
| DocumentGenerator.DocumentGeneratorNode | domain/langgraph/nodes/document_generator_node.py:15-158 | mock mode ignores `should_update`; without an LLM the node fails; without `should_update` it skips with status `skip`; with target sections it takes the incremental path, otherwise the whole-document path |
| ChangeAnalyzer.KeyIndex | domain/langgraph/nodes/change_analyzer_node.py:258-264 | the first position from `i` on holding the key, and no earlier one; `None` exactly when no later entry has it |
| ChangeAnalyzer.Lookup | domain/langgraph/nodes/change_analyzer_node.py:258-264 | `m.get(k)` is present exactly when some entry has the key, and then it is that entry's block |
| ChangeAnalyzer.Put | domain/langgraph/nodes/change_analyzer_node.py:241-248 | after `m[k] = v` the key maps to `v`, every other key to what it did, and keys stay unique |
| ChangeAnalyzer.DiffMapOf | domain/langgraph/nodes/change_analyzer_node.py:212-250 | an empty diff gives the empty map; the map never holds a key twice |
| ChangeAnalyzer.DiffEntriesLookup | domain/langgraph/nodes/change_analyzer_node.py:221-248 | a path is in the map exactly when some chunk is keyed by it, and its block is the last such chunk with `diff --git ` put back in front |
| ChangeAnalyzer.ParseDiffToMap | domain/langgraph/nodes/change_analyzer_node.py:212-250 | the loop over the chunks computes `DiffMapOf` |
| ChangeAnalyzer.NoMarkerNoEntries | domain/langgraph/nodes/change_analyzer_node.py:216-248 | a text without `diff --git ` whose first line is empty yields no entry |
| ChangeAnalyzer.FirstSuffixMatch | domain/langgraph/nodes/change_analyzer_node.py:266-273 | the first entry in insertion order whose key ends with the name or is a suffix of it, none before it |
| ChangeAnalyzer.FindDiffForFileRules | domain/langgraph/nodes/change_analyzer_node.py:252-275 | the exact name wins over `a/` + the name, which wins over the suffix scan; the result is a stored block or `""` |
| ChangeAnalyzer.SuffixMatchIgnoresComponents | domain/langgraph/nodes/change_analyzer_node.py:266-273 | the suffix scan compares characters, not path components: a key that merely ends with the name (`domain.py` for `main.py`) is matched |
| ChangeAnalyzer.ChangeTypeRules | domain/langgraph/nodes/change_analyzer_node.py:179-187 | `deleted` exactly when the block names `+++ /dev/null`, `added` exactly when it does not but names `--- /dev/null`, else `modified` |
| ChangeAnalyzer.PriorityLevels | domain/langgraph/nodes/change_analyzer_node.py:385-398 | `high` exactly when a high keyword occurs in the lower-cased path, `medium` when none does but a medium one does, else `low` |
| ChangeAnalysis.PathSections | domain/langgraph/nodes/change_analyzer_node.py:166-176 | a path suggests only `overview`, `architecture` and `modules` |
| ChangeAnalysis.IdentifyTargetSections | domain/langgraph/nodes/change_analyzer_node.py:162-178 | the list holds, each once, exactly the sections the paths suggest plus `changelog` |
| ChangeAnalysis.IdentifiedIsInferred | domain/langgraph/nodes/change_analyzer_node.py:162-178 | the analyzer's guess is the same set as the generator's `_infer_target_sections` |
| ChangeAnalysis.TargetsGroup | domain/langgraph/nodes/change_analyzer_node.py:152 | the regex group, when found, is a non-empty run of letters, commas and whitespace; without the marker there is none |
| ChangeAnalysis.AllowedTokens | domain/langgraph/nodes/change_analyzer_node.py:155-159 | only the four allowed keys are returned |
| ChangeAnalysis.AllowedTokensIff | domain/langgraph/nodes/change_analyzer_node.py:155-159 | a key is returned exactly when it is allowed and some comma-separated part strips to it |
| ChangeAnalysis.ExtractSectionTargets | domain/langgraph/nodes/change_analyzer_node.py:150-159 | only allowed keys, and none when the lower-cased text lacks `section_targets:` |
| ChangeAnalysis.BlankGroupNoTargets | domain/langgraph/nodes/change_analyzer_node.py:153-158 | a whitespace-only group lists no section |
| ChangeAnalysis.ExtractIgnoresCase | domain/langgraph/nodes/change_analyzer_node.py:152 | the answer is lower-cased first, so capitalisation does not change the targets |
| ChangeAnalysis.ChangedLinesPrefix | domain/langgraph/nodes/change_analyzer_node.py:192-196 | the changed lines of a prefix of the diff are a prefix of its changed lines |
| ChangeAnalysis.DiffExcerpt | domain/langgraph/nodes/change_analyzer_node.py:197-202 | the excerpt is at most 1500 characters and a prefix of the first 120 changed lines joined by newlines |
| ChangeAnalysis.BuildExcerpt | domain/langgraph/nodes/change_analyzer_node.py:190-202 | the loop that stops after more than 120 changed lines computes `DiffExcerpt` |
| ChangeAnalysis.NoChangedLinesEmptyExcerpt | domain/langgraph/nodes/change_analyzer_node.py:190-202 | a block without `+`/`-` lines gives an empty excerpt |
| ChangeAnalysis.LowSummary | domain/langgraph/nodes/change_analyzer_node.py:319-327 | a low-priority file's summary names the file and keeps priority `low` |
| ChangeAnalysis.LlmSummary | domain/langgraph/nodes/change_analyzer_node.py:335-370 | the summary of a set-aside file keeps its file and priority |
| ChangeAnalysis.FileChangeSummary | domain/langgraph/nodes/change_analyzer_node.py:290-370 | every mode keeps the file and `_get_file_priority` of it |
| ChangeAnalysis.SummaryChangeType | domain/langgraph/nodes/change_analyzer_node.py:290-370 | every mode reads the change type off the file's own diff block |
| ChangeAnalysis.SummaryWithoutLlm | domain/langgraph/nodes/change_analyzer_node.py:290-352 | mock, no-LLM, low-priority and block-less files never depend on the LLM |
| ChangeAnalysis.SummaryFromLlm | domain/langgraph/nodes/change_analyzer_node.py:354-370 | a high or medium file with a block is summarised by the answer, or by the failure text with its change type |
| ChangeAnalysis.ExpectedSummaries | domain/langgraph/nodes/change_analyzer_node.py:277-382 | one summary per changed file |
| ChangeAnalysis.ExpectedSummaryAt | domain/langgraph/nodes/change_analyzer_node.py:277-382 | the i-th summary is the one of the i-th changed file |
| ChangeAnalysis.Summarize | domain/langgraph/nodes/change_analyzer_node.py:335-370 | `_summarize` computes `LlmSummary` |
| ChangeAnalysis.GenerateFileSummaries | domain/langgraph/nodes/change_analyzer_node.py:277-382 | every mode returns `ExpectedSummaries`: one summary per file, in the order of `changed_files` |
| ChangeAnalysis.SummariesInOrder | domain/langgraph/nodes/change_analyzer_node.py:290-313 | the mock and no-LLM loops return the expected summaries in order |
| ChangeAnalysis.SummarizeLow | domain/langgraph/nodes/change_analyzer_node.py:315-330 | the first LLM-mode loop summarises the low files and sets the others aside with their priority, in order |
| ChangeAnalysis.SummarizePending | domain/langgraph/nodes/change_analyzer_node.py:372-378 | each set-aside file's `_summarize` result is added after those collected |
| ChangeAnalysis.LowSummaryMatches | domain/langgraph/nodes/change_analyzer_node.py:319-327 | a collected low summary is the one returned for its file |
| ChangeAnalysis.HighMediumPriorities | domain/langgraph/nodes/change_analyzer_node.py:315-330 | set-aside files carry their own priority, never `low` |
| ChangeAnalysis.PendingSummaryMatches | domain/langgraph/nodes/change_analyzer_node.py:335-378 | a collected `_summarize` result is the one returned for its file |
| ChangeAnalysis.CollectedMatches | domain/langgraph/nodes/change_analyzer_node.py:381 | every collected summary is the one returned for its file, so the dictionary holds the right value for each key |
| ChangeAnalysis.PendingPrefix | domain/langgraph/nodes/change_analyzer_node.py:372-378 | the results for a prefix of the pending files are a prefix of the results |
| ChangeAnalysis.CollectedGrows | domain/langgraph/nodes/change_analyzer_node.py:315-378 | a later file never removes an earlier file's collected summary |
| ChangeAnalysis.LastCollected | domain/langgraph/nodes/change_analyzer_node.py:315-378 | the last file's summary is collected |
| ChangeAnalysis.SummaryCollected | domain/langgraph/nodes/change_analyzer_node.py:315-378 | every changed file's summary is collected, so `f in order_map` always holds |
| ChangeAnalysis.OrderMap | domain/langgraph/nodes/change_analyzer_node.py:381 | every collected file is a key, and each key maps to a collected summary of that file |
| ChangeAnalysis.RestoreOrder | domain/langgraph/nodes/change_analyzer_node.py:380-382 | the reordering returns exactly the expected summaries in the order of `changed_files` |
| ChangeAnalysis.MockAnalysis | domain/langgraph/nodes/change_analyzer_node.py:44-53 | the mock analysis opens with the file list and commit message and ends with the count of `+` in the diff |
| ChangeAnalysis.JsonStr | domain/langgraph/nodes/change_analyzer_node.py:122 | `str()` of a string is the string; a container's text starts with a bracket |
| ChangeAnalysis.TargetTexts | domain/langgraph/nodes/change_analyzer_node.py:122 | each listed value as `str(x).strip().lower()` |
| ChangeAnalysis.JsonTargets | domain/langgraph/nodes/change_analyzer_node.py:120-124 | only allowed keys are taken from the JSON list |
| ChangeAnalysis.JsonTargetsIff | domain/langgraph/nodes/change_analyzer_node.py:120-124 | a key is taken exactly when it is allowed and some listed value reads as it |
| ChangeAnalysis.JsonTargetsReadStrings | domain/langgraph/nodes/change_analyzer_node.py:122 | a JSON string is read stripped and lower-cased |
| ChangeAnalysis.KeepAllowedIff | domain/langgraph/nodes/change_analyzer_node.py:159 | the filter keeps exactly the allowed keys among its input |
| ChangeAnalysis.SummaryBlock | domain/langgraph/nodes/change_analyzer_node.py:128-131 | a key gives a block exactly when it holds a non-empty list, and the block opens with `## <key>\n- ` |
| ChangeAnalysis.SummaryBlocksEmpty | domain/langgraph/nodes/change_analyzer_node.py:127-131 | no block is made exactly when no key holds a non-empty list |
| ChangeAnalysis.BlockNonEmpty | domain/langgraph/nodes/change_analyzer_node.py:131 | every block is non-empty |
| ChangeAnalysis.SummaryMarkdownEmpty | domain/langgraph/nodes/change_analyzer_node.py:127-132 | `analysis_result` is empty exactly when none of `summary`, `reasons`, `impact`, `details` holds a non-empty list |
| ChangeAnalysis.AggregateAnalysis | domain/langgraph/nodes/change_analyzer_node.py:105-140 | a failed call is the failure; the targets are always allowed keys; the JSON is stored only when the answer parses to a truthy value |
| ChangeAnalysis.PlainAnswerFallsBack | domain/langgraph/nodes/change_analyzer_node.py:133-137 | an answer that is not truthy JSON is kept verbatim with the targets of its `section_targets:` line |
| ChangeAnalysis.DictAnswer | domain/langgraph/nodes/change_analyzer_node.py:114-132 | a JSON dictionary becomes the markdown of its four lists; targets are set exactly when `section_targets` is a list |
| ChangeAnalysis.AnswerFailsOnlyOnNonDict | domain/langgraph/nodes/change_analyzer_node.py:114-132 | after a successful call the analysis fails exactly for a truthy JSON value that is not a dictionary (its first `get`) |
| ChangeAnalysis.StoreAnalysis | domain/langgraph/nodes/change_analyzer_node.py:114-141 | the JSON when truthy, then the analysis, targets and status `generating`, or the prefixed error with status `error` |
| ChangeAnalysis.MockAnalysisBranch | domain/langgraph/nodes/change_analyzer_node.py:42-58 | the mock analysis, the targets guessed from the paths (always with `changelog`) and status `generating` |
| ChangeAnalysis.ChangeAnalyzerNode | domain/langgraph/nodes/change_analyzer_node.py:12-147 | the summaries are stored first in every mode; the mock path, the missing-LLM error, or the stored aggregate analysis |
| LlmBackoff.NonBlank | domain/langgraph/utils/llm_backoff.py:22 | the kept tokens are exactly the non-empty ones among the stripped parts |
| LlmBackoff.ExtraTokensShape | domain/langgraph/utils/llm_backoff.py:22 | every extra retryable substring is non-empty and is a comma-separated part of the setting, stripped and lower-cased |
| LlmBackoff.NoExtraTokens | domain/langgraph/utils/llm_backoff.py:22 | an unset `LLM_RETRYABLE_ERROR_SUBSTRINGS` adds no substring |
| LlmBackoff.MentionsDefault | domain/langgraph/utils/llm_backoff.py:16 | the default list is exactly "rate limit", "timeout", "overloaded" and "429" |
| LlmBackoff.RetryableIff | domain/langgraph/utils/llm_backoff.py:19-26 | an error is retryable exactly when its lower-cased text contains a default substring or an extra one |
| LlmBackoff.RetryableIgnoresCase | domain/langgraph/utils/llm_backoff.py:20 | the error text is matched without regard to case |
| LlmBackoff.Delay | domain/langgraph/utils/llm_backoff.py:42 | the delay before a retry never exceeds the maximum backoff |
| LlmBackoff.DelayMonotone | domain/langgraph/utils/llm_backoff.py:42 | with a non-negative base the delay never shrinks from one retry to the next |
| LlmBackoff.MaxCalls | domain/langgraph/utils/llm_backoff.py:32-40 | at least one call is made, and at most `max_retries + 1` |
| LlmBackoff.RetryLoop | domain/langgraph/utils/llm_backoff.py:34-46 | the result is the last call's; every earlier call failed with an error the retry test accepts; a returned failure is not retryable or was the last allowed attempt; the delays slept are the capped exponential ones, one per retry |
| LlmBackoff.InvokeWithRetry | domain/langgraph/utils/llm_backoff.py:29-46 | the same guarantees with `_is_retryable_error` as the retry test |
| LlmBackoff.RetryRunFacts | domain/langgraph/utils/llm_backoff.py:34-42 | a first answer or a first non-retryable failure ends the run after one call; a backend that always fails with a retryable error is called exactly `max_retries + 1` times and the run fails |
| ChatEndpoint.Trim | app/endpoints/chat.py:29-32 | a history over 41 messages keeps its first message and its 40 most recent, 41 in all; a shorter one is unchanged |
| ChatEndpoint.SetSystem | app/endpoints/chat.py:13 | only the first message changes, and its content becomes the request's system message |
| ChatEndpoint.TurnHistory | app/endpoints/chat.py:8-32 | after a turn the history holds at most 41 messages, and no message is dropped while it fits |
| ChatEndpoint.TurnKeepsRecent | app/endpoints/chat.py:8-32 | after a turn the first message carries the new system text and the rest is the most recent tail of the earlier messages followed by the user's message and the answer |
| ChatEndpoint.ConversationStore.Chat | app/endpoints/chat.py:1-35 | a successful call leaves the session's history as the turn history and answers with the reply; a failed call answers 500 and keeps the appended user message and the new system text; other sessions are unchanged |
| ChatEndpoint.ConversationStore.DeleteSession | app/endpoints/session.py:10-17 | a known session is removed, answered with its deleted message, and nothing else changes; an unknown one is answered 404 with the not-found detail and the store is unchanged |
| DocumentWorkflow.RouteAfterDecider | domain/langgraph/document_workflow.py:115-122 | the run goes to the change analyzer exactly when `should_update` holds, and to the repository analyzer otherwise |
| DocumentWorkflow.BuildWorkflow | domain/langgraph/document_workflow.py:65-151 | the compiled graph has the nine nodes, the entry `data_loader`, the eight unconditional edges and the one branch after the decider |
| DocumentWorkflow.Next | domain/langgraph/document_workflow.py:125-149 | every edge leads to a deeper node, and only the saver leads to the end |
| DocumentWorkflow.NextFollowsGraph | domain/langgraph/document_workflow.py:125-149 | the successor of each node is its unique edge in the built graph, and for the decider the branch chosen by `should_update` alone |
| DocumentWorkflow.WalkBounded | domain/langgraph/document_workflow.py:125-149 | from any node a run ends at the saver after at most `7 - depth` node executions |
| DocumentWorkflow.RunTerminates | domain/langgraph/document_workflow.py:125-149 | every run ends at the saver after at most seven node executions |
| DocumentWorkflow.UpdateRun | domain/langgraph/document_workflow.py:125-126 | with `should_update` the run is loader, decider, change analyzer, generator, saver |
| DocumentWorkflow.CreateRun | domain/langgraph/document_workflow.py:139-149 | without it the run is loader, decider, repository analyzer, parser, summarizer, full generator, saver |
| DocumentWorkflow.KeyOrEnv | domain/langgraph/document_workflow.py:41 | the key is the passed one when truthy, else the environment's; it is truthy when either is |
| DocumentWorkflow.NewWorkflow | domain/langgraph/document_workflow.py:34-63 | construction raises exactly without the mock and without a truthy key; the LLM exists exactly without the mock |
| DocumentWorkflow.ProcessResultOf | domain/langgraph/document_workflow.py:170-190 | success exactly when the final status is `completed`, with the id, action, title and summary; otherwise the error or `Unknown error` |
| DocumentDecider.NewDocumentTitle | domain/langgraph/nodes/document_decider_node.py:52 | a new document's title is the repository name followed by ` - Project Documentation` |
| DocumentDecider.Decide | domain/langgraph/nodes/document_decider_node.py:35-56 | an existing titled document is updated under its title; without one a new document is titled after the repository (`unknown` when absent); a document without a title fails |
| DocumentDecider.DocumentDeciderNode | domain/langgraph/nodes/document_decider_node.py:35-61 | the decision's flags and title are written and status and error kept; a missing title sets `should_update`, then the prefixed error with status `error` |
| DocumentDecider.DecisionPicksPath | domain/langgraph/nodes/document_decider_node.py:39-52 | a loaded document sends the run to the change analyzer, no document to the repository analyzer |
| DocumentSaver.PlanSave | domain/langgraph/nodes/document_saver_node.py:44-111 | missing content and then a missing summary are refused first; an update needs a non-zero existing id present in the table; an insert needs a non-empty title |
| DocumentSaver.EmptySummaryAccepted | domain/langgraph/nodes/document_saver_node.py:50-53 | an empty summary is saved, only a missing one is refused |
| DocumentSaver.RefusalsArePrefixed | domain/langgraph/nodes/document_saver_node.py:120-123 | every refusal after the two missing-value checks carries `Document saver failed: ` |
| DocumentSaver.NewRow | domain/langgraph/nodes/document_saver_node.py:93-106 | a new row has status `generated`, type `auto`, the given title, content and summary and the commit's SHA or `""` |
| DocumentSaver.DocumentStore.Update | domain/langgraph/nodes/document_saver_node.py:79-82 | only content, summary, status `generated` and the update time of that row change |
| DocumentSaver.DocumentStore.Insert | domain/langgraph/nodes/document_saver_node.py:107-110 | the new row gets an id not used before and no other row changes |
| DocumentSaver.DocumentSaverNode | domain/langgraph/nodes/document_saver_node.py:42-123 | a refusal writes only the error and status `error` and leaves the table alone; an update or insert writes the row, the id, the action and status `completed` |
| DocumentService.NewService | domain/langgraph/document_service.py:9-16 | the service keeps the mock switch and a key that is truthy exactly when the passed or the environment key is |
| DocumentService.ProcessCodeChange | domain/langgraph/document_service.py:35-47 | a workflow that cannot be constructed or a run that raises becomes a failure prefixed `Document service failed: `; otherwise the run's result is returned |
| DocumentService.ServiceCache.GetDocumentService | domain/langgraph/document_service.py:54-73 | a new instance when none is cached, a key is passed or the mock is asked for; the cached instance otherwise |
| DataLoader.PatchText | domain/langgraph/nodes/data_loader_node.py:104 | a missing or empty patch is written `(no patch)` |
| DataLoader.AssembleDiff | domain/langgraph/nodes/data_loader_node.py:97-107 | `diff_content` is the newline join of one block per file change and `changed_files` the file names, both in order |
| DataLoader.AssembledDiffStart | domain/langgraph/nodes/data_loader_node.py:97-107 | the combined diff is empty exactly without file changes and otherwise starts with a newline |
| DataLoader.AssembledDiffHasNoEntries | domain/langgraph/nodes/data_loader_node.py:97-107 | when no patch contains `diff --git ` and no file name or status contains `diff --git`, the combined diff has no marker and the change analyzer's diff map for it is empty |
| DataLoader.DataLoaderNode | domain/langgraph/nodes/data_loader_node.py:61-150 | a missing or zero id and an unknown commit set the error and status `error` only; otherwise the commit, token, file changes, diff, names, repository (`unknown` without one) and latest document are stored with status `analyzing` |
| RepositoryAnalyzer.DefaultBranch | domain/langgraph/nodes/repository_analyzer_node.py:115-124 | the metadata's default branch is asked for first only on HTTP 200 with the key present; otherwise `main` |
| RepositoryAnalyzer.BranchesToTry | domain/langgraph/nodes/repository_analyzer_node.py:127-130 | the loop builds the candidates default, `main`, `master` without repeats |
| RepositoryAnalyzer.DedupProperties | domain/langgraph/nodes/repository_analyzer_node.py:127-130 | the candidates are kept once each and nothing is added |
| RepositoryAnalyzer.BranchesTried | domain/langgraph/nodes/repository_analyzer_node.py:127-130 | the default branch comes first, followed by whichever of `main` and `master` differ from it |
| RepositoryAnalyzer.TryBranches | domain/langgraph/nodes/repository_analyzer_node.py:138-180 | the loop returns the first extracted entry of the first branch answered 200 (nothing if none was extracted), stops with nothing on 403, and moves on after any other status or an exception |
| RepositoryAnalyzer.DownloadedFromFirst200 | domain/langgraph/nodes/repository_analyzer_node.py:138-180 | a downloaded path is the first entry of a branch answered 200, and every branch tried before it moved on |
| RepositoryAnalyzer.ForbiddenStops | domain/langgraph/nodes/repository_analyzer_node.py:168-170 | a 403 ends the download with nothing whatever later branches would answer |
| RepositoryAnalyzer.DownloadRepositoryZip | domain/langgraph/nodes/repository_analyzer_node.py:100-183 | the download tries the deduplicated candidates under `<temp>/extracted` |
| RepositoryAnalyzer.CleanupTarget | domain/langgraph/nodes/repository_analyzer_node.py:348-363 | only an existing non-empty path is cleaned, and only its grandparent whose name starts with `repo_analysis_` is removed |
| RepositoryAnalyzer.CleanupRemovesTempDir | domain/langgraph/nodes/repository_analyzer_node.py:132-134 | cleaning a downloaded repository path removes exactly the temporary directory created for it |
| RepositoryAnalyzer.EnvSubstringIgnored | domain/langgraph/nodes/repository_analyzer_node.py:231-255 | a file whose relative path merely contains `env` is ignored |
| RepositoryAnalyzer.EnvironmentPyIgnored | domain/langgraph/nodes/repository_analyzer_node.py:231-255 | `environment.py` is ignored |
| RepositoryAnalyzer.StarPatternsLiteral | domain/langgraph/nodes/repository_analyzer_node.py:231-255 | `*.pyc`, `*.pyo` and `*.pyd` only match a literal `*`; for other paths the remaining sixteen patterns decide |
| RepositoryAnalyzer.DockerfileNeverMatches | domain/langgraph/nodes/repository_analyzer_node.py:318-325 | `Dockerfile` is compared with the lower-cased path, so a path is a config file exactly when one of the other ten patterns occurs |
| RepositoryAnalyzer.FilePriority | domain/langgraph/nodes/repository_analyzer_node.py:328-345 | the priority is 1 to 4: 1 exactly for entry-point names, 2 only for config or read-me files, 3 only for non-tests, 4 only for tests |
| RepositoryAnalyzer.Suffix | domain/langgraph/nodes/repository_analyzer_node.py:258 | a suffix is empty or a dot followed by at least one character, shorter than the file name |
| RepositoryAnalyzer.WalkCounts | domain/langgraph/nodes/repository_analyzer_node.py:245-300 | one code count per kept file; tests plus docs at most the code files, at most all files, at most the listing; the test count is the number of files flagged `is_test` |
| RepositoryAnalyzer.WalkKeeps | domain/langgraph/nodes/repository_analyzer_node.py:245-285 | a record is kept exactly when some entry of the listing is a code file with that record |
| RepositoryAnalyzer.WalkFilesKept | domain/langgraph/nodes/repository_analyzer_node.py:254-285 | every kept file is not ignored, has a known extension and its language, a size of at most 5 MiB, and its test and config flags |
| RepositoryAnalyzer.WalkDirs | domain/langgraph/nodes/repository_analyzer_node.py:288-297 | the directories are ascending without repeats and are exactly the parents other than the root of the files neither ignored nor skipped |
| RepositoryAnalyzer.SortByPriorityIsSorted | domain/langgraph/nodes/repository_analyzer_node.py:303 | the sorted list is a permutation of the kept files in ascending priority |
| RepositoryAnalyzer.SortByPriorityIsStable | domain/langgraph/nodes/repository_analyzer_node.py:303 | within each priority the files keep their listing order |
| RepositoryAnalyzer.AnalyzeStructure | domain/langgraph/nodes/repository_analyzer_node.py:186-306 | the loop's files, sorted by priority, and structure are those of the walk over the listing |
| RepositoryAnalyzer.RepositoryAnalyzerNode | domain/langgraph/nodes/repository_analyzer_node.py:19-97 | a missing or empty name sets the error only; the mock stores its seven files and fixed structure; a failed download sets `Failed to download repository: <name>`; otherwise the path, the sorted files and the structure are stored with status `analyzing_files` |
| Text.LexLessTransitive | domain/langgraph/nodes/repository_analyzer_node.py:297 | Python's string order used by `sorted` is transitive |
| Text.LexLessTotal | domain/langgraph/nodes/repository_analyzer_node.py:297 | two different strings are ordered one way or the other |
| DocumentPrompts.InsertByPathPermutes | domain/langgraph/nodes/prompts.py:26 | inserting a summary into the path-ordered list adds exactly that summary |
| DocumentPrompts.InsertByPathSorted | domain/langgraph/nodes/prompts.py:26 | inserting into a list in path order keeps it in path order |
| DocumentPrompts.SortByPathFacts | domain/langgraph/nodes/prompts.py:26 | `sorted(files, key=file_path)` gives the same summaries, ordered by path under Python's string order |
| DocumentPrompts.CompactFilesFacts | domain/langgraph/nodes/prompts.py:24-36 | `_compact_files` keeps at most `MAX_FILES` (40) entries, in path order, each the compact form of one input summary, with a purpose of at most 90 characters |
| DocumentPrompts.CompactFilesKeepsAll | domain/langgraph/nodes/prompts.py:24-36 | with at most 40 summaries, every summary appears in the compact data |
| DocumentPrompts.NormalizeVersion | domain/langgraph/nodes/prompts.py:63-64 | a known version is kept; any other becomes the default `v4` |
| DocumentPrompts.SystemPromptHeader | domain/langgraph/nodes/prompts.py:62-72 | the system prompt opens with `[SYSTEM version=<v>]` for the version in force, and an unknown version gives exactly the default version's prompt |
| DocumentPrompts.SystemPromptsDiffer | domain/langgraph/nodes/prompts.py:55-72 | two different known versions give different system prompts |
| DocumentPrompts.PromptSet | domain/langgraph/nodes/prompts.py:149-164 | the prompt set has exactly the keys `overview`, `architecture` and `modules`, each bound to its own section |
| DocumentPrompts.TaskPromptShape | domain/langgraph/nodes/prompts.py:77-144 | every task prompt ends with `데이터:<json>`, the overview's starts by naming the repository, and different sections use different templates |
| FullRepoGenerator.SumOfAppend | domain/langgraph/nodes/full_repository_document_generator_node.py:121-123 | a total over two lists of summaries is the sum of their totals |
| FullRepoGenerator.StatsBound | domain/langgraph/nodes/full_repository_document_generator_node.py:118-125 | the function and class totals are at least any one file's count |
| FullRepoGenerator.SumsNonNegative | domain/langgraph/nodes/full_repository_document_generator_node.py:121-122 | the function and class totals are never negative |
| FullRepoGenerator.FirstSeenFacts | domain/langgraph/nodes/full_repository_document_generator_node.py:127-132 | the language dictionary's keys are the languages present, each once, in first-seen order |
| FullRepoGenerator.CountsOfFacts | domain/langgraph/nodes/full_repository_document_generator_node.py:127-132 | each language's count is the number of summaries written in it |
| FullRepoGenerator.CountsSumToTotal | domain/langgraph/nodes/full_repository_document_generator_node.py:127-132 | the language counts add up to the number of summaries |
| FullRepoGenerator.CollectLanguages | domain/langgraph/nodes/full_repository_document_generator_node.py:127-132 | the loop builds the dictionary's key order and counts described by `FirstSeen` and `CountsOf` |
| FullRepoGenerator.MaxByCount | domain/langgraph/nodes/full_repository_document_generator_node.py:159 | `max(..., key=count)` returns a key with the largest count, the first such key in dictionary order |
| FullRepoGenerator.PrimaryLanguageIsMostUsed | domain/langgraph/nodes/full_repository_document_generator_node.py:158-159 | the primary language is a language of the summaries used at least as often as any other |
| FullRepoGenerator.KindOfWholePath | domain/langgraph/nodes/full_repository_document_generator_node.py:137-152 | markers match anywhere in the lowered whole path, and entry-point markers win: `app/user_service.py` and `domain/user/model.py` are entry points |
| FullRepoGenerator.PresentFacts | domain/langgraph/nodes/full_repository_document_generator_node.py:135-152 | the list of added modules holds exactly the modules some file added, and is no longer than the file list |
| FullRepoGenerator.AllKeyModulesFacts | domain/langgraph/nodes/full_repository_document_generator_node.py:134-152 | every entry comes from one file's classification, and every file that matches a marker contributes its entry |
| FullRepoGenerator.CandidateShape | domain/langgraph/nodes/full_repository_document_generator_node.py:140-152 | a file gives an entry exactly when a marker matches; the entry has the file's kind and its name is the file name without its last suffix |
| FullRepoGenerator.KeyModulesFacts | domain/langgraph/nodes/full_repository_document_generator_node.py:154 | at most 8 key modules are kept, the first ones in file order, and all of them when there are no more than 8 |
| FullRepoGenerator.ExtractKeyModules | domain/langgraph/nodes/full_repository_document_generator_node.py:134-154 | the loop yields the first 8 entries of the file-by-file classification |
| FullRepoGenerator.BuildMockDocument | domain/langgraph/nodes/full_repository_document_generator_node.py:104-183 | the mock document's title, `_render` layout (totals, languages, primary language, key modules) and summary |
| FullRepoGenerator.AssembledHasSections | domain/langgraph/nodes/full_repository_document_generator_node.py:199-209 | the assembled document opens with its title and contains each added section under its heading |
| FullRepoGenerator.AssembledEmpty | domain/langgraph/nodes/full_repository_document_generator_node.py:199-209 | with no section added the document is its title line alone |
| FullRepoGenerator.FullRepoDocumentBuilder.constructor | domain/langgraph/nodes/full_repository_document_generator_node.py:192-194 | a new builder holds the repository name and no section |
| FullRepoGenerator.FullRepoDocumentBuilder.Add | domain/langgraph/nodes/full_repository_document_generator_node.py:196-197 | adding binds the key to the section, replacing an earlier one |
| FullRepoGenerator.FullRepoDocumentBuilder.Build | domain/langgraph/nodes/full_repository_document_generator_node.py:199-213 | the content is the title followed by the present sections in overview, architecture, modules order; the summary names the file count |
| FullRepoGenerator.Replies | domain/langgraph/nodes/full_repository_document_generator_node.py:53-90 | each of the three sections has a reply: the LLM asked with the version's system prompt and the section's task prompt |
| FullRepoGenerator.GatherSections | domain/langgraph/nodes/full_repository_document_generator_node.py:285-306 | whatever order the sections complete in, each section's result is its stripped answer, or empty when it failed |
| FullRepoGenerator.ClampWorkers | domain/langgraph/nodes/full_repository_document_generator_node.py:278 | the worker count is clamped into 1..3 |
| FullRepoGenerator.EffectiveVersion | domain/langgraph/nodes/full_repository_document_generator_node.py:268 | the argument wins when non-empty, then the environment variable, then `v4` |
| FullRepoGenerator.AssembleDocument | domain/langgraph/nodes/full_repository_document_generator_node.py:308-312 | adding the three results to a fresh builder and building gives the assembled content and summary |
| FullRepoGenerator.Store | domain/langgraph/nodes/full_repository_document_generator_node.py:314-318 | the state holds the document's title, content and summary, with status `saving_document` |
| FullRepoGenerator.GenerateWithLlm | domain/langgraph/nodes/full_repository_document_generator_node.py:271-328 | a failed worker-count conversion sets the error `Full document generation failed: …`; otherwise the state holds the assembled document, its summary tagged with the prompt version as given, before an unknown version falls back to `v4` |
| FullRepoGenerator.FullRepositoryDocumentGeneratorNode | domain/langgraph/nodes/full_repository_document_generator_node.py:219-328 | no summaries is the error `file_summaries is empty`; mock mode or a missing key stores the mock document; otherwise the LLM document of the version in force, or the generation error |
| FileSummarizer.LimitFilesFacts | domain/langgraph/nodes/file_summarizer_node.py:29-36 | the kept files are a prefix of the input; a positive limit below the file count cuts to exactly that many, otherwise every file is kept |
| FileSummarizer.UseFullCode | domain/langgraph/nodes/file_summarizer_node.py:71 | the argument decides when given, else the environment's setting |
| FileSummarizer.TruncateCodeFacts | domain/langgraph/nodes/file_summarizer_node.py:184-188 | code within the limit is kept whole; longer code keeps its first `MAX_CODE_CHARS` characters and ends with the truncation marker |
| FileSummarizer.PreviewBound | domain/langgraph/nodes/file_summarizer_node.py:381-400 | a full-code preview starts with the code and is at most the code limit plus the marker; every other preview has at most 500 characters |
| FileSummarizer.StringPartsFacts | domain/langgraph/nodes/file_summarizer_node.py:364-365 | from a list reply exactly the string elements are kept |
| FileSummarizer.ExtractTextFacts | domain/langgraph/nodes/file_summarizer_node.py:361-366 | a string reply is returned unchanged; a list of strings keeps all of them |
| FileSummarizer.ExtractJsonAsWrittenDropsLastChar | domain/langgraph/nodes/file_summarizer_node.py:370-373 | with an unclosed "```json" fence the code as written loses the reply's last character, where the intended reading keeps it |
| FileSummarizer.ExtractJsonUnfenced | domain/langgraph/nodes/file_summarizer_node.py:378 | a reply without a fence is returned unchanged, as written and as intended |
| FileSummarizer.ExtractJsonFenced | domain/langgraph/nodes/file_summarizer_node.py:370-373 | a JSON text wrapped in a closed "```json" fence is extracted back, stripped, whatever follows the fence, as written and as intended |
| FileSummarizer.ExtractJsonPlainFenced | domain/langgraph/nodes/file_summarizer_node.py:374-377 | without a "```json" fence a closed plain "```" fence is read the same way, as written and as intended |
| FileSummarizer.ExtractJsonUnclosed | domain/langgraph/nodes/file_summarizer_node.py:370-373 | with the corrected slice an unclosed fence keeps the whole rest of the reply |
| FileSummarizer.TitleFacts | domain/langgraph/nodes/file_summarizer_node.py:180 | `str.title()` keeps length and letter positions, upper-cases a leading letter, and is idempotent |
| FileSummarizer.FirstPattern | domain/langgraph/nodes/file_summarizer_node.py:178-181 | the pattern chosen is the first, in table order, whose key occurs in the name; none is chosen only when no key occurs |
| FileSummarizer.MockPatternOrder | domain/langgraph/nodes/file_summarizer_node.py:169-181 | the lower-cased stem `test_main` matches `main` before `test` |
| FileSummarizer.MockSummaryCode | domain/langgraph/nodes/file_summarizer_node.py:183-213 | `included_full_code` is true exactly when a non-empty code block is attached; none is attached when full code is off, and it is bounded by the code limit plus the marker |
| FileSummarizer.StrategyOf | domain/langgraph/nodes/file_summarizer_node.py:128-150 | the LLM strategy is chosen exactly when mock mode is off and an API key is given |
| FileSummarizer.SummarizeDescribesFile | domain/langgraph/nodes/file_summarizer_node.py:157-293 | every strategy keeps the file's path and language and takes the counts and line count from the parse result; the mock strategy yields mock summaries, the LLM strategy an LLM or fallback summary |
| FileSummarizer.SummarizeSequentially | domain/langgraph/nodes/file_summarizer_node.py:105-115 | the sequential loop yields one summary per file, in input order |
| FileSummarizer.SummarizeInCompletionOrder | domain/langgraph/nodes/file_summarizer_node.py:98-101 | the parallel loop appends each task's summary in the order the tasks finish |
| FileSummarizer.CompletionOrderPermutes | domain/langgraph/nodes/file_summarizer_node.py:98-101 | results gathered in any completion order are the same results, each once |
| FileSummarizer.NodeSummariesOnePerFile | domain/langgraph/nodes/file_summarizer_node.py:93-115 | either path stores one summary per file, the sequential path's summaries up to order, and exactly them in file order when sequential |
| FileSummarizer.FileSummarizerNode | domain/langgraph/nodes/file_summarizer_node.py:53-121 | missing or empty parsed files is the error `No parsed_files to summarize`; otherwise the limited files' summaries (LLM replies read with `_extract_json` as written) are stored, in completion order on the parallel path, with status `generating_document` |
| SourcePatterns.NamedHits | domain/langgraph/nodes/parser/fallback_parser.py:43-44 | every identifier-capturing pattern (Python, JavaScript and Java definitions and classes) captures a non-empty name at every match |
| SourcePatterns.CleanBlock | domain/langgraph/nodes/parser/utils.py:13-14 | a cleaned block comment has no leading or trailing whitespace and no two adjacent spaces |
| SourcePatterns.Collapse | domain/langgraph/nodes/parser/utils.py:14 | `re.sub(r'\s+', ' ', …)` is empty exactly for empty input, keeps whether the text starts with whitespace, and leaves no two adjacent spaces |
| PatternScan.FindIter | domain/langgraph/nodes/parser/fallback_parser.py:16 | the search loop returns exactly the left-to-right scan of non-overlapping matches |
| PatternScan.ScanSound | domain/langgraph/nodes/parser/fallback_parser.py:16-27 | every match found lies inside the text and is what the pattern answers at its start |
| PatternScan.ScanOrdered | domain/langgraph/nodes/parser/fallback_parser.py:16-27 | the matches are in text order and do not overlap |
| PatternScan.ScanStarts | domain/langgraph/nodes/parser/fallback_parser.py:16-27 | no match starts before the position the search started from |
| PatternScan.ScanComplete | domain/langgraph/nodes/parser/fallback_parser.py:16-27 | every position where the pattern matches is covered by some match found, so no match is skipped except inside an earlier one |
| CommentExtraction.ExtractComments | domain/langgraph/nodes/parser/utils.py:5-17 | the loop returns the `#` comments, then the `//` comments, then the block comments, empty ones dropped, capped at ten |
| CommentExtraction.NonEmptyTexts | domain/langgraph/nodes/parser/utils.py:9-11 | the filter keeps only non-empty captured texts, each one a match's text, and never more than the matches |
| CommentExtraction.CommentTextsClean | domain/langgraph/nodes/parser/utils.py:9-14 | every comment pattern's captured text is stripped; a block comment's is also single-spaced |
| CommentExtraction.CommentsFacts | domain/langgraph/nodes/parser/utils.py:5-17 | at most ten comments, each non-empty and stripped, taken in order from the three kinds of comment |
| CommentExtraction.BlockCommentsCollapsed | domain/langgraph/nodes/parser/utils.py:13-16 | every block comment kept has its whitespace runs collapsed to single spaces |
| FallbackParser.PythonFallback | domain/langgraph/nodes/parser/fallback_parser.py:6-39 | the three match loops build the Python result: one function per `def` match, one class per `class` match, one import per import match |
| FallbackParser.JavaScriptFallback | domain/langgraph/nodes/parser/fallback_parser.py:42-78 | the loops build the JavaScript result, keeping the declared language or `javascript` |
| FallbackParser.JavaFallback | domain/langgraph/nodes/parser/fallback_parser.py:81-114 | the loops build the Java result from method, class and import matches |
| FallbackParser.GenericParse | domain/langgraph/nodes/parser/fallback_parser.py:117-129 | the generic result keeps the declared language or `unknown` |
| FallbackParser.FunctionRecords | domain/langgraph/nodes/parser/fallback_parser.py:16-19 | one record per match, in order, named by the capture, starting at the match's line and spanning the given number of lines |
| FallbackParser.ClassRecords | domain/langgraph/nodes/parser/fallback_parser.py:21-24 | one class record per match, in order, named by the capture, starting at the match's line and spanning the given number of lines |
| FallbackParser.ModuleImports | domain/langgraph/nodes/parser/fallback_parser.py:63-66 | one `import from '<module>'` entry per JavaScript import match, in order |
| FallbackParser.RecordsFromMatches | domain/langgraph/nodes/parser/fallback_parser.py:16-19 | each function record comes from a real match of the pattern, has a non-empty name, starts at one plus the newlines before the match and ends `span` lines later |
| FallbackParser.PythonDefsAnchored | domain/langgraph/nodes/parser/fallback_parser.py:7 | a Python function is recorded only for `def` at the very start of a line, one per match, spanning ten lines |
| FallbackParser.FallbackShape | domain/langgraph/nodes/parser/fallback_parser.py:29-39 | the three language parsers keep the path, count lines with `splitlines`, score functions plus twice the classes, keep at most ten comments, and span functions 10/5/5 and classes 20/10/20 lines |
| FallbackParser.GenericFindsNothing | domain/langgraph/nodes/parser/fallback_parser.py:117-129 | the generic parser records no functions, classes or imports and always scores complexity 1 |
| FallbackParser.JsImportsNamed | domain/langgraph/nodes/parser/fallback_parser.py:63-66 | every JavaScript import match names a module, so the `if imp` guard never drops one: one entry per match |
| TreeSitterParser.GrammarFor | domain/langgraph/nodes/parser/tree_sitter_parser.py:16-47 | a grammar exists exactly for python, javascript, typescript, java, cpp, c and go |
| TreeSitterParser.FirstIdentifier | domain/langgraph/nodes/parser/tree_sitter_parser.py:94-98 | the name found is the text of an `identifier` child; none is found only when no child is an identifier |
| TreeSitterParser.NodeRecords | domain/langgraph/nodes/parser/tree_sitter_parser.py:100-117 | each visited node contributes exactly its own record |
| TreeSitterParser.TreeWalker.Walk | domain/langgraph/nodes/parser/tree_sitter_parser.py:100-121 | the recursive walk appends to the three lists exactly the records of the subtree's nodes in preorder |
| TreeSitterParser.TreeWalker.Visit | domain/langgraph/nodes/parser/tree_sitter_parser.py:101-117 | visiting one node appends its function, class or import record, checked in that order, or nothing |
| TreeSitterParser.TreeWalker.constructor | domain/langgraph/nodes/parser/tree_sitter_parser.py:57-59 | the walk starts from three empty lists |
| TreeSitterParser.Preorder | domain/langgraph/nodes/parser/tree_sitter_parser.py:118-119 | a node is visited first, before its children |
| TreeSitterParser.TryTreeSitterParse | domain/langgraph/nodes/parser/tree_sitter_parser.py:11-135 | no result without a grammar or a tree; otherwise the walk's lists, over the kind table as written (none for `c`), with complexity, line count and no comments |
| TreeSitterParser.CFileRecordsNothing | domain/langgraph/nodes/parser/tree_sitter_parser.py:36-40 | a C file that tree-sitter parses yields no functions, classes or imports and complexity 0, since the kind table at lines 61-92 has no `c` entry |
| TreeSitterParser.ParseWithBestEffort | domain/langgraph/nodes/parser/tree_sitter_parser.py:138-149 | the tree-sitter result (walked with the kind table as written) when there is one, otherwise the fallback chosen by language |
| TreeSitterParser.AtMostOneRecordPerNode | domain/langgraph/nodes/parser/tree_sitter_parser.py:102-117 | the walk records at most one entry per node visited |
| TreeSitterParser.FunctionNodeRecorded | domain/langgraph/nodes/parser/tree_sitter_parser.py:102-108 | every visited node of a function kind is recorded, named by its identifier and spanning its rows plus one |
| TreeSitterParser.NestedFunctionRecorded | domain/langgraph/nodes/parser/tree_sitter_parser.py:100-121 | a function node at any depth below the root is recorded: the walk does not stop at a recorded node |
| TreeSitterParser.TreeResultShape | domain/langgraph/nodes/parser/tree_sitter_parser.py:123-133 | a tree-sitter result exists only for a supported language and has no comments, the relative path, functions plus twice the classes as complexity, and the `splitlines` count |
| TreeSitterParser.BestEffortClean | domain/langgraph/nodes/parser/tree_sitter_parser.py:138-149 | whichever parser answers, the result keeps the path, counts lines with `splitlines` and has no parsing error or full code |
| TreeSitterParser.UnsupportedLanguageIsGeneric | domain/langgraph/nodes/parser/tree_sitter_parser.py:46-47 | a language with no grammar always gets the generic result |
| TreeSitterParser.NoTreeForCFamily | domain/langgraph/nodes/parser/tree_sitter_parser.py:143-149 | C, C++ and Go without a tree get no functions or classes and complexity 1 |
| TreeSitterParser.NoKindsRecordNothing | domain/langgraph/nodes/parser/tree_sitter_parser.py:92 | with no entry in the patterns table a walk records nothing |
| TreeSitterParser.CTreeRecordsNothingAsWritten | domain/langgraph/nodes/parser/tree_sitter_parser.py:36-40 | as written, a C file's tree, whatever its nodes, records no function, class or import |
| TreeSitterParser.CTreeRecordsFunctions | domain/langgraph/nodes/parser/tree_sitter_parser.py:61-92 | with the C++ node kinds for C, a C `function_definition` root is recorded as the first function |
| MockParser.MockEstimates | domain/langgraph/nodes/parser/mock_parser.py:35-45 | the line estimate is the size floor-divided by 20, there are no classes, complexity is the function count and there is one comment naming the language and stem |
| MockParser.PythonMocks | domain/langgraph/nodes/parser/mock_parser.py:14-28 | a Python stem with `main` or `app` gets the two entry-point functions and two imports; otherwise `test` gives the test mock; otherwise one `process_<stem>` function |
| MockParser.OtherLanguageMocks | domain/langgraph/nodes/parser/mock_parser.py:30-33 | JavaScript and TypeScript get one `<stem>Handler`; other languages get no functions and no file other than Python has imports |
| FileParser.Extension | domain/langgraph/nodes/file_parser_node.py:77 | `splitext`'s extension is empty or one leading dot followed by no dot or separator |
| FileParser.ResolveLanguageFacts | domain/langgraph/nodes/file_parser_node.py:72-89 | a declared language wins lower-cased; otherwise the extension gives a supported language or `unknown`; the result is never empty and has no upper-case letter |
| FileParser.ExtensionLanguageNamed | domain/langgraph/nodes/file_parser_node.py:78-89 | the extension table only names supported languages, with `unknown` for the rest |
| FileParser.UpperCaseExtension | domain/langgraph/nodes/file_parser_node.py:77 | the extension is lower-cased before lookup, so `X.PY` is Python |
| FileParser.DotFileUnknown | domain/langgraph/nodes/file_parser_node.py:77 | a dot file such as `.py` has no extension under `splitext` and resolves to `unknown` |
| FileParser.JoinPath | domain/langgraph/nodes/file_parser_node.py:42 | `os.path.join` ends with the relative path, keeps the repository path as a prefix with one separator between, and an absolute path replaces it |
| FileParser.ParseFile | domain/langgraph/nodes/file_parser_node.py:39-60 | one file's parse is the per-file result of the node |
| FileParser.Each | domain/langgraph/nodes/file_parser_node.py:38 | one result per file, in input order |
| FileParser.ParseAll | domain/langgraph/nodes/file_parser_node.py:37-60 | the loop appends one parse result per code file, in order |
| FileParser.MockResults | domain/langgraph/nodes/file_parser_node.py:31 | one mock result per code file, in order |
| FileParser.FileParserNode | domain/langgraph/nodes/file_parser_node.py:18-65 | no code files is the error `No code files to parse`; otherwise the mock or parsed results are stored with status `summarizing_files` |
| FileParser.ParseResultFacts | domain/langgraph/nodes/file_parser_node.py:39-60 | the relative path is kept; a parsing error appears exactly when the file cannot be read and then the record is empty; a missing file is `File not found`; full code is attached exactly when the content fits the limit |
| FileParser.NodeResultsPerFile | domain/langgraph/nodes/file_parser_node.py:30-62 | either path yields one result per code file, in order, carrying its relative path |
| WebhookHandler.HeaderDigestShape | domain/user/webhook_handler.py:45-54 | a digest is taken from the header exactly when it is `sha256=` followed by a digest with no `=` |
| WebhookHandler.SplitSignature | domain/user/webhook_handler.py:51 | `sha256=<digest>` splits on `=` into exactly the name and the digest |
| WebhookHandler.SignatureAcceptedExactly | domain/user/webhook_handler.py:45-59 | a signature is accepted exactly when the header is `sha256=` followed by the expected digest |
| WebhookHandler.FileExt | domain/user/webhook_handler.py:233 | the extension is empty exactly when the name has no dot; otherwise it is the name's suffix from its last dot |
| WebhookHandler.FilterCodeFiles | domain/user/webhook_handler.py:227-245 | the loop keeps exactly the files the code-change filter keeps, in order |
| WebhookHandler.CodeChangesExact | domain/user/webhook_handler.py:231-236 | a file is kept exactly when it is one of the files, has a code extension and has a positive change count |
| WebhookHandler.CodeChangesShorter | domain/user/webhook_handler.py:231-236 | the filter never adds files |
| WebhookHandler.TotalAppend | domain/user/webhook_handler.py:263 | the change sum over two lists is the sum of their sums |
| WebhookHandler.KeptTotalAtLeastCount | domain/user/webhook_handler.py:236-263 | the total of the kept files is at least their number, since each has a positive change count |
| WebhookHandler.TotalPositiveExactly | domain/user/webhook_handler.py:236-263 | the kept total is positive exactly when some file is a code change |
| WebhookHandler.ShortSha | domain/user/webhook_handler.py:259 | the short sha is a prefix of the id, at most 8 characters and exactly 8 when the id is that long, empty without an id |
| WebhookHandler.ExtractCodeChanges | domain/user/webhook_handler.py:193-264 | the per-commit extraction is the commit's change summary |
| WebhookHandler.CommitChangeFacts | domain/user/webhook_handler.py:193-264 | a summary exists exactly when the fetch succeeded and some file is a code change; it then lists only code changes, its total is their sum and at least their number, and its sha is a short prefix of the id |
| WebhookHandler.HandlePushEvent | domain/user/webhook_handler.py:129-190 | the loop keeps the commits' summaries in order and handles the event as the push handler does |
| WebhookHandler.PushGate | domain/user/webhook_handler.py:132-146 | a push is handled exactly when its ref is the default branch's, `refs/heads/main` when none is given |
| WebhookHandler.AllCodeFilesAppend | domain/user/webhook_handler.py:169-179 | the flattened files and the summed totals of two commit lists concatenate and add |
| WebhookHandler.ExtractionWellFormed | domain/user/webhook_handler.py:253-264 | every commit summary has files, a total equal to their sum and at least their number |
| WebhookHandler.KeptTotals | domain/user/webhook_handler.py:161-179 | the saved total equals the change sum of all saved files and is at least the number of files, which is at least the number of commits kept |
| WebhookHandler.KeptOrigin | domain/user/webhook_handler.py:161-165 | every kept summary is the summary of one of the pushed commits, and there are no more than the commits |
| WebhookHandler.PushSaved | domain/user/webhook_handler.py:161-190 | a handled push saves exactly when some commit has code changes; the saved total matches its files; every change listed comes from a pushed commit |
| WebhookHandler.WithoutPatches | domain/user/webhook_handler.py:356-362 | the pull-request file records are the kept files without their patches, one for one |
| WebhookHandler.ExtractPrCodeChanges | domain/user/webhook_handler.py:328-368 | the loop yields the pull request's change summary, or the fetch error with its status code |
| WebhookHandler.TotalWithoutPatches | domain/user/webhook_handler.py:366 | dropping patches does not change the change total |
| WebhookHandler.PrChangesFacts | domain/user/webhook_handler.py:343-368 | a fetched pull request reports as many files as it lists, a total at least their number, and only code changes, none with a patch |
| WebhookHandler.HandlePullRequestEvent | domain/user/webhook_handler.py:268-325 | the pull-request handler's outcome: ignored unless closed, merged and into the default branch, otherwise the changes with whether they are saved |
| WebhookHandler.PrSavedExactly | domain/user/webhook_handler.py:276-318 | a pull request is saved exactly when it is closed, merged, into the default branch, fetched and has some code change |
| WebhookHandler.ProcessedOnlyWhenSigned | domain/user/webhook_handler.py:61-114 | an event gets a reply exactly when its signature is valid, and is processed exactly when it is a push or a pull request |

## Left out

- The LLM prompts (`_build_section_prompt`, the system and user prompt texts) are not modelled; a reply is a parameter of the call.
- `_update_section_llm` is modelled by its merge step only; the prompt it sends is left out with the prompts.
- The parallel section update (a thread pool, results in completion order) is modelled by the sequential loop; with several targets the real `updates` list may be in a different order.
- PartialUpdate.RunSectionsAbort: when several sections raise, the model reports the first in target order; the thread pool surfaces whichever raising section completes first in `as_completed`, which depends on timing.
- `PARTIAL_UPDATE_MAX_CONCURRENCY` is not modelled (the sequential loop needs no worker count); a malformed value, whose `int()` conversion makes the partial update raise into the generator node's error handler, is not modelled.
- `PARTIAL_DOC_UPDATE_MAX_SECTION_CHARS` and `OPENAI_API_KEY` are parameters (`maxChars`, `apiKeySet`); the `int()` conversion error of a malformed value is not modelled.
- A non-string LLM reply (a list of content parts) is not modelled: a reply is a string.
- The change analyzer's thread pool (`FILE_SUMMARY_MAX_CONCURRENCY` workers, results in completion order) is modelled as a sequential loop; the final reordering by file makes the result independent of that order.
- The `int()` conversion error of a malformed `FILE_SUMMARY_MAX_CONCURRENCY`, which makes the change analyzer node fail through its exception handler, is not modelled.
- `ChangeAnalysis.JsonStr`: `str()` of a list or dictionary nested in the LLM's JSON answer is written `[...]` or `{...}`, not Python's repr; such a value never names a section, but its bullet text in `analysis_result` differs.
- JSON numbers are integers; a floating-point number in the LLM's JSON answer is not modelled.
- `json.loads` is a parameter (`parse`): JSON parsing itself is not modelled.
- The fixed wording of the prompts (the shared guardrails, the document rules and the three section templates) is named by `DocumentPrompts.Passage`, not spelled out; a prompt is a sequence of computed text and named passages.
- `json.dumps` of the compact data is the parameter `dumps`; JSON serialisation itself is not modelled. The repository structure the prompt builders receive is unused by them and left out.
- DocumentPrompts.SortByPathFacts: states that the order is by path and a permutation, not that summaries sharing a path keep their relative order as Python's stable sort does.
- FullRepoGenerator.FullRepoDocumentBuilder.Add: keys are the three sections; the builder is only ever given those.
- `FULL_DOC_MAX_CONCURRENCY` is the parameter `workers`, whose `int()` conversion may fail; other exceptions inside the LLM path (building the chat model) are not modelled.
- The mock path's exception branch is not modelled: with summaries that carry all their fields the mock builder cannot raise.
- The thread pool that runs the three section calls is modelled by the parameter `completion`, the order in which sections finish.
- The file summarizer's prompts (`_build_system_prompt`, `_build_user_prompt`) are not spelled out: the model is the parameter `ask`, given the parsed file and its preview, which is all the prompts are built from.
- Of a summary's fields the model keeps path, language, purpose, role, counts, line count, generation method and full code; the fixed descriptive fields (`key_features`, `complexity_assessment`, `dependency_analysis`, `maintainability`, `generated_at`) and any other key of the LLM's JSON are left out.
- FileSummarizer.LlmSummary: a `purpose` or `role` in the LLM's JSON that is not a string is treated as absent.
- `FILE_SUMMARY_LIMIT`, `FILE_SUMMARY_INCLUDE_FULL_CODE`, `FILE_SUMMARY_MAX_CODE_CHARS` and `FILE_SUMMARIZER_MAX_CONCURRENCY` are parameters; their `int()` conversion errors and a negative code limit are not modelled.
- Joining the repository path and the file path and reading the file are the parameter `read`.
- Non-ASCII whitespace (`\x85`, `\xa0`, U+2000 to U+200A and the like), which Python's `strip()`, `split()`, `isspace()` and regex `\s` also treat as whitespace, is not whitespace in the model.
- `str.title()` is modelled over ASCII letters; other cased letters in a language name are left as they are.
- The progress messages the nodes print are left out.
- The jitter that scales each retry delay (`random.uniform(0.8, 1.3)`) and the sleep itself are left out; `InvokeWithRetry` reports the delays before the jitter.
- `LLM_MAX_RETRIES`, `LLM_BASE_BACKOFF_SECONDS` and `LLM_MAX_BACKOFF_SECONDS` are parameters; the conversion error of a malformed value is not modelled.
- `get_or_create_session` and `new_session` are not part of this model: `Chat` requires the session it returns to exist, with a first (system) message.
- The chat model call is the parameter `reply`; any exception inside the handler (the call, a malformed reply) is a `Failure`.
- The workflow graph is run by the LangGraph library, which is not part of this model: `DocumentWorkflow.Run` is the order in which the compiled graph executes its nodes, and `process` is modelled by its mapping of the final state (`ProcessResultOf`).
- Database sessions, commits and failures of the database itself are left out: queries are parameters of the nodes and the document table is an in-memory map. `_get_repository_access_token_sync` is the parameter `tokenFor`.
- A row's `created_at` and the commit timestamp's `isoformat()` are left out; `updated_at` is the parameter `now`.
- DataLoader.AssembledDiffHasNoEntries: also requires that no file name or status contains `diff --git`, since such a name would put the marker into the heading line.
- The repository analyzer's HTTP requests, the temporary directory, the zip extraction and the recursive listing are parameters (`metaStatus`, `metaBranch`, `fetch`, `tempDir`, `listing`); the access token only shapes those answers. A failure of `mkdtemp` itself and an exception inside the structure walk (which would yield no files and an empty structure) are not modelled.
- Paths are modelled as `/`-separated normalised strings: the backslash replacement for Windows paths and `pathlib`'s normalisation of repeated or trailing separators are left out.
- `iterdir` order is the order of the `entries` an attempt reports; when an earlier attempt failed half-way through its extraction, leftovers of it are assumed to be reported there.
- The walk keeps `directories` as an ascending sequence without repeats instead of a set sorted at the end; both give the same list. `languages` is kept as a set, since `list(set(...))` has no defined order.
- The regex engine is not modelled as such: each pattern the parsers use is written out as its own matcher (`SourcePatterns`); a `\s`, `[^)]`, `[^;]` or `[^'"]` run that would cross a newline is not followed onto the next line (so a Java `import a.` continued as `b;` on the next line, or a JavaScript module name split across lines, is not matched), and `\w` and `\s` are ASCII only.
- A `#` or `//` followed only by blanks does not let `\s*` run on into the next line, as the regex would; such a comment is dropped instead of capturing the next line's text.
- The tree-sitter library and its grammar packages are the parameter `trees`, from a grammar and the content to a syntax tree or nothing; a missing grammar package and an exception while parsing are both that nothing. A node's text is taken as given; the `errors="ignore"` decoding of its bytes is left out.
- `FILE_PARSER_FULL_CODE_LIMIT` (default 30000) is the parameter `fullCodeLimit`; the `int()` conversion error of a malformed value is not modelled.
- The filesystem is the parameter `disk`: a path is absent, unreadable (with the exception's message) or readable with its content; the `errors="ignore"` decoding is part of that content.
- The file parser node's outer exception handler (`File parser failed: …`) is not modelled; inside the model nothing outside the per-file handler can raise.
- A `language` key present with the value `None` is treated as absent; in the mock parser Python would then write `None` into the comment.
- `pathlib`'s stem normalises repeated and trailing separators; the model's stem does not.
- The HMAC-SHA256 digest of the payload is the parameter `expected`; computing it and the constant-time comparison are left out.
- The GitHub API answers are the parameters `fetch` (per commit, or for the pull request): files or a failing status code. The access token, the HTTP headers and the API URL only shape those answers and are left out, as are `_get_repository_access_token`, `get_current_user` and `get_user_access_token`.
- `save_code_changes` and the database are left out: the push handler returns what it would save (`SavedPush`) and the pull-request handler whether it would save.
- A `default_branch` key present with the value `None`, a `changes` value that is not an integer, and the extra fields of the pull-request summary (title, author, merged by, merge time) are left out.
- The webhook handler's logging, the request's JSON decoding and the generic exception reply (`Webhook processing failed`) are left out; a request with a valid signature is assumed to carry a well-formed payload.
- The webhook management operations (`save_webhook_info`, `delete_webhook_info`, `_fetch_repository_details`, `_trigger_document_generation`) are not part of this model.

## Findings

The pipeline model keeps both defects as the code has them (`FileSummarizer.LlmSummary` reads replies with `ExtractJsonAsWritten`, the tree walk uses `KindsAsWritten`); the corrected definitions and their proved properties stand beside them.

| source | as written | input that shows it | evidently intended | confidence | as-written member | corrected member |
|---|---|---|---|---|---|---|
| domain/langgraph/nodes/file_summarizer_node.py:370-377 | when the opening fence has no closing "```", `find` returns -1 and `text[start:-1]` drops the reply's last character | the reply "```json\n{}" extracts to "{", which `json.loads` rejects, so the file gets the fallback summary | an unclosed fence extends to the end of the reply ("{}") | medium, not executed | FileSummarizer.ExtractJsonAsWrittenDropsLastChar | FileSummarizer.ExtractJsonUnclosed |
| domain/langgraph/nodes/parser/tree_sitter_parser.py:36-40 | `c` is parsed with the C++ grammar, but the node-kind table (lines 61-92) has no `c` entry, so the walk records nothing | a C file whose syntax tree has a `function_definition` node: no function is recorded | use the C++ node kinds for C, as the grammar choice does | high, not executed | TreeSitterParser.CTreeRecordsNothingAsWritten | TreeSitterParser.CTreeRecordsFunctions |
