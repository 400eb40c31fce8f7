/**
 * The document saver node: the generated document is written to the
 * document table, updating the existing row or inserting a new one.  The
 * table is an in-memory map from id to row.
 */
module DocumentSaver {
  import opened Wrappers
  import opened Records
  import Text
  import opened PipelineState

  /** A row of the document table, with the columns the saver writes. */
  datatype StoredDocument = StoredDocument(
    title: string,
    content: string,
    summary: string,
    status: string,
    documentType: string,
    commitSha: string,
    repositoryName: Option<string>,
    codeChangeId: int,
    analysisResult: Option<string>,
    changedFiles: Option<seq<string>>,
    updatedAt: int)

  const ContentMissing: string := "Document content missing before save"
  const SummaryMissing: string := "Document summary missing before save"
  const FailurePrefix: string := "Document saver failed: "
  const IdMissing: string := "code_change_id missing before save"
  const NoIdForUpdate: string := "Document ID not found for update"
  const TitleMissing: string := "Document title missing before save"

  /** `f"Document not found: {doc_id}"`. */
  function NotFound(id: int): string {
    "Document not found: " + Text.IntToString(id)
  }

  /** What the saver does with the state it is given. */
  datatype SavePlan =
    | Refuse(message: string)
    | UpdateRow(id: int, content: string, summary: string)
    | InsertRow(title: string, content: string, summary: string, codeChangeId: int)

  /**
   * The saver's decision.  `known` holds the ids present in the table.
   * The two missing-value checks come first and are not prefixed; the
   * others raise inside the session and are.
   */
  function PlanSave(content: Option<string>, summary: Option<string>, codeChangeId: Option<int>, shouldUpdate: bool,
                    existing: Option<ExistingDocument>, title: Option<string>, known: set<int>): (p: SavePlan)
    ensures content.None? || content.value == [] ==> p == Refuse(ContentMissing)
    ensures content.Some? && content.value != [] && summary.None? ==> p == Refuse(SummaryMissing)
    ensures p.UpdateRow? <==>
      content.Some? && content.value != [] && summary.Some? && codeChangeId.Some? && shouldUpdate
      && existing.Some? && existing.value.id != 0 && existing.value.id in known
    ensures p.UpdateRow? ==> p == UpdateRow(existing.value.id, content.value, summary.value)
    ensures p.InsertRow? <==>
      content.Some? && content.value != [] && summary.Some? && codeChangeId.Some? && !shouldUpdate
      && title.Some? && title.value != []
    ensures p.InsertRow? ==> p == InsertRow(title.value, content.value, summary.value, codeChangeId.value)
  {
    if content.None? || content.value == [] then Refuse(ContentMissing)
    else if summary.None? then Refuse(SummaryMissing)
    else if codeChangeId.None? then Refuse(FailurePrefix + IdMissing)
    else if shouldUpdate then
      if existing.None? || existing.value.id == 0 then Refuse(FailurePrefix + NoIdForUpdate)
      else if existing.value.id !in known then Refuse(FailurePrefix + NotFound(existing.value.id))
      else UpdateRow(existing.value.id, content.value, summary.value)
    else if title.None? || title.value == [] then Refuse(FailurePrefix + TitleMissing)
    else InsertRow(title.value, content.value, summary.value, codeChangeId.value)
  }

  /** Every refusal after the two missing-value checks carries the saver's prefix. */
  lemma RefusalsArePrefixed(content: Option<string>, summary: Option<string>, codeChangeId: Option<int>,
                            shouldUpdate: bool, existing: Option<ExistingDocument>, title: Option<string>, known: set<int>)
    requires content.Some? && content.value != [] && summary.Some?
    ensures var p := PlanSave(content, summary, codeChangeId, shouldUpdate, existing, title, known);
      p.Refuse? ==> |FailurePrefix| <= |p.message| && p.message[..|FailurePrefix|] == FailurePrefix
  {
  }

  /** An empty summary is accepted: only a missing one is refused. */
  lemma EmptySummaryAccepted(content: string, codeChangeId: int, title: string)
    requires content != [] && title != []
    ensures PlanSave(Some(content), Some(""), Some(codeChangeId), false, None, Some(title), {}) == InsertRow(title, content, "", codeChangeId)
  {
  }

  /** The document table. */
  class DocumentStore {
    var documents: map<int, StoredDocument>
    var nextId: int

    /** Every row's id is below the next id the table hands out, which is positive. */
    predicate Valid()
      reads this
    {
      nextId >= 1 && forall id :: id in documents ==> id < nextId
    }

    constructor ()
      ensures Valid() && documents == map[]
    {
      documents := map[];
      nextId := 1;
    }

    /** `setattr` on content, summary and status, and `updated_at`; nothing else of the row changes. */
    method Update(id: int, content: string, summary: string, now: int)
      requires id in documents
      modifies this`documents
      ensures documents == old(documents)[id := old(documents)[id].(content := content, summary := summary,
                                                                    status := "generated", updatedAt := now)]
    {
      documents := documents[id := documents[id].(content := content, summary := summary,
                                                  status := "generated", updatedAt := now)];
    }

    /** `session.add` and `flush`: the row gets a new id. */
    method Insert(doc: StoredDocument) returns (id: int)
      requires Valid()
      modifies this
      ensures Valid()
      ensures id !in old(documents) && id > 0 && documents == old(documents)[id := doc]
    {
      id := nextId;
      documents := documents[id := doc];
      nextId := nextId + 1;
    }
  }

  /**
   * The save has been carried out as `plan` says: a refusal writes the
   * error and nothing else; an update or an insert writes the row, the id,
   * the action and status `completed`.
   */
  twostate predicate Saved(st: DocumentState, store: DocumentStore, plan: SavePlan, now: int)
    reads st, store
  {
    match plan
    case Refuse(message) =>
      st.status == "error" && st.error == Some(message)
      && unchanged(store) && unchanged(st`documentId, st`action)
    case UpdateRow(id, content, summary) =>
      && id in old(store.documents)
      && store.documents == old(store.documents)[id := old(store.documents)[id].(
           content := content, summary := summary, status := "generated", updatedAt := now)]
      && st.documentId == Some(id) && st.action == Some("updated")
      && st.status == "completed" && st.error == old(st.error)
    case InsertRow(title, content, summary, codeChangeId) =>
      && st.documentId.Some? && st.documentId.value !in old(store.documents)
      && store.documents == old(store.documents)[st.documentId.value := NewRow(title, content, summary,
           old(st.codeChange), old(st.repositoryName), codeChangeId, old(st.analysisResult), old(st.changedFiles), now)]
      && st.action == Some("created") && st.status == "completed" && st.error == old(st.error)
  }

  /** The row inserted for a new document: status `generated`, type `auto`, the commit's SHA or `""`. */
  function NewRow(title: string, content: string, summary: string, codeChange: Option<CodeChangeInfo>,
                  repo: Option<string>, codeChangeId: int, analysis: Option<string>,
                  changed: Option<seq<string>>, now: int): (r: StoredDocument)
    ensures r.status == "generated" && r.documentType == "auto"
    ensures r.title == title && r.content == content && r.summary == summary
    ensures r.commitSha == if codeChange.Some? then codeChange.value.commitSha else ""
  {
    StoredDocument(title, content, summary, "generated", "auto",
                   if codeChange.Some? then codeChange.value.commitSha else "",
                   repo, codeChangeId, analysis, changed, now)
  }

  /**
   * `document_saver_node`.  `now` stands for `datetime.utcnow()`; a new
   * row's `created_at` is the table's default, not modelled.
   */
  method DocumentSaverNode(st: DocumentState, store: DocumentStore, now: int) returns (ghost plan: SavePlan)
    requires store.Valid()
    modifies st`status, st`error, st`documentId, st`action, store
    ensures store.Valid()
    ensures plan == PlanSave(old(st.documentContent), old(st.documentSummary), old(st.codeChangeId), old(st.shouldUpdate),
                             old(st.existingDocument), old(st.documentTitle), old(store.documents.Keys))
    ensures Saved(st, store, plan, now)
  {
    plan := PlanSave(st.documentContent, st.documentSummary, st.codeChangeId, st.shouldUpdate,
                     st.existingDocument, st.documentTitle, store.documents.Keys);
    var content := st.documentContent;
    var summary := st.documentSummary;
    if content.None? || content.value == [] {
      st.status := "error";
      st.error := Some(ContentMissing);
      return;
    }
    if summary.None? {
      st.status := "error";
      st.error := Some(SummaryMissing);
      return;
    }
    if st.codeChangeId.None? {
      st.error := Some(FailurePrefix + IdMissing);
      st.status := "error";
      return;
    }
    if st.shouldUpdate {
      var existing := st.existingDocument;
      if existing.None? || existing.value.id == 0 {
        st.error := Some(FailurePrefix + NoIdForUpdate);
        st.status := "error";
        return;
      }
      var id := existing.value.id;
      if id !in store.documents {
        st.error := Some(FailurePrefix + NotFound(id));
        st.status := "error";
        return;
      }
      store.Update(id, content.value, summary.value, now);
      st.documentId := Some(id);
      st.action := Some("updated");
    } else {
      var title := st.documentTitle;
      if title.None? || title.value == [] {
        st.error := Some(FailurePrefix + TitleMissing);
        st.status := "error";
        return;
      }
      var row := NewRow(title.value, content.value, summary.value, st.codeChange, st.repositoryName,
                        st.codeChangeId.value, st.analysisResult, st.changedFiles, now);
      var id := store.Insert(row);
      st.documentId := Some(id);
      st.action := Some("created");
    }
    st.status := "completed";
  }
}
