/**
 * Parsing through a syntax tree: the language gate that picks a grammar,
 * the preorder walk that records functions, classes and imports by node
 * kind, and the best-effort dispatch that falls back to the regex parsers
 * when no tree is available.  The tree-sitter library itself is an oracle
 * from a grammar and a text to a tree.
 */
module TreeSitterParser {
  import opened Wrappers
  import opened Text
  import opened Records
  import opened FallbackParser

  /** A node of a syntax tree: its kind, its text, its 0-based first and last rows, its children. */
  datatype SyntaxNode = SyntaxNode(kind: string, text: string, startRow: nat, endRow: nat, children: seq<SyntaxNode>)

  datatype Grammar = PythonGrammar | JavaScriptGrammar | TypeScriptGrammar | JavaGrammar | CppGrammar | GoGrammar

  /**
   * The parse the library performs: `None` when the language binding is not
   * installed or parsing raised.
   */
  type TreeOracle = (Grammar, string) -> Option<SyntaxNode>

  const SupportedLanguages: set<string> := {"python", "javascript", "typescript", "java", "cpp", "c", "go"}

  /** The grammar a language is parsed with; C shares the C++ grammar. */
  function GrammarFor(language: string): (r: Option<Grammar>)
    ensures r.Some? <==> language in SupportedLanguages
  {
    if language == "python" then Some(PythonGrammar)
    else if language == "javascript" then Some(JavaScriptGrammar)
    else if language == "typescript" then Some(TypeScriptGrammar)
    else if language == "java" then Some(JavaGrammar)
    else if language == "cpp" || language == "c" then Some(CppGrammar)
    else if language == "go" then Some(GoGrammar)
    else None
  }

  /** The node kinds recorded as functions, classes and imports. */
  datatype NodeKinds = NodeKinds(functions: seq<string>, classes: seq<string>, imports: seq<string>)

  const NoKinds := NodeKinds([], [], [])

  /** The kind table as written: keyed by language name, with no entry for `c`. */
  function KindsAsWritten(language: string): NodeKinds {
    if language == "python" then
      NodeKinds(["function_definition"], ["class_definition"], ["import_statement", "import_from_statement"])
    else if language == "javascript" then
      NodeKinds(["function_declaration", "arrow_function", "method_definition"], ["class_declaration"], ["import_statement"])
    else if language == "typescript" then
      NodeKinds(["function_declaration", "arrow_function", "method_definition", "function_signature"],
                ["class_declaration", "interface_declaration"], ["import_statement"])
    else if language == "java" then
      NodeKinds(["method_declaration", "constructor_declaration"], ["class_declaration", "interface_declaration"], ["import_declaration"])
    else if language == "cpp" then
      NodeKinds(["function_definition", "function_declarator"], ["class_specifier", "struct_specifier"], ["preproc_include"])
    else if language == "go" then
      NodeKinds(["function_declaration", "method_declaration"], ["type_declaration"], ["import_declaration"])
    else NoKinds
  }

  /**
   * The kind table as evidently intended: `c`, parsed with the C++ grammar,
   * reads the `cpp` entry.  Only the corrected C lemma uses it; the parser
   * itself walks with `KindsAsWritten`.
   */
  function Kinds(language: string): NodeKinds {
    KindsAsWritten(if language == "c" then "cpp" else language)
  }

  // ---------------------------------------------------------------------
  // The walk

  /** The text of the first `identifier` child, if any. */
  function FirstIdentifier(children: seq<SyntaxNode>): (r: Option<string>)
    ensures r.Some? ==> exists k :: 0 <= k < |children| && children[k].kind == "identifier" && children[k].text == r.value
    ensures r.None? ==> forall k :: 0 <= k < |children| ==> children[k].kind != "identifier"
  {
    if children == [] then None
    else if children[0].kind == "identifier" then Some(children[0].text)
    else
      var r := FirstIdentifier(children[1..]);
      assert forall k :: 1 <= k < |children| ==> children[k] == children[1..][k - 1];
      r
  }

  /** `id_text`: the first identifier child's text, or `unknown`. */
  function IdText(n: SyntaxNode): string {
    FirstIdentifier(n.children).GetOr("unknown")
  }

  datatype Role = FunctionRole | ClassRole | ImportRole

  /** What a node of this kind is recorded as: a function first, then a class, then an import. */
  function RoleOf(kind: string, kinds: NodeKinds): Option<Role> {
    if kind in kinds.functions then Some(FunctionRole)
    else if kind in kinds.classes then Some(ClassRole)
    else if kind in kinds.imports then Some(ImportRole)
    else None
  }

  /** What the walk has recorded. */
  datatype Collection = Collection(functions: seq<FunctionInfo>, classes: seq<ClassInfo>, imports: seq<string>) {
    /** Everything recorded here, then everything recorded in `later`. */
    function Then(later: Collection): Collection {
      Collection(functions + later.functions, classes + later.classes, imports + later.imports)
    }
  }

  const Nothing := Collection([], [], [])

  /** What visiting one node records: rows become 1-based lines. */
  function Record(n: SyntaxNode, kinds: NodeKinds): Collection {
    match RoleOf(n.kind, kinds)
    case Some(FunctionRole) => Collection([FunctionInfo(IdText(n), n.startRow + 1, n.endRow + 1, "")], [], [])
    case Some(ClassRole) => Collection([], [ClassInfo(IdText(n), n.startRow + 1, n.endRow + 1)], [])
    case Some(ImportRole) => Collection([], [], [n.kind])
    case None => Nothing
  }

  /** The collections in order, each appended after the ones before. */
  function Combine(cs: seq<Collection>): Collection {
    if cs == [] then Nothing else cs[0].Then(Combine(cs[1..]))
  }

  /** What visiting each node records, node by node. */
  function NodeRecords(ns: seq<SyntaxNode>, kinds: NodeKinds): (r: seq<Collection>)
    ensures |r| == |ns|
    ensures forall k :: 0 <= k < |ns| ==> r[k] == Record(ns[k], kinds)
  {
    seq(|ns|, k requires 0 <= k < |ns| => Record(ns[k], kinds))
  }

  /** What visiting the nodes in this order records. */
  function Collected(ns: seq<SyntaxNode>, kinds: NodeKinds): Collection {
    Combine(NodeRecords(ns, kinds))
  }

  lemma ThenAssociative(a: Collection, b: Collection, c: Collection)
    ensures a.Then(b).Then(c) == a.Then(b.Then(c))
  {
    assert (a.functions + b.functions) + c.functions == a.functions + (b.functions + c.functions);
    assert (a.classes + b.classes) + c.classes == a.classes + (b.classes + c.classes);
    assert (a.imports + b.imports) + c.imports == a.imports + (b.imports + c.imports);
  }

  lemma {:induction false} CombineAppend(a: seq<Collection>, b: seq<Collection>)
    ensures Combine(a + b) == Combine(a).Then(Combine(b))
    decreases |a|
  {
    if a == [] {
      assert a + b == b;
      var j := Combine(b);
      assert Nothing.Then(j) == j;
    } else {
      assert (a + b)[1..] == a[1..] + b;
      CombineAppend(a[1..], b);
      ThenAssociative(a[0], Combine(a[1..]), Combine(b));
    }
  }

  /** Visiting a single node records what that node records. */
  lemma CollectedSingle(n: SyntaxNode, kinds: NodeKinds)
    ensures Collected([n], kinds) == Record(n, kinds)
  {
    var rs := NodeRecords([n], kinds);
    assert rs[1..] == [];
    var r := Record(n, kinds);
    assert rs[0] == r;
    assert Combine(rs) == r.Then(Combine(rs[1..]));
    assert r.Then(Nothing) == r;
  }

  /** A node, then its subtrees left to right. */
  function Preorder(n: SyntaxNode): (r: seq<SyntaxNode>)
    ensures |r| >= 1 && r[0] == n
    decreases n, 1
  {
    [n] + PreorderAll(n.children)
  }

  function PreorderAll(cs: seq<SyntaxNode>): seq<SyntaxNode>
    decreases cs, 0
  {
    if cs == [] then [] else Preorder(cs[0]) + PreorderAll(cs[1..])
  }

  lemma {:induction false} CollectedAppend(a: seq<SyntaxNode>, b: seq<SyntaxNode>, kinds: NodeKinds)
    ensures Collected(a + b, kinds) == Collected(a, kinds).Then(Collected(b, kinds))
  {
    assert NodeRecords(a + b, kinds) == NodeRecords(a, kinds) + NodeRecords(b, kinds);
    CombineAppend(NodeRecords(a, kinds), NodeRecords(b, kinds));
  }

  lemma {:induction false} PreorderAllSnoc(cs: seq<SyntaxNode>, x: SyntaxNode)
    ensures PreorderAll(cs + [x]) == PreorderAll(cs) + Preorder(x)
    decreases |cs|
  {
    if cs == [] {
      assert PreorderAll([x]) == Preorder(x) + PreorderAll([]);
    } else {
      assert (cs + [x])[1..] == cs[1..] + [x];
      PreorderAllSnoc(cs[1..], x);
    }
  }

  /**
   * The closure `walk` and the three lists it appends to.  `Walk` visits a
   * node before its children, left to right.
   */
  class TreeWalker {
    const kinds: NodeKinds
    var functions: seq<FunctionInfo>
    var classes: seq<ClassInfo>
    var imports: seq<string>

    function Contents(): Collection
      reads this
    {
      Collection(functions, classes, imports)
    }

    constructor (kinds: NodeKinds)
      ensures this.kinds == kinds && Contents() == Nothing
    {
      this.kinds := kinds;
      functions := [];
      classes := [];
      imports := [];
    }

    method Walk(node: SyntaxNode)
      modifies this
      ensures Contents() == old(Contents()).Then(Collected(Preorder(node), kinds))
      decreases node
    {
      Visit(node);
      CollectedSingle(node, kinds);
      var cs := node.children;
      var i := 0;
      assert [node] + PreorderAll(cs[..0]) == [node];
      while i < |cs|
        invariant i <= |cs|
        invariant Contents() == old(Contents()).Then(Collected([node] + PreorderAll(cs[..i]), kinds))
      {
        Walk(cs[i]);
        WalkStep(node, i, kinds);
        ThenAssociative(old(Contents()), Collected([node] + PreorderAll(cs[..i]), kinds), Collected(Preorder(cs[i]), kinds));
        i := i + 1;
      }
      assert cs[..|cs|] == cs;
    }

    /** The visit of one node: appended to the list its kind belongs to, if any. */
    method Visit(node: SyntaxNode)
      modifies this
      ensures Contents() == old(Contents()).Then(Record(node, kinds))
    {
      var t := node.kind;
      if t in kinds.functions {
        functions := functions + [FunctionInfo(IdText(node), node.startRow + 1, node.endRow + 1, "")];
      } else if t in kinds.classes {
        classes := classes + [ClassInfo(IdText(node), node.startRow + 1, node.endRow + 1)];
      } else if t in kinds.imports {
        imports := imports + [t];
      } else {
        assert functions + [] == functions && classes + [] == classes && imports + [] == imports;
      }
    }
  }

  /** Walking child `i` after the node and its first `i` subtrees covers the first `i + 1` subtrees. */
  lemma WalkStep(node: SyntaxNode, i: nat, kinds: NodeKinds)
    requires i < |node.children|
    ensures var cs := node.children;
      Collected([node] + PreorderAll(cs[..i + 1]), kinds)
        == Collected([node] + PreorderAll(cs[..i]), kinds).Then(Collected(Preorder(cs[i]), kinds))
  {
    var cs := node.children;
    assert cs[..i + 1] == cs[..i] + [cs[i]];
    PreorderAllSnoc(cs[..i], cs[i]);
    assert [node] + PreorderAll(cs[..i + 1]) == ([node] + PreorderAll(cs[..i])) + Preorder(cs[i]);
    CollectedAppend([node] + PreorderAll(cs[..i]), Preorder(cs[i]), kinds);
  }

  // ---------------------------------------------------------------------
  // Tree-sitter parse and dispatch

  /** The parse result built from what the walk recorded. */
  function TreeRecord(content: string, info: CodeFile, language: string, c: Collection): ParsedFile {
    ParsedFile(info.path, language, info.size.GetOr(0), c.functions, c.classes, c.imports, [],
      |c.functions| + 2 * |c.classes|, |SplitLines(content)|, None, None)
  }

  /** What `_try_tree_sitter_parse` returns. */
  function TreeSitterResult(content: string, info: CodeFile, language: string, trees: TreeOracle): Option<ParsedFile> {
    match GrammarFor(language)
    case None => None
    case Some(g) =>
      match trees(g, content)
      case None => None
      case Some(root) => Some(TreeRecord(content, info, language, Collected(Preorder(root), KindsAsWritten(language))))
  }

  /** `_try_tree_sitter_parse`. */
  method TryTreeSitterParse(content: string, info: CodeFile, language: string, trees: TreeOracle)
    returns (r: Option<ParsedFile>)
    ensures r == TreeSitterResult(content, info, language, trees)
  {
    var grammar := GrammarFor(language);
    if grammar.None? {
      return None;
    }
    var tree := trees(grammar.value, content);
    if tree.None? {
      return None;
    }
    var walker := new TreeWalker(KindsAsWritten(language));
    walker.Walk(tree.value);
    assert walker.Contents() == Collected(Preorder(tree.value), KindsAsWritten(language));
    var functions, classes := walker.functions, walker.classes;
    r := Some(ParsedFile(info.path, language, info.size.GetOr(0), functions, classes, walker.imports, [],
      |functions| + 2 * |classes|, |SplitLines(content)|, None, None));
  }

  /** The regex parser for a language: Python, JavaScript/TypeScript, Java, otherwise the generic one. */
  function FallbackResult(content: string, info: CodeFile, language: string): ParsedFile {
    if language == "python" then PythonResult(content, info)
    else if language == "javascript" || language == "typescript" then JavaScriptResult(content, info)
    else if language == "java" then JavaResult(content, info)
    else GenericResult(content, info)
  }

  /** What `parse_with_best_effort` returns. */
  function BestEffort(content: string, info: CodeFile, language: string, trees: TreeOracle): ParsedFile {
    match TreeSitterResult(content, info, language, trees)
    case Some(r) => r
    case None => FallbackResult(content, info, language)
  }

  /** `parse_with_best_effort`. */
  method ParseWithBestEffort(content: string, info: CodeFile, language: string, trees: TreeOracle)
    returns (r: ParsedFile)
    ensures r == BestEffort(content, info, language, trees)
  {
    var ts := TryTreeSitterParse(content, info, language, trees);
    if ts.Some? {
      return ts.value;
    }
    if language == "python" {
      r := PythonFallback(content, info);
    } else if language == "javascript" || language == "typescript" {
      r := JavaScriptFallback(content, info);
    } else if language == "java" {
      r := JavaFallback(content, info);
    } else {
      r := GenericParse(content, info);
    }
  }

  // ---------------------------------------------------------------------
  // Properties

  /** Each visited node is recorded at most once, as one thing. */
  lemma {:induction false} AtMostOneRecordPerNode(ns: seq<SyntaxNode>, kinds: NodeKinds)
    ensures var c := Collected(ns, kinds);
      |c.functions| + |c.classes| + |c.imports| <= |ns|
  {
    CombineBound(NodeRecords(ns, kinds));
  }

  lemma {:induction false} CombineBound(cs: seq<Collection>)
    requires forall k :: 0 <= k < |cs| ==> |cs[k].functions| + |cs[k].classes| + |cs[k].imports| <= 1
    ensures var c := Combine(cs);
      |c.functions| + |c.classes| + |c.imports| <= |cs|
  {
    if cs != [] {
      assert forall k :: 0 <= k < |cs| - 1 ==> cs[1..][k] == cs[k + 1];
      CombineBound(cs[1..]);
    }
  }

  /** What any one of the collections holds is in their join. */
  lemma {:induction false} CombineHolds(cs: seq<Collection>, k: nat, f: FunctionInfo)
    requires k < |cs| && f in cs[k].functions
    ensures f in Combine(cs).functions
  {
    if k > 0 {
      assert cs[1..][k - 1] == cs[k];
      CombineHolds(cs[1..], k - 1, f);
    }
  }

  /** A node of a function kind anywhere in the visit order gets its record. */
  lemma FunctionNodeRecorded(ns: seq<SyntaxNode>, kinds: NodeKinds, x: SyntaxNode)
    requires x in ns && x.kind in kinds.functions
    ensures FunctionInfo(IdText(x), x.startRow + 1, x.endRow + 1, "") in Collected(ns, kinds).functions
  {
    var k :| 0 <= k < |ns| && ns[k] == x;
    CombineHolds(NodeRecords(ns, kinds), k, FunctionInfo(IdText(x), x.startRow + 1, x.endRow + 1, ""));
  }

  /** Every node of a child's subtree is visited when its parent is walked. */
  lemma {:induction false} SubtreeVisited(cs: seq<SyntaxNode>, c: SyntaxNode, x: SyntaxNode)
    requires c in cs && x in Preorder(c)
    ensures x in PreorderAll(cs)
  {
    if cs[0] != c {
      assert c in cs[1..];
      SubtreeVisited(cs[1..], c, x);
    }
  }

  /**
   * Nested definitions count: a function-kind node inside any child of the
   * root is recorded, with its 1-based lines.
   */
  lemma NestedFunctionRecorded(root: SyntaxNode, child: SyntaxNode, x: SyntaxNode, kinds: NodeKinds)
    requires child in root.children && x in Preorder(child) && x.kind in kinds.functions
    ensures FunctionInfo(IdText(x), x.startRow + 1, x.endRow + 1, "") in Collected(Preorder(root), kinds).functions
  {
    SubtreeVisited(root.children, child, x);
    assert x in Preorder(root);
    FunctionNodeRecorded(Preorder(root), kinds, x);
  }

  /**
   * A tree result exists only for the seven supported languages, has no
   * comments, scores functions plus twice the classes, and counts lines.
   */
  lemma TreeResultShape(content: string, info: CodeFile, language: string, trees: TreeOracle)
    ensures var r := TreeSitterResult(content, info, language, trees);
      r.Some? ==>
        language in SupportedLanguages && r.value.comments == [] && r.value.filePath == info.path
        && r.value.complexityScore == |r.value.functions| + 2 * |r.value.classes|
        && r.value.loc == |SplitLines(content)|
  {
  }

  /**
   * Whichever parser answers, the record carries the file's own path and
   * line count and neither an error nor the code itself.
   */
  lemma BestEffortClean(content: string, info: CodeFile, language: string, trees: TreeOracle)
    ensures var r := BestEffort(content, info, language, trees);
      r.filePath == info.path && r.loc == |SplitLines(content)| && r.parsingError.None? && r.fullCode.None?
  {
    if TreeSitterResult(content, info, language, trees).None? {
      FallbackShape(content, info);
      GenericFindsNothing(content, info);
    }
  }

  /**
   * A language without a grammar never consults the tree oracle: whatever it
   * would answer, the result is the generic parse.
   */
  lemma UnsupportedLanguageIsGeneric(content: string, info: CodeFile, language: string, trees: TreeOracle)
    requires language !in SupportedLanguages
    ensures BestEffort(content, info, language, trees) == GenericResult(content, info)
  {
  }

  /**
   * C, C++ and Go have a grammar but no regex parser: without a tree they
   * get the generic parse, which finds no definitions and scores 1.
   */
  lemma NoTreeForCFamily(content: string, info: CodeFile, language: string, trees: TreeOracle)
    requires language in {"c", "cpp", "go"} && TreeSitterResult(content, info, language, trees).None?
    ensures var r := BestEffort(content, info, language, trees);
      r.functions == [] && r.classes == [] && r.complexityScore == 1
  {
  }

  /** With an empty kind table nothing is ever recorded. */
  lemma NoKindsRecordNothing(ns: seq<SyntaxNode>)
    ensures Collected(ns, NoKinds) == Nothing
  {
    CombineOfNothing(NodeRecords(ns, NoKinds));
  }

  lemma {:induction false} CombineOfNothing(cs: seq<Collection>)
    requires forall k :: 0 <= k < |cs| ==> cs[k] == Nothing
    ensures Combine(cs) == Nothing
  {
    if cs != [] {
      assert forall k :: 0 <= k < |cs| - 1 ==> cs[1..][k] == cs[k + 1];
      CombineOfNothing(cs[1..]);
    }
  }

  /**
   * As written, a C file parsed with the C++ grammar looks up the kind table
   * under `c`, which has no entry: its result records nothing, whatever the
   * tree holds.
   */
  lemma CTreeRecordsNothingAsWritten(root: SyntaxNode)
    ensures Collected(Preorder(root), KindsAsWritten("c")) == Nothing
  {
    NoKindsRecordNothing(Preorder(root));
  }

  /** So a C file that tree-sitter parses comes back with no functions, classes or imports. */
  lemma CFileRecordsNothing(content: string, info: CodeFile, trees: TreeOracle)
    ensures var r := TreeSitterResult(content, info, "c", trees);
      r.Some? ==> r.value.functions == [] && r.value.classes == [] && r.value.imports == [] && r.value.complexityScore == 0
  {
    var g := GrammarFor("c");
    if g.Some? && trees(g.value, content).Some? {
      CTreeRecordsNothingAsWritten(trees(g.value, content).value);
    }
  }

  /**
   * With the C++ table, a C function definition is recorded: the root of a
   * `function_definition` tree is the first function found.
   */
  lemma CTreeRecordsFunctions(root: SyntaxNode)
    requires root.kind == "function_definition"
    ensures var c := Collected(Preorder(root), Kinds("c"));
      |c.functions| >= 1 && c.functions[0] == FunctionInfo(IdText(root), root.startRow + 1, root.endRow + 1, "")
  {
    var rs := NodeRecords(Preorder(root), Kinds("c"));
    assert rs[0] == Record(root, Kinds("c"));
    assert Combine(rs) == rs[0].Then(Combine(rs[1..]));
  }
}
