/**
 * The regular expressions the source parsers run, each written out as an
 * explicit matcher: given a text and a position, whether the pattern matches
 * there, where the match ends and the text the parser keeps from it.  The
 * matchers follow the regexes' own alternation order, greedy and lazy
 * repetition; apart from the block comment, a match never runs past the end
 * of the line it starts on.
 */
module SourcePatterns {
  import opened Wrappers
  import opened Text

  /** One match: where it ends and the captured text the parser keeps. */
  datatype Hit = Hit(end: nat, text: string)

  datatype Pattern =
    | PythonDef       // ^def\s+(\w+)\s*\([^)]*\):
    | PythonClass     // ^class\s+(\w+).*?:
    | PythonImport    // ^(import\s+.+|from\s+.+\s+import\s+.+)
    | JsFunction      // function\s+(\w+)|const\s+(\w+)\s*=.*?=>|(\w+)\s*:\s*function
    | JsClass         // class\s+(\w+)
    | JsImport        // import.*?from\s+['"]([^'"]+)['"]|import\s+['"]([^'"]+)['"]
    | JavaMethod      // (public|private|protected).*?\s+(\w+)\s*\([^)]*\)\s*{
    | JavaClass       // (public\s+)?class\s+(\w+)
    | JavaImport      // import\s+([^;]+);
    | HashComment     // #\s*(.+)
    | SlashComment    // //\s*(.+)
    | BlockComment    // /\*\s*(.+?)\s*\*/ with DOTALL

  // ---------------------------------------------------------------------
  // Character classes and scanning

  /** Regex `\s` inside one line. */
  predicate IsBlank(c: char) { IsSpace(c) && c != '\n' }

  predicate IsQuote(c: char) { c == '\'' || c == '"' }

  /** A position where a `^` in MULTILINE mode matches. */
  predicate LineStart(s: string, i: nat) {
    i == 0 || (i <= |s| && s[i - 1] == '\n')
  }

  /** The index of the `\n` that ends the line holding `i`, or `|s|`. */
  function EndOfLine(s: string, i: nat): (e: nat)
    requires i <= |s|
    ensures i <= e <= |s|
    ensures e < |s| ==> s[e] == '\n'
    ensures forall j :: i <= j < e ==> s[j] != '\n'
    decreases |s| - i
  {
    if i == |s| || s[i] == '\n' then i else EndOfLine(s, i + 1)
  }

  /** The end of the run of `\s` (within the line) starting at `i`. */
  function SkipBlanks(s: string, i: nat): (j: nat)
    requires i <= |s|
    ensures i <= j <= |s|
    ensures j == |s| || !IsBlank(s[j])
    ensures forall k :: i <= k < j ==> IsBlank(s[k])
    decreases |s| - i
  {
    if i < |s| && IsBlank(s[i]) then SkipBlanks(s, i + 1) else i
  }

  /** The end of the run of `\w` starting at `i`. */
  function SkipWord(s: string, i: nat): (j: nat)
    requires i <= |s|
    ensures i <= j <= |s|
    ensures j == |s| || !IsWordChar(s[j])
    ensures forall k :: i <= k < j ==> IsWordChar(s[k])
    decreases |s| - i
  {
    if i < |s| && IsWordChar(s[i]) then SkipWord(s, i + 1) else i
  }

  /** The first quote character at or after `from`. */
  function FindQuote(s: string, from: nat): (r: Option<nat>)
    ensures r.Some? ==> from <= r.value < |s| && IsQuote(s[r.value])
    ensures r.Some? ==> forall j :: from <= j < r.value ==> !IsQuote(s[j])
    ensures r.None? ==> forall j :: from <= j < |s| ==> !IsQuote(s[j])
    decreases |s| - from
  {
    if from >= |s| then None
    else if IsQuote(s[from]) then Some(from)
    else FindQuote(s, from + 1)
  }

  /**
   * `re.sub(r'\s+', ' ', s)`: every maximal run of whitespace becomes one
   * space.
   */
  function Collapse(s: string): (r: string)
    ensures s == [] <==> r == []
    ensures r != [] ==> (IsSpace(r[0]) <==> IsSpace(s[0]))
    ensures SingleSpaced(r)
    decreases |s|
  {
    if s == [] then []
    else if IsSpace(s[0]) then
      var j := SkipSpaces(s, 0);
      var rest := Collapse(s[j..]);
      [' '] + rest
    else [s[0]] + Collapse(s[1..])
  }

  /** The only whitespace is single spaces. */
  predicate SingleSpaced(t: string) {
    (forall j :: 0 <= j < |t| && IsSpace(t[j]) ==> t[j] == ' ')
    && (forall j :: 0 <= j < |t| - 1 && t[j] == ' ' ==> t[j + 1] != ' ')
  }

  /** A slice of a single-spaced text is single-spaced. */
  lemma SingleSpacedSlice(t: string, a: nat, b: nat)
    requires SingleSpaced(t) && a <= b <= |t|
    ensures SingleSpaced(t[a..b])
  {
    var u := t[a..b];
    forall j | 0 <= j < |u| - 1 && u[j] == ' '
      ensures u[j + 1] != ' '
    {
      assert u[j] == t[a + j] && u[j + 1] == t[a + j + 1];
    }
  }

  /** What the source keeps of a block comment: whitespace runs collapsed, then stripped. */
  function CleanBlock(s: string): (r: string)
    ensures SingleSpaced(r)
    ensures r == [] || (!IsSpace(r[0]) && !IsSpace(r[|r| - 1]))
  {
    var c := Collapse(s);
    var l := SkipSpaces(c, 0);
    SingleSpacedSlice(c, l, |c|);
    var r := RStrip(c[l..]);
    SingleSpacedSlice(c[l..], 0, |r|);
    assert c[l..][0..|r|] == r;
    Strip(c)
  }

  // ---------------------------------------------------------------------
  // Python

  /** `^def\s+(\w+)\s*\([^)]*\):` -- keeps the function name. */
  function PythonDefAt(s: string, i: nat): (r: Option<Hit>)
    ensures r.Some? ==> i < r.value.end <= |s| && r.value.text != []
  {
    if !(LineStart(s, i) && OccursAt(s, "def", i)) then None
    else
      var k := SkipBlanks(s, i + 3);
      var w := SkipWord(s, k);
      var p := SkipBlanks(s, w);
      if k == i + 3 || w == k || p == |s| || s[p] != '(' then None
      else
        match FindChar(s, ')', p + 1)
        case None => None
        case Some(q) =>
          if q < EndOfLine(s, p) && q + 1 < |s| && s[q + 1] == ':' then Some(Hit(q + 2, s[k..w])) else None
  }

  /** `^class\s+(\w+).*?:` -- keeps the class name. */
  function PythonClassAt(s: string, i: nat): (r: Option<Hit>)
    ensures r.Some? ==> i < r.value.end <= |s| && r.value.text != []
  {
    if !(LineStart(s, i) && OccursAt(s, "class", i)) then None
    else
      var k := SkipBlanks(s, i + 5);
      var w := SkipWord(s, k);
      if k == i + 5 || w == k then None
      else
        match FindChar(s, ':', w)
        case None => None
        case Some(c) => if c < EndOfLine(s, w) then Some(Hit(c + 1, s[k..w])) else None
  }

  /** The second alternative's shape: `from`, blank, text, blank, `import`, blank, text. */
  predicate FromImportLine(s: string, i: nat, e: nat)
    requires i <= e <= |s|
  {
    OccursAt(s, "from", i) && i + 4 < e && IsBlank(s[i + 4])
    && exists k :: i + 7 <= k && k + 8 <= e && OccursAt(s, "import", k) && IsBlank(s[k - 1]) && IsBlank(s[k + 6])
  }

  /**
   * `^(import\s+.+|from\s+.+\s+import\s+.+)` -- the match runs to the end of
   * the line and the parser keeps it stripped.
   */
  function PythonImportAt(s: string, i: nat): (r: Option<Hit>)
    ensures r.Some? ==> i < r.value.end <= |s|
  {
    if !LineStart(s, i) || i >= |s| then None
    else
      var e := EndOfLine(s, i);
      if (OccursAt(s, "import", i) && i + 8 <= e && IsBlank(s[i + 6])) || FromImportLine(s, i, e) then
        Some(Hit(e, Strip(s[i..e])))
      else None
  }

  // ---------------------------------------------------------------------
  // JavaScript / TypeScript

  /** `function\s+(\w+)`. */
  function FunctionKeywordAt(s: string, i: nat): (r: Option<Hit>)
    ensures r.Some? ==> i < r.value.end <= |s| && r.value.text != []
  {
    if !OccursAt(s, "function", i) then None
    else
      var k := SkipBlanks(s, i + 8);
      var w := SkipWord(s, k);
      if k == i + 8 || w == k then None else Some(Hit(w, s[k..w]))
  }

  /** `const\s+(\w+)\s*=.*?=>`. */
  function ConstArrowAt(s: string, i: nat): (r: Option<Hit>)
    ensures r.Some? ==> i < r.value.end <= |s| && r.value.text != []
  {
    if !OccursAt(s, "const", i) then None
    else
      var k := SkipBlanks(s, i + 5);
      var w := SkipWord(s, k);
      var p := SkipBlanks(s, w);
      if k == i + 5 || w == k || p == |s| || s[p] != '=' then None
      else
        match FindFrom(s, "=>", p + 1)
        case None => None
        case Some(a) => if a + 2 <= EndOfLine(s, p) then Some(Hit(a + 2, s[k..w])) else None
  }

  /** `(\w+)\s*:\s*function`. */
  function PropertyFunctionAt(s: string, i: nat): (r: Option<Hit>)
    requires i <= |s|
    ensures r.Some? ==> i < r.value.end <= |s| && r.value.text != []
  {
    var w := SkipWord(s, i);
    var p := SkipBlanks(s, w);
    if w == i || p == |s| || s[p] != ':' then None
    else
      var t := SkipBlanks(s, p + 1);
      if OccursAt(s, "function", t) then Some(Hit(t + 8, s[i..w])) else None
  }

  /** The three alternatives, tried in order; the hit keeps whichever name was captured. */
  function JsFunctionAt(s: string, i: nat): (r: Option<Hit>)
    requires i <= |s|
    ensures r.Some? ==> i < r.value.end <= |s| && r.value.text != []
  {
    match FunctionKeywordAt(s, i)
    case Some(h) => Some(h)
    case None =>
      match ConstArrowAt(s, i)
      case Some(h) => Some(h)
      case None => PropertyFunctionAt(s, i)
  }

  /** `class\s+(\w+)`. */
  function ClassKeywordAt(s: string, i: nat): (r: Option<Hit>)
    ensures r.Some? ==> i < r.value.end <= |s| && r.value.text != []
  {
    if !OccursAt(s, "class", i) then None
    else
      var k := SkipBlanks(s, i + 5);
      var w := SkipWord(s, k);
      if k == i + 5 || w == k then None else Some(Hit(w, s[k..w]))
  }

  /** `from\s+['"]([^'"]+)['"]` starting at `p`, within the line ending at `e`. */
  function FromModuleAt(s: string, p: nat, e: nat): (r: Option<Hit>)
    ensures r.Some? ==> p < r.value.end <= |s| && r.value.text != []
  {
    if !OccursAt(s, "from", p) then None
    else
      var q := SkipBlanks(s, p + 4);
      if q == p + 4 || q == |s| || !IsQuote(s[q]) then None
      else
        match FindQuote(s, q + 1)
        case None => None
        case Some(c) => if q + 1 < c < e then Some(Hit(c + 1, s[q + 1..c])) else None
  }

  /** The lazy `.*?` before `from`: the first position from `p` on where the rest matches. */
  function FirstFromModule(s: string, p: nat, e: nat): (r: Option<Hit>)
    ensures r.Some? ==> p < r.value.end <= |s| && r.value.text != []
    decreases e - p
  {
    if p >= e then None
    else
      match FromModuleAt(s, p, e)
      case Some(h) => Some(h)
      case None => FirstFromModule(s, p + 1, e)
  }

  /** `import.*?from\s+['"]([^'"]+)['"]` and then `import\s+['"]([^'"]+)['"]`: the module name. */
  function JsImportAt(s: string, i: nat): (r: Option<Hit>)
    ensures r.Some? ==> i < r.value.end <= |s| && r.value.text != []
  {
    if !OccursAt(s, "import", i) then None
    else
      var e := EndOfLine(s, i);
      match FirstFromModule(s, i + 6, e)
      case Some(h) => Some(h)
      case None =>
        var k := SkipBlanks(s, i + 6);
        if k == i + 6 || k == |s| || !IsQuote(s[k]) then None
        else
          match FindQuote(s, k + 1)
          case None => None
          case Some(c) => if k + 1 < c < e then Some(Hit(c + 1, s[k + 1..c])) else None
  }

  // ---------------------------------------------------------------------
  // Java

  /** `\s+(\w+)\s*\([^)]*\)\s*{` starting at `p`: the method name. */
  function SignatureAt(s: string, p: nat, e: nat): (r: Option<Hit>)
    requires p <= |s|
    ensures r.Some? ==> p < r.value.end <= |s| && r.value.text != []
  {
    var k := SkipBlanks(s, p);
    var w := SkipWord(s, k);
    var l := SkipBlanks(s, w);
    if k == p || w == k || l == |s| || s[l] != '(' then None
    else
      match FindChar(s, ')', l + 1)
      case None => None
      case Some(q) =>
        var m := SkipBlanks(s, q + 1);
        if q < e && m < |s| && s[m] == '{' then Some(Hit(m + 1, s[k..w])) else None
  }

  /** The lazy `.*?` after the modifier. */
  function FirstSignature(s: string, p: nat, e: nat): (r: Option<Hit>)
    requires e <= |s|
    ensures r.Some? ==> p < r.value.end <= |s| && r.value.text != []
    decreases e - p
  {
    if p >= e then None
    else
      match SignatureAt(s, p, e)
      case Some(h) => Some(h)
      case None => FirstSignature(s, p + 1, e)
  }

  /** `(public|private|protected).*?\s+(\w+)\s*\([^)]*\)\s*{`. */
  function JavaMethodAt(s: string, i: nat): (r: Option<Hit>)
    ensures r.Some? ==> i < r.value.end <= |s| && r.value.text != []
  {
    var kw :=
      if OccursAt(s, "public", i) then Some(i + 6)
      else if OccursAt(s, "private", i) then Some(i + 7)
      else if OccursAt(s, "protected", i) then Some(i + 9)
      else None;
    match kw
    case None => None
    case Some(p) => FirstSignature(s, p, EndOfLine(s, i))
  }

  /** `(public\s+)?class\s+(\w+)`: the optional modifier is tried first. */
  function JavaClassAt(s: string, i: nat): (r: Option<Hit>)
    ensures r.Some? ==> i < r.value.end <= |s| && r.value.text != []
  {
    var withModifier :=
      if OccursAt(s, "public", i) then
        var k := SkipBlanks(s, i + 6);
        if k == i + 6 then None else ClassKeywordAt(s, k)
      else None;
    match withModifier
    case Some(h) => Some(h)
    case None => ClassKeywordAt(s, i)
  }

  /** `import\s+([^;]+);` -- the parser keeps the captured text stripped. */
  function JavaImportAt(s: string, i: nat): (r: Option<Hit>)
    ensures r.Some? ==> i < r.value.end <= |s|
  {
    if !OccursAt(s, "import", i) || i + 6 == |s| || !IsBlank(s[i + 6]) then None
    else
      match FindChar(s, ';', i + 7)
      case None => None
      case Some(c) => if i + 8 <= c < EndOfLine(s, i) then Some(Hit(c + 1, Strip(s[i + 6..c]))) else None
  }

  // ---------------------------------------------------------------------
  // Comments

  /** `#\s*(.+)`: the rest of the line, stripped. */
  function HashCommentAt(s: string, i: nat): (r: Option<Hit>)
    ensures r.Some? ==> i < r.value.end <= |s|
  {
    if i >= |s| || s[i] != '#' then None
    else
      var e := EndOfLine(s, i);
      if i + 1 < e then Some(Hit(e, Strip(s[i + 1..e]))) else None
  }

  /** `//\s*(.+)`: the rest of the line, stripped. */
  function SlashCommentAt(s: string, i: nat): (r: Option<Hit>)
    ensures r.Some? ==> i < r.value.end <= |s|
  {
    if !OccursAt(s, "//", i) then None
    else
      var e := EndOfLine(s, i);
      if i + 2 < e then Some(Hit(e, Strip(s[i + 2..e]))) else None
  }

  /**
   * `/\*\s*(.+?)\s*\*\/` across lines: the body runs from the end of the
   * leading whitespace to the first `*\/` that leaves it at least one
   * character.  Only when no such `*\/` exists does the leading `\s*` give a
   * character back, which leaves a blank body.
   */
  function BlockCommentAt(s: string, i: nat): (r: Option<Hit>)
    ensures r.Some? ==> i < r.value.end <= |s|
  {
    if !OccursAt(s, "/*", i) then None
    else
      var k := SkipSpaces(s, i + 2);
      match FindFrom(s, "*/", k + 1)
      case Some(c) => Some(Hit(c + 2, CleanBlock(s[k..c])))
      case None => if k > i + 2 && OccursAt(s, "*/", k) then Some(Hit(k + 2, "")) else None
  }

  // ---------------------------------------------------------------------
  // Dispatch

  /** Whether `p` matches `s` at `i`, and how. */
  function MatchAt(p: Pattern, s: string, i: nat): (r: Option<Hit>)
    requires i <= |s|
    ensures r.Some? ==> i < r.value.end <= |s|
  {
    match p
    case PythonDef => PythonDefAt(s, i)
    case PythonClass => PythonClassAt(s, i)
    case PythonImport => PythonImportAt(s, i)
    case JsFunction => JsFunctionAt(s, i)
    case JsClass => ClassKeywordAt(s, i)
    case JsImport => JsImportAt(s, i)
    case JavaMethod => JavaMethodAt(s, i)
    case JavaClass => JavaClassAt(s, i)
    case JavaImport => JavaImportAt(s, i)
    case HashComment => HashCommentAt(s, i)
    case SlashComment => SlashCommentAt(s, i)
    case BlockComment => BlockCommentAt(s, i)
  }

  /** The patterns that capture an identifier. */
  predicate CapturesName(p: Pattern) {
    p.PythonDef? || p.PythonClass? || p.JsFunction? || p.JsClass? || p.JavaMethod? || p.JavaClass?
  }

  /** A name-capturing pattern always captures a non-empty name. */
  lemma NamedHits(p: Pattern, s: string, i: nat)
    requires i <= |s| && CapturesName(p) && MatchAt(p, s, i).Some?
    ensures MatchAt(p, s, i).value.text != []
  {
  }
}
