/**
 * The prompts for full-repository document generation: a compacted view of
 * the file summaries, one system prompt per prompt version, and one task
 * prompt per document section.
 */
module DocumentPrompts {
  import opened Wrappers
  import opened Text
  import opened Records

  /** At most this many files are described to the LLM. */
  const MaxFiles := 40

  /** A file's purpose is cut to this many characters. */
  const MaxPurpose := 90

  const PromptVersions: seq<string> := ["v1", "v2", "v3", "v4"]

  const DefaultVersion := "v4"

  // ---------------------------------------------------------------------
  // Compact data

  /** One file as the prompt's JSON data shows it, under the abbreviated keys `p, l, pu, fn, cl, r`. */
  datatype CompactFile = CompactFile(p: string, l: string, pu: string, fn: nat, cl: nat, r: Option<string>)

  /** Files in non-decreasing path order, as `str` comparison orders them. */
  predicate PathSorted(s: seq<FileSummary>) {
    forall i, j :: 0 <= i < j < |s| ==> !LexLess(s[j].filePath, s[i].filePath)
  }

  /** Puts `f` after every file whose path is not greater than its own. */
  function InsertByPath(f: FileSummary, s: seq<FileSummary>): seq<FileSummary>
    decreases |s|
  {
    if s == [] then [f]
    else if LexLess(f.filePath, s[0].filePath) then [f] + s
    else [s[0]] + InsertByPath(f, s[1..])
  }

  /** Inserting adds exactly `f`. */
  lemma {:induction false} InsertByPathPermutes(f: FileSummary, s: seq<FileSummary>)
    ensures multiset(InsertByPath(f, s)) == multiset(s) + multiset{f}
    decreases |s|
  {
    if s != [] && !LexLess(f.filePath, s[0].filePath) {
      InsertByPathPermutes(f, s[1..]);
      assert s == [s[0]] + s[1..];
    }
  }

  /** A file before a sorted sequence whose head it precedes keeps it sorted. */
  lemma SortedCons(f: FileSummary, s: seq<FileSummary>)
    requires PathSorted(s) && s != [] && LexLess(f.filePath, s[0].filePath)
    ensures PathSorted([f] + s)
  {
    var r := [f] + s;
    forall i, j | 0 <= i < j < |r|
      ensures !LexLess(r[j].filePath, r[i].filePath)
    {
      if i == 0 && LexLess(r[j].filePath, f.filePath) {
        LexLessTransitive(r[j].filePath, f.filePath, s[0].filePath);
        if j == 1 {
          LexLessIrreflexive(s[0].filePath);
        }
      }
    }
  }

  /** A file before a sorted sequence of files none of which is less than it keeps it sorted. */
  lemma SortedConsAll(g: FileSummary, t: seq<FileSummary>)
    requires PathSorted(t)
    requires forall k :: 0 <= k < |t| ==> !LexLess(t[k].filePath, g.filePath)
    ensures PathSorted([g] + t)
  {
    var r := [g] + t;
    forall i, j | 0 <= i < j < |r|
      ensures !LexLess(r[j].filePath, r[i].filePath)
    {
      if i > 0 {
        assert r[i] == t[i - 1] && r[j] == t[j - 1];
      } else {
        assert r[j] == t[j - 1];
      }
    }
  }

  lemma {:induction false} InsertByPathSorted(f: FileSummary, s: seq<FileSummary>)
    requires PathSorted(s)
    ensures PathSorted(InsertByPath(f, s))
    decreases |s|
  {
    if s == [] {
    } else if LexLess(f.filePath, s[0].filePath) {
      SortedCons(f, s);
    } else {
      InsertByPathSorted(f, s[1..]);
      InsertByPathPermutes(f, s[1..]);
      var t := InsertByPath(f, s[1..]);
      forall k | 0 <= k < |t|
        ensures !LexLess(t[k].filePath, s[0].filePath)
      {
        assert t[k] in multiset(t);
        if t[k] != f {
          assert t[k] in multiset(s[1..]);
          var m :| 0 <= m < |s[1..]| && s[1..][m] == t[k];
          assert s[m + 1] == t[k];
        }
      }
      SortedConsAll(s[0], t);
    }
  }

  /** `sorted(files, key=file_path)`: a stable insertion of each file in turn. */
  function SortByPath(fs: seq<FileSummary>): seq<FileSummary>
    decreases |fs|
  {
    if fs == [] then [] else InsertByPath(fs[|fs| - 1], SortByPath(fs[..|fs| - 1]))
  }

  /** The sorted files are the same files, in path order. */
  lemma {:induction false} SortByPathFacts(fs: seq<FileSummary>)
    ensures PathSorted(SortByPath(fs))
    ensures multiset(SortByPath(fs)) == multiset(fs)
    decreases |fs|
  {
    if fs != [] {
      var p := fs[..|fs| - 1];
      SortByPathFacts(p);
      InsertByPathSorted(fs[|fs| - 1], SortByPath(p));
      InsertByPathPermutes(fs[|fs| - 1], SortByPath(p));
      assert fs == p + [fs[|fs| - 1]];
    }
  }

  /** One file's compact entry: its purpose, or `""` when it has none, cut to 90 characters. */
  function Compact(f: FileSummary): CompactFile {
    CompactFile(f.filePath, f.language, Take(f.purpose.GetOr(""), MaxPurpose), f.functionsCount, f.classesCount, f.role)
  }

  /** `_compact_files`: the first 40 files in path order, compacted. */
  function CompactFiles(fs: seq<FileSummary>): seq<CompactFile> {
    var kept := Take(SortByPath(fs), MaxFiles);
    seq(|kept|, i requires 0 <= i < |kept| => Compact(kept[i]))
  }

  /** The data's `i`-th entry is the `i`-th file in path order. */
  lemma CompactAt(fs: seq<FileSummary>, i: nat)
    requires i < |CompactFiles(fs)|
    ensures i < |SortByPath(fs)| && CompactFiles(fs)[i] == Compact(SortByPath(fs)[i])
  {
  }

  /**
   * The compact data describes at most 40 files, all of them when there are
   * no more, in path order, each with a purpose of at most 90 characters and
   * each taken from one of the given files.
   */
  lemma CompactFilesFacts(fs: seq<FileSummary>)
    ensures var r := CompactFiles(fs);
      && |r| == (if |fs| <= MaxFiles then |fs| else MaxFiles)
      && (forall i, j :: 0 <= i < j < |r| ==> !LexLess(r[j].p, r[i].p))
      && (forall i :: 0 <= i < |r| ==> |r[i].pu| <= MaxPurpose)
      && (forall c :: c in r ==> exists f :: f in fs && c == Compact(f))
  {
    SortByPathFacts(fs);
    var s := SortByPath(fs);
    assert |s| == |multiset(s)| == |multiset(fs)| == |fs|;
    var r := CompactFiles(fs);
    forall i, j | 0 <= i < j < |r|
      ensures !LexLess(r[j].p, r[i].p)
    {
      CompactAt(fs, i);
      CompactAt(fs, j);
    }
    forall i | 0 <= i < |r|
      ensures |r[i].pu| <= MaxPurpose
    {
      CompactAt(fs, i);
    }
    forall c | c in r
      ensures exists f :: f in fs && c == Compact(f)
    {
      var i :| 0 <= i < |r| && r[i] == c;
      CompactAt(fs, i);
      assert s[i] in multiset(s);
      assert s[i] in fs && c == Compact(s[i]);
    }
  }

  /** With at most 40 files, every file appears in the data. */
  lemma CompactFilesKeepsAll(fs: seq<FileSummary>, f: FileSummary)
    requires |fs| <= MaxFiles && f in fs
    ensures exists i :: 0 <= i < |CompactFiles(fs)| && CompactFiles(fs)[i] == Compact(f)
  {
    SortByPathFacts(fs);
    var s := SortByPath(fs);
    assert |s| == |multiset(s)| == |multiset(fs)| == |fs|;
    assert f in multiset(s);
    var i :| 0 <= i < |s| && s[i] == f;
    assert CompactFiles(fs)[i] == Compact(f);
  }

  // ---------------------------------------------------------------------
  // Prompt text

  /**
   * The fixed passages of prompt wording: the shared guardrails, the
   * document rules, and each section's template.  They are named here, not
   * spelled out.
   */
  datatype Passage = Guardrails | DocumentRules | OverviewTemplate | ArchitectureTemplate | ModulesTemplate

  /** A stretch of prompt text: computed text, or a fixed passage. */
  datatype Piece = Literal(text: string) | Fixed(passage: Passage)

  /** A prompt: its stretches, concatenated in order. */
  type Prompt = seq<Piece>

  // ---------------------------------------------------------------------
  // System prompt

  /** The version actually used: a known version, or the default. */
  function NormalizeVersion(v: string): (r: string)
    ensures r in PromptVersions
    ensures v in PromptVersions ==> r == v
    ensures v !in PromptVersions ==> r == DefaultVersion
  {
    if v in PromptVersions then v else DefaultVersion
  }

  /** What each version adds to the guardrails. */
  const SystemVariants: map<string, string> := map[
    "v1" := "목표: 기본 구조 유지, 적당한 설명 허용.",
    "v2" := "목표: 엄격한 간결성 (각 문단 최대 3문장, 리스트 항목 최대 6개).",
    "v3" := "목표: 초압축 (각 문장 40자 이하 권장, 리스트 항목 최대 4개).",
    "v4" := "목표: 간결하고 구조화된 출력. JSON 메타데이터나 부가 설명 없이 순수 Markdown만 생성."]

  /** The first line of a system prompt, naming its version. */
  function VersionHeader(v: string): string {
    "[SYSTEM version=" + v + "]\n"
  }

  /**
   * `build_system_prompt`: the header of the version in force, the
   * guardrails, the version's goal and the document rules.
   */
  function SystemPrompt(version: string): (r: Prompt)
    ensures |r| == 4
  {
    var v := NormalizeVersion(version);
    [Literal(VersionHeader(v)), Fixed(Guardrails), Literal(SystemVariants[v] + "\n"), Fixed(DocumentRules)]
  }

  /** The header names the version in force; an unknown version is the default one. */
  lemma SystemPromptHeader(version: string)
    ensures SystemPrompt(version)[0] == Literal(VersionHeader(NormalizeVersion(version)))
    ensures version !in PromptVersions ==> SystemPrompt(version) == SystemPrompt(DefaultVersion)
  {
  }

  /** Distinct known versions give distinct system prompts. */
  lemma SystemPromptsDiffer(v: string, w: string)
    requires v in PromptVersions && w in PromptVersions && v != w
    ensures SystemPrompt(v) != SystemPrompt(w)
  {
    var k := |"[SYSTEM version="| + 1;
    assert VersionHeader(v)[k] == v[1] && VersionHeader(w)[k] == w[1];
    assert SystemPrompt(v)[0].text != SystemPrompt(w)[0].text;
  }

  // ---------------------------------------------------------------------
  // Section prompts

  /** The three sections of a full-repository document. */
  datatype Section = Overview | Architecture | Modules {
    /** The key the prompt set and the document builder use. */
    function Key(): string {
      match this
      case Overview => "overview"
      case Architecture => "architecture"
      case Modules => "modules"
    }

    /** The section's template. */
    function Template(): Passage {
      match this
      case Overview => OverviewTemplate
      case Architecture => ArchitectureTemplate
      case Modules => ModulesTemplate
    }
  }

  /** The tag line of a section's task prompt; only the overview names the repository. */
  function TagLine(s: Section, repo: string): string {
    match s
    case Overview => "[OVERVIEW] 프로젝트: " + repo + "\n"
    case Architecture => "[ARCHITECTURE]\n"
    case Modules => "[MODULES]\n"
  }

  /** The closing line of every task prompt. */
  function DataLine(dataJson: string): string {
    "데이터:" + dataJson + "\n"
  }

  /** A section's task prompt: its tag line, its template, then the JSON data. */
  function TaskPrompt(s: Section, repo: string, dataJson: string): (r: Prompt)
    ensures |r| == 3
  {
    [Literal(TagLine(s, repo)), Fixed(s.Template()), Literal(DataLine(dataJson))]
  }

  /**
   * The (system, human) prompt pair a section builder yields: every section
   * shares the version's system prompt, and its task prompt carries the JSON
   * of the compacted files (`dumps` stands for `json.dumps`).
   */
  function SectionPrompt(version: string, s: Section, files: seq<FileSummary>, repo: string,
                         dumps: seq<CompactFile> -> string): (Prompt, Prompt)
  {
    (SystemPrompt(version), TaskPrompt(s, repo, dumps(CompactFiles(files))))
  }

  /** `get_prompt_set`: the section of each key. */
  function PromptSet(): (r: map<string, Section>)
    ensures r.Keys == {"overview", "architecture", "modules"}
    ensures forall k :: k in r ==> r[k].Key() == k
  {
    map[Overview.Key() := Overview, Architecture.Key() := Architecture, Modules.Key() := Modules]
  }

  /**
   * A task prompt ends with its data, the overview's starts by naming the
   * repository, and different sections use different templates.
   */
  lemma TaskPromptShape(s: Section, t: Section, repo: string, dataJson: string)
    ensures TaskPrompt(s, repo, dataJson)[2] == Literal(DataLine(dataJson))
    ensures s == Overview ==> TaskPrompt(s, repo, dataJson)[0] == Literal("[OVERVIEW] 프로젝트: " + repo + "\n")
    ensures s != t ==> TaskPrompt(s, repo, dataJson)[1] != TaskPrompt(t, repo, dataJson)[1]
  {
  }
}
