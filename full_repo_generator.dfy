/**
 * The full-repository document generator: from the summaries of every file
 * it builds either a mock document (statistics, languages, key modules) or a
 * three-section document whose sections an LLM writes.
 */
module FullRepoGenerator {
  import opened Wrappers
  import opened Text
  import opened Records
  import opened Collections
  import opened PipelineState
  import opened DocumentPrompts
  import RepositoryAnalyzer

  const TitleSuffix := " - Project Documentation"

  const UnknownProject := "Unknown Project"

  const EmptySummaries := "file_summaries is empty"

  const SavingDocument := "saving_document"

  /** A generated document. */
  datatype Document = Document(title: string, content: string, summary: string)

  // ---------------------------------------------------------------------
  // Mock builder: statistics

  /** The sum of one count over the summaries. */
  function SumOf(fs: seq<FileSummary>, count: FileSummary -> int): int
    decreases |fs|
  {
    if fs == [] then 0 else SumOf(fs[..|fs| - 1], count) + count(fs[|fs| - 1])
  }

  /** Totals over a concatenation add up. */
  lemma {:induction false} SumOfAppend(a: seq<FileSummary>, b: seq<FileSummary>, count: FileSummary -> int)
    ensures SumOf(a + b, count) == SumOf(a, count) + SumOf(b, count)
    decreases |b|
  {
    if b == [] {
      assert a + b == a;
    } else {
      var p := b[..|b| - 1];
      SumOfAppend(a, p, count);
      assert (a + b)[..|a + b| - 1] == a + p;
    }
  }

  function FunctionsOf(f: FileSummary): int { f.functionsCount }

  function ClassesOf(f: FileSummary): int { f.classesCount }

  function LocOf(f: FileSummary): int { f.loc }

  /** `_collect_stats` without the languages. */
  datatype Stats = Stats(totalFiles: nat, totalFunctions: int, totalClasses: int, totalLoc: int)

  function StatsOf(fs: seq<FileSummary>): Stats {
    Stats(|fs|, SumOf(fs, FunctionsOf), SumOf(fs, ClassesOf), SumOf(fs, LocOf))
  }

  /** Function and class totals are never below any one file's count. */
  lemma {:induction false} StatsBound(fs: seq<FileSummary>, i: nat)
    requires i < |fs|
    ensures fs[i].functionsCount <= StatsOf(fs).totalFunctions
    ensures fs[i].classesCount <= StatsOf(fs).totalClasses
    decreases |fs|
  {
    var p := fs[..|fs| - 1];
    SumsNonNegative(p);
    if i < |fs| - 1 {
      StatsBound(p, i);
    }
  }

  lemma {:induction false} SumsNonNegative(fs: seq<FileSummary>)
    ensures SumOf(fs, FunctionsOf) >= 0 && SumOf(fs, ClassesOf) >= 0
    decreases |fs|
  {
    if fs != [] {
      SumsNonNegative(fs[..|fs| - 1]);
    }
  }

  // ---------------------------------------------------------------------
  // Mock builder: languages

  /** Each summary's language, in order. */
  function LanguagesOf(fs: seq<FileSummary>): (r: seq<string>)
    ensures |r| == |fs| && forall i :: 0 <= i < |fs| ==> r[i] == fs[i].language
  {
    seq(|fs|, i requires 0 <= i < |fs| => fs[i].language)
  }

  /** The distinct values in order of first appearance: a dictionary's key order. */
  function FirstSeen(ls: seq<string>): seq<string>
    decreases |ls|
  {
    if ls == [] then []
    else
      var d := FirstSeen(ls[..|ls| - 1]);
      if ls[|ls| - 1] in d then d else d + [ls[|ls| - 1]]
  }

  /** The language dictionary built by counting each occurrence in turn. */
  function CountsOf(ls: seq<string>): map<string, nat>
    decreases |ls|
  {
    if ls == [] then map[]
    else
      var m := CountsOf(ls[..|ls| - 1]);
      var x := ls[|ls| - 1];
      m[x := (if x in m then m[x] else 0) + 1]
  }

  /** The key order holds every language once. */
  lemma {:induction false} FirstSeenFacts(ls: seq<string>)
    ensures Distinct(FirstSeen(ls))
    ensures forall l :: l in FirstSeen(ls) <==> l in ls
    decreases |ls|
  {
    if ls != [] {
      var p := ls[..|ls| - 1];
      FirstSeenFacts(p);
      assert ls == p + [ls[|ls| - 1]];
    }
  }

  /** Every language is a key, counted as often as it occurs. */
  lemma {:induction false} CountsOfFacts(ls: seq<string>)
    ensures forall l :: l in CountsOf(ls) <==> l in ls
    ensures forall l :: l in CountsOf(ls) ==> CountsOf(ls)[l] == multiset(ls)[l]
    decreases |ls|
  {
    if ls != [] {
      var p := ls[..|ls| - 1];
      CountsOfFacts(p);
      assert ls == p + [ls[|ls| - 1]];
    }
  }

  /** The sum of the counts of `keys`. */
  function SumCounts(keys: seq<string>, m: map<string, nat>): int
    decreases |keys|
  {
    if keys == [] then 0
    else SumCounts(keys[..|keys| - 1], m) + (if keys[|keys| - 1] in m then m[keys[|keys| - 1]] else 0)
  }

  lemma {:induction false} SumCountsOther(keys: seq<string>, m: map<string, nat>, x: string, v: nat)
    requires x !in keys
    ensures SumCounts(keys, m[x := v]) == SumCounts(keys, m)
    decreases |keys|
  {
    if keys != [] {
      SumCountsOther(keys[..|keys| - 1], m, x, v);
    }
  }

  lemma {:induction false} SumCountsBump(keys: seq<string>, m: map<string, nat>, x: string)
    requires Distinct(keys) && x in keys && x in m
    ensures SumCounts(keys, m[x := m[x] + 1]) == SumCounts(keys, m) + 1
    decreases |keys|
  {
    var p := keys[..|keys| - 1];
    if keys[|keys| - 1] == x {
      assert x !in p;
      SumCountsOther(p, m, x, m[x] + 1);
    } else {
      SumCountsBump(p, m, x);
    }
  }

  /** The language counts add up to the number of files. */
  lemma {:induction false} CountsSumToTotal(ls: seq<string>)
    ensures SumCounts(FirstSeen(ls), CountsOf(ls)) == |ls|
    decreases |ls|
  {
    if ls != [] {
      var p := ls[..|ls| - 1];
      var x := ls[|ls| - 1];
      CountsSumToTotal(p);
      FirstSeenFacts(p);
      CountsOfFacts(p);
      var m := CountsOf(p);
      if x in FirstSeen(p) {
        SumCountsBump(FirstSeen(p), m, x);
      } else {
        SumCountsOther(FirstSeen(p), m, x, 1);
        assert (FirstSeen(p) + [x])[..|FirstSeen(p)|] == FirstSeen(p);
      }
    }
  }

  /** `_collect_languages`: the dictionary's keys in insertion order, and its counts. */
  method CollectLanguages(fs: seq<FileSummary>) returns (order: seq<string>, counts: map<string, nat>)
    ensures order == FirstSeen(LanguagesOf(fs))
    ensures counts == CountsOf(LanguagesOf(fs))
  {
    var ls := LanguagesOf(fs);
    order := [];
    counts := map[];
    for i := 0 to |fs|
      invariant order == FirstSeen(ls[..i])
      invariant counts == CountsOf(ls[..i])
      invariant forall l :: l in counts <==> l in order
    {
      var lang := fs[i].language;
      assert ls[..i + 1][..i] == ls[..i] && ls[..i + 1][i] == lang;
      if lang in counts {
        counts := counts[lang := counts[lang] + 1];
      } else {
        order := order + [lang];
        counts := counts[lang := 1];
      }
    }
    assert ls[..|fs|] == ls;
  }

  /**
   * `max(langs, key=langs.get)`: the key with the largest count, the first
   * such key in order when several tie.
   */
  function MaxByCount(order: seq<string>, counts: map<string, nat>): (r: string)
    requires order != [] && forall k :: 0 <= k < |order| ==> order[k] in counts
    ensures r in order && r in counts
    ensures forall k :: 0 <= k < |order| ==> counts[order[k]] <= counts[r]
    ensures exists k :: 0 <= k < |order| && order[k] == r && forall j :: 0 <= j < k ==> counts[order[j]] < counts[r]
    decreases |order|
  {
    if |order| == 1 then order[0]
    else
      var best := MaxByCount(order[..|order| - 1], counts);
      var last := order[|order| - 1];
      if counts[last] > counts[best] then last else best
  }

  // ---------------------------------------------------------------------
  // Mock builder: key modules

  datatype ModuleKind = EntryPoint | BusinessLogic | DataModel {
    function Name(): string {
      match this
      case EntryPoint => "Entry Point"
      case BusinessLogic => "Business Logic"
      case DataModel => "Data Model"
    }
  }

  const EntryMarkers: seq<string> := ["main", "app", "server", "index"]

  const LogicMarkers: seq<string> := ["service", "controller", "handler"]

  const ModelMarkers: seq<string> := ["model", "entity", "schema"]

  /** The kind of a path, decided on its lower-cased text, entry points first. */
  function KindOf(path: string): Option<ModuleKind> {
    var p := Lower(path);
    if RepositoryAnalyzer.ContainsAny(p, EntryMarkers) then Some(EntryPoint)
    else if RepositoryAnalyzer.ContainsAny(p, LogicMarkers) then Some(BusinessLogic)
    else if RepositoryAnalyzer.ContainsAny(p, ModelMarkers) then Some(DataModel)
    else None
  }

  /**
   * The markers are plain substrings of the whole path, so a directory name
   * decides: `app` wins over `service`, and `domain` holds `main`.
   */
  lemma KindOfWholePath()
    ensures KindOf("app/user_service.py") == Some(EntryPoint)
    ensures KindOf("domain/user/model.py") == Some(EntryPoint)
  {
    var p := Lower("app/user_service.py");
    assert p[0] == 'a' && p[1] == 'p' && p[2] == 'p';
    assert p[0..3] == EntryMarkers[1];
    assert OccursAt(p, EntryMarkers[1], 0);
    var q := Lower("domain/user/model.py");
    assert q[2] == 'm' && q[3] == 'a' && q[4] == 'i' && q[5] == 'n';
    assert q[2..6] == EntryMarkers[0];
    assert OccursAt(q, EntryMarkers[0], 2);
  }

  /** A module entry: the file's stem, its kind, and its purpose as the description. */
  datatype KeyModule = KeyModule(name: string, kind: ModuleKind, description: string)

  /** The entry one summary contributes: none when its path has no marker. */
  function Candidate(f: FileSummary): Option<KeyModule> {
    match KindOf(f.filePath)
    case None => None
    case Some(k) => Some(KeyModule(RepositoryAnalyzer.Stem(f.filePath), k, f.purpose.GetOr("")))
  }

  /** Each summary's candidate entry. */
  function Candidates(fs: seq<FileSummary>): (r: seq<Option<KeyModule>>)
    ensures |r| == |fs| && forall i :: 0 <= i < |fs| ==> r[i] == Candidate(fs[i])
  {
    seq(|fs|, i requires 0 <= i < |fs| => Candidate(fs[i]))
  }

  /** The present values, in order. */
  function Present<T>(cs: seq<Option<T>>): seq<T>
    decreases |cs|
  {
    if cs == [] then []
    else
      var rest := Present(cs[..|cs| - 1]);
      match cs[|cs| - 1]
      case None => rest
      case Some(m) => rest + [m]
  }

  /** The entries of every summary, in order, before the cut to eight. */
  function AllKeyModules(fs: seq<FileSummary>): seq<KeyModule> {
    Present(Candidates(fs))
  }

  const MaxKeyModules := 8

  /** `_extract_key_modules`. */
  function KeyModules(fs: seq<FileSummary>): seq<KeyModule> {
    Take(AllKeyModules(fs), MaxKeyModules)
  }

  /** Exactly the present values, each from its own position. */
  lemma {:induction false} PresentFacts<T>(cs: seq<Option<T>>)
    ensures |Present(cs)| <= |cs|
    ensures forall m :: m in Present(cs) <==> Some(m) in cs
    decreases |cs|
  {
    if cs != [] {
      var n := |cs| - 1;
      PresentFacts(cs[..n]);
      assert cs == cs[..n] + [cs[n]];
    }
  }

  /**
   * One entry per file with a marker and none for the others: every entry is
   * the entry of one of the files, and every file with a marker has its entry.
   */
  lemma AllKeyModulesFacts(fs: seq<FileSummary>)
    ensures |AllKeyModules(fs)| <= |fs|
    ensures forall m :: m in AllKeyModules(fs) ==> exists i :: 0 <= i < |fs| && Candidate(fs[i]) == Some(m)
    ensures forall i :: 0 <= i < |fs| && KindOf(fs[i].filePath).Some? ==> Candidate(fs[i]).value in AllKeyModules(fs)
  {
    var cs := Candidates(fs);
    PresentFacts(cs);
    forall m | m in AllKeyModules(fs)
      ensures exists i :: 0 <= i < |fs| && Candidate(fs[i]) == Some(m)
    {
      var i :| 0 <= i < |cs| && cs[i] == Some(m);
    }
    forall i | 0 <= i < |fs| && KindOf(fs[i].filePath).Some?
      ensures Candidate(fs[i]).value in AllKeyModules(fs)
    {
      assert cs[i] == Candidate(fs[i]);
    }
  }

  /** An entry names its file's stem and carries the kind of its path. */
  lemma CandidateShape(f: FileSummary)
    ensures Candidate(f).Some? <==> KindOf(f.filePath).Some?
    ensures Candidate(f).Some? ==>
      Candidate(f).value.kind == KindOf(f.filePath).value
      && Candidate(f).value.name + RepositoryAnalyzer.Suffix(f.filePath) == RepositoryAnalyzer.BaseName(f.filePath)
  {
  }

  /** At most eight entries, the first ones in file order. */
  lemma KeyModulesFacts(fs: seq<FileSummary>)
    ensures |KeyModules(fs)| <= MaxKeyModules && |KeyModules(fs)| <= |fs|
    ensures KeyModules(fs) <= AllKeyModules(fs)
    ensures |AllKeyModules(fs)| <= MaxKeyModules ==> KeyModules(fs) == AllKeyModules(fs)
  {
    PresentFacts(Candidates(fs));
  }

  /** The loop of `_extract_key_modules`, then the cut to eight. */
  method ExtractKeyModules(fs: seq<FileSummary>) returns (r: seq<KeyModule>)
    ensures r == KeyModules(fs)
  {
    var cs := Candidates(fs);
    r := [];
    for i := 0 to |fs|
      invariant r == Present(cs[..i])
    {
      assert cs[..i + 1][..i] == cs[..i];
      var k := KindOf(fs[i].filePath);
      if k.Some? {
        r := r + [KeyModule(RepositoryAnalyzer.Stem(fs[i].filePath), k.value, fs[i].purpose.GetOr(""))];
      }
    }
    assert cs[..|fs|] == cs;
    r := Take(r, MaxKeyModules);
  }

  // ---------------------------------------------------------------------
  // Mock builder: rendering

  function ModuleLine(m: KeyModule): string {
    "- " + m.name + " (" + m.kind.Name() + ")"
  }

  function ModuleLines(ms: seq<KeyModule>): seq<string> {
    seq(|ms|, i requires 0 <= i < |ms| => ModuleLine(ms[i]))
  }

  /** `_render`. */
  function MockContent(name: string, st: Stats, languages: seq<string>, primary: string, modules: seq<KeyModule>): string {
    "\n# " + name + TitleSuffix + "\n\n"
    + "## Project Overview\n"
    + "- Total Files: " + IntToString(st.totalFiles) + "\n"
    + "- Functions: " + IntToString(st.totalFunctions) + "\n"
    + "- Classes: " + IntToString(st.totalClasses) + "\n"
    + "- LOC: " + IntToString(st.totalLoc) + "\n"
    + "- Languages: " + Join(languages, ", ") + "\n"
    + "- Primary Language: " + primary + "\n\n"
    + "## Key Modules\n"
    + Join(ModuleLines(modules), "\n")
    + "\n\n---\n*Generated by Mock Document Builder*\n"
  }

  /** `_summary`. */
  function MockSummary(name: string, st: Stats): string {
    name + " 프로젝트 문서 - " + IntToString(st.totalFiles) + "개 파일, "
    + IntToString(st.totalFunctions) + "개 함수, " + IntToString(st.totalClasses) + "개 클래스"
  }

  /** The most used language, as `_render` picks it from the language dictionary. */
  function PrimaryLanguage(fs: seq<FileSummary>): string
    requires fs != []
  {
    var ls := LanguagesOf(fs);
    FirstSeenFacts(ls);
    CountsOfFacts(ls);
    assert ls[0] in FirstSeen(ls);
    MaxByCount(FirstSeen(ls), CountsOf(ls))
  }

  /** The mock document `FullRepoMockBuilder.build` returns for non-empty summaries. */
  function MockDocument(fs: seq<FileSummary>, name: string): Document
    requires fs != []
  {
    var st := StatsOf(fs);
    Document(name + TitleSuffix,
             MockContent(name, st, FirstSeen(LanguagesOf(fs)), PrimaryLanguage(fs), KeyModules(fs)),
             MockSummary(name, st))
  }

  /**
   * The mock document's primary language is one of the files' languages and
   * no language is used by more files.
   */
  lemma PrimaryLanguageIsMostUsed(fs: seq<FileSummary>, l: string)
    requires fs != [] && l in LanguagesOf(fs)
    ensures PrimaryLanguage(fs) in LanguagesOf(fs)
    ensures multiset(LanguagesOf(fs))[l] <= multiset(LanguagesOf(fs))[PrimaryLanguage(fs)]
  {
    var ls := LanguagesOf(fs);
    FirstSeenFacts(ls);
    CountsOfFacts(ls);
    var k :| 0 <= k < |FirstSeen(ls)| && FirstSeen(ls)[k] == l;
  }

  /** `FullRepoMockBuilder.build`, running the counting and extraction loops. */
  method BuildMockDocument(fs: seq<FileSummary>, name: string) returns (doc: Document)
    requires fs != []
    ensures doc == MockDocument(fs, name)
  {
    var order, counts := CollectLanguages(fs);
    var modules := ExtractKeyModules(fs);
    FirstSeenFacts(LanguagesOf(fs));
    CountsOfFacts(LanguagesOf(fs));
    assert LanguagesOf(fs)[0] in order;
    var primary := MaxByCount(order, counts);
    var st := StatsOf(fs);
    doc := Document(name + TitleSuffix,
                    MockContent(name, st, order, primary, modules),
                    MockSummary(name, st));
  }

  // ---------------------------------------------------------------------
  // Document builder

  /** A section's part of the document: its heading and text, or nothing when it was never added. */
  function SectionPart(sections: map<Section, string>, key: Section, heading: string): string {
    if key in sections then heading + sections[key] + "\n\n" else ""
  }

  /** The content `FullRepoDocumentBuilder.build` assembles: the title, then overview, architecture and modules. */
  function AssembledContent(repo: string, sections: map<Section, string>): string {
    "# " + repo + TitleSuffix + "\n\n"
    + SectionPart(sections, Overview, "## Project Overview\n")
    + SectionPart(sections, Architecture, "## Architecture\n")
    + SectionPart(sections, Modules, "## Key Modules\n")
  }

  /** The summary `FullRepoDocumentBuilder.build` returns. */
  function BuilderSummary(repo: string, fileCount: nat): string {
    repo + " 프로젝트 문서 - 총 " + IntToString(fileCount) + "개 파일 요약 포함"
  }

  lemma PartsContained(a: string, b: string, c: string, d: string)
    ensures Contains(a + b + c + d, b) && Contains(a + b + c + d, c) && Contains(a + b + c + d, d)
  {
    ContainsSelf(b);
    ContainsSelf(c);
    ContainsSelf(d);
    ContainsInfix(a, b, c + d, b);
    ContainsInfix(a + b, c, d, c);
    ContainsInfix(a + b + c, d, "", d);
    assert a + b + (c + d) == a + b + c + d;
    assert a + b + c + d + "" == a + b + c + d;
  }

  /** Every added section appears in the document under its heading, and the title comes first. */
  lemma AssembledHasSections(repo: string, sections: map<Section, string>)
    ensures StartsWith(AssembledContent(repo, sections), "# " + repo + TitleSuffix + "\n\n")
    ensures Overview in sections ==>
      Contains(AssembledContent(repo, sections), "## Project Overview\n" + sections[Overview] + "\n\n")
    ensures Architecture in sections ==>
      Contains(AssembledContent(repo, sections), "## Architecture\n" + sections[Architecture] + "\n\n")
    ensures Modules in sections ==>
      Contains(AssembledContent(repo, sections), "## Key Modules\n" + sections[Modules] + "\n\n")
  {
    var head := "# " + repo + TitleSuffix + "\n\n";
    var o := SectionPart(sections, Overview, "## Project Overview\n");
    var a := SectionPart(sections, Architecture, "## Architecture\n");
    var m := SectionPart(sections, Modules, "## Key Modules\n");
    PartsContained(head, o, a, m);
    assert (head + o + a + m)[..|head|] == head;
  }

  /** With no section added the document is its title alone. */
  lemma AssembledEmpty(repo: string)
    ensures AssembledContent(repo, map[]) == "# " + repo + TitleSuffix + "\n\n"
  {
  }

  /** `FullRepoDocumentBuilder`: the sections added so far, by key. */
  class FullRepoDocumentBuilder {
    const repo: string
    var sections: map<Section, string>

    constructor(repoName: string)
      ensures repo == repoName && sections == map[]
    {
      repo := repoName;
      sections := map[];
    }

    /** Adds a section, replacing any earlier one with the same key. */
    method Add(key: Section, section: string)
      modifies this`sections
      ensures sections == old(sections)[key := section]
    {
      sections := sections[key := section];
    }

    /** Assembles the content and the summary; the builder is unchanged. */
    method Build(fileCount: nat) returns (content: string, summary: string)
      ensures content == AssembledContent(repo, sections)
      ensures summary == BuilderSummary(repo, fileCount)
    {
      content := "# " + repo + TitleSuffix + "\n\n";
      var part := "";
      if Overview in sections {
        part := "## Project Overview\n" + sections[Overview] + "\n\n";
      }
      content := content + part;
      part := "";
      if Architecture in sections {
        part := "## Architecture\n" + sections[Architecture] + "\n\n";
      }
      content := content + part;
      part := "";
      if Modules in sections {
        part := "## Key Modules\n" + sections[Modules] + "\n\n";
      }
      content := content + part;
      summary := repo + " 프로젝트 문서 - 총 " + IntToString(fileCount) + "개 파일 요약 포함";
    }
  }

  // ---------------------------------------------------------------------
  // Section generation

  /** A section's text: the stripped reply, or `""` when generating it raised. */
  function SectionText(r: Reply): string {
    match r
    case Answer(t) => Strip(t)
    case Failure(_) => ""
  }

  /** A section's reply: the LLM asked with the section's prompt pair. */
  function SectionReply(version: string, s: Section, fs: seq<FileSummary>, name: string,
                        ask: (Prompt, Prompt) -> Reply, dumps: seq<CompactFile> -> string): Reply
  {
    var prompts := SectionPrompt(version, s, fs, name, dumps);
    ask(prompts.0, prompts.1)
  }

  /** The three sections' replies. */
  function Replies(version: string, fs: seq<FileSummary>, name: string,
                   ask: (Prompt, Prompt) -> Reply, dumps: seq<CompactFile> -> string): (r: map<Section, Reply>)
    ensures Complete(r)
  {
    map[Overview := SectionReply(version, Overview, fs, name, ask, dumps),
        Architecture := SectionReply(version, Architecture, fs, name, ask, dumps),
        Modules := SectionReply(version, Modules, fs, name, ask, dumps)]
  }

  /** Every section has a reply. */
  predicate Complete<V>(m: map<Section, V>) {
    Overview in m && Architecture in m && Modules in m
  }

  /** The results once every section has finished. */
  function SectionTexts(replies: map<Section, Reply>): (r: map<Section, string>)
    requires Complete(replies)
  {
    map[Overview := SectionText(replies[Overview]),
        Architecture := SectionText(replies[Architecture]),
        Modules := SectionText(replies[Modules])]
  }

  /**
   * Collects the sections in the order they complete (the task order when
   * run sequentially); whatever that order, the results are the same.
   */
  method GatherSections(replies: map<Section, Reply>, completion: seq<Section>) returns (results: map<Section, string>)
    requires Complete(replies)
    requires |completion| == 3 && Overview in completion && Architecture in completion && Modules in completion
    ensures results == SectionTexts(replies)
  {
    results := map[];
    for i := 0 to |completion|
      invariant results.Keys <= {Overview, Architecture, Modules}
      invariant Overview in results <==> Overview in completion[..i]
      invariant Architecture in results <==> Architecture in completion[..i]
      invariant Modules in results <==> Modules in completion[..i]
      invariant Overview in results ==> results[Overview] == SectionText(replies[Overview])
      invariant Architecture in results ==> results[Architecture] == SectionText(replies[Architecture])
      invariant Modules in results ==> results[Modules] == SectionText(replies[Modules])
    {
      var s := completion[i];
      assert completion[..i + 1] == completion[..i] + [s];
      results := results[s := SectionText(replies[s])];
    }
    assert completion[..|completion|] == completion;
  }

  /** `max(1, min(n, 3))`: the worker count is between one and three. */
  function ClampWorkers(n: int): (r: int)
    ensures 1 <= r <= 3
    ensures 1 <= n <= 3 ==> r == n
    ensures n < 1 ==> r == 1
    ensures n > 3 ==> r == 3
  {
    if n < 1 then 1 else if n > 3 then 3 else n
  }

  /** The prompt version: the argument, else the environment's, else `v4`, an empty string counting as absent. */
  function EffectiveVersion(argument: Option<string>, environment: Option<string>): (r: string)
    ensures r != []
    ensures argument.Some? && argument.value != [] ==> r == argument.value
    ensures (argument.None? || argument.value == []) && environment.Some? && environment.value != [] ==> r == environment.value
    ensures (argument.None? || argument.value == []) && (environment.None? || environment.value == []) ==> r == DefaultVersion
  {
    if argument.Some? && argument.value != [] then argument.value
    else if environment.Some? && environment.value != [] then environment.value
    else DefaultVersion
  }

  // ---------------------------------------------------------------------
  // Node

  /** The name the document carries: the repository's, or `Unknown Project`. */
  function RepoName(name: Option<string>): string {
    if name.Some? && name.value != [] then name.value else UnknownProject
  }

  /** The summaries to document; a missing list is an empty one. */
  function SummariesOf(fs: Option<seq<FileSummary>>): seq<FileSummary> {
    if fs.Some? then fs.value else []
  }

  /** The document the LLM path produces, its summary tagged with the prompt version. */
  function LlmDocument(fs: seq<FileSummary>, name: string, version: string, replies: map<Section, Reply>): Document
    requires Complete(replies)
  {
    var texts := SectionTexts(replies);
    Document(name + TitleSuffix, AssembledContent(name, texts),
             BuilderSummary(name, |fs|) + " (prompt_version=" + version + ")")
  }

  /** The state holds the document, ready to be saved. */
  predicate HoldsDocument(st: DocumentState, doc: Document)
    reads st
  {
    st.documentTitle == Some(doc.title) && st.documentContent == Some(doc.content)
    && st.documentSummary == Some(doc.summary) && st.status == SavingDocument
  }

  /** A new builder given the three results, in task order, then built. */
  method AssembleDocument(name: string, results: map<Section, string>, fileCount: nat)
    returns (content: string, summary: string)
    requires Complete(results)
    ensures content == AssembledContent(name, results)
    ensures summary == BuilderSummary(name, fileCount)
  {
    var builder := new FullRepoDocumentBuilder(name);
    builder.Add(Overview, results[Overview]);
    builder.Add(Architecture, results[Architecture]);
    builder.Add(Modules, results[Modules]);
    forall s | s in results
      ensures s in builder.sections
    {
      match s
      case Overview =>
      case Architecture =>
      case Modules =>
    }
    assert builder.sections == results;
    content, summary := builder.Build(fileCount);
  }

  /** Puts the document into the state, ready to be saved. */
  method Store(st: DocumentState, doc: Document)
    modifies st`status, st`documentTitle, st`documentContent, st`documentSummary
    ensures HoldsDocument(st, doc)
  {
    st.documentTitle := Some(doc.title);
    st.documentContent := Some(doc.content);
    st.documentSummary := Some(doc.summary);
    st.status := SavingDocument;
  }

  /** The LLM path: the worker setting read, the sections generated and assembled. */
  method GenerateWithLlm(st: DocumentState, fs: seq<FileSummary>, name: string, version: string,
                         workers: Result<int>, replies: map<Section, Reply>, completion: seq<Section>)
    requires Complete(replies)
    requires |completion| == 3 && Overview in completion && Architecture in completion && Modules in completion
    modifies st`status, st`error, st`documentTitle, st`documentContent, st`documentSummary
    ensures workers.Raised? ==>
      st.status == "error" && st.error == Some("Full document generation failed: " + workers.message)
      && unchanged(st`documentTitle, st`documentContent, st`documentSummary)
    ensures workers.Ok? ==> HoldsDocument(st, LlmDocument(fs, name, version, replies)) && unchanged(st`error)
  {
    if workers.Raised? {
      st.Fail("Full document generation failed: " + workers.message);
      return;
    }
    var maxWorkers := ClampWorkers(workers.value);
    var order := if maxWorkers > 1 then completion else [Overview, Architecture, Modules];
    var results := GatherSections(replies, order);
    var content, summary := AssembleDocument(name, results, |fs|);
    Store(st, Document(name + TitleSuffix, content, summary + " (prompt_version=" + version + ")"));
  }

  /**
   * `full_repository_document_generator_node`.  The LLM is `ask` (system
   * prompt, task prompt), retries included; `workers` is the outcome of
   * reading `FULL_DOC_MAX_CONCURRENCY` as an integer; `completion` is the
   * order in which the parallel section tasks finish.
   */
  method FullRepositoryDocumentGeneratorNode(st: DocumentState, useMock: bool, apiKey: Option<string>,
                                             promptVersion: Option<string>, envVersion: Option<string>,
                                             workers: Result<int>, ask: (Prompt, Prompt) -> Reply,
                                             dumps: seq<CompactFile> -> string, completion: seq<Section>)
    requires |completion| == 3 && Overview in completion && Architecture in completion && Modules in completion
    modifies st`status, st`error, st`documentTitle, st`documentContent, st`documentSummary
    ensures SummariesOf(old(st.fileSummaries)) == [] ==>
      st.status == "error" && st.error == Some(EmptySummaries)
      && unchanged(st`documentTitle, st`documentContent, st`documentSummary)
    ensures SummariesOf(old(st.fileSummaries)) != [] && (useMock || apiKey.None? || apiKey.value == []) ==>
      HoldsDocument(st, MockDocument(SummariesOf(old(st.fileSummaries)), RepoName(old(st.repositoryName))))
      && unchanged(st`error)
    ensures SummariesOf(old(st.fileSummaries)) != [] && !useMock && apiKey.Some? && apiKey.value != [] ==>
      var fs := SummariesOf(old(st.fileSummaries));
      var name := RepoName(old(st.repositoryName));
      var version := EffectiveVersion(promptVersion, envVersion);
      if workers.Raised? then
        st.status == "error" && st.error == Some("Full document generation failed: " + workers.message)
        && unchanged(st`documentTitle, st`documentContent, st`documentSummary)
      else
        HoldsDocument(st, LlmDocument(fs, name, version, Replies(version, fs, name, ask, dumps))) && unchanged(st`error)
  {
    var fs := SummariesOf(st.fileSummaries);
    var name := RepoName(st.repositoryName);
    if fs == [] {
      st.Fail(EmptySummaries);
      return;
    }
    if useMock || apiKey.None? || apiKey.value == [] {
      var doc := BuildMockDocument(fs, name);
      Store(st, doc);
      return;
    }
    var version := EffectiveVersion(promptVersion, envVersion);
    GenerateWithLlm(st, fs, name, version, workers, Replies(version, fs, name, ask, dumps), completion);
  }
}
