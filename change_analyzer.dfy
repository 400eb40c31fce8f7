/**
 * The change analyzer node: the combined git diff split into one block per
 * file, each changed file matched to its block, classified and summarised,
 * and the sections of the document the change affects.
 */
module ChangeAnalyzer {
  import opened Wrappers
  import opened Text
  import opened Records
  import opened Collections

  // ---------------------------------------------------------------------
  // An insertion-ordered dictionary from paths to diff blocks
  // ---------------------------------------------------------------------

  /** A Python dict from file path to diff block: its items in insertion order. */
  type DiffMap = seq<(string, string)>

  /** No key occurs twice. */
  predicate UniqueKeys(m: DiffMap) {
    forall i, j :: 0 <= i < j < |m| ==> m[i].0 != m[j].0
  }

  /** The position of key `k` at or after `i`, if any. */
  function KeyIndex(m: DiffMap, k: string, i: nat): (r: Option<nat>)
    requires i <= |m|
    ensures r.Some? ==> i <= r.value < |m| && m[r.value].0 == k
    ensures r.Some? ==> forall j :: i <= j < r.value ==> m[j].0 != k
    ensures r.None? ==> forall j :: i <= j < |m| ==> m[j].0 != k
    decreases |m| - i
  {
    if i == |m| then None
    else if m[i].0 == k then Some(i)
    else KeyIndex(m, k, i + 1)
  }

  /** `m.get(k)` */
  function Lookup(m: DiffMap, k: string): (r: Option<string>)
    ensures r.Some? <==> exists i :: 0 <= i < |m| && m[i].0 == k
    ensures r.Some? && UniqueKeys(m) ==> forall i :: 0 <= i < |m| && m[i].0 == k ==> m[i].1 == r.value
  {
    match KeyIndex(m, k, 0)
    case Some(i) => Some(m[i].1)
    case None => None
  }

  /** Two maps with the same keys at the same places find every key at the same place. */
  lemma SameKeysSameIndex(m: DiffMap, n: DiffMap, k: string, i: nat)
    requires |m| == |n| && i <= |m|
    requires forall j :: 0 <= j < |m| ==> m[j].0 == n[j].0
    ensures KeyIndex(m, k, i) == KeyIndex(n, k, i)
    decreases |m| - i
  {
    if i < |m| && m[i].0 != k {
      SameKeysSameIndex(m, n, k, i + 1);
    }
  }

  /** Appending an entry does not move the keys already present. */
  lemma AppendKeepsIndex(m: DiffMap, e: (string, string), k: string, i: nat)
    requires i <= |m| && KeyIndex(m, k, i).Some?
    ensures KeyIndex(m + [e], k, i) == KeyIndex(m, k, i)
    decreases |m| - i
  {
    if m[i].0 != k {
      AppendKeepsIndex(m, e, k, i + 1);
    }
  }

  /** A key absent from `m` is found in `m + [e]` only at the end, if it is `e`'s key. */
  lemma AppendNewIndex(m: DiffMap, e: (string, string), k: string, i: nat)
    requires i <= |m| && KeyIndex(m, k, i).None?
    ensures KeyIndex(m + [e], k, i) == if e.0 == k then Some(|m|) else None
    decreases |m| - i
  {
    if i < |m| {
      AppendNewIndex(m, e, k, i + 1);
    }
  }

  /** `m[k] = v`: an existing key keeps its place and takes the new value; a new key goes last. */
  function Put(m: DiffMap, k: string, v: string): (r: DiffMap)
    ensures Lookup(r, k) == Some(v)
    ensures forall k' :: k' != k ==> Lookup(r, k') == Lookup(m, k')
    ensures UniqueKeys(m) ==> UniqueKeys(r)
  {
    match KeyIndex(m, k, 0)
    case Some(i) =>
      var r := m[i := (k, v)];
      forall k': string
        ensures KeyIndex(r, k', 0) == KeyIndex(m, k', 0)
      {
        SameKeysSameIndex(r, m, k', 0);
      }
      r
    case None =>
      var r := m + [(k, v)];
      forall k': string
        ensures KeyIndex(r, k', 0) == if k' == k then Some(|m|) else KeyIndex(m, k', 0)
      {
        if KeyIndex(m, k', 0).Some? {
          AppendKeepsIndex(m, (k, v), k', 0);
        } else {
          AppendNewIndex(m, (k, v), k', 0);
        }
      }
      r
  }

  // ---------------------------------------------------------------------
  // `_parse_diff_to_map`
  // ---------------------------------------------------------------------

  const DiffMarker: string := "diff --git "

  /** A chunk's first line (`chunk.split('\n', 1)[0]`). */
  function FirstLine(chunk: string): (r: string)
    ensures r <= chunk
    ensures forall i :: 0 <= i < |r| ==> r[i] != '\n'
  {
    match FindChar(chunk, '\n', 0)
    case Some(i) => chunk[..i]
    case None => chunk
  }

  /**
   * For the regex `\s+b/` tried at every position from `q` on: the first
   * whitespace character after which the whitespace run is followed by `b/`.
   */
  function BSeparator(h: string, q: nat): (r: Option<nat>)
    ensures r.Some? ==> q <= r.value < |h| && IsSpace(h[r.value]) && StartsWith(h[SkipSpaces(h, r.value)..], "b/")
    decreases |h| - q
  {
    if q >= |h| then None
    else if IsSpace(h[q]) && StartsWith(h[SkipSpaces(h, q)..], "b/") then Some(q)
    else BSeparator(h, q + 1)
  }

  /**
   * `re.search(r'a/(.*?)\s+b/', h).group(1)`: at the first `a/` from which
   * the pattern can match, the shortest text before a whitespace run and
   * `b/`.
   */
  function ABPath(h: string, from: nat): (r: Option<string>)
    decreases |h| - from
  {
    match FindFrom(h, "a/", from)
    case None => None
    case Some(p) =>
      match BSeparator(h, p + 2)
      case Some(q) => Some(h[p + 2..q])
      case None => ABPath(h, p + 1)
  }

  /** The key a chunk is stored under, if any: the `a/` path, else the first of at least two header words. */
  function ChunkKey(chunk: string): Option<string> {
    if Strip(chunk) == [] then None
    else
      var header := FirstLine(chunk);
      match ABPath(header, 0)
      case Some(path) => Some(Strip(path))
      case None =>
        var parts := Words(header);
        if |parts| >= 2 then Some(if StartsWith(parts[0], "a/") then parts[0][2..] else parts[0])
        else None
  }

  /** The map built from the chunks, one after the other. */
  function DiffEntries(chunks: seq<string>): (r: DiffMap)
    ensures UniqueKeys(r)
    decreases |chunks|
  {
    if chunks == [] then []
    else
      var m := DiffEntries(chunks[..|chunks| - 1]);
      var c := chunks[|chunks| - 1];
      match ChunkKey(c)
      case None => m
      case Some(k) => Put(m, k, DiffMarker + c)
  }

  /** What `_parse_diff_to_map` returns. */
  function DiffMapOf(diff: string): (r: DiffMap)
    ensures diff == [] ==> r == []
    ensures UniqueKeys(r)
  {
    if diff == [] then [] else DiffEntries(Split(diff, DiffMarker))
  }

  /** The key of every chunk, in order. */
  function ChunkKeys(chunks: seq<string>): (r: seq<Option<string>>)
    ensures |r| == |chunks| && forall i :: 0 <= i < |chunks| ==> r[i] == ChunkKey(chunks[i])
  {
    seq(|chunks|, i requires 0 <= i < |chunks| => ChunkKey(chunks[i]))
  }

  /** The index of the last of the first `n` keys that is `k`, if any. */
  function LastWithKey(keys: seq<Option<string>>, k: string, n: nat): (r: Option<nat>)
    requires n <= |keys|
    ensures r.Some? ==> r.value < n && keys[r.value] == Some(k)
    ensures r.Some? ==> forall j :: r.value < j < n ==> keys[j] != Some(k)
    ensures r.None? ==> forall j :: 0 <= j < n ==> keys[j] != Some(k)
    decreases n
  {
    if n == 0 then None
    else if keys[n - 1] == Some(k) then Some(n - 1)
    else LastWithKey(keys, k, n - 1)
  }

  /**
   * A path is in the map exactly when some chunk is keyed by it, and then
   * its block is the last such chunk with `diff --git ` put back in front.
   */
  lemma {:induction false} DiffEntriesLookup(chunks: seq<string>, k: string, n: nat)
    requires n <= |chunks|
    ensures Lookup(DiffEntries(chunks[..n]), k) ==
      match LastWithKey(ChunkKeys(chunks), k, n)
      case None => None
      case Some(i) => Some(DiffMarker + chunks[i])
    decreases n
  {
    if n > 0 {
      assert chunks[..n][..n - 1] == chunks[..n - 1];
      assert chunks[..n][n - 1] == chunks[n - 1];
      DiffEntriesLookup(chunks, k, n - 1);
    } else {
      assert chunks[..n] == [];
    }
  }

  /** The loop of `_parse_diff_to_map`. */
  method ParseDiffToMap(diff: string) returns (m: DiffMap)
    ensures m == DiffMapOf(diff)
  {
    if diff == [] {
      return [];
    }
    var chunks := Split(diff, DiffMarker);
    m := [];
    for i := 0 to |chunks|
      invariant m == DiffEntries(chunks[..i])
    {
      assert chunks[..i + 1][..i] == chunks[..i];
      var chunk := chunks[i];
      if Strip(chunk) == [] {
        continue;
      }
      var header := FirstLine(chunk);
      var path := ABPath(header, 0);
      if path.Some? {
        m := Put(m, Strip(path.value), DiffMarker + chunk);
      } else {
        var parts := Words(header);
        if |parts| >= 2 {
          var f := parts[0];
          if StartsWith(f, "a/") {
            f := f[2..];
          }
          m := Put(m, f, DiffMarker + chunk);
        }
      }
    }
    assert chunks[..|chunks|] == chunks;
  }

  /** A text without `diff --git ` whose first line is empty gives the empty map. */
  lemma NoMarkerNoEntries(diff: string)
    requires !Contains(diff, DiffMarker)
    requires diff == [] || diff[0] == '\n'
    ensures DiffMapOf(diff) == []
  {
    if diff != [] {
      FindFromContains(diff, DiffMarker);
      assert Split(diff, DiffMarker) == [diff];
      assert FirstLine(diff) == [];
      assert DiffEntries([diff]) == DiffEntries([diff][..0]) == [] by {
        assert [diff][..0] == [];
        assert ChunkKey(diff) == None by {
          assert Words([]) == [];
          assert ABPath([], 0) == None;
        }
      }
    }
  }

  // ---------------------------------------------------------------------
  // `_find_diff_for_file`
  // ---------------------------------------------------------------------

  /** The first entry, from `i` on, whose key ends with `name` or is a suffix of it. */
  function FirstSuffixMatch(m: DiffMap, name: string, i: nat): (r: Option<nat>)
    requires i <= |m|
    ensures r.Some? ==> i <= r.value < |m| && (EndsWith(m[r.value].0, name) || EndsWith(name, m[r.value].0))
    ensures r.Some? ==> forall j :: i <= j < r.value ==> !EndsWith(m[j].0, name) && !EndsWith(name, m[j].0)
    ensures r.None? ==> forall j :: i <= j < |m| ==> !EndsWith(m[j].0, name) && !EndsWith(name, m[j].0)
    decreases |m| - i
  {
    if i == |m| then None
    else if EndsWith(m[i].0, name) || EndsWith(name, m[i].0) then Some(i)
    else FirstSuffixMatch(m, name, i + 1)
  }

  /** `filename.strip().replace('\\', '/')` */
  function NormalizedName(filename: string): string {
    Replace(Strip(filename), "\\", "/")
  }

  /**
   * `_find_diff_for_file`: the block stored under the name, else under
   * `a/` + the name, else the first block, in insertion order, whose key
   * and the normalised name end one with the other; `""` otherwise.
   */
  function FindDiffForFile(filename: string, m: DiffMap): (r: string)
  {
    match Lookup(m, filename)
    case Some(v) => v
    case None =>
      match Lookup(m, "a/" + filename)
      case Some(v) => v
      case None =>
        match FirstSuffixMatch(m, NormalizedName(filename), 0)
        case Some(i) => m[i].1
        case None => ""
  }

  /**
   * The exact name wins over `a/` + the name, which wins over the suffix
   * fallback; the result is always one of the stored blocks or `""`.
   */
  lemma FindDiffForFileRules(filename: string, m: DiffMap)
    ensures m == [] ==> FindDiffForFile(filename, m) == ""
    ensures Lookup(m, filename).Some? ==> FindDiffForFile(filename, m) == Lookup(m, filename).value
    ensures Lookup(m, filename).None? && Lookup(m, "a/" + filename).Some? ==>
      FindDiffForFile(filename, m) == Lookup(m, "a/" + filename).value
    ensures FindDiffForFile(filename, m) == "" || exists i :: 0 <= i < |m| && m[i].1 == FindDiffForFile(filename, m)
  {
  }

  /** Replacing a pattern that does not occur changes nothing. */
  lemma {:induction false} ReplaceAbsent(s: string, pat: string, rep: string)
    requires |pat| > 0 && !Contains(s, pat)
    ensures Replace(s, pat, rep) == s
    decreases |s|
  {
    if |s| >= |pat| {
      if pat <= s {
        assert s[0..|pat|] == pat;
        ContainsWitness(s, pat, 0);
      }
      if Contains(s[1..], pat) {
        var i :| 0 <= i <= |s[1..]| - |pat| && OccursAt(s[1..], pat, i);
        assert s[i + 1..i + 1 + |pat|] == s[1..][i..i + |pat|];
        ContainsWitness(s, pat, i + 1);
      }
      ReplaceAbsent(s[1..], pat, rep);
      assert [s[0]] + s[1..] == s;
    }
  }

  /**
   * The suffix fallback compares characters, not path components: a block
   * whose key merely ends with the name (`domain.py` for `main.py`) is
   * returned when no exact key matches.
   */
  lemma SuffixMatchIgnoresComponents(filename: string, key: string, block: string)
    requires Trimmed(filename) && !Contains(filename, "\\")
    requires EndsWith(key, filename) && key != filename && key != "a/" + filename
    ensures FindDiffForFile(filename, [(key, block)]) == block
  {
    var m := [(key, block)];
    assert KeyIndex(m, filename, 0) == None;
    assert KeyIndex(m, "a/" + filename, 0) == None;
    StripTrimmed(filename);
    if |filename| > 0 {
      ReplaceAbsent(filename, "\\", "/");
    }
    assert NormalizedName(filename) == filename;
    assert FirstSuffixMatch(m, filename, 0) == Some(0);
  }

  // ---------------------------------------------------------------------
  // Classifiers
  // ---------------------------------------------------------------------

  /** `_detect_change_type` */
  function DetectChangeType(fileDiff: string): ChangeType {
    if fileDiff == [] then Modified
    else if Contains(fileDiff, "+++ /dev/null") then Deleted
    else if Contains(fileDiff, "--- /dev/null") then Added
    else Modified
  }

  /**
   * A block is `deleted` exactly when it names `/dev/null` as the new file,
   * `added` when it does not but names it as the old file, and `modified`
   * otherwise, the empty block included.
   */
  lemma ChangeTypeRules(fileDiff: string)
    ensures DetectChangeType(fileDiff) == Deleted <==> Contains(fileDiff, "+++ /dev/null")
    ensures DetectChangeType(fileDiff) == Added <==> !Contains(fileDiff, "+++ /dev/null") && Contains(fileDiff, "--- /dev/null")
  {
    if fileDiff == [] {
      assert !Contains(fileDiff, "+++ /dev/null") && !Contains(fileDiff, "--- /dev/null");
    }
  }

  const HighKeywords: seq<string> := [
    "router", "endpoint", "controller", "api",
    "schema", "model", "entity",
    "service", "handler", "manager",
    "auth", "security", "permission",
    "database", "migration", "config"]

  const MediumKeywords: seq<string> := ["util", "helper", "middleware", "test", "spec"]

  /** Some keyword occurs in `s`. */
  predicate MentionsAny(s: string, keywords: seq<string>) {
    exists k :: k in keywords && Contains(s, k)
  }

  /** `_get_file_priority`: ordered substring tests on the lower-cased path. */
  function FilePriority(path: string): Priority {
    var lower := Lower(path);
    if MentionsAny(lower, HighKeywords) then High
    else if MentionsAny(lower, MediumKeywords) then Medium
    else Low
  }

  /** A high keyword anywhere in the lower-cased path beats any medium one; a path with neither is `low`. */
  lemma PriorityLevels(path: string)
    ensures FilePriority(path) == High <==> MentionsAny(Lower(path), HighKeywords)
    ensures FilePriority(path) == Medium <==> !MentionsAny(Lower(path), HighKeywords) && MentionsAny(Lower(path), MediumKeywords)
  {
  }
}
