/**
 * The patch language an LLM reply uses to change one section body:
 * `[UPDATE: <snippet>] <text>` replaces the first line (else paragraph)
 * mentioning the snippet, `[ADD] <text>` appends, and `[NO_CHANGE]` anywhere
 * leaves the section alone.  A changelog section only ever gains an entry.
 */
module SectionPatch {
  import opened Wrappers
  import opened Text

  const NoChangeMarker: string := "[NO_CHANGE]"
  const UpdateOpener: string := "[UPDATE:"
  const AddMarker: string := "[ADD]"

  // ---------------------------------------------------------------------
  // Changelog
  // ---------------------------------------------------------------------

  /** A patch that asks for no change: empty, or holding `[NO_CHANGE]` anywhere. */
  predicate IsNoChange(patch: string) {
    patch == [] || Contains(patch, NoChangeMarker)
  }

  /** `_merge_changelog`: the new entry goes on its own line after the prior changelog. */
  function MergeChangelog(prior: string, entry: string): (r: string)
    ensures IsNoChange(entry) ==> r == prior
    ensures !IsNoChange(entry) && Strip(prior) == [] ==> r == entry
    ensures !IsNoChange(entry) && Strip(prior) != [] ==>
      r == RStrip(prior) + "\n" + entry && EndsWith(r, entry)
    ensures RStrip(prior) <= r
  {
    if IsNoChange(entry) then prior
    else if Strip(prior) == [] then
      BlankRStrip(prior);
      entry
    else
      var r := RStrip(prior) + "\n" + entry;
      assert r[|r| - |entry|..] == entry;
      r
  }

  // ---------------------------------------------------------------------
  // Recognising the blocks of a patch
  // ---------------------------------------------------------------------

  /** An `[UPDATE: snippet] text` block, both parts stripped. */
  datatype UpdateBlock = UpdateBlock(snippet: string, text: string)

  /** Where a block's text stops: at the next `[`, or at the end of the patch. */
  function BlockEnd(t: string, i: nat): (r: nat)
    requires i <= |t|
    ensures i <= r <= |t|
    ensures r == |t| || t[r] == '['
    ensures forall j :: i <= j < r ==> t[j] != '['
  {
    match FindChar(t, '[', i)
    case Some(j) => j
    case None => |t|
  }

  /** The next occurrence of a marker at or after `from`. */
  function NextMarker(t: string, marker: string, from: nat): (r: Option<nat>)
    ensures r.Some? ==> from <= r.value && r.value + |marker| <= |t|
  {
    FindFrom(t, marker, from)
  }

  /**
   * The first match of `\[UPDATE:\s*([^\]]+)\]\s*\n*([^\[]*?)(?=\[|$)`
   * (dot matching newlines) at or after `from`, with the position where the
   * search goes on.  The snippet is everything up to the first `]` and must be
   * non-empty; the text runs to the next `[`.  Without any `]` after an
   * opener no later opener can match either.
   */
  function NextUpdate(t: string, from: nat): (r: Option<(UpdateBlock, nat)>)
    ensures r.Some? ==> from < r.value.1 <= |t| && Trimmed(r.value.0.snippet) && Trimmed(r.value.0.text)
    decreases |t| - from
  {
    match NextMarker(t, UpdateOpener, from)
    case None => None
    case Some(p) =>
      match FindChar(t, ']', p + 8)
      case None => None
      case Some(q) =>
        if q == p + 8 then NextUpdate(t, p + 1)
        else
          var e := BlockEnd(t, q + 1);
          Some((UpdateBlockBetween(t, p + 8, q, e), e))
  }

  /** All matches of the update pattern from `from`, in order (`re.findall`). */
  function UpdateBlocks(t: string, from: nat): (r: seq<UpdateBlock>)
    requires from <= |t|
    ensures forall b <- r :: Trimmed(b.snippet) && Trimmed(b.text)
    decreases |t| - from
  {
    var next := NextUpdate(t, from);
    if next.None? then [] else [next.value.0] + UpdateBlocks(t, next.value.1)
  }

  /** The block whose snippet is `t[i..q]` and whose text is `t[q + 1..e]`, both stripped. */
  function UpdateBlockBetween(t: string, i: nat, q: nat, e: nat): (b: UpdateBlock)
    requires i <= q && q + 1 <= e <= |t|
    ensures Trimmed(b.snippet) && Trimmed(b.text)
    ensures b.snippet == Strip(t[i..q]) && b.text == Strip(t[q + 1..e])
  {
    StripIsTrimmed(t[i..q]);
    StripIsTrimmed(t[q + 1..e]);
    UpdateBlock(Strip(t[i..q]), Strip(t[q + 1..e]))
  }

  /** The texts of the matches of `\[ADD\]\s*\n*([^\[]*?)(?=\[|$)` from `from`, stripped. */
  function AddBlocks(t: string, from: nat): (r: seq<string>)
    ensures forall a <- r :: Trimmed(a)
    decreases |t| - from
  {
    match NextMarker(t, AddMarker, from)
    case None => []
    case Some(p) =>
      var e := BlockEnd(t, p + 5);
      StripIsTrimmed(t[p + 5..e]);
      [Strip(t[p + 5..e])] + AddBlocks(t, e)
  }

  /**
   * `re.sub(r'\[UPDATE:[^\]]*\]', '', s[from..])`: each opener up to the
   * first `]` after it is deleted; an opener with no `]` after it stays.
   */
  function RemoveUpdateTags(s: string, from: nat): (r: string)
    requires from <= |s|
    ensures |r| <= |s| - from
    decreases |s| - from
  {
    match FindFrom(s, UpdateOpener, from)
    case None => s[from..]
    case Some(p) =>
      match FindChar(s, ']', p + 8)
      case None => s[from..]
      case Some(q) => s[from..p] + RemoveUpdateTags(s, q + 1)
  }

  lemma RemoveUpdateTagsWithoutOpener(s: string)
    requires !Contains(s, UpdateOpener)
    ensures RemoveUpdateTags(s, 0) == s
  {
    FindFromContains(s, UpdateOpener);
  }

  // ---------------------------------------------------------------------
  // Applying the blocks
  // ---------------------------------------------------------------------

  /** `snippet_key in part or snippet in part`, where the key is the first 30 characters. */
  predicate Mentions(part: string, snippet: string) {
    Contains(part, Take(snippet, 30)) || Contains(part, snippet)
  }

  /** The first part that mentions the snippet. */
  function FirstMentioning(parts: seq<string>, snippet: string, i: nat): (r: Option<nat>)
    requires i <= |parts|
    ensures r.Some? ==> i <= r.value < |parts| && Mentions(parts[r.value], snippet)
    ensures r.Some? ==> forall j :: i <= j < r.value ==> !Mentions(parts[j], snippet)
    ensures r.None? ==> forall j :: i <= j < |parts| ==> !Mentions(parts[j], snippet)
    decreases |parts| - i
  {
    if i == |parts| then None
    else if Mentions(parts[i], snippet) then Some(i)
    else FirstMentioning(parts, snippet, i + 1)
  }

  /**
   * One update block applied to the section text: the first line mentioning
   * the snippet is replaced, else the first paragraph, else the text is
   * appended after a blank line.  An empty text is skipped.
   */
  function ApplyUpdate(result: string, b: UpdateBlock): string {
    if b.text == [] then result
    else
      var lines := Split(result, "\n");
      match FirstMentioning(lines, b.snippet, 0)
      case Some(i) => Join(lines[i := b.text], "\n")
      case None =>
        var paras := Split(result, "\n\n");
        match FirstMentioning(paras, b.snippet, 0)
        case Some(i) => Join(paras[i := b.text], "\n\n")
        case None => RStrip(result) + "\n\n" + b.text
  }

  /** The update blocks applied in patch order. */
  function ApplyUpdates(result: string, bs: seq<UpdateBlock>): string
    decreases |bs|
  {
    if bs == [] then result
    else ApplyUpdate(ApplyUpdates(result, bs[..|bs| - 1]), bs[|bs| - 1])
  }

  /** One add block appended after a blank line; an empty one is skipped. */
  function ApplyAdd(result: string, a: string): string {
    if a == [] then result else RStrip(result) + "\n\n" + a
  }

  /** The add blocks appended in patch order. */
  function ApplyAdds(result: string, adds: seq<string>): string
    decreases |adds|
  {
    if adds == [] then result
    else ApplyAdd(ApplyAdds(result, adds[..|adds| - 1]), adds[|adds| - 1])
  }

  /** `changes.replace('[ADD]', '').replace('[UPDATE:', '')`, stripped, with leftover update tags removed. */
  function CleanPatch(changes: string): string {
    Strip(RemoveUpdateTags(Strip(Replace(Replace(changes, AddMarker, ""), UpdateOpener, "")), 0))
  }

  /** What `_merge_section_changes` returns. */
  function MergedSection(prior: string, changes: string): (r: string)
    ensures IsNoChange(changes) ==> r == prior
    ensures !IsNoChange(changes) ==> Trimmed(r)
  {
    if IsNoChange(changes) then prior
    else if Strip(prior) == [] then
      StripIsTrimmed(RemoveUpdateTags(Strip(Replace(Replace(changes, AddMarker, ""), UpdateOpener, "")), 0));
      CleanPatch(changes)
    else
      var r := ApplyAdds(ApplyUpdates(prior, UpdateBlocks(changes, 0)), AddBlocks(changes, 0));
      StripIsTrimmed(r);
      Strip(r)
  }

  /** The replacement loop over `lines` / `paragraphs`: the first part mentioning the snippet becomes `text`. */
  method ReplaceFirstMentioning(parts: seq<string>, snippet: string, text: string) returns (out: seq<string>, found: bool)
    ensures found <==> FirstMentioning(parts, snippet, 0).Some?
    ensures found ==> out == parts[FirstMentioning(parts, snippet, 0).value := text]
    ensures !found ==> out == parts
  {
    out := parts;
    found := false;
    var i := 0;
    while i < |out|
      invariant 0 <= i <= |out| == |parts|
      invariant out == parts
      invariant forall j :: 0 <= j < i ==> !Mentions(parts[j], snippet)
    {
      if Contains(out[i], Take(snippet, 30)) || Contains(out[i], snippet) {
        out := out[i := text];
        found := true;
        return;
      }
      i := i + 1;
    }
  }

  /** One pass of the update loop: line replacement, else paragraph replacement, else append. */
  method ApplyUpdateStep(result: string, b: UpdateBlock) returns (r: string)
    ensures r == ApplyUpdate(result, b)
  {
    r := result;
    if b.text != [] {
      var lines, found := ReplaceFirstMentioning(Split(result, "\n"), b.snippet, b.text);
      if found {
        r := Join(lines, "\n");
      } else {
        var paragraphs, foundParagraph := ReplaceFirstMentioning(Split(result, "\n\n"), b.snippet, b.text);
        if foundParagraph {
          r := Join(paragraphs, "\n\n");
        } else {
          r := RStrip(result) + "\n\n" + b.text;
        }
      }
    }
  }

  /** The update loop of `_merge_section_changes`. */
  method ApplyUpdateLoop(prior: string, matches: seq<UpdateBlock>) returns (result: string)
    ensures result == ApplyUpdates(prior, matches)
  {
    result := prior;
    for k := 0 to |matches|
      invariant result == ApplyUpdates(prior, matches[..k])
    {
      assert matches[..k + 1][..k] == matches[..k];
      result := ApplyUpdateStep(result, matches[k]);
    }
    assert matches[..|matches|] == matches;
  }

  /** The add loop of `_merge_section_changes`. */
  method ApplyAddLoop(prior: string, adds: seq<string>) returns (result: string)
    ensures result == ApplyAdds(prior, adds)
  {
    result := prior;
    for k := 0 to |adds|
      invariant result == ApplyAdds(prior, adds[..k])
    {
      assert adds[..k + 1][..k] == adds[..k];
      if adds[k] != [] {
        result := RStrip(result) + "\n\n" + adds[k];
      }
    }
    assert adds[..|adds|] == adds;
  }

  /** `_merge_section_changes` */
  method MergeSectionChanges(prior: string, changes: string) returns (r: string)
    ensures r == MergedSection(prior, changes)
  {
    if changes == [] || Contains(changes, NoChangeMarker) {
      return prior;
    }
    if Strip(prior) == [] {
      var cleaned := Strip(Replace(Replace(changes, AddMarker, ""), UpdateOpener, ""));
      return Strip(RemoveUpdateTags(cleaned, 0));
    }
    var result := ApplyUpdateLoop(prior, UpdateBlocks(changes, 0));
    result := ApplyAddLoop(result, AddBlocks(changes, 0));
    r := Strip(result);
  }

  // ---------------------------------------------------------------------
  // What a merge keeps
  // ---------------------------------------------------------------------

  /** The text of a non-empty update block is present after it is applied. */
  lemma ApplyUpdateInserts(result: string, b: UpdateBlock)
    requires b.text != []
    ensures Contains(ApplyUpdate(result, b), b.text)
  {
    var lines := Split(result, "\n");
    match FirstMentioning(lines, b.snippet, 0)
    case Some(i) =>
      JoinOccurs(lines[i := b.text], "\n", i);
    case None =>
      var paras := Split(result, "\n\n");
      match FirstMentioning(paras, b.snippet, 0)
      case Some(i) =>
        JoinOccurs(paras[i := b.text], "\n\n", i);
      case None =>
        var r := RStrip(result) + "\n\n" + b.text;
        assert r[|r| - |b.text|..] == b.text;
        ContainsWitness(r, b.text, |r| - |b.text|);
  }

  /** Appending add blocks keeps the right-stripped text as a prefix. */
  lemma {:induction false} ApplyAddsKeepsPrefix(result: string, adds: seq<string>)
    ensures RStrip(result) <= ApplyAdds(result, adds)
    decreases |adds|
  {
    if adds != [] {
      var prev := ApplyAdds(result, adds[..|adds| - 1]);
      ApplyAddsKeepsPrefix(result, adds[..|adds| - 1]);
      if adds[|adds| - 1] != [] {
        RStripMonotone(RStrip(result), prev);
        RStripIdempotent(result);
      }
    }
  }

  /** Applying the adds in two runs is applying them in one. */
  lemma {:induction false} ApplyAddsSplit(result: string, adds: seq<string>, k: nat)
    requires k <= |adds|
    ensures ApplyAdds(result, adds) == ApplyAdds(ApplyAdds(result, adds[..k]), adds[k..])
    decreases |adds|
  {
    if k < |adds| {
      ApplyAddsSplit(result, adds[..|adds| - 1], k);
      assert adds[..|adds| - 1][..k] == adds[..k];
      assert adds[k..][..|adds[k..]| - 1] == adds[..|adds| - 1][k..];
    } else {
      assert adds[..k] == adds;
    }
  }

  /** An occurrence in a prefix is an occurrence in the whole. */
  lemma PrefixKeepsOccurrence(x: string, y: string, t: string, at: nat)
    requires OccursAt(x, t, at) && x <= y
    ensures OccursAt(y, t, at)
  {
    assert y[at..at + |t|] == x[at..at + |t|];
  }

  /** An appended add block ends the text and survives right-stripping. */
  lemma ApplyAddEndsWith(prev: string, a: string)
    requires a != [] && Trimmed(a)
    ensures OccursAt(RStrip(ApplyAdd(prev, a)), a, |ApplyAdd(prev, a)| - |a|)
  {
    var r := ApplyAdd(prev, a);
    assert r[|r| - |a|..|r|] == a;
    RStripKeepsOccurrence(r, a, |r| - |a|);
  }

  /** Every non-empty trimmed add block is present after all adds are applied. */
  lemma ApplyAddsKeepsEach(result: string, adds: seq<string>, k: nat) returns (at: nat)
    requires k < |adds| && adds[k] != [] && Trimmed(adds[k])
    ensures OccursAt(ApplyAdds(result, adds), adds[k], at)
  {
    var a := adds[k];
    var prev := ApplyAdds(result, adds[..k]);
    assert adds[..k + 1][..k] == adds[..k];
    var upTo := ApplyAdds(result, adds[..k + 1]);
    assert upTo == ApplyAdd(prev, a);
    ApplyAddEndsWith(prev, a);
    at := |upTo| - |a|;
    ApplyAddsSplit(result, adds, k + 1);
    ApplyAddsKeepsPrefix(upTo, adds[k + 1..]);
    PrefixKeepsOccurrence(RStrip(upTo), ApplyAdds(result, adds), a, at);
  }

  /** A text that a section contains, trimmed, survives the add stage and the final strip. */
  lemma AddStageKeeps(result: string, adds: seq<string>, t: string)
    requires Contains(result, t) && t != [] && Trimmed(t)
    ensures Contains(Strip(ApplyAdds(result, adds)), t)
  {
    var at :| 0 <= at <= |result| - |t| && OccursAt(result, t, at);
    RStripKeepsOccurrence(result, t, at);
    ApplyAddsKeepsPrefix(result, adds);
    var final := ApplyAdds(result, adds);
    PrefixKeepsOccurrence(RStrip(result), final, t, at);
    StripKeepsTrimmed(final, t, at);
  }

  /** The add stage followed by the final strip keeps every non-empty add block. */
  lemma StrippedAddsKeepEach(result: string, adds: seq<string>, k: nat)
    requires k < |adds| && adds[k] != [] && Trimmed(adds[k])
    ensures Contains(Strip(ApplyAdds(result, adds)), adds[k])
  {
    var at := ApplyAddsKeepsEach(result, adds, k);
    StripKeepsTrimmed(ApplyAdds(result, adds), adds[k], at);
  }

  /** A patch on a non-blank section never loses a non-empty `[ADD]` block. */
  lemma MergedSectionKeepsAdds(prior: string, changes: string, k: nat)
    requires !IsNoChange(changes) && Strip(prior) != []
    requires k < |AddBlocks(changes, 0)| && AddBlocks(changes, 0)[k] != []
    ensures Contains(MergedSection(prior, changes), AddBlocks(changes, 0)[k])
  {
    var adds := AddBlocks(changes, 0);
    assert adds[k] in adds;
    StrippedAddsKeepEach(ApplyUpdates(prior, UpdateBlocks(changes, 0)), adds, k);
  }

  /** A patch on a non-blank section never loses its last `[UPDATE: …]` block, when that block has text. */
  lemma MergedSectionKeepsLastUpdate(prior: string, changes: string)
    requires !IsNoChange(changes) && Strip(prior) != []
    requires UpdateBlocks(changes, 0) != []
    requires UpdateBlocks(changes, 0)[|UpdateBlocks(changes, 0)| - 1].text != []
    ensures Contains(MergedSection(prior, changes), UpdateBlocks(changes, 0)[|UpdateBlocks(changes, 0)| - 1].text)
  {
    var bs := UpdateBlocks(changes, 0);
    var last := bs[|bs| - 1];
    ApplyUpdateInserts(ApplyUpdates(prior, bs[..|bs| - 1]), last);
    AddStageKeeps(ApplyUpdates(prior, bs), AddBlocks(changes, 0), last.text);
  }

  // ---------------------------------------------------------------------
  // Mock updates
  // ---------------------------------------------------------------------

  /** `_update_section_mock`: a changelog gains `- <commit[:60]>`; other sections gain an `*Updated: …*` line. */
  function UpdateSectionMock(key: string, prior: string, commitMsg: string): (r: string)
    ensures RStrip(prior) <= r
    ensures key == "changelog" ==> r == MergeChangelog(prior, "- " + Take(commitMsg, 60))
    ensures key == "changelog" && IsNoChange("- " + Take(commitMsg, 60)) ==> r == prior
    ensures key == "changelog" && !IsNoChange("- " + Take(commitMsg, 60)) && Strip(prior) == [] ==>
      r == "- " + Take(commitMsg, 60)
    ensures key == "changelog" && !IsNoChange("- " + Take(commitMsg, 60)) && Strip(prior) != [] ==>
      r == RStrip(prior) + "\n- " + Take(commitMsg, 60)
    ensures key != "changelog" ==> r == RStrip(prior) + "\n\n*Updated: " + Take(commitMsg, 50) + "*"
    ensures key != "changelog" ==> EndsWith(r, "*") && |r| == |RStrip(prior)| + 13 + |Take(commitMsg, 50)|
  {
    if key == "changelog" then MergeChangelog(prior, "- " + Take(commitMsg, 60))
    else
      var r := RStrip(prior) + "\n\n*Updated: " + Take(commitMsg, 50) + "*";
      assert r[|r| - 1..] == "*";
      r
  }
}
