/**
 * The comment extractor the fallback parsers share: `#` comments, then `//`
 * comments, then block comments, each stripped, blank ones dropped, at most
 * ten in all.
 */
module CommentExtraction {
  import opened Text
  import opened SourcePatterns
  import opened PatternScan

  /** `comments[:10]`. */
  const MaxComments := 10

  /** The texts the matches keep, in order. */
  function Texts(fs: seq<Found>): (r: seq<string>)
    ensures |r| == |fs|
    ensures forall k :: 0 <= k < |fs| ==> r[k] == fs[k].text
  {
    seq(|fs|, k requires 0 <= k < |fs| => fs[k].text)
  }

  /** The texts of the matches that are not blank, in order. */
  function NonEmptyTexts(fs: seq<Found>): (r: seq<string>)
    ensures |r| <= |fs|
    ensures forall c :: c in r ==> c != [] && c in Texts(fs)
  {
    if fs == [] then []
    else
      var init := fs[..|fs| - 1];
      var rest := NonEmptyTexts(init);
      assert forall c :: c in Texts(init) ==> c in Texts(fs) by {
        forall c | c in Texts(init) ensures c in Texts(fs) {
          var k :| 0 <= k < |init| && Texts(init)[k] == c;
          assert Texts(fs)[k] == c;
        }
      }
      var last := fs[|fs| - 1].text;
      assert last == Texts(fs)[|fs| - 1];
      rest + (if last != [] then [last] else [])
  }

  /** What `extract_comments` returns. */
  function Comments(content: string): seq<string> {
    Take(NonEmptyTexts(FindAll(HashComment, content))
         + NonEmptyTexts(FindAll(SlashComment, content))
         + NonEmptyTexts(FindAll(BlockComment, content)), MaxComments)
  }

  /** `extract_comments`: two filtered extends, a loop over the block comments, then the cap. */
  method ExtractComments(content: string) returns (comments: seq<string>)
    ensures comments == Comments(content)
  {
    comments := [];
    var hashes := FindIter(Hits(HashComment, content), |content|);
    comments := comments + NonEmptyTexts(hashes);
    var slashes := FindIter(Hits(SlashComment, content), |content|);
    comments := comments + NonEmptyTexts(slashes);
    var blocks := FindIter(Hits(BlockComment, content), |content|);
    for k := 0 to |blocks|
      invariant comments == NonEmptyTexts(hashes) + NonEmptyTexts(slashes) + NonEmptyTexts(blocks[..k])
    {
      assert blocks[..k + 1][..k] == blocks[..k];
      var clean := blocks[k].text;
      if clean != [] {
        comments := comments + [clean];
      }
    }
    assert blocks[..|blocks|] == blocks;
    comments := Take(comments, MaxComments);
  }

  /** The comment patterns keep their text stripped; a block comment also has its whitespace runs collapsed. */
  lemma CommentTextsClean(p: Pattern, s: string)
    requires p.HashComment? || p.SlashComment? || p.BlockComment?
    ensures forall f :: f in FindAll(p, s) ==> Trimmed(f.text)
    ensures p.BlockComment? ==> forall f :: f in FindAll(p, s) ==> SingleSpaced(f.text)
  {
    HitsValid(p, s);
    ScanSound(Hits(p, s), |s|, 0);
    forall f | f in FindAll(p, s)
      ensures Trimmed(f.text) && (p.BlockComment? ==> SingleSpaced(f.text))
    {
      assert Hits(p, s)(f.start) == MatchAt(p, s, f.start);
    }
  }

  /**
   * At most ten comments, none blank, none with surrounding whitespace, no
   * whitespace run inside a block comment; `#` comments come before `//`
   * comments, which come before block comments.
   */
  lemma CommentsFacts(content: string)
    ensures var r := Comments(content);
      |r| <= MaxComments
      && (forall c :: c in r ==> c != [] && Trimmed(c))
      && r <= NonEmptyTexts(FindAll(HashComment, content))
                + NonEmptyTexts(FindAll(SlashComment, content))
                + NonEmptyTexts(FindAll(BlockComment, content))
  {
    var hs, ss, bs := FindAll(HashComment, content), FindAll(SlashComment, content), FindAll(BlockComment, content);
    CommentTextsClean(HashComment, content);
    CommentTextsClean(SlashComment, content);
    CommentTextsClean(BlockComment, content);
    var all := NonEmptyTexts(hs) + NonEmptyTexts(ss) + NonEmptyTexts(bs);
    forall c | c in all ensures c != [] && Trimmed(c) {
      if c in NonEmptyTexts(hs) {
        var k :| 0 <= k < |hs| && Texts(hs)[k] == c;
        assert hs[k] in hs;
      } else if c in NonEmptyTexts(ss) {
        var k :| 0 <= k < |ss| && Texts(ss)[k] == c;
        assert ss[k] in ss;
      } else {
        var k :| 0 <= k < |bs| && Texts(bs)[k] == c;
        assert bs[k] in bs;
      }
    }
    var r := Comments(content);
    assert r == Take(all, MaxComments);
    forall c | c in r ensures c in all {
      var k :| 0 <= k < |r| && r[k] == c;
      assert all[k] == c;
    }
  }

  /** Every block comment kept is single-spaced: its whitespace runs were collapsed. */
  lemma BlockCommentsCollapsed(content: string)
    ensures forall c :: c in NonEmptyTexts(FindAll(BlockComment, content)) ==> SingleSpaced(c)
  {
    var bs := FindAll(BlockComment, content);
    CommentTextsClean(BlockComment, content);
    forall c | c in NonEmptyTexts(bs) ensures SingleSpaced(c) {
      var k :| 0 <= k < |bs| && Texts(bs)[k] == c;
      assert bs[k] in bs;
    }
  }
}
