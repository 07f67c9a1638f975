/** Images and links: `![alt](url)` and `[text](url)` through the whole
    renderer. The image rule runs first, so an image is never read as a
    link; a link keeps its text and drops its url. */
module MarkdownLinks {
  import opened Wrappers
  import opened TextSearch
  import opened MarkdownRules
  import opened Markdown
  import opened MarkdownExamples
  import opened TagFacts

  /** A part of an image or link that no substitution reacts to and that
      cannot close the bracket or the parenthesis early. */
  predicate LinkPart(t: string) {
    Plain(t) && ']' !in t && ')' !in t
  }

  function ImageText(alt: string, url: string): string {
    "![" + alt + "](" + url + ")"
  }

  function LinkText(text: string, url: string): string {
    "[" + text + "](" + url + ")"
  }

  /** The pair `](url)` read from the start of the first capture. */
  lemma FindPairAt(s: string, i: nat, q: nat, e: nat)
    requires PairShape(s, i, q, e)
    requires forall j :: i <= j < q ==> !StartsAt(s, j, "](")
    requires forall j :: q + 2 <= j < e ==> !StartsAt(s, j, ")")
    ensures FindPair(s, i) == Some((q, e))
  {
    var r := FindPair(s, i);
    FindPairSpec(s, i);
    assert r.Some?;
    var (q', e') := r.value;
    assert q' <= q;
    assert q' == q;
    assert e' <= e;
  }

  /** The positions of the pair in `pre + text + "](" + url + ")"`. */
  lemma PairShapeOf(pre: string, text: string, url: string)
    requires LinkPart(text) && LinkPart(url)
    ensures var s := pre + text + "](" + url + ")";
      var i, q := |pre|, |pre| + |text|;
      PairShape(s, i, q, |s| - 1) &&
      (forall j :: i <= j < q ==> !StartsAt(s, j, "](")) &&
      (forall j :: q + 2 <= j < |s| - 1 ==> !StartsAt(s, j, ")")) &&
      s[i..q] == text && s[q + 2..|s| - 1] == url
  {
    var s := pre + text + "](" + url + ")";
    var i, q, e := |pre|, |pre| + |text|, |s| - 1;
    forall j | i <= j < q
      ensures !StartsAt(s, j, "](") && !IsLineTerminator(s[j])
    {
      assert s[j] == text[j - i];
      if j + 2 <= |s| {
        assert s[j..j + 2][0] == s[j];
      }
    }
    forall j | q + 2 <= j < e
      ensures !StartsAt(s, j, ")") && !IsLineTerminator(s[j])
    {
      assert s[j] == url[j - q - 2];
      assert s[j..j + 1][0] == s[j];
    }
    assert s[q..q + 2] == "](";
    assert s[e..e + 1] == ")";
    assert s[i..q] == text;
    assert s[q + 2..e] == url;
  }

  lemma ImageMatch(alt: string, url: string)
    requires LinkPart(alt) && LinkPart(url)
    ensures MatchAt(Image, ImageText(alt, url), 0) == Some(Match(|ImageText(alt, url)|, ImageTag(url, alt)))
  {
    var s := ImageText(alt, url);
    PairShapeOf("![", alt, url);
    assert s[0..2] == "![";
    FindPairAt(s, 2, 2 + |alt|, |s| - 1);
  }

  lemma LinkMatch(text: string, url: string)
    requires LinkPart(text) && LinkPart(url)
    ensures MatchAt(Link, LinkText(text, url), 0) == Some(Match(|LinkText(text, url)|, LinkTag(text)))
  {
    var s := LinkText(text, url);
    PairShapeOf("[", text, url);
    assert s[0..1] == "[";
    FindPairAt(s, 1, 1 + |text|, |s| - 1);
  }

  /** Step 2 on an image: the whole text becomes one image element, with
      the bracket text as `alt` and the parenthesised text as `src`. */
  lemma ImageRule(alt: string, url: string)
    requires LinkPart(alt) && LinkPart(url)
    ensures ReplaceAll(Image, ImageText(alt, url)) == ImageTag(url, alt)
  {
    ImageMatch(alt, url);
    ReplaceWhole(Image, ImageText(alt, url), Match(|ImageText(alt, url)|, ImageTag(url, alt)));
  }

  /** An image is rendered as an image element and never as a link: the
      image rule runs first and leaves no `[` for the link rule. */
  /** Steps 2 to 8 on an image: only the image rule fires. */
  lemma ImageMarkup(alt: string, url: string)
    requires LinkPart(alt) && LinkPart(url)
    ensures Markup(ImageText(alt, url)) == ImageTag(url, alt)
  {
    var u := ImageTag(url, alt);
    ImageRule(alt, url);
    ImageTagInert(url, alt);
    ImageTagStages(u);
    MarkupStages(ImageText(alt, url), u, u);
  }

  lemma ImageTagStages(u: string)
    requires Inert(u)
    ensures ReplaceAll(Bold, ReplaceAll(Code, ReplaceAll(Link, u))) == u
    ensures ReplaceAll(Italic, u) == u
  {
    ReplaceAllWithoutTrigger(Link, u);
    ReplaceAllWithoutTrigger(Code, u);
    ReplaceAllWithoutTrigger(Bold, u);
    ReplaceAllWithoutTrigger(Italic, u);
  }

  lemma ImageBeforeLink(alt: string, url: string)
    requires LinkPart(alt) && LinkPart(url)
    ensures ParseMarkdown(ImageText(alt, url)) == ImageTag(url, alt)
    ensures !Contains(ParseMarkdown(ImageText(alt, url)), "<a")
  {
    var s := ImageText(alt, url);
    var u := ImageTag(url, alt);
    assert '<' !in s && '>' !in s;
    ImageMarkup(alt, url);
    ImageTagInert(url, alt);
    ImageTagLt(url, alt, 'l');
    RenderStages(s, u);
    ImageTagLt(url, alt, 'a');
    LtNeverBeforeExcludes(u, 'a', "<a");
  }

  const ExampleUrl := "http://example.com/y.png"

  lemma ExampleUrlNoMarkup() ensures '<' !in ExampleUrl && '>' !in ExampleUrl && '[' !in ExampleUrl && '`' !in ExampleUrl { }
  lemma ExampleUrlNoStar() ensures '*' !in ExampleUrl && '&' !in ExampleUrl && ']' !in ExampleUrl && ')' !in ExampleUrl { }
  lemma ExampleUrlOneLine() ensures NoLineTerminator(ExampleUrl) { }

  /** The image `![x](http://example.com/y.png)`. */
  lemma ImageExample(s: string)
    requires s == "![x](" + ExampleUrl + ")"
    ensures ParseMarkdown(s) == ImageTag(ExampleUrl, "x")
    ensures !Contains(ParseMarkdown(s), "<a")
  {
    ExampleUrlNoMarkup();
    ExampleUrlNoStar();
    ExampleUrlOneLine();
    assert "![x](" == "![" + "x" + "](";
    assert LinkPart("x");
    ImageBeforeLink("x", ExampleUrl);
  }


  /** In a link's text only its first character is a `[`, so the image
      rule, which needs `![`, finds nothing. */
  lemma ImageRuleSkipsLink(text: string, url: string)
    requires LinkPart(text) && LinkPart(url)
    ensures ReplaceAll(Image, LinkText(text, url)) == LinkText(text, url)
  {
    var s := LinkText(text, url);
    forall p | 0 <= p < |s|
      ensures MatchAt(Image, s, p).None?
    {
      if p + 2 <= |s| {
        var j := p + 1;
        if j <= |text| {
          assert s[j] == text[j - 1];
        } else if j > |text| + 2 && j < |s| - 1 {
          assert s[j] == url[j - |text| - 3];
        }
        assert s[p..p + 2][1] == s[j];
      }
    }
    ReplaceFromNoMatch(Image, s, 0);
  }

  /** A link becomes an anchor to `#` around the bracket text; the url is
      dropped. */
  lemma LinkDropsUrl(text: string, url: string)
    requires LinkPart(text) && LinkPart(url)
    ensures ParseMarkdown(LinkText(text, url)) == LinkTag(text)
  {
    var s := LinkText(text, url);
    var u := LinkTag(text);
    assert '<' !in s && '>' !in s;
    ImageRuleSkipsLink(text, url);
    LinkMatch(text, url);
    ReplaceWhole(Link, s, Match(|s|, u));
    LinkTagInert(text);
    ReplaceAllWithoutTrigger(Code, u);
    ReplaceAllWithoutTrigger(Bold, u);
    ReplaceAllWithoutTrigger(Italic, u);
    MarkupStages(s, u, u);
    LinkTagNoList(text);
    RenderStages(s, u);
  }

  /** The pair of an image that follows `pre`. */
  lemma FindPairAfter(pre: string, alt: string, url: string)
    requires LinkPart(alt) && LinkPart(url)
    ensures var s := pre + "![" + alt + "](" + url + ")";
      FindPair(s, |pre| + 2) == Some((|pre| + 2 + |alt|, |s| - 1)) &&
      s[|pre| + 2..|pre| + 2 + |alt|] == alt && s[|pre| + 4 + |alt|..|s| - 1] == url
  {
    var s := pre + "![" + alt + "](" + url + ")";
    PairShapeOf(pre + "![", alt, url);
    assert pre + "![" + alt + "](" + url + ")" == s;
    FindPairAt(s, |pre| + 2, |pre| + 2 + |alt|, |s| - 1);
  }

  /** The image rule matches the image wherever it starts. */
  lemma ImageMatchAfter(pre: string, alt: string, url: string)
    requires LinkPart(alt) && LinkPart(url)
    ensures MatchAt(Image, pre + ImageText(alt, url), |pre|)
      == Some(Match(|pre + ImageText(alt, url)|, ImageTag(url, alt)))
  {
    var s := pre + ImageText(alt, url);
    assert s == pre + "![" + alt + "](" + url + ")";
    FindPairAfter(pre, alt, url);
    assert s[|pre|..|pre| + 2] == "![";
    assert StartsAt(s, |pre|, "![");
  }

  /** Without `[` the image rule cannot start, even on a `!` right before
      the text that follows. */
  lemma ImageNoneBefore(pre: string, rest: string)
    requires '[' !in pre && |rest| > 0 && rest[0] == '!'
    ensures forall p :: 0 <= p < |pre| ==> MatchAt(Image, pre + rest, p).None?
  {
    var s := pre + rest;
    forall p | 0 <= p < |pre|
      ensures MatchAt(Image, s, p).None?
    {
      assert s[p + 1] == if p + 1 < |pre| then pre[p + 1] else rest[0];
      assert s[p..p + 2][1] == s[p + 1];
    }
  }

  /** With no `[` before it, the image rule fires at the image's `!` and
      nowhere earlier, and keeps the text before it. */
  lemma ImageRuleAfter(pre: string, alt: string, url: string)
    requires '[' !in pre && LinkPart(alt) && LinkPart(url)
    ensures ReplaceAll(Image, pre + ImageText(alt, url)) == pre + ImageTag(url, alt)
  {
    var s := pre + ImageText(alt, url);
    var m := Match(|s|, ImageTag(url, alt));
    ImageMatchAfter(pre, alt, url);
    ImageNoneBefore(pre, ImageText(alt, url));
    ReplaceFromAt(Image, s, 0, |pre|, m);
    assert s[0..|pre|] == pre;
  }

  /** Steps 2 to 8 on text without markup followed by an image. */
  lemma MarkupImageAfter(pre: string, alt: string, url: string)
    requires '[' !in pre && '`' !in pre && '*' !in pre && '&' !in pre
    requires LinkPart(alt) && LinkPart(url)
    ensures Markup(pre + ImageText(alt, url)) == pre + ImageTag(url, alt)
  {
    var u := pre + ImageTag(url, alt);
    ImageRuleAfter(pre, alt, url);
    ImageTagInert(url, alt);
    ReplaceAllWithoutTrigger(Link, u);
    ReplaceAllWithoutTrigger(Code, u);
    ReplaceAllWithoutTrigger(Bold, u);
    ReplaceAllWithoutTrigger(Italic, u);
    MarkupStages(pre + ImageText(alt, url), u, u);
  }

  /** A plain message followed by a blank line still holds no markup. */
  lemma BlankLineAfterPlain(msg: string)
    requires Plain(msg)
    ensures var pre := msg + "\n\n";
      '<' !in pre && '>' !in pre && '[' !in pre && '`' !in pre && '*' !in pre && '&' !in pre
  {
  }

  /** Image markup after text without angle brackets has none either. */
  lemma ImageTextNoAngle(pre: string, alt: string, url: string)
    requires '<' !in pre && '>' !in pre && LinkPart(alt) && LinkPart(url)
    ensures '<' !in pre + ImageText(alt, url) && '>' !in pre + ImageText(alt, url)
  {
    assert pre + ImageText(alt, url) == pre + "![" + alt + "](" + url + ")";
  }

  /** A message, a blank line and an image: the line feeds become breaks
      and the image an image element. */
  lemma ImageAfterBlankLine(msg: string, alt: string, url: string)
    requires Plain(msg) && LinkPart(alt) && LinkPart(url)
    ensures ParseMarkdown(msg + "\n\n" + ImageText(alt, url)) == msg + "<br><br>" + ImageTag(url, alt)
  {
    var pre := msg + "\n\n";
    var tag := ImageTag(url, alt);
    BlankLineAfterPlain(msg);
    ImageTextNoAngle(pre, alt, url);
    MarkupImageAfter(pre, alt, url);
    ImageTagLt(url, alt, 'l');
    LtNeverBeforePrepend(pre, tag, 'l');
    RenderStages(pre + ImageText(alt, url), pre + tag);
    ImageTagInert(url, alt);
    LineBreaksBeforeTag(msg, tag);
  }

  lemma TwoLineFeeds()
    ensures MapChars(LineBreak, "\n\n") == "<br><br>"
  {
    MapCharsAppend(LineBreak, "\n", "\n");
    assert "\n" + "\n" == "\n\n";
  }

  lemma LineBreaksBeforeTag(msg: string, tag: string)
    requires '\n' !in msg && '\n' !in tag
    ensures MapChars(LineBreak, msg + "\n\n" + tag) == msg + "<br><br>" + tag
  {
    MapCharsAppend(LineBreak, msg + "\n\n", tag);
    MapCharsAppend(LineBreak, msg, "\n\n");
    TwoLineFeeds();
  }
}
