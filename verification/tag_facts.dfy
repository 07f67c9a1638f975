/** Which characters the replacement templates contain, and where their
    `<`s are. Each class-string fact is about one character of one short
    literal, so that it stays cheap to check. */
module TagFacts {
  import opened TextSearch
  import opened MarkdownRules

  /** None of the characters the markup, list and line-break rules react
      to. */
  predicate Inert(t: string) {
    '[' !in t && '`' !in t && '*' !in t && '&' !in t && '\n' !in t
  }

  lemma ImageClassNoBracket() ensures '[' !in ImageClass { }
  lemma ImageClassNoBacktick() ensures '`' !in ImageClass { }
  lemma ImageClassNoStar() ensures '*' !in ImageClass { }
  lemma ImageClassNoAmp() ensures '&' !in ImageClass { }
  lemma ImageClassNoLineFeed() ensures '\n' !in ImageClass { }
  lemma ImageClassNoLt() ensures '<' !in ImageClass { }

  lemma LinkClassNoBracket() ensures '[' !in LinkClass { }
  lemma LinkClassNoBacktick() ensures '`' !in LinkClass { }
  lemma LinkClassNoStar() ensures '*' !in LinkClass { }
  lemma LinkClassNoAmp() ensures '&' !in LinkClass { }
  lemma LinkClassNoLineFeed() ensures '\n' !in LinkClass { }
  lemma LinkClassNoLt() ensures '<' !in LinkClass { }

  lemma BoldClassNoStar() ensures '*' !in BoldClass { }
  lemma BoldClassNoAmp() ensures '&' !in BoldClass { }
  lemma BoldClassNoLineFeed() ensures '\n' !in BoldClass { }
  lemma BoldClassNoLt() ensures '<' !in BoldClass { }

  lemma ItalicClassNoStar() ensures '*' !in ItalicClass { }
  lemma ItalicClassNoAmp() ensures '&' !in ItalicClass { }
  lemma ItalicClassNoLineFeed() ensures '\n' !in ItalicClass { }
  lemma ItalicClassNoLt() ensures '<' !in ItalicClass { }

  lemma QuoteClassNoStar() ensures '*' !in QuoteClass { }
  lemma QuoteClassNoLineFeed() ensures '\n' !in QuoteClass { }
  lemma QuoteClassNoLt() ensures '<' !in QuoteClass { }

  lemma ListItemClassNoLineFeed() ensures '\n' !in ListItemClass { }
  lemma ListItemClassNoLt() ensures '<' !in ListItemClass { }

  lemma ListClassNoLineFeed() ensures '\n' !in ListClass { }

  lemma ImageClassInert() ensures Inert(ImageClass) && '<' !in ImageClass
  {
    ImageClassNoBracket();
    ImageClassNoBacktick();
    ImageClassNoStar();
    ImageClassNoAmp();
    ImageClassNoLineFeed();
    ImageClassNoLt();
  }

  lemma LinkClassInert() ensures Inert(LinkClass) && '<' !in LinkClass
  {
    LinkClassNoBracket();
    LinkClassNoBacktick();
    LinkClassNoStar();
    LinkClassNoAmp();
    LinkClassNoLineFeed();
    LinkClassNoLt();
  }

  /** Every `<` in `t` is followed by a character other than `c`, so no
      tag name starting with `c` opens in `t`. */
  predicate LtNeverBefore(t: string, c: char) {
    forall i :: 0 <= i < |t| - 1 && t[i] == '<' ==> t[i + 1] != c
  }

  lemma LtNeverBeforeExcludes(t: string, c: char, pat: string)
    requires LtNeverBefore(t, c) && |pat| >= 2 && pat[0] == '<' && pat[1] == c
    ensures !Contains(t, pat)
  {
    forall i: nat | i + |pat| <= |t|
      ensures !StartsAt(t, i, pat)
    {
      assert t[i..i + |pat|][0] == t[i] && t[i..i + |pat|][1] == t[i + 1];
    }
  }

  /** A tag `<open body <close` in which `<` occurs only where shown. */
  lemma TagLtNeverBefore(open: string, body: string, close: string, c: char)
    requires |open| >= 1 && open[0] != c && '<' !in open
    requires |close| >= 1 && close[0] != c && '<' !in close
    requires '<' !in body
    ensures LtNeverBefore("<" + open + body + ("<" + close), c)
  {
    var t := "<" + open + body + ("<" + close);
    var mid := 1 + |open| + |body|;
    forall i | 0 < i < |t| && i != mid
      ensures t[i] != '<'
    {
      if i <= |open| {
        assert open[i - 1] == t[i];
      } else if i < mid {
        assert body[i - 1 - |open|] == t[i];
      } else {
        assert close[i - mid - 1] == t[i];
      }
    }
    assert t[1] == open[0] && t[mid + 1] == close[0];
  }

  /** A text `<rest` whose only `<` is the first character. */
  lemma LeadingLtNeverBefore(rest: string, c: char)
    requires |rest| >= 1 && rest[0] != c && '<' !in rest
    ensures LtNeverBefore("<" + rest, c)
  {
    var t := "<" + rest;
    forall i | 0 < i < |t|
      ensures t[i] != '<'
    {
      assert rest[i - 1] == t[i];
    }
  }

  lemma LtNeverBeforeAppend(x: string, y: string, c: char)
    requires LtNeverBefore(x, c) && '<' !in y
    requires x == [] || x[|x| - 1] != '<'
    ensures LtNeverBefore(x + y, c)
  {
    var t := x + y;
    forall i | |x| <= i < |t|
      ensures t[i] != '<'
    {
      assert y[i - |x|] == t[i];
    }
  }

  lemma LtNeverBeforePrepend(x: string, y: string, c: char)
    requires '<' !in x && LtNeverBefore(y, c)
    ensures LtNeverBefore(x + y, c)
  {
    var t := x + y;
    forall i | 0 <= i < |x|
      ensures t[i] != '<'
    {
      assert x[i] == t[i];
    }
    forall i | |x| <= i < |t| - 1 && t[i] == '<'
      ensures t[i + 1] != c
    {
      assert y[i - |x|] == t[i] && y[i - |x| + 1] == t[i + 1];
    }
  }

  lemma BoldTagNoList(b: string)
    requires '<' !in b
    ensures LtNeverBefore(BoldTag(b), 'l')
  {
    BoldClassNoLt();
    assert "</b>" == "<" + "/b>";
    TagLtNeverBefore("b class=\"" + BoldClass + "\">", b, "/b>", 'l');
  }

  lemma ItalicTagNoList(b: string)
    requires '<' !in b
    ensures LtNeverBefore(ItalicTag(b), 'l')
  {
    ItalicClassNoLt();
    assert "</i>" == "<" + "/i>";
    TagLtNeverBefore("i class=\"" + ItalicClass + "\">", b, "/i>", 'l');
  }

  lemma QuoteTagNoList(b: string)
    requires '<' !in b
    ensures LtNeverBefore(QuoteTag(b), 'l')
  {
    QuoteClassNoLt();
    assert "</blockquote>" == "<" + "/blockquote>";
    TagLtNeverBefore("blockquote class=\"" + QuoteClass + "\">", b, "/blockquote>", 'l');
  }

  /** The bold element adds no star, ampersand or line feed of its own. */
  lemma BoldTagChars(b: string)
    requires '*' !in b && '&' !in b && '\n' !in b
    ensures '*' !in BoldTag(b) && '&' !in BoldTag(b) && '\n' !in BoldTag(b)
  {
    BoldClassNoStar();
    BoldClassNoAmp();
    BoldClassNoLineFeed();
  }

  /** The italic element adds no star, ampersand or line feed of its own. */
  lemma ItalicTagChars(b: string)
    ensures '*' in ItalicTag(b) <==> '*' in b
    ensures '&' in ItalicTag(b) <==> '&' in b
    ensures '\n' in ItalicTag(b) <==> '\n' in b
  {
    ItalicClassNoStar();
    ItalicClassNoAmp();
    ItalicClassNoLineFeed();
  }

  lemma ItalicOpenNoLineFeed() ensures '\n' !in ItalicOpen
  {
    ItalicClassNoLineFeed();
  }

  /** The blockquote element adds no star or line feed of its own. */
  lemma QuoteTagChars(x: string)
    requires '*' !in x && '\n' !in x
    ensures '*' !in QuoteTag(x) && '\n' !in QuoteTag(x)
  {
    QuoteClassNoStar();
    QuoteClassNoLineFeed();
  }

  lemma ImageTagNoMarkup(url: string, alt: string)
    requires Inert(url) && Inert(alt)
    ensures '[' !in ImageTag(url, alt) && '`' !in ImageTag(url, alt) && '*' !in ImageTag(url, alt)
  {
    ImageClassInert();
  }

  lemma ImageTagNoBreak(url: string, alt: string)
    requires Inert(url) && Inert(alt)
    ensures '&' !in ImageTag(url, alt) && '\n' !in ImageTag(url, alt)
  {
    ImageClassInert();
  }

  lemma ImageTagInert(url: string, alt: string)
    requires Inert(url) && Inert(alt)
    ensures Inert(ImageTag(url, alt))
  {
    ImageTagNoMarkup(url, alt);
    ImageTagNoBreak(url, alt);
  }

  /** The image element's only `<` opens `<img`. */
  lemma ImageTagLt(url: string, alt: string, c: char)
    requires '<' !in url && '<' !in alt && c != 'i'
    ensures LtNeverBefore(ImageTag(url, alt), c)
  {
    ImageClassInert();
    LeadingLtNeverBefore("img src=\"" + url + "\" alt=\"" + alt + "\" class=\"" + ImageClass + "\" />", c);
  }

  lemma LinkTagNoMarkup(text: string)
    requires Inert(text)
    ensures '[' !in LinkTag(text) && '`' !in LinkTag(text) && '*' !in LinkTag(text)
  {
    LinkClassInert();
  }

  lemma LinkTagNoBreak(text: string)
    requires Inert(text)
    ensures '&' !in LinkTag(text) && '\n' !in LinkTag(text)
  {
    LinkClassInert();
  }

  lemma LinkTagInert(text: string)
    requires Inert(text)
    ensures Inert(LinkTag(text))
  {
    LinkTagNoMarkup(text);
    LinkTagNoBreak(text);
  }

  /** The anchor's `<`s open `<a` and `</a>`. */
  lemma LinkTagNoList(text: string)
    requires '<' !in text
    ensures LtNeverBefore(LinkTag(text), 'l')
  {
    LinkClassInert();
    assert "</a>" == "<" + "/a>";
    TagLtNeverBefore("a href=\"#\" class=\"" + LinkClass + "\">", text, "/a>", 'l');
  }

  lemma ListOpenNoLineFeed() ensures '\n' !in ListOpen && '\n' !in ListItemOpen
  {
    ListClassNoLineFeed();
    ListItemClassNoLineFeed();
  }

  /** The list item element opens with `<li` and closes with `</li>`. */
  lemma ListItemTagEnds(x: string)
    ensures StartsAt(ListItemTag(x), 0, "<li")
    ensures StartsAt(ListItemTag(x), |ListItemTag(x)| - 5, "</li>")
    ensures |ListItemTag(x)| >= 8
  {
    var u := ListItemTag(x);
    assert u[..3] == "<li";
    assert u[|u| - 5..] == "</li>";
  }
}
