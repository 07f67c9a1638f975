/** The two line rules on a one-line text: a `> ` line becomes a
    blockquote, and a `* ` line becomes a list item that step 9 then wraps
    in a list of its own. */
module MarkdownLines {
  import opened Wrappers
  import opened TextSearch
  import opened MarkdownRules
  import opened Markdown
  import opened MarkdownExamples
  import opened TagFacts

  /** Steps 9 and 10 on a markup result without line feeds and without a
      `<li`: nothing changes. */
  lemma RenderEscaped(input: string, e: string, u: string)
    requires Escape(input) == e && Markup(e) == u
    requires LtNeverBefore(u, 'l') && '\n' !in u
    ensures ParseMarkdown(input) == u
  {
    WrapListsWithoutItems(u);
    RenderWrapped(input, e, u, u);
  }

  /** Step 1 on `> x`: the `>` that marks a quote is escaped, so the
      quote rule looks for `&gt; `. */
  lemma EscapeQuoteMarker(x: string)
    requires '<' !in x && '>' !in x
    ensures Escape("> " + x) == "&gt; " + x
  {
    EscapeSpec("> " + x);
    EscapeCharsAppend(">", " " + x);
    assert EscapeChars(">") == "&gt;" + EscapeChars([]);
    assert "&gt;" + (" " + x) == "&gt; " + x;
  }

  /** The quote rule takes the whole line after the marker. */
  lemma QuoteRuleLine(x: string)
    requires NoLineTerminator(x)
    ensures ReplaceAll(Quote, "&gt; " + x) == QuoteTag(x)
  {
    var e := "&gt; " + x;
    forall k | 5 <= k < |e|
      ensures !IsLineTerminator(e[k])
    {
      assert e[k] == x[k - 5];
    }
    assert LineEnd(e, 5) == |e|;
    assert e[5..|e|] == x;
    assert StartsAt(e, 0, "&gt; ");
    assert MatchAt(Quote, e, 0) == Some(Match(|e|, QuoteOpen + x + "</blockquote>"));
    ReplaceWhole(Quote, e, Match(|e|, QuoteTag(x)));
  }

  /** Steps 2 to 8 on `&gt; x`: only the quote rule fires. */
  lemma MarkupQuote(x: string)
    requires Plain(x)
    ensures Markup("&gt; " + x) == QuoteTag(x)
  {
    var e := "&gt; " + x;
    var u := QuoteTag(x);
    assert '[' !in e && '`' !in e && '*' !in e;
    LinkStagesWithoutTriggers(e);
    ReplaceAllWithoutTrigger(Bold, e);
    ReplaceAllWithoutTrigger(Italic, e);
    QuoteRuleLine(x);
    QuoteTagChars(x);
    ReplaceAllWithoutTrigger(ListItem, u);
  }

  /** A line starting `> ` renders as one blockquote holding the rest of
      the line, although step 1 has already turned its `>` into `&gt;`. */
  lemma QuoteLine(x: string)
    requires Plain(x)
    ensures ParseMarkdown("> " + x) == QuoteTag(x)
  {
    EscapeQuoteMarker(x);
    MarkupQuote(x);
    QuoteTagNoList(x);
    QuoteTagChars(x);
    RenderEscaped("> " + x, "&gt; " + x, QuoteTag(x));
  }

  /** A text whose only star is its first character: the italic rule
      needs two. */
  lemma ItalicSingleStar(s: string)
    requires 0 < |s| && forall i :: 0 < i < |s| ==> s[i] != '*'
    ensures ReplaceAll(Italic, s) == s
  {
    forall p | 0 <= p < |s|
      ensures MatchAt(Italic, s, p).None?
    {
      assert FindStar(s, 1).None?;
      if p + 1 < |s| {
        assert FindStarRun(s, p + 1).None?;
      }
    }
    ReplaceFromNoMatch(Italic, s, 0);
  }

  /** The list-item rule takes the whole line after the marker. */
  lemma ListItemRuleLine(x: string)
    requires NoLineTerminator(x)
    ensures ReplaceAll(ListItem, "* " + x) == ListItemTag(x)
  {
    var s := "* " + x;
    forall k | 2 <= k < |s|
      ensures !IsLineTerminator(s[k])
    {
      assert s[k] == x[k - 2];
    }
    assert LineEnd(s, 2) == |s|;
    assert s[2..|s|] == x;
    assert StartsAt(s, 0, "* ");
    assert MatchAt(ListItem, s, 0) == Some(Match(|s|, ListItemOpen + x + "</li>"));
    ReplaceWhole(ListItem, s, Match(|s|, ListItemTag(x)));
  }

  /** Steps 2 to 8 on `* x`: the lone star is left to the list-item rule. */
  lemma MarkupListItem(x: string)
    requires Plain(x)
    ensures Markup("* " + x) == ListItemTag(x)
  {
    var s := "* " + x;
    assert '[' !in s && '`' !in s && '&' !in s;
    forall i | 0 < i < |s|
      ensures s[i] != '*'
    {
      if i > 1 {
        assert s[i] == x[i - 2];
      }
    }
    assert NoDoubleStar(s);
    LinkStagesWithoutTriggers(s);
    BoldWithoutDoubleStar(s);
    ItalicSingleStar(s);
    ReplaceAllWithoutTrigger(Quote, s);
    ListItemRuleLine(x);
  }

  /** Step 9 on a single list item: the list element encloses all of it. */
  lemma WrapOneItem(x: string)
    ensures WrapLists(ListItemTag(x)) == ListTag(ListItemTag(x))
  {
    ListItemTagEnds(x);
    WrapWhole(ListItemTag(x));
  }

  /** A text that opens with `<li` and closes with `</li>` is wrapped whole. */
  lemma WrapWhole(u: string)
    requires |u| >= 8 && StartsAt(u, 0, "<li") && StartsAt(u, |u| - 5, "</li>")
    ensures WrapLists(u) == ListTag(u)
  {
    forall j: nat | |u| - 5 < j
      ensures !StartsAt(u, j, "</li>")
    {
    }
    WrapListsSpan(u, 0, |u| - 5);
    assert u[..0] == [] && u[0..|u|] == u && u[|u|..] == [];
    Unpad(WrapLists(u), u[..0], ListTag(u[0..|u|]), u[|u|..], ListTag(u));
  }

  lemma Unpad(x: string, a: string, m: string, c: string, y: string)
    requires x == a + m + c && a == [] && c == [] && m == y
    ensures x == y
  {
  }

  /** A line starting `* ` renders as a list with one item holding the
      rest of the line. */
  lemma ListItemWrapped(x: string)
    requires Plain(x)
    ensures ParseMarkdown("* " + x) == ListTag(ListItemTag(x))
  {
    var s := "* " + x;
    assert '<' !in s && '>' !in s;
    EscapeSpec(s);
    MarkupListItem(x);
    WrapOneItem(x);
    OneItemNoLineFeed(x);
    RenderWrapped(s, s, ListItemTag(x), ListTag(ListItemTag(x)));
  }

  /** Step 10 on a text without line feeds changes nothing. */
  lemma RenderWrapped(input: string, e: string, u: string, w: string)
    requires Escape(input) == e && Markup(e) == u && WrapLists(u) == w && '\n' !in w
    ensures ParseMarkdown(input) == w
  {
    ReplaceAllWithoutTrigger(LineBreak, w);
  }

  lemma OneItemNoLineFeed(x: string)
    requires '\n' !in x
    ensures '\n' !in ListTag(ListItemTag(x))
  {
    ListOpenNoLineFeed();
  }
}
