/** What the renderer does with the kinds of text the simulator types:
    plain text, bold, italic, images, links, quotes and list items, each
    followed through all ten substitutions. */
module MarkdownExamples {
  import opened Wrappers
  import opened TextSearch
  import opened MarkdownRules
  import opened Markdown
  import opened TagFacts

  predicate NoLineTerminator(t: string) {
    '\n' !in t && '\r' !in t && '\U{2028}' !in t && '\U{2029}' !in t
  }

  /** Text that no substitution reacts to. */
  predicate Plain(t: string) {
    '<' !in t && '>' !in t && '[' !in t && '`' !in t && '*' !in t && '&' !in t && NoLineTerminator(t)
  }

  /** Step 9 leaves a text alone when no `<` in it starts `<li`. */
  lemma WrapListsWithoutItems(t: string)
    requires LtNeverBefore(t, 'l')
    ensures WrapLists(t) == t
  {
    LtNeverBeforeExcludes(t, 'l', "<li");
  }

  /** Text without markup characters is rendered as itself. */
  lemma PlainPassesThrough(t: string)
    requires Plain(t)
    ensures ParseMarkdown(t) == t
  {
    EscapeSpec(t);
    MarkupWithoutTriggers(t);
    WrapListsWithoutLt(t);
    ReplaceAllWithoutTrigger(LineBreak, t);
  }

  /** An opening `**` that is never closed survives the bold and the italic
      rule with both asterisks, whatever star-free text follows it. */
  lemma UnterminatedBoldRules(t: string)
    requires '*' !in t
    ensures ReplaceAll(Bold, "**" + t) == "**" + t
    ensures ReplaceAll(Italic, "**" + t) == "**" + t
  {
    var s := "**" + t;
    assert s[2..] == t;
    forall j: nat | 2 <= j && j + 2 <= |s|
      ensures !StartsAt(s, j, "**")
    {
      assert s[j..j + 2][0] == s[j] == t[j - 2];
    }
    FindOnLineSpec(s, 2, "**");
    assert FindOnLine(s, 2, "**").None?;
    if |s| > 2 {
      assert s[2] == t[0];
    }
    assert MatchAt(Bold, s, 1).None?;
    ReplaceFromSkip(Bold, s, 0, 2);
    ReplaceFromWithoutTrigger(Bold, s, 2);
    assert s[1] == '*';
    assert forall lead: nat, k: nat :: !ItalicShape(s, 0, lead, k);
    ReplaceFromSkip(Italic, s, 0, 2);
    ReplaceFromWithoutTrigger(Italic, s, 2);
  }

  /** A line starting `**` is not a list item, and no other line starts
      in a star-free tail. */
  lemma ListItemSkipsDoubleStar(t: string)
    requires '*' !in t
    ensures ReplaceAll(ListItem, "**" + t) == "**" + t
  {
    var s := "**" + t;
    assert s[0..2] == "**";
    assert MatchAt(ListItem, s, 0).None?;
    assert MatchAt(ListItem, s, 1).None?;
    ReplaceFromSkip(ListItem, s, 0, 2);
    assert s[2..] == t;
    ReplaceFromWithoutTrigger(ListItem, s, 2);
  }

  lemma MarkupUnterminatedBold(t: string)
    requires '*' !in t && '[' !in t && '`' !in t && '&' !in t
    ensures Markup("**" + t) == "**" + t
  {
    var s := "**" + t;
    assert '[' !in s && '`' !in s && '&' !in s;
    LinkStagesWithoutTriggers(s);
    UnterminatedBoldRules(t);
    ReplaceAllWithoutTrigger(Quote, s);
    ListItemSkipsDoubleStar(t);
  }

  /** A `**` with no closing pair renders as the literal text, both stars
      included. */
  lemma UnterminatedBoldIsLiteral(t: string)
    requires Plain(t)
    ensures ParseMarkdown("**" + t) == "**" + t
  {
    var s := "**" + t;
    assert '<' !in s && '>' !in s && '\n' !in s;
    MarkupUnterminatedBold(t);
    assert LtNeverBefore(s, 'l');
    RenderStages(s, s);
  }

  /** No bold match starts inside a star-free prefix. */
  lemma BoldNoneInPrefix(s: string, a: string)
    requires a <= s && '*' !in a
    ensures forall p :: 0 <= p < |a| ==> MatchAt(Bold, s, p).None?
  {
    forall p | 0 <= p < |a|
      ensures MatchAt(Bold, s, p).None?
    {
      assert s[p] == a[p];
      if p + 2 <= |s| {
        assert s[p..p + 2][0] == s[p];
      }
    }
  }

  /** The bold match at `open` when the first `**` after it on the same
      line starts at `close`. */
  lemma BoldMatchAt(s: string, open: nat, close: nat)
    requires open + 2 <= close && StartsAt(s, open, "**") && StartsAt(s, close, "**")
    requires OnOneLine(s, open + 2, close)
    requires forall j :: open + 2 <= j < close ==> !StartsAt(s, j, "**")
    ensures MatchAt(Bold, s, open) == Some(Match(close + 2, BoldTag(s[open + 2..close])))
  {
    FindOnLineSpec(s, open + 2, "**");
    assert FindOnLine(s, open + 2, "**") == Some(close);
  }

  /** The positions of `**b**` inside `a**b**c`. */
  lemma BoldSpanShape(a: string, b: string, c: string)
    requires '*' !in b && NoLineTerminator(b)
    ensures var s := a + "**" + b + "**" + c;
      var open, close := |a|, |a| + 2 + |b|;
      StartsAt(s, open, "**") && StartsAt(s, close, "**") && OnOneLine(s, open + 2, close) &&
      (forall j :: open + 2 <= j < close ==> !StartsAt(s, j, "**")) &&
      s[open + 2..close] == b && s[..open] == a && s[close + 2..] == c
  {
    var s := a + "**" + b + "**" + c;
    var open, close := |a|, |a| + 2 + |b|;
    forall j | open + 2 <= j < close
      ensures !StartsAt(s, j, "**") && !IsLineTerminator(s[j])
    {
      assert s[j] == b[j - open - 2];
      if j + 2 <= |s| {
        assert s[j..j + 2][0] == s[j];
      }
    }
    assert s[open..open + 2] == "**";
    assert s[close..close + 2] == "**";
    assert s[open + 2..close] == b;
    assert s[..open] == a && s[close + 2..] == c;
  }

  /** `**b**` on one line becomes a bold element around `b`; the text
      around it is untouched. */
  lemma BoldRuleSpan(a: string, b: string, c: string)
    requires '*' !in a && '*' !in b && '*' !in c && NoLineTerminator(b)
    ensures ReplaceAll(Bold, a + "**" + b + "**" + c) == a + BoldTag(b) + c
  {
    var s := a + "**" + b + "**" + c;
    var close := |a| + 2 + |b|;
    BoldSpanMatch(a, b, c);
    ReplaceFromWithoutTrigger(Bold, s, close + 2);
    ReplaceOneMatch(Bold, s, |a|, Match(close + 2, BoldTag(b)), c);
  }

  /** Where the bold rule matches in `a**b**c`, and what surrounds the match. */
  lemma BoldSpanMatch(a: string, b: string, c: string)
    requires '*' !in a && '*' !in b && NoLineTerminator(b)
    ensures var s := a + "**" + b + "**" + c;
      var close := |a| + 2 + |b|;
      (forall p :: 0 <= p < |a| ==> MatchAt(Bold, s, p).None?) &&
      MatchAt(Bold, s, |a|) == Some(Match(close + 2, BoldTag(b))) &&
      s[..|a|] == a && s[close + 2..] == c
  {
    var s := a + "**" + b + "**" + c;
    var open, close := |a|, |a| + 2 + |b|;
    BoldSpanShape(a, b, c);
    assert a <= s;
    BoldNoneInPrefix(s, a);
    BoldMatchAt(s, open, close);
  }

  lemma MarkupBoldSpan(a: string, b: string, c: string)
    requires Plain(a) && Plain(b) && Plain(c)
    ensures Markup(a + "**" + b + "**" + c) == a + BoldTag(b) + c
  {
    var s := a + "**" + b + "**" + c;
    var u := a + BoldTag(b) + c;
    assert '[' !in s && '`' !in s;
    LinkStagesWithoutTriggers(s);
    BoldRuleSpan(a, b, c);
    BoldTagChars(b);
    assert '*' !in u;
    ReplaceAllWithoutTrigger(Italic, u);
    MarkupStages(s, u, u);
  }

  /** For input without angle brackets whose markup result `u` holds no
      list item, the output is `u` with line feeds turned into `<br>`. */
  lemma RenderStages(input: string, u: string)
    requires '<' !in input && '>' !in input
    requires Markup(input) == u && LtNeverBefore(u, 'l')
    ensures ParseMarkdown(input) == MapChars(LineBreak, u)
  {
    EscapeSpec(input);
    WrapListsWithoutItems(u);
    ReplaceFromCharRule(LineBreak, u, 0);
    assert u[0..] == u;
  }

  lemma BoldSpanNoList(a: string, b: string, c: string)
    requires Plain(a) && Plain(b) && Plain(c)
    ensures LtNeverBefore(a + BoldTag(b) + c, 'l')
  {
    BoldTagNoList(b);
    LtNeverBeforeAppend(BoldTag(b), c, 'l');
    LtNeverBeforePrepend(a, BoldTag(b) + c, 'l');
    assert a + (BoldTag(b) + c) == a + BoldTag(b) + c;
  }

  /** `a **b** c` renders `b` bold between the untouched `a` and `c`, with
      no asterisk left. */
  lemma BoldSpanRenders(a: string, b: string, c: string)
    requires Plain(a) && Plain(b) && Plain(c)
    ensures ParseMarkdown(a + "**" + b + "**" + c) == a + BoldTag(b) + c
    ensures '*' !in ParseMarkdown(a + "**" + b + "**" + c)
  {
    var s := a + "**" + b + "**" + c;
    var u := a + BoldTag(b) + c;
    assert '<' !in s && '>' !in s;
    MarkupBoldSpan(a, b, c);
    BoldSpanNoList(a, b, c);
    RenderStages(s, u);
    BoldTagChars(b);
    assert '\n' !in u && '*' !in u;
  }

  lemma BoldExample()
    ensures ParseMarkdown("a **b** c") == "a " + BoldTag("b") + " c"
    ensures '*' !in ParseMarkdown("a **b** c")
  {
    assert "a **b** c" == "a " + "**" + "b" + "**" + " c";
    BoldSpanRenders("a ", "b", " c");
  }

  lemma UnterminatedBoldExample()
    ensures ParseMarkdown("**bold") == "**bold"
  {
    assert "**bold" == "**" + "bold";
    UnterminatedBoldIsLiteral("bold");
  }

  /** Concatenation regrouped over opaque parts, so that the solver
      does not look inside the tags. */
  lemma Regroup(x: string, y: string, z: string, w: string)
    ensures x + (y + z) + w == (x + y) + z + w
  {
  }

  lemma StarShapeUnique(s: string, q: nat, k1: nat, k2: nat)
    requires StarShape(s, q, k1) && StarShape(s, q, k2)
    ensures k1 == k2
  {
  }

  /** At the start of the text the `^` alternative wins: the whole
      `*X*` is replaced and nothing is kept in front. */
  lemma ItalicMatchAtStart(s: string, k: nat)
    requires StarShape(s, 0, k)
    ensures MatchAt(Italic, s, 0) == Some(Match(k + 1, ItalicTag(s[1..k])))
  {
    assert ItalicShape(s, 0, 0, k);
    var r := FindItalic(s, 0);
    FindItalicSpec(s, 0);
    assert r.Some? && r.value.0 == 0;
    StarShapeUnique(s, 0, r.value.1, k);
    assert s[0..0] + ItalicTag(s[1..k]) == ItalicTag(s[1..k]);
    assert MatchItalic(s, 0) == Some(Match(k + 1, ItalicTag(s[1..k])));
  }

  /** Elsewhere the non-star character in front of `*X*` is part of the
      match and is kept in the output. */
  lemma ItalicMatchAfter(s: string, p: nat, k: nat)
    requires p < |s| && s[p] != '*' && StarShape(s, p + 1, k)
    ensures MatchAt(Italic, s, p) == Some(Match(k + 1, [s[p]] + ItalicTag(s[p + 2..k])))
  {
    assert ItalicShape(s, p, 1, k);
    var r := FindItalic(s, p);
    FindItalicSpec(s, p);
    assert r.Some? && r.value.0 == 1;
    StarShapeUnique(s, p + 1, r.value.1, k);
    assert s[p..p + 1] == [s[p]];
  }

  /** No italic match starts at `p` when neither `s[p]` nor `s[p + 1]`
      is a star. */
  lemma ItalicNoneAt(s: string, p: nat)
    requires p < |s| && s[p] != '*' && (p + 1 < |s| ==> s[p + 1] != '*')
    ensures MatchAt(Italic, s, p).None?
  {
  }

  /** The shape of `a*b*c` with star-free parts and a non-empty `b`. */
  lemma ItalicSpanShape(a: string, b: string, c: string)
    requires '*' !in b && |b| >= 1
    ensures var s := a + "*" + b + "*" + c;
      StarShape(s, |a|, |a| + 1 + |b|) && s[|a| + 1..|a| + 1 + |b|] == b && s[|a| + 2 + |b|..] == c
  {
    var s := a + "*" + b + "*" + c;
    var k := |a| + 1 + |b|;
    assert s[|a|] == '*' && s[k] == '*';
    forall m | |a| < m < k
      ensures s[m] != '*'
    {
      assert s[m] == b[m - |a| - 1];
    }
    assert s[|a| + 1..k] == b;
    assert s[k + 1..] == c;
  }

  /** No italic match starts in a star-free prefix before its last
      character. */
  lemma ItalicNoneInPrefix(s: string, a: string)
    requires a <= s && '*' !in a && |a| >= 1
    ensures forall j :: 0 <= j < |a| - 1 ==> MatchAt(Italic, s, j).None?
  {
    forall j | 0 <= j < |a| - 1
      ensures MatchAt(Italic, s, j).None?
    {
      assert s[j] == a[j] && s[j + 1] == a[j + 1];
      ItalicNoneAt(s, j);
    }
  }

  lemma ItalicSpanAtStart(b: string, c: string)
    requires '*' !in b && '*' !in c && |b| >= 1
    ensures ReplaceAll(Italic, "*" + b + "*" + c) == ItalicTag(b) + c
  {
    var s := [] + "*" + b + "*" + c;
    var k := 1 + |b|;
    ItalicSpanShape([], b, c);
    ReplaceFromWithoutTrigger(Italic, s, k + 1);
    ItalicMatchAtStart(s, k);
    ReplaceFromAt(Italic, s, 0, 0, Match(k + 1, ItalicTag(b)));
    assert s == "*" + b + "*" + c;
  }

  /** A match at `p` that keeps `s[p]` in front of its replacement, after
      a stretch without matches. Stated for any rule, so that the solver
      does not unfold the rule's matcher. */
  lemma ReplaceFromKeepOne(rule: Rule, s: string, p: nat, end: nat, tag: string)
    requires p < |s|
    requires forall j :: 0 <= j < p ==> MatchAt(rule, s, j).None?
    requires MatchAt(rule, s, p) == Some(Match(end, [s[p]] + tag))
    ensures end <= |s|
    ensures ReplaceFrom(rule, s, 0) == s[..p + 1] + tag + ReplaceFrom(rule, s, end)
  {
    ReplaceFromAt(rule, s, 0, p, Match(end, [s[p]] + tag));
    assert s[0..p] + [s[p]] == s[..p + 1];
    Regroup(s[0..p], [s[p]], tag, ReplaceFrom(rule, s, end));
  }

  /** An italic match at `p`, after a stretch without matches, keeps
      everything up to and including `s[p]`. */
  lemma ItalicAfterPrefix(s: string, p: nat, k: nat)
    requires p < |s| && s[p] != '*' && StarShape(s, p + 1, k)
    requires forall j :: 0 <= j < p ==> MatchAt(Italic, s, j).None?
    ensures ReplaceFrom(Italic, s, 0) == s[..p + 1] + ItalicTag(s[p + 2..k]) + ReplaceFrom(Italic, s, k + 1)
  {
    ItalicMatchAfter(s, p, k);
    ReplaceFromKeepOne(Italic, s, p, k + 1, ItalicTag(s[p + 2..k]));
  }

  lemma ItalicSpanAfter(a: string, b: string, c: string)
    requires '*' !in a && '*' !in b && '*' !in c && |b| >= 1 && |a| >= 1
    ensures ReplaceAll(Italic, a + "*" + b + "*" + c) == a + ItalicTag(b) + c
  {
    var s := a + "*" + b + "*" + c;
    var p := |a| - 1;
    ItalicSpanShape(a, b, c);
    ReplaceFromWithoutTrigger(Italic, s, |a| + 2 + |b|);
    assert a <= s;
    ItalicNoneInPrefix(s, a);
    assert s[p] == a[p] && s[..p + 1] == a;
    ItalicAfterPrefix(s, p, |a| + 1 + |b|);
  }

  /** `a*b*c` with star-free parts and a non-empty `b` (which may span
      lines): `b` is set in italics and `a` and `c` are kept. */
  lemma ItalicRuleSpan(a: string, b: string, c: string)
    requires '*' !in a && '*' !in b && '*' !in c && |b| >= 1
    ensures ReplaceAll(Italic, a + "*" + b + "*" + c) == a + ItalicTag(b) + c
  {
    if a == [] {
      ItalicSpanAtStart(b, c);
      assert a + "*" + b + "*" + c == "*" + b + "*" + c;
    } else {
      ItalicSpanAfter(a, b, c);
    }
  }

  /** No star is directly followed by another. */
  predicate NoDoubleStar(s: string) {
    forall i :: 0 <= i < |s| - 1 && s[i] == '*' ==> s[i + 1] != '*'
  }

  lemma BoldWithoutDoubleStar(s: string)
    requires NoDoubleStar(s)
    ensures ReplaceAll(Bold, s) == s
  {
    forall p | 0 <= p < |s|
      ensures MatchAt(Bold, s, p).None?
    {
      if p + 2 <= |s| {
        assert s[p..p + 2][0] == s[p] && s[p..p + 2][1] == s[p + 1];
      }
    }
    ReplaceFromNoMatch(Bold, s, 0);
  }

  /** The two lines `* x` and `* y` as one text. */
  function TwoItems(x: string, y: string): string {
    "* " + x + "\n* " + y
  }

  lemma TwoItemsShape(x: string, y: string)
    requires Plain(x) && Plain(y)
    ensures TwoItems(x, y) == "*" + (" " + x + "\n") + "*" + (" " + y)
    ensures NoDoubleStar(TwoItems(x, y))
    ensures '<' !in TwoItems(x, y) && '>' !in TwoItems(x, y)
    ensures '[' !in TwoItems(x, y) && '`' !in TwoItems(x, y)
  {
    var s := TwoItems(x, y);
    assert s == "*" + (" " + x + "\n") + "*" + (" " + y);
    forall i | 0 <= i < |s| && i != 0 && i != |x| + 3
      ensures s[i] != '*'
    {
      if 2 <= i < |x| + 2 {
        assert s[i] == x[i - 2];
      } else if |x| + 5 <= i {
        assert s[i] == y[i - |x| - 5];
      }
    }
    assert s[1] == ' ' && s[|x| + 4] == ' ';
  }

  /** Steps 2 to 8 in three stages: the rules before italic, the italic
      rule, and the two line rules, which leave a text without stars and
      ampersands alone. */
  lemma MarkupStages(s: string, v: string, w: string)
    requires ReplaceAll(Bold, ReplaceAll(Code, ReplaceAll(Link, ReplaceAll(Image, s)))) == v
    requires ReplaceAll(Italic, v) == w && '*' !in w && '&' !in w
    ensures Markup(s) == w
  {
    ReplaceAllWithoutTrigger(Quote, w);
    ReplaceAllWithoutTrigger(ListItem, w);
  }

  lemma TwoItemsBeforeItalic(x: string, y: string)
    requires Plain(x) && Plain(y)
    ensures var s := TwoItems(x, y);
      ReplaceAll(Bold, ReplaceAll(Code, ReplaceAll(Link, ReplaceAll(Image, s)))) == s
  {
    var s := TwoItems(x, y);
    TwoItemsShape(x, y);
    LinkStagesWithoutTriggers(s);
    BoldWithoutDoubleStar(s);
  }

  /** Steps 2 to 8 on `* x\n* y`: the italic rule, which runs before the
      list-item rule and whose `[^*]+` crosses the line end, takes both
      stars. */
  lemma MarkupTwoItems(x: string, y: string)
    requires Plain(x) && Plain(y)
    ensures Markup(TwoItems(x, y)) == ItalicTag(" " + x + "\n") + (" " + y)
  {
    var s := TwoItems(x, y);
    var b, c := " " + x + "\n", " " + y;
    TwoItemsShape(x, y);
    TwoItemsBeforeItalic(x, y);
    ItalicSpanAtStart(b, c);
    ItalicTagChars(b);
    MarkupStages(s, s, ItalicTag(b) + c);
  }

  /** Step 10 on a text with one line feed. */
  lemma MapOneLineFeed(head: string, tail: string)
    requires '\n' !in head && '\n' !in tail
    ensures MapChars(LineBreak, head + "\n" + tail) == head + "<br>" + tail
  {
    MapCharsAppend(LineBreak, head + "\n", tail);
    MapCharsAppend(LineBreak, head, "\n");
    assert MapChars(LineBreak, "\n") == "<br>" by {
      assert "\n"[1..] == [];
    }
  }

  /** `open + (x + m) + close + c`, regrouped around `m`. */
  lemma RegroupAround(open: string, x: string, m: string, close: string, c: string)
    ensures open + (x + m) + close + c == (open + x) + m + (close + c)
  {
  }

  /** Step 10 on an italic element ending in a line feed: the line feed
      becomes `<br>` inside the element. */
  lemma ItalicLineFeed(x: string, c: string)
    requires '\n' !in x && '\n' !in c
    ensures MapChars(LineBreak, ItalicTag(x + "\n") + c) == ItalicTag(x + "<br>") + c
  {
    ItalicOpenNoLineFeed();
    RegroupAround(ItalicOpen, x, "\n", "</i>", c);
    RegroupAround(ItalicOpen, x, "<br>", "</i>", c);
    MapOneLineFeed(ItalicOpen + x, "</i>" + c);
  }

  /** Two lines starting `* ` do not become a list: the text between the
      two stars is set in italics, the line break inside it included. */
  lemma ItalicBeforeList(x: string, y: string)
    requires Plain(x) && Plain(y)
    ensures ParseMarkdown(TwoItems(x, y)) == ItalicTag(" " + x + "<br>") + (" " + y)
  {
    var u := ItalicTag(" " + x + "\n") + (" " + y);
    TwoItemsShape(x, y);
    MarkupTwoItems(x, y);
    ItalicTagNoList(" " + x + "\n");
    LtNeverBeforeAppend(ItalicTag(" " + x + "\n"), " " + y, 'l');
    RenderStages(TwoItems(x, y), u);
    ItalicLineFeed(" " + x, " " + y);
  }

  /** The text `* a`, line feed, `* b`. */
  lemma ItalicBeforeListExample(s: string)
    requires s == "* a\n* b"
    ensures ParseMarkdown(s) == ItalicTag(" " + "a" + "<br>") + (" " + "b")
  {
    assert s == TwoItems("a", "b");
    ItalicBeforeList("a", "b");
  }
}
