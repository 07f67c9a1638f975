/** `parseMarkdown` of the renderer component: ten fixed-order
    substitutions from raw text to an HTML string. */
module Markdown {
  import opened Wrappers
  import opened TextSearch
  import opened MarkdownRules

  /** Step 1: every `<` becomes `&lt;`, then every `>` becomes `&gt;`. */
  function Escape(input: string): string {
    ReplaceAll(EscapeGt, ReplaceAll(EscapeLt, input))
  }

  /** Steps 2 to 8, in source order: image, link, inline code, bold,
      italic, blockquote, list item. */
  function Markup(escaped: string): string {
    var images := ReplaceAll(Image, escaped);
    var links := ReplaceAll(Link, images);
    var code := ReplaceAll(Code, links);
    var bold := ReplaceAll(Bold, code);
    var italic := ReplaceAll(Italic, bold);
    var quotes := ReplaceAll(Quote, italic);
    ReplaceAll(ListItem, quotes)
  }

  /** Steps 2 to 4 leave a text without brackets and backticks alone. */
  lemma LinkStagesWithoutTriggers(s: string)
    requires '[' !in s && '`' !in s
    ensures ReplaceAll(Code, ReplaceAll(Link, ReplaceAll(Image, s))) == s
  {
    ReplaceAllWithoutTrigger(Image, s);
    ReplaceAllWithoutTrigger(Link, s);
    ReplaceAllWithoutTrigger(Code, s);
  }

  /** A text holding none of the markup rules' trigger characters. */
  lemma MarkupWithoutTriggers(s: string)
    requires '[' !in s && '`' !in s && '*' !in s && '&' !in s
    ensures Markup(s) == s
  {
    ReplaceAllWithoutTrigger(Image, s);
    ReplaceAllWithoutTrigger(Link, s);
    ReplaceAllWithoutTrigger(Code, s);
    ReplaceAllWithoutTrigger(Bold, s);
    ReplaceAllWithoutTrigger(Italic, s);
    ReplaceAllWithoutTrigger(Quote, s);
    ReplaceAllWithoutTrigger(ListItem, s);
  }

  /** Step 9: only when the text includes `<li`, wrap the span from the
      first `<li` to the last `</li>` in one list element. */
  function WrapLists(s: string): string {
    if Contains(s, "<li") then ReplaceAll(ListWrap, s) else s
  }

  /** The whole renderer: escape, markup rules, list wrap, and last the
      line breaks. */
  function ParseMarkdown(input: string): string {
    ReplaceAll(LineBreak, WrapLists(Markup(Escape(input))))
  }

  /** An independent, character-at-a-time statement of step 1. */
  function EscapeChar(c: char): string {
    if c == '<' then "&lt;" else if c == '>' then "&gt;" else [c]
  }

  function EscapeChars(s: string): (r: string)
    ensures '<' !in r && '>' !in r
    ensures '<' !in s && '>' !in s ==> r == s
  {
    if s == [] then [] else EscapeChar(s[0]) + EscapeChars(s[1..])
  }

  lemma {:induction false} EscapeCharsAppend(a: string, b: string)
    ensures EscapeChars(a + b) == EscapeChars(a) + EscapeChars(b)
  {
    if a == [] {
      assert a + b == b;
    } else {
      assert (a + b)[0] == a[0] && (a + b)[1..] == a[1..] + b;
      EscapeCharsAppend(a[1..], b);
    }
  }

  lemma {:induction false} EscapeTwoPasses(s: string)
    ensures MapChars(EscapeGt, MapChars(EscapeLt, s)) == EscapeChars(s)
  {
    if s != [] {
      EscapeTwoPasses(s[1..]);
      MapCharsAppend(EscapeGt, CharImage(EscapeLt, s[0]), MapChars(EscapeLt, s[1..]));
      if s[0] == '<' {
        assert MapChars(EscapeGt, "&lt;") == "&lt;";
      }
    }
  }

  /** Step 1 replaces each angle bracket by its entity and keeps every other
      character, so no raw angle bracket reaches the later rules. */
  lemma EscapeSpec(s: string)
    ensures Escape(s) == EscapeChars(s)
    ensures '<' !in Escape(s) && '>' !in Escape(s)
  {
    ReplaceFromCharRule(EscapeLt, s, 0);
    ReplaceFromCharRule(EscapeGt, ReplaceAll(EscapeLt, s), 0);
    EscapeTwoPasses(s);
  }

  /** Reads `&lt;` and `&gt;` back as angle brackets. */
  function Unescape(t: string): string
    decreases |t|
  {
    if t == [] then []
    else if StartsAt(t, 0, "&lt;") then ['<'] + Unescape(t[4..])
    else if StartsAt(t, 0, "&gt;") then ['>'] + Unescape(t[4..])
    else [t[0]] + Unescape(t[1..])
  }

  lemma UnescapePlainHead(c: char, rest: string)
    requires c != '&'
    ensures Unescape([c] + rest) == [c] + Unescape(rest)
  {
    var t := [c] + rest;
    assert !StartsAt(t, 0, "&lt;") && !StartsAt(t, 0, "&gt;") by {
      assert t[0] == c;
    }
    assert t[1..] == rest;
  }

  lemma UnescapeEntityHead(c: char, rest: string)
    requires c == '<' || c == '>'
    ensures Unescape(EscapeChar(c) + rest) == [c] + Unescape(rest)
  {
    var t := EscapeChar(c) + rest;
    assert t[..4] == EscapeChar(c) && t[4..] == rest;
  }

  lemma {:induction false} UnescapeEscapeChars(s: string)
    requires '&' !in s
    ensures Unescape(EscapeChars(s)) == s
  {
    if s != [] {
      var c, tail := s[0], s[1..];
      assert s == [c] + tail;
      assert '&' !in tail;
      UnescapeEscapeChars(tail);
      var rest := EscapeChars(tail);
      assert EscapeChars(s) == EscapeChar(c) + rest;
      if c == '<' || c == '>' {
        UnescapeEntityHead(c, rest);
      } else {
        assert EscapeChar(c) == [c];
        UnescapePlainHead(c, rest);
      }
    }
  }

  /** Only `<` and `>` are escaped, so the escaping can be undone exactly
      when the input holds no `&` of its own. */
  lemma EscapeRoundTrip(s: string)
    requires '&' !in s
    ensures Unescape(Escape(s)) == s
  {
    EscapeSpec(s);
    UnescapeEscapeChars(s);
  }

  /** Escaping is not injective: a typed `&lt;` renders like a typed `<`. */
  lemma EscapeConflatesEntity()
    ensures Escape("<") == Escape("&lt;") == "&lt;"
  {
    EscapeSpec("<");
    EscapeSpec("&lt;");
    assert EscapeChars("&lt;") == "&" + EscapeChars("lt;");
    assert EscapeChars("lt;") == "l" + EscapeChars("t;");
    assert EscapeChars("t;") == "t" + EscapeChars(";");
  }

  /** A `</li>` that starts after a `<li` starts at least three characters
      after it: its `<` cannot be the `l` or the `i`. */
  lemma ListTagsApart(s: string, p: nat, q: nat)
    requires StartsAt(s, p, "<li") && StartsAt(s, q, "</li>") && p < q
    ensures p + 3 <= q
  {
    assert s[q] == '<' && s[p + 1] == 'l' && s[p + 2] == 'i';
  }

  /** When the text has a `<li` followed by a `</li>`, exactly one list
      element is inserted: it opens before the first `<li` and closes after
      the last `</li>`; the rest is untouched. */
  lemma WrapListsSpan(s: string, p: nat, q: nat)
    requires StartsAt(s, p, "<li") && forall j: nat :: j < p ==> !StartsAt(s, j, "<li")
    requires StartsAt(s, q, "</li>") && forall j: nat :: q < j ==> !StartsAt(s, j, "</li>")
    requires p < q
    ensures WrapLists(s) == s[..p] + ListTag(s[p..q + 5]) + s[q + 5..]
  {
    ListTagsApart(s, p, q);
    assert Contains(s, "<li");
    ListWrapReplace(s, p, q);
  }

  lemma ListWrapReplace(s: string, p: nat, q: nat)
    requires StartsAt(s, p, "<li") && forall j: nat :: j < p ==> !StartsAt(s, j, "<li")
    requires StartsAt(s, q, "</li>") && forall j: nat :: q < j ==> !StartsAt(s, j, "</li>")
    requires p + 3 <= q
    ensures ReplaceAll(ListWrap, s) == s[..p] + ListTag(s[p..q + 5]) + s[q + 5..]
  {
    var m := Match(q + 5, ListTag(s[p..q + 5]));
    ListWrapNoneBefore(s, p);
    ListWrapAt(s, p, q);
    ReplaceFromAt(ListWrap, s, 0, p, m);
    ListWrapNoneAfter(s, q);
    ReplaceFromNoMatch(ListWrap, s, q + 5);
    assert s[0..p] == s[..p];
    ReplaceTail(ReplaceFrom(ListWrap, s, 0), s[..p] + m.text, ReplaceFrom(ListWrap, s, q + 5), s[q + 5..]);
  }

  /** No list match starts before the first `<li`. */
  lemma ListWrapNoneBefore(s: string, p: nat)
    requires p <= |s| && forall j: nat :: j < p ==> !StartsAt(s, j, "<li")
    ensures forall j :: 0 <= j < p ==> MatchAt(ListWrap, s, j).None?
  {
    forall j | 0 <= j < p
      ensures MatchAt(ListWrap, s, j).None?
    {
      assert !StartsAt(s, j, "<li");
    }
  }

  /** At a `<li` the greedy dotAll run reaches the last `</li>`. */
  lemma ListWrapAt(s: string, p: nat, q: nat)
    requires StartsAt(s, p, "<li") && p + 3 <= q
    requires StartsAt(s, q, "</li>") && forall j: nat :: q < j ==> !StartsAt(s, j, "</li>")
    ensures MatchAt(ListWrap, s, p) == Some(Match(q + 5, ListTag(s[p..q + 5])))
  {
    FindLastSpec(s, p + 3, "</li>");
    assert FindLast(s, p + 3, "</li>") == Some(q);
  }

  /** After the last `</li>` no list match starts. */
  lemma ListWrapNoneAfter(s: string, q: nat)
    requires forall j: nat :: q < j ==> !StartsAt(s, j, "</li>")
    ensures forall j :: q + 5 <= j < |s| ==> MatchAt(ListWrap, s, j).None?
  {
    forall j | q + 5 <= j < |s|
      ensures MatchAt(ListWrap, s, j).None?
    {
      if StartsAt(s, j, "<li") {
        FindLastSpec(s, j + 3, "</li>");
      }
    }
  }

  /** A text without `<` has no list items to wrap. */
  lemma WrapListsWithoutLt(s: string)
    requires '<' !in s
    ensures WrapLists(s) == s
  {
    forall i: nat | i + 3 <= |s|
      ensures !StartsAt(s, i, "<li")
    {
      assert s[i..i + 3][0] == s[i];
    }
  }

  /** Without a `<li` that some later `</li>` closes, step 9 changes nothing. */
  lemma WrapListsNoSpan(s: string)
    requires forall p: nat, q: nat :: StartsAt(s, p, "<li") && StartsAt(s, q, "</li>") ==> q < p + 3
    ensures WrapLists(s) == s
  {
    forall j | 0 <= j < |s|
      ensures MatchAt(ListWrap, s, j).None?
    {
      if StartsAt(s, j, "<li") {
        FindLastSpec(s, j + 3, "</li>");
        assert FindLast(s, j + 3, "</li>").None?;
      }
    }
    ReplaceFromNoMatch(ListWrap, s, 0);
  }

  /** Line breaks are converted last, so the output has no newline: each
      newline of the text before step 10 became `<br>`. */
  lemma LineBreaksLast(input: string)
    ensures ParseMarkdown(input) == MapChars(LineBreak, WrapLists(Markup(Escape(input))))
    ensures '\n' !in ParseMarkdown(input)
  {
    ReplaceFromCharRule(LineBreak, WrapLists(Markup(Escape(input))), 0);
  }
}
