/** The ten substitutions of the markup renderer as rules of one global
    replace: each rule says what match (if any) its regular expression
    finds at a position, and `ReplaceAll` performs JavaScript's
    `String.prototype.replace` with the `g` flag — the leftmost match
    wins, scanning resumes at its end, and unmatched characters are copied. */
module MarkdownRules {
  import opened Wrappers
  import opened TextSearch

  // Class attributes of the replacement templates. They are opaque to the
  // model; each is written as a few short pieces.
  const ImageClass := "max-w-full h-auto rounded" + " border border-stone-300 my-2"
  const LinkClass := "text-blue-600 underline" + " hover:text-blue-800"
  const CodeClass := "bg-stone-200 text-red-600 px-1" + " py-0.5 rounded font-mono text-xs"
  const BoldClass := "text-[#3e2f1c] font-extrabold" + " bg-[#fff5d4] px-1 rounded-sm"
  const ItalicClass := "text-[#5c4033] italic"
  const QuoteClass := "border-r-4 border-[#d4a373] pr-3" + " my-2 text-[#8b7355] italic" + " bg-[#fffdf5] py-1"
  const ListItemClass := "list-disc mr-5 text-[#3e2f1c]" + " marker:text-[#d4a373]"
  const ListClass := "my-2 space-y-1"

  // Each opening tag is `<` followed by the tag name and the class
  // attribute; the two parts are kept apart so that facts about the part
  // after the `<` can be stated without unpacking the whole literal.
  const BoldOpen := "<" + ("b class=\"" + BoldClass + "\">")
  const ItalicOpen := "<" + ("i class=\"" + ItalicClass + "\">")
  const QuoteOpen := "<" + ("blockquote class=\"" + QuoteClass + "\">")
  const ListItemOpen := "<" + ("li class=\"" + ListItemClass + "\">")
  const ListOpen := "<" + ("ul class=\"" + ListClass + "\">")
  const LinkOpen := "<" + ("a href=\"#\" class=\"" + LinkClass + "\">")
  const CodeOpen := "<" + ("code class=\"" + CodeClass + "\">")

  /** `<img src="$2" alt="$1" class="…" />` */
  function ImageTag(url: string, alt: string): string {
    "<" + ("img src=\"" + url + "\" alt=\"" + alt + "\" class=\"" + ImageClass + "\" />")
  }

  /** `<a href="#" class="…">$1</a>`: the url capture is not used. */
  function LinkTag(text: string): string {
    LinkOpen + text + "</a>"
  }

  function CodeTag(text: string): string {
    CodeOpen + text + "</code>"
  }

  function BoldTag(text: string): string {
    BoldOpen + text + "</b>"
  }

  function ItalicTag(text: string): string {
    ItalicOpen + text + "</i>"
  }

  function QuoteTag(text: string): string {
    QuoteOpen + text + "</blockquote>"
  }

  function ListItemTag(text: string): string {
    ListItemOpen + text + "</li>"
  }

  function ListTag(items: string): string {
    ListOpen + items + "</ul>"
  }

  /** One substitution of the renderer, in pipeline order. */
  datatype Rule =
    | EscapeLt   // /</g           -> &lt;
    | EscapeGt   // />/g           -> &gt;
    | Image      // /!\[(.*?)\]\((.*?)\)/g
    | Link       // /\[(.*?)\]\((.*?)\)/g
    | Code       // /`(.*?)`/g
    | Bold       // /\*\*(.*?)\*\*/g
    | Italic     // /(^|[^*])\*([^*]+)\*/g
    | Quote      // /^&gt; (.*$)/gm
    | ListItem   // /^\* (.*$)/gm
    | ListWrap   // /(<li.*<\/li>)/gs
    | LineBreak  // /\n/g         -> <br>

  /** A match ends (exclusively) at `end` and is replaced by `text`. */
  datatype Match = Match(end: nat, text: string)

  /** A character every match of the rule contains; where it is absent the
      rule changes nothing. */
  function Trigger(rule: Rule): char {
    match rule
    case EscapeLt => '<'
    case EscapeGt => '>'
    case Image => '['
    case Link => '['
    case Code => '`'
    case Bold => '*'
    case Italic => '*'
    case Quote => '&'
    case ListItem => '*'
    case ListWrap => '<'
    case LineBreak => '\n'
  }

  /** The rules that replace one fixed character by a fixed string. */
  predicate IsCharRule(rule: Rule) {
    rule == EscapeLt || rule == EscapeGt || rule == LineBreak
  }

  function CharReplacement(rule: Rule): string
    requires IsCharRule(rule)
  {
    match rule
    case EscapeLt => "&lt;"
    case EscapeGt => "&gt;"
    case LineBreak => "<br>"
  }

  /** `(^|[^*])\*([^*]+)\*` matching at `p` with a first capture of length
      `lead` (the empty `^` alternative, or one non-star) and the closing
      star at `k`. */
  predicate ItalicShape(s: string, p: nat, lead: nat, k: nat) {
    ((lead == 0 && p == 0) || (lead == 1 && p < |s| && s[p] != '*')) && StarShape(s, p + lead, k)
  }

  /** The match of `(^|[^*])\*([^*]+)\*` at `p`, as (length of the first
      capture, closing star): the `^` alternative is tried before the
      non-star one, and the greedy `[^*]+` leaves no further choice. */
  function FindItalic(s: string, p: nat): (r: Option<(nat, nat)>)
    requires p < |s|
    ensures r.Some? ==> r.value.0 <= 1 && p + r.value.0 + 1 < r.value.1 < |s| && s[p + r.value.0] == '*'
  {
    var first := if p == 0 then FindStarRun(s, 0) else None;
    if first.Some? then Some((0, first.value))
    else if s[p] != '*' then
      match FindStarRun(s, p + 1)
      case Some(k) => Some((1, k))
      case None => None
    else None
  }

  /** The match found has the italic shape, the `^` alternative wins when
      both could match, and nothing is found only when no shape fits. */
  lemma FindItalicSpec(s: string, p: nat)
    requires p < |s|
    ensures var r := FindItalic(s, p);
      (r.Some? ==> ItalicShape(s, p, r.value.0, r.value.1)) &&
      (r.Some? && r.value.0 != 0 ==> forall k: nat :: !ItalicShape(s, p, 0, k)) &&
      (r.None? ==> forall lead: nat, k: nat :: !ItalicShape(s, p, lead, k))
  {
    FindStarRunSpec(s, 0);
    FindStarRunSpec(s, p + 1);
  }

  /** The match the rule's regular expression finds when its search is at
      index `p`, if any. */
  function MatchAt(rule: Rule, s: string, p: nat): (r: Option<Match>)
    requires p < |s|
    ensures r.Some? ==> p < r.value.end <= |s|
    ensures r.Some? ==> s[p] == Trigger(rule) || (p + 1 < r.value.end && s[p + 1] == Trigger(rule))
  {
    match rule
    case EscapeLt => MatchChar(rule, s, p)
    case EscapeGt => MatchChar(rule, s, p)
    case Image => MatchImage(s, p)
    case Link => MatchLink(s, p)
    case Code => MatchCode(s, p)
    case Bold => MatchBold(s, p)
    case Italic => MatchItalic(s, p)
    case Quote => MatchLine(s, p, "&gt; ", QuoteOpen, "</blockquote>")
    case ListItem => MatchLine(s, p, "* ", ListItemOpen, "</li>")
    case ListWrap => MatchListWrap(s, p)
    case LineBreak => MatchChar(rule, s, p)
  }

  /** `<` → `&lt;`, `>` → `&gt;`, `\n` → `<br>`. */
  function MatchChar(rule: Rule, s: string, p: nat): (r: Option<Match>)
    requires IsCharRule(rule) && p < |s|
    ensures r.Some? <==> s[p] == Trigger(rule)
    ensures r.Some? ==> r.value == Match(p + 1, CharReplacement(rule))
  {
    if s[p] == Trigger(rule) then Some(Match(p + 1, CharReplacement(rule))) else None
  }

  /** `!\[(.*?)\]\((.*?)\)` → `<img src="$2" alt="$1" …/>`. */
  function MatchImage(s: string, p: nat): (r: Option<Match>)
    requires p < |s|
    ensures r.Some? ==> p + 1 < r.value.end <= |s| && s[p + 1] == '['
  {
    if StartsAt(s, p, "![") then
      match FindPair(s, p + 2)
      case Some((q, e)) =>
        assert s[p + 1] == s[p..p + 2][1];
        Some(Match(e + 1, ImageTag(s[q + 2..e], s[p + 2..q])))
      case None => None
    else None
  }

  /** `\[(.*?)\]\((.*?)\)` → `<a href="#" …>$1</a>`. */
  function MatchLink(s: string, p: nat): (r: Option<Match>)
    requires p < |s|
    ensures r.Some? ==> p < r.value.end <= |s| && s[p] == '['
  {
    if StartsAt(s, p, "[") then
      match FindPair(s, p + 1)
      case Some((q, e)) =>
        assert s[p] == s[p..p + 1][0];
        Some(Match(e + 1, LinkTag(s[p + 1..q])))
      case None => None
    else None
  }

  /** `\`(.*?)\`` → `<code …>$1</code>`. */
  function MatchCode(s: string, p: nat): (r: Option<Match>)
    requires p < |s|
    ensures r.Some? ==> p < r.value.end <= |s| && s[p] == '`'
  {
    if s[p] == '`' then
      match FindOnLine(s, p + 1, "`")
      case Some(q) =>
        Some(Match(q + 1, CodeTag(s[p + 1..q])))
      case None => None
    else None
  }

  /** `\*\*(.*?)\*\*` → `<b …>$1</b>`. */
  function MatchBold(s: string, p: nat): (r: Option<Match>)
    requires p < |s|
    ensures r.Some? ==> p < r.value.end <= |s| && s[p] == '*'
  {
    if StartsAt(s, p, "**") then
      match FindOnLine(s, p + 2, "**")
      case Some(q) =>
        assert s[p] == s[p..p + 2][0];
        Some(Match(q + 2, BoldTag(s[p + 2..q])))
      case None => None
    else None
  }

  /** `(^|[^*])\*([^*]+)\*` → `$1<i …>$2</i>`: the character before the
      opening star, if any, is kept. */
  function MatchItalic(s: string, p: nat): (r: Option<Match>)
    requires p < |s|
    ensures r.Some? ==> p < r.value.end <= |s| && (s[p] == '*' || (p + 1 < r.value.end && s[p + 1] == '*'))
  {
    match FindItalic(s, p)
    case Some((lead, k)) =>
      Some(Match(k + 1, s[p..p + lead] + ItalicTag(s[p + lead + 1..k])))
    case None => None
  }

  /** `^marker(.*$)` in multiline mode → `open$1close`, for the blockquote
      (`&gt; `) and list item (`* `) rules. */
  function MatchLine(s: string, p: nat, marker: string, open: string, close: string): (r: Option<Match>)
    requires p < |s| && |marker| > 0
    ensures r.Some? ==> p < r.value.end <= |s| && s[p] == marker[0]
  {
    if AtLineStart(s, p) && StartsAt(s, p, marker) then
      var e := LineEnd(s, p + |marker|);
      assert s[p] == s[p..p + |marker|][0];
      Some(Match(e, open + s[p + |marker|..e] + close))
    else None
  }

  /** `(<li.*<\/li>)` with the dotAll flag → `<ul …>$1</ul>`. */
  function MatchListWrap(s: string, p: nat): (r: Option<Match>)
    requires p < |s|
    ensures r.Some? ==> p < r.value.end <= |s| && s[p] == '<'
  {
    if StartsAt(s, p, "<li") then
      match FindLast(s, p + 3, "</li>")
      case Some(q) =>
        assert s[p] == s[p..p + 3][0];
        Some(Match(q + 5, ListTag(s[p..q + 5])))
      case None => None
    else None
  }

  /** The output of a global replace for the input from index `i` on. */
  function ReplaceFrom(rule: Rule, s: string, i: nat): string
    requires i <= |s|
    decreases |s| - i
  {
    if i == |s| then ""
    else
      match MatchAt(rule, s, i)
      case Some(m) => m.text + ReplaceFrom(rule, s, m.end)
      case None => [s[i]] + ReplaceFrom(rule, s, i + 1)
  }

  /** `s.replace(regex, template)` for a rule's global regular expression. */
  function ReplaceAll(rule: Rule, s: string): string {
    ReplaceFrom(rule, s, 0)
  }

  /** A stretch without matches is copied unchanged. */
  lemma {:induction false} ReplaceFromSkip(rule: Rule, s: string, i: nat, j: nat)
    requires i <= j <= |s|
    requires forall p :: i <= p < j ==> MatchAt(rule, s, p).None?
    ensures ReplaceFrom(rule, s, i) == s[i..j] + ReplaceFrom(rule, s, j)
    decreases j - i
  {
    if i < j {
      NoMatchTail(rule, s, i, j);
      ReplaceFromSkip(rule, s, i + 1, j);
      ReplaceFromCopy(rule, s, i);
      SliceHead(s, i, j);
      JoinHead(ReplaceFrom(rule, s, i), [s[i]], ReplaceFrom(rule, s, i + 1), s[i + 1..j], ReplaceFrom(rule, s, j), s[i..j]);
    }
  }

  lemma NoMatchTail(rule: Rule, s: string, i: nat, j: nat)
    requires i < j <= |s|
    requires forall p :: i <= p < j ==> MatchAt(rule, s, p).None?
    ensures MatchAt(rule, s, i).None?
    ensures forall p :: i + 1 <= p < j ==> MatchAt(rule, s, p).None?
  {
  }

  lemma SliceHead(s: string, i: nat, j: nat)
    requires i < j <= |s|
    ensures s[i..j] == [s[i]] + s[i + 1..j]
  {
  }

  lemma ReplaceTail(x: string, a: string, y: string, z: string)
    requires x == a + y && y == z
    ensures x == a + z
  {
  }

  lemma JoinHead(x: string, a: string, y: string, b: string, z: string, w: string)
    requires x == a + y && y == b + z && w == a + b
    ensures x == w + z
  {
  }

  /** Where no match starts, the character is copied. */
  lemma ReplaceFromCopy(rule: Rule, s: string, i: nat)
    requires i < |s| && MatchAt(rule, s, i).None?
    ensures ReplaceFrom(rule, s, i) == [s[i]] + ReplaceFrom(rule, s, i + 1)
  {
  }

  /** Where no match starts, the replace is the identity. */
  lemma ReplaceFromNoMatch(rule: Rule, s: string, i: nat)
    requires i <= |s|
    requires forall p :: i <= p < |s| ==> MatchAt(rule, s, p).None?
    ensures ReplaceFrom(rule, s, i) == s[i..]
  {
    ReplaceFromSkip(rule, s, i, |s|);
    ReplaceFromEnd(rule, s);
    assert s[i..|s|] + [] == s[i..];
    ReplaceTail(ReplaceFrom(rule, s, i), s[i..|s|], ReplaceFrom(rule, s, |s|), []);
  }

  lemma ReplaceFromEnd(rule: Rule, s: string)
    ensures ReplaceFrom(rule, s, |s|) == []
  {
  }

  /** Where a match starts, its text is emitted and the scan resumes at its end. */
  lemma ReplaceFromMatch(rule: Rule, s: string, j: nat, m: Match)
    requires j < |s| && MatchAt(rule, s, j) == Some(m)
    ensures ReplaceFrom(rule, s, j) == m.text + ReplaceFrom(rule, s, m.end)
  {
  }

  /** A text without the rule's trigger character passes through unchanged. */
  lemma ReplaceFromWithoutTrigger(rule: Rule, s: string, i: nat)
    requires i <= |s|
    requires Trigger(rule) !in s[i..]
    ensures ReplaceFrom(rule, s, i) == s[i..]
  {
    forall p | i <= p < |s|
      ensures MatchAt(rule, s, p).None?
    {
      assert s[p] == s[i..][p - i];
      if p + 1 < |s| {
        assert s[p + 1] == s[i..][p + 1 - i];
      }
    }
    ReplaceFromNoMatch(rule, s, i);
  }

  lemma ReplaceAllWithoutTrigger(rule: Rule, s: string)
    requires Trigger(rule) !in s
    ensures ReplaceAll(rule, s) == s
  {
    ReplaceFromWithoutTrigger(rule, s, 0);
  }

  /** A match found at `j` after a stretch without matches. */
  lemma ReplaceFromAt(rule: Rule, s: string, i: nat, j: nat, m: Match)
    requires i <= j < |s|
    requires forall p :: i <= p < j ==> MatchAt(rule, s, p).None?
    requires MatchAt(rule, s, j) == Some(m)
    ensures m.end <= |s|
    ensures ReplaceFrom(rule, s, i) == s[i..j] + m.text + ReplaceFrom(rule, s, m.end)
  {
    ReplaceFromSkip(rule, s, i, j);
    ReplaceFromMatch(rule, s, j, m);
    JoinHead(ReplaceFrom(rule, s, i), s[i..j], ReplaceFrom(rule, s, j), m.text, ReplaceFrom(rule, s, m.end), s[i..j] + m.text);
  }

  /** The first match at `j`, followed by a tail that replaces to `tail`. */
  lemma ReplaceOneMatch(rule: Rule, s: string, j: nat, m: Match, tail: string)
    requires j < |s|
    requires forall p :: 0 <= p < j ==> MatchAt(rule, s, p).None?
    requires MatchAt(rule, s, j) == Some(m)
    requires ReplaceFrom(rule, s, m.end) == tail
    ensures ReplaceAll(rule, s) == s[..j] + m.text + tail
  {
    ReplaceFromAt(rule, s, 0, j, m);
    assert s[0..j] == s[..j];
    ReplaceTail(ReplaceFrom(rule, s, 0), s[..j] + m.text, ReplaceFrom(rule, s, m.end), tail);
  }

  /** A match covering the whole text replaces all of it. */
  lemma ReplaceWhole(rule: Rule, s: string, m: Match)
    requires 0 < |s| && MatchAt(rule, s, 0) == Some(m) && m.end == |s|
    ensures ReplaceAll(rule, s) == m.text
  {
    ReplaceFromAt(rule, s, 0, 0, m);
  }

  /** What a character rule turns one character into. */
  function CharImage(rule: Rule, c: char): string
    requires IsCharRule(rule)
  {
    if c == Trigger(rule) then CharReplacement(rule) else [c]
  }

  /** A character rule applied to every character independently. */
  function MapChars(rule: Rule, t: string): (r: string)
    requires IsCharRule(rule)
    ensures Trigger(rule) !in t ==> r == t
    ensures Trigger(rule) !in CharReplacement(rule) ==> Trigger(rule) !in r
  {
    if t == [] then [] else CharImage(rule, t[0]) + MapChars(rule, t[1..])
  }

  lemma {:induction false} MapCharsAppend(rule: Rule, a: string, b: string)
    requires IsCharRule(rule)
    ensures MapChars(rule, a + b) == MapChars(rule, a) + MapChars(rule, b)
  {
    if a != [] {
      assert (a + b)[0] == a[0] && (a + b)[1..] == a[1..] + b;
      MapCharsAppend(rule, a[1..], b);
      assert MapChars(rule, a + b) == CharImage(rule, a[0]) + MapChars(rule, a[1..] + b);
    } else {
      assert a + b == b;
    }
  }

  /** A character rule's global replace is the character-wise map. */
  lemma {:induction false} ReplaceFromCharRule(rule: Rule, s: string, i: nat)
    requires IsCharRule(rule) && i <= |s|
    ensures ReplaceFrom(rule, s, i) == MapChars(rule, s[i..])
    decreases |s| - i
  {
    if i < |s| {
      ReplaceFromCharRule(rule, s, i + 1);
      assert s[i..][1..] == s[i + 1..];
    }
  }
}
