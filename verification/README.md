# Forum onboarding simulator — a Dafny model

The page teaches readers to use a forum. It has an accordion of items. Two of
the items mount a self-driving simulator, which moves a fake cursor, types
text into a composer and submits it. The reply simulator renders the
submitted reply's body through a small regex-based markup renderer. This project models three pieces of that
page and proves properties about them:

- **The markup renderer** (`parseMarkdown`). It runs ten substitutions in a
  fixed order:
  1. escape `<` and `>`;
  2. image;
  3. link;
  4. inline code;
  5. bold;
  6. italic;
  7. line-start blockquote;
  8. line-start list item;
  9. one `<ul>` around the list items;
  10. newline to `<br>`.

  Each regex is a scanner over `seq<char>` (`MarkdownRules.MatchAt`). The
  scanner keeps JavaScript's semantics:
  - the leftmost match wins, and a global replace resumes after each match;
  - `.*?` takes the shortest capture that lets the rest match on the same line;
  - `.` stops at all four line terminators, while `[^*]` crosses them;
  - `^` under `m` matches after a line terminator;
  - the `s`-flag wrap runs greedily from the first `<li` to the last `</li>`.

  The class strings of the generated tags are kept as constants. The
  source's quirks are kept too:
  - `&` is not escaped;
  - the italic rule runs before the list rule and can span a newline;
  - a `**` with no closing pair is left alone.
- **The scenario driver** (`runScenario`). A pass of each mode (create,
  reply, follow) is the sequence of setter calls it makes (`Scenario.Op`):
  - `safeSetState` is a merge of a record of `Option` fields into the state;
  - the watch status and the watch menu are two more setters;
  - which refs are mounted, and where each element's centre is, are a parameter (`Scenario.Env`);
  - a typing loop is one update per character, each carrying the text typed so far;
  - the `while (true)` loop is a concatenation of passes, each seeing the page as its own `Env`;
  - `Simulation.Run` gives the trace: one frame per call.
- **The accordion** in `App`. A click toggles one optional id, and the open id
  decides which simulator is mounted.

Modules and files:
- `wrappers.dfy`: `Option`.
- `text_search.dfy`: the regex search primitives (lazy pairs, star runs, line ends, last occurrence).
- `markdown_rules.dfy`: one scanner per rule, the global replace, the tag builders.
- `markdown.dfy`: `ParseMarkdown` and the escape, wrap and line-break stages.
- `tag_facts.dfy`: which characters the generated tags contain.
- `markdown_examples.dfy`, `markdown_lines.dfy`, `markdown_links.dfy`: what each rule does to the shapes it is written for.
- `simulation.dfy`: the state record, the merge, traces and frame invariants.
- `scenario.dfy`: the three passes and the loop.
- `scenario_facts.dfy`, `create_outcome.dfy`, `reply_facts.dfy`, `follow_facts.dfy`, `loop_facts.dfy`: the properties of the passes and the loop.
- `rendered_posts.dfy`: what the renderer makes of the two bodies the driver types.
- `accordion.dfy`: the accordion.

## Behaviour worth knowing

- Only the create pass resets `title` and `body` at its start. The reply
  pass resets `body` and keeps `title`. The follow pass resets neither.
- The follow pass resets the watch status and hides the menu before it
  announces step 1 (components/ForumSimulator.tsx:168-170). These are three
  setter calls with no wait between them. The model gives each call its own
  frame, so its first two follow frames still show the previous pass's step.
  With React 18's automatic batching, which also covers calls made in the
  same tick of async code, the three calls render together and the page
  never shows those two frames. How the app is mounted is not part of this
  model.
- Opening the composer happens in the update that releases the click. So
  does submitting, which also closes the composer. The bold tool switches on
  in the update that presses B.
- Two `* ` lines in a row never become list items: the italic rule runs
  first and takes them (`MarkdownExamples.ItalicBeforeList`).
- The list wrap puts one `<ul>` around everything from the first `<li` to
  the last `</li>`, whatever lies between.
- `SimulatorMode` in types.ts also allows `user-info`, but the driver has no
  branch for it. `Scenario.Mode` therefore has only the other three modes.
- The reply pass appends the image markup in one update rather than typing it.
- Only the submitted reply's body goes through the renderer
  (components/ForumSimulator.tsx:314). The create view never renders its
  body, although the pass switches the bold tool on. Its submitted card
  shows only the title (:256), and the composer shows the raw body (:350).

## Model

| member | source | states |
|---|---|---|
| Simulation.Merge | components/ForumSimulator.tsx:58-60 | every key present in the partial update takes the update's value, and every absent key keeps the previous value |
| Simulation.MergeUnique | components/ForumSimulator.tsx:58-60 | those two conditions determine the merged record completely, so the merge is the only state that satisfies them |
| Simulation.MergeCompose | components/ForumSimulator.tsx:58-60 | two merges in a row equal one merge of an update carrying the keys of both, where the later update wins a shared key |
| Simulation.MergeNoChange | components/ForumSimulator.tsx:58-60 | the empty update leaves the state alone, and applying the same update twice is the same as applying it once |
| Simulation.Apply | components/ForumSimulator.tsx:43-44 | definition, no contract of its own: one setter call, which is a merge into the state record (`safeSetState`) or a write of the watch status or the menu flag; Simulation.Run states its effect on the trace |
| Simulation.Run | components/ForumSimulator.tsx:62-198 | the trace has one frame per setter call, and each frame is the previous one with that call applied |
| Simulation.RunAppend | components/ForumSimulator.tsx:62-198 | the trace of two blocks in sequence is the first block's trace followed by the second's, started from where the first ended |
| Simulation.FinalAppend | components/ForumSimulator.tsx:62-198 | the state after two blocks is the state after the second block started from the state after the first |
| Simulation.RunKeeps | components/ForumSimulator.tsx:62-198 | a frame property that holds at the start and that no call of the block can break holds in every frame and at the end |
| Simulation.ClicksReleased | components/ForumSimulator.tsx:72-74 | if every press is immediately followed by a release and the start is not pressed, then no frame stays pressed for more than one call and the trace ends released |
| Simulation.StepValuesAppend | components/ForumSimulator.tsx:62-198 | the step numbers announced by two blocks in sequence are those of the first block followed by those of the second |
| Simulation.RunStepsAscend | components/ForumSimulator.tsx:62-198 | if the announced steps, after the starting step, never decrease, then no frame's step is smaller than an earlier frame's |
| Scenario.Click | components/ForumSimulator.tsx:70-74 | definition, no contract of its own: move to the element, press, then release together with the click's effect; CreateOutcome.ClickFinal states the resulting frame |
| Scenario.OpenComposer | components/ForumSimulator.tsx:69-76 | definition, no contract of its own: the new-topic or reply click, skipped when its ref is not set; CreateOutcome.OpenComposerFinal states where it leaves the page |
| Scenario.SubmitPost | components/ForumSimulator.tsx:118-125 | definition, no contract of its own: the submit click, skipped when its ref is not set; CreateOutcome.SubmitPostFinal and ScenarioFacts.SubmitFrames state its frames |
| Scenario.TypeTitle | components/ForumSimulator.tsx:79-86 | definition, no contract of its own: the title block, skipped without the title input; CreateOutcome.TypeTitleFinal states its end |
| Scenario.WriteBody | components/ForumSimulator.tsx:89-115 | definition, no contract of its own: the body block, run only when both the editor and B are mounted; CreateOutcome.WriteBodyFinal and BoldWindowInPass state its effect |
| Scenario.CreatePass | components/ForumSimulator.tsx:65-126 | definition, no contract of its own: one create iteration as its setter calls in order; the ScenarioFacts and CreateOutcome lemmas below state its properties |
| Scenario.WriteReply | components/ForumSimulator.tsx:143-153 | definition, no contract of its own: type the message, then append the image markup in one update; ReplyFacts.WriteReplyFinal states its end |
| Scenario.ReplyPass | components/ForumSimulator.tsx:129-164 | definition, no contract of its own: one reply iteration; the ReplyFacts lemmas below state its properties |
| Scenario.OpenWatchMenu | components/ForumSimulator.tsx:173-195 | definition, no contract of its own: the bell block, with step 2 and the option block inside it; FollowFacts.OpenedMenu states its first part |
| Scenario.ChooseWatching | components/ForumSimulator.tsx:183-194 | definition, no contract of its own: the option block, skipped when the option's ref is not set; FollowFacts.ChoseWatching states its end |
| Scenario.FollowPass | components/ForumSimulator.tsx:167-196 | definition, no contract of its own: one follow iteration; the FollowFacts lemmas below state its properties |
| Scenario.Pass | components/ForumSimulator.tsx:64-196 | definition, no contract of its own: the iteration for the simulator's mode |
| Scenario.Passes | components/ForumSimulator.tsx:63-197 | definition, no contract of its own: the first n iterations of `while (true)`; the LoopFacts lemmas state what holds over any number of them |
| Scenario.Typing | components/ForumSimulator.tsx:84 | a typing loop makes one update per character, and the n-th carries the earlier text plus the first n characters of the literal |
| Scenario.MergeSetText | components/ForumSimulator.tsx:84 | a typing update replaces the one text field and leaves every other field alone |
| ScenarioFacts.RunTyping | components/ForumSimulator.tsx:96 | after k characters the field holds the earlier text plus the first k characters; at the end it holds the earlier text plus the whole literal, and nothing else has changed |
| ScenarioFacts.TypingKeeps | components/ForumSimulator.tsx:109 | no typing update takes the field beyond the longest text it is allowed, and none touches another field's invariant |
| ScenarioFacts.CreateResets | components/ForumSimulator.tsx:66 | the first frame of a create pass is on step 1 with its instruction, the composer closed, nothing submitted, and the title and body empty, with the rest of the state unchanged |
| ScenarioFacts.CreateFrames | components/ForumSimulator.tsx:65-126 | in every frame of a create pass the step is 1 to 4, the title is a prefix of the topic title, the body is a prefix of the full body, and the selection is unchanged |
| ScenarioFacts.CreateDraftUnsubmitted | components/ForumSimulator.tsx:66-117 | no call before the submit block marks the post as submitted |
| ScenarioFacts.SubmitFrames | components/ForumSimulator.tsx:118-125 | the submit click never shows a submitted post with the composer open; when the button is mounted it ends submitted, closed, released and over the button |
| ScenarioFacts.CreateSubmitCloses | components/ForumSimulator.tsx:123 | no frame of a create pass is both submitted and showing the composer, because submitting and closing happen in one update |
| ScenarioFacts.CreateSteps | components/ForumSimulator.tsx:66-117 | whichever refs are mounted, a create pass announces steps 1, 2, 3 and 4, in that order, each once: a missing ref skips only its own block |
| ScenarioFacts.CreateClicksPaired | components/ForumSimulator.tsx:102-104 | every press in a create pass (the new-topic button, B, submit) is followed at once by a release |
| ScenarioFacts.CreateStepsAndClicks | components/ForumSimulator.tsx:65-126 | in a create pass from a released state the step never decreases, no frame stays pressed beyond one call, and the pass ends released |
| ScenarioFacts.CreateKeeps | components/ForumSimulator.tsx:65-126 | no call of a create pass takes the step outside 1 to 4, changes the selection, or takes the title or body beyond the literals |
| CreateOutcome.OpenComposerFinal | components/ForumSimulator.tsx:69-76 | with the button mounted, opening the composer leaves the pointer on the button, released, and the composer open, and changes nothing else |
| CreateOutcome.SubmitPostFinal | components/ForumSimulator.tsx:118-125 | with the button mounted, the submit click leaves the pointer on the button, released, the post submitted and the composer closed, and changes nothing else |
| CreateOutcome.TypingFinal | components/ForumSimulator.tsx:84 | a non-empty typing loop ends with the field holding the earlier text and the literal, and changes nothing else |
| CreateOutcome.TypeTitleFinal | components/ForumSimulator.tsx:79-86 | the title block leaves the pointer on the title input and the whole topic title typed |
| CreateOutcome.WriteBodyFinal | components/ForumSimulator.tsx:89-115 | with the editor and B mounted, the body block ends with the whole body typed, the bold tool off, the pointer released on the editor and the bold hint shown |
| CreateOutcome.CreateDraftFinal | components/ForumSimulator.tsx:66-117 | with every ref mounted, everything before submit ends on step 4 with the composer open, nothing submitted, the topic title and the whole body typed, and the bold tool off |
| CreateOutcome.CreatePassFinal | components/ForumSimulator.tsx:65-126 | with every ref mounted, a create pass ends on step 4, submitted, with the composer closed, the title and whole body typed, the pointer released over submit and the bold tool off; the selection, watch status and menu are untouched |
| CreateOutcome.BoldFromPress | components/ForumSimulator.tsx:102-109 | the bold tool shows as active in every frame from the press of B until the last starred character is typed |
| CreateOutcome.BoldWhileTyping | components/ForumSimulator.tsx:108-109 | while the starred part is typed, each frame has the bold tool active and holds the first part plus the starred characters typed so far |
| CreateOutcome.PlainAfterBold | components/ForumSimulator.tsx:111-113 | the bold tool is off in every frame of the last part, from the update that clears it on |
| CreateOutcome.BoldWindowInPass | components/ForumSimulator.tsx:94-113 | in a whole create pass from a state with no tool, the frames that show the bold tool are exactly those from the press of B to the last starred character; every other frame shows no tool |
| ReplyFacts.ReplyResets | components/ForumSimulator.tsx:130 | the first frame of a reply pass is on step 1 with the composer closed, nothing submitted and the body empty, but the title is kept |
| ReplyFacts.ReplyFrames | components/ForumSimulator.tsx:129-164 | in every frame of a reply pass the step is 1 to 3, the title, the selection and the tool are unchanged, and the body is a prefix of the message or the whole body, never part of the image markup |
| ReplyFacts.ReplyDraftUnsubmitted | components/ForumSimulator.tsx:130-155 | no call of a reply pass before the submit block marks the post as submitted |
| ReplyFacts.ReplySubmitCloses | components/ForumSimulator.tsx:161 | no frame of a reply pass is both submitted and showing the composer |
| ReplyFacts.ReplyStepsAndPairs | components/ForumSimulator.tsx:130-155 | whichever refs are mounted, a reply pass announces steps 1, 2 and 3 in order, and every press is released by the next update |
| ReplyFacts.ReplyStepsAndClicks | components/ForumSimulator.tsx:129-164 | in a reply pass from a released state the step never decreases, no frame stays pressed beyond one call, and the pass ends released |
| ReplyFacts.WriteReplyFinal | components/ForumSimulator.tsx:143-153 | with the editor mounted, the reply block ends with the pointer on the editor and the message followed by the image markup in the body |
| ReplyFacts.ReplyPassFinal | components/ForumSimulator.tsx:129-164 | with every ref mounted, a reply pass ends on step 3, submitted, with the composer closed, the full reply body, and the pointer released over submit |
| FollowFacts.FollowResets | components/ForumSimulator.tsx:168-170 | a follow pass first resets the watch status, then hides the menu, and only in its third frame announces step 1 and closes the composer |
| FollowFacts.FollowStepsAndPairs | components/ForumSimulator.tsx:170-195 | a follow pass announces step 1 and then step 2 only when the watch button is mounted, and every press is released by the next update |
| FollowFacts.FollowStepsAscend | components/ForumSimulator.tsx:170-195 | from the step-1 announcement on, the step never decreases |
| FollowFacts.FollowClicks | components/ForumSimulator.tsx:176-188 | in a follow pass from a released state no frame stays pressed beyond one call, and the pass ends released |
| FollowFacts.FollowFrames | components/ForumSimulator.tsx:167-196 | from the announcement on, every frame is on step 1 or 2, not submitted, with the composer closed; the title, selection and tool never change |
| FollowFacts.OpenedMenu | components/ForumSimulator.tsx:173-182 | clicking the bell leaves the pointer released on it, shows the menu and announces step 2 |
| FollowFacts.ChoseWatching | components/ForumSimulator.tsx:183-194 | with the option mounted, choosing it sets the status to watching, hides the menu and shows the closing message with the pointer released on the option |
| FollowFacts.FollowPassFinal | components/ForumSimulator.tsx:167-196 | the end of a follow pass, in three cases of the refs: without the bell, only step 1 is announced; with the bell but no option, the menu stays open on step 2; with both, the status is watching and the menu is hidden. The middle case needs the option to be missing from a visible menu |
| FollowFacts.FollowOutcome | components/ForumSimulator.tsx:173-195 | a follow pass ends watching if and only if both the bell and the option are mounted, with the menu open if and only if the bell is mounted but the option is not, and on step 2 if and only if the bell is mounted |
| FollowFacts.MenuVisibleAtOptionLookup | components/ForumSimulator.tsx:178-183 | with the bell mounted, the pass reads the option's ref only after it has made the menu visible |
| FollowFacts.FollowWatchesWhenMenuRendered | components/ForumSimulator.tsx:173-195 | when the option is rendered whenever the menu is visible, a follow pass with the bell mounted always ends watching, with the menu hidden, on step 2 |
| LoopFacts.PassesKeep | components/ForumSimulator.tsx:63 | no call in any number of passes of a mode takes the step outside the mode's range or changes the selection; reply and follow passes also keep the title and the tool |
| LoopFacts.LoopFrames | components/ForumSimulator.tsx:30-41 | from the first render through any number of passes, the step stays within 1 and the mode's last step, and the selection stays null; reply and follow also keep the title empty and the tool null |
| LoopFacts.LoopClicks | components/ForumSimulator.tsx:63 | through any number of passes no frame stays pressed beyond one call, and the loop never stops pressed |
| LoopFacts.LoopSteps | components/ForumSimulator.tsx:63 | over n create or reply passes the announced steps are 1..last repeated n times: the right length, starting 1, 2, … and periodic |
| Markdown.ParseMarkdown | components/MarkdownRenderer.tsx:6-41 | definition, no contract of its own: the ten substitutions in source order; Markdown.LineBreaksLast states, for every input, that it is the per-character line-break map of the earlier stages and has no line feed |
| Markdown.Escape | components/MarkdownRenderer.tsx:8 | definition, no contract of its own: the two global replaces of step 1; Markdown.EscapeSpec equates it with the per-character escape |
| Markdown.Markup | components/MarkdownRenderer.tsx:10-30 | definition, no contract of its own: steps 2 to 8 in source order; Markdown.MarkupWithoutTriggers and the rule lemmas below state what it does |
| Markdown.WrapLists | components/MarkdownRenderer.tsx:32-35 | definition, no contract of its own: the `includes('<li')` guard and the `/gs` wrap; Markdown.WrapListsSpan and WrapListsNoSpan state both outcomes |
| Markdown.EscapeChars | components/MarkdownRenderer.tsx:8 | the per-character escape leaves no angle bracket and changes nothing in a text without one |
| Markdown.EscapeSpec | components/MarkdownRenderer.tsx:8 | the two global replaces equal the per-character escape, so no raw `<` or `>` survives step 1 |
| Markdown.EscapeCharsAppend | components/MarkdownRenderer.tsx:8 | escaping works character by character: escaping a concatenation concatenates the escapes |
| Markdown.EscapeRoundTrip | components/MarkdownRenderer.tsx:8 | for input without `&`, turning the entities back into brackets recovers the input |
| Markdown.EscapeConflatesEntity | components/MarkdownRenderer.tsx:8 | `<` and the text `&lt;` escape to the same string, because `&` is not escaped |
| Markdown.MarkupWithoutTriggers | components/MarkdownRenderer.tsx:10-30 | the image, link, code, bold, italic, quote and list-item rules leave alone a text without `[`, `` ` ``, `*` and `&` |
| Markdown.WrapListsSpan | components/MarkdownRenderer.tsx:33-35 | when a `<li` comes before the last `</li>`, exactly one `<ul>` is put around the span from the first `<li` to the last `</li>`, and the text around it is kept |
| Markdown.WrapListsWithoutLt | components/MarkdownRenderer.tsx:33 | without `<` the wrap step changes nothing |
| Markdown.WrapListsNoSpan | components/MarkdownRenderer.tsx:33-35 | when no `<li` is followed by a `</li>`, the wrap step changes nothing |
| Markdown.LineBreaksLast | components/MarkdownRenderer.tsx:38-40 | the newline step maps each line feed to `<br>` and runs last, so the output has no line feed |
| MarkdownRules.MatchAt | components/MarkdownRenderer.tsx:8-38 | a match found at a position ends after it, and the rule's trigger character sits at that position or the next |
| MarkdownRules.FindItalic | components/MarkdownRenderer.tsx:24 | a match has a first capture of at most one character, and its opening star comes right after that capture and before the closing star; MarkdownRules.FindItalicSpec states the full search |
| MarkdownRules.ReplaceFrom | components/MarkdownRenderer.tsx:8-38 | definition, no contract of its own: the global replace from a position on; ReplaceFromSkip and ReplaceFromAt state how it copies and replaces |
| MarkdownRules.ReplaceAll | components/MarkdownRenderer.tsx:8-38 | definition, no contract of its own: `s.replace(regex, template)` for a rule with the `g` flag |
| MarkdownRules.FindItalicSpec | components/MarkdownRenderer.tsx:24 | the italic match at a position tries the start-of-text alternative before the non-star one and fails only when neither shape exists |
| MarkdownRules.ReplaceFromSkip | components/MarkdownRenderer.tsx:8-38 | a global replace copies a stretch where the rule matches nowhere |
| MarkdownRules.ReplaceFromAt | components/MarkdownRenderer.tsx:8-38 | a global replace puts the replacement at the leftmost match and resumes scanning after it |
| MarkdownRules.ReplaceAllWithoutTrigger | components/MarkdownRenderer.tsx:8-38 | a rule leaves a text unchanged when the text lacks the one character every match of that rule contains |
| MarkdownRules.ReplaceFromCharRule | components/MarkdownRenderer.tsx:38 | a global replace of one character is the per-character map |
| MarkdownRules.MapCharsAppend | components/MarkdownRenderer.tsx:38 | the per-character map of a concatenation concatenates the maps |
| TextSearch.FindOnLine | components/MarkdownRenderer.tsx:18-21 | the closing delimiter found lies at or after the search start and fits in the text; TextSearch.FindOnLineSpec states the full search |
| TextSearch.FindPair | components/MarkdownRenderer.tsx:12-15 | the `](` found lies at or after the search start, and the closing `)` after it lies in the text; TextSearch.FindPairSpec states the full search |
| TextSearch.FindStarRun | components/MarkdownRenderer.tsx:24 | the closing star found lies at least two characters after the opening star; TextSearch.FindStarRunSpec states the full search |
| TextSearch.FindLast | components/MarkdownRenderer.tsx:34 | the occurrence found starts at or after the lower bound and fits in the text; TextSearch.FindLastSpec states the full search |
| TextSearch.FindPairSpec | components/MarkdownRenderer.tsx:12-15 | the `(.*?)\]\((.*?)\)` search finds the shortest first capture for which the rest matches on one line, and for it the shortest second capture, or reports that none exists |
| TextSearch.FindStarRunSpec | components/MarkdownRenderer.tsx:24 | the `\*([^*]+)\*` search finds the only closing star after a run of at least one non-star character, or reports that there is none |
| TextSearch.FindLastSpec | components/MarkdownRenderer.tsx:34 | the greedy search finds the last occurrence of the pattern, or reports that there is none |
| TextSearch.LineEnd | components/MarkdownRenderer.tsx:27 | `(.*$)` under `m` ends at a line terminator or at the end of the text, never before the point where it starts |
| TextSearch.LineEndOnLine | components/MarkdownRenderer.tsx:27 | the text `(.*$)` captures under `m` holds no line terminator |
| TextSearch.FindOnLineSpec | components/MarkdownRenderer.tsx:18-21 | the lazy `(.*?)` of the code and bold patterns stops at the first closing delimiter on the same line, and fails only when the line has none |
| TextSearch.FindStarSpec | components/MarkdownRenderer.tsx:24 | no star lies between the search start and the star found, and no star lies after the start when none is found |
| TextSearch.FindLastBelowSpec | components/MarkdownRenderer.tsx:34 | the backtracking of the greedy `.*` finds the last start of the pattern below the bound, or reports that the range has none |
| MarkdownExamples.PlainPassesThrough | components/MarkdownRenderer.tsx:6-41 | a text with no markup character and no line terminator renders as itself |
| MarkdownExamples.UnterminatedBoldIsLiteral | components/MarkdownRenderer.tsx:21-24 | `**` followed by plain text with no closing pair renders unchanged, both stars included |
| MarkdownExamples.UnterminatedBoldExample | components/MarkdownRenderer.tsx:21-24 | `**bold` renders as `**bold` |
| MarkdownExamples.BoldMatchAt | components/MarkdownRenderer.tsx:21 | the bold rule matches at `**` up to the first `**` after it on the same line, and wraps what lies between |
| MarkdownExamples.BoldRuleSpan | components/MarkdownRenderer.tsx:21 | the bold rule turns `a**b**c` into `a`, a bold element around `b`, and `c`, when no other star occurs |
| MarkdownExamples.BoldWithoutDoubleStar | components/MarkdownRenderer.tsx:21 | without two adjacent stars the bold rule changes nothing |
| MarkdownExamples.BoldSpanRenders | components/MarkdownRenderer.tsx:21 | a plain text with one `**…**` span renders with the span bold, the text around it untouched and no star left |
| MarkdownExamples.BoldExample | components/MarkdownRenderer.tsx:21 | `a **b** c` renders as `a `, a bold `b`, and ` c`, with no star left |
| MarkdownExamples.ItalicMatchAfter | components/MarkdownRenderer.tsx:24 | after a non-star character, the italic rule keeps that character and wraps the star-free run that follows |
| MarkdownExamples.ItalicNoneAt | components/MarkdownRenderer.tsx:24 | the italic rule does not fire at a non-star character that is not followed by a star |
| MarkdownExamples.ItalicRuleSpan | components/MarkdownRenderer.tsx:24 | the italic rule turns `a*b*c` into `a`, an italic element around `b`, and `c`, when `b` is non-empty and no other star occurs |
| MarkdownExamples.ItalicBeforeList | components/MarkdownRenderer.tsx:24-30 | two `* ` lines render as one italic element spanning the line break, not as list items |
| MarkdownExamples.ItalicBeforeListExample | components/MarkdownRenderer.tsx:24-30 | `* a\n* b` renders as an italic ` a<br>` followed by ` b` |
| MarkdownLines.EscapeQuoteMarker | components/MarkdownRenderer.tsx:8 | escaping turns a leading `> ` into `&gt; `, which is what the quote rule looks for |
| MarkdownLines.QuoteRuleLine | components/MarkdownRenderer.tsx:27 | the quote rule wraps a one-line `&gt; x` into a blockquote around `x` |
| MarkdownLines.QuoteLine | components/MarkdownRenderer.tsx:27 | `> x` on one plain line renders as a blockquote around `x` |
| MarkdownLines.ListItemRuleLine | components/MarkdownRenderer.tsx:30 | the list rule turns a one-line `* x` into a list item around `x` |
| MarkdownLines.WrapOneItem | components/MarkdownRenderer.tsx:33-35 | one list item is wrapped in exactly one list |
| MarkdownLines.ListItemWrapped | components/MarkdownRenderer.tsx:30-35 | `* x` on one plain line renders as a list holding one item around `x` |
| MarkdownLinks.ImageRule | components/MarkdownRenderer.tsx:12 | the image rule turns `![alt](url)` into an image element with `src` set to the url and `alt` to the bracket text |
| MarkdownLinks.ImageRuleSkipsLink | components/MarkdownRenderer.tsx:12 | the image rule does not touch a link, which has no `!` before its bracket |
| MarkdownLinks.ImageBeforeLink | components/MarkdownRenderer.tsx:12-15 | an image renders as an image element and contains no anchor, because the image rule runs first |
| MarkdownLinks.ImageExample | components/MarkdownRenderer.tsx:12-15 | `![x](http://example.com/y.png)` renders as an image with that source and alt `x`, and no anchor |
| MarkdownLinks.LinkDropsUrl | components/MarkdownRenderer.tsx:15 | a link renders as an anchor to `#` around the bracket text, and the url is dropped |
| MarkdownLinks.ImageRuleAfter | components/MarkdownRenderer.tsx:12 | after text without `[`, the image rule fires at the image and nowhere earlier, keeping the text before it |
| MarkdownLinks.ImageAfterBlankLine | components/MarkdownRenderer.tsx:12-38 | a plain message, a blank line and an image render as the message, two `<br>` and the image element |
| RenderedPosts.CreateBodyRenders | components/MarkdownRenderer.tsx:21 | the renderer would turn the body a create pass types into the first part, the book's name in a bold element and the last part, with no star left; the create view itself never renders that body |
| RenderedPosts.ReplyBodyRenders | components/ForumSimulator.tsx:147-151 | the body a reply pass types, which the page renders once it is submitted (line 314), renders as the message, two line breaks and an image element showing the picture |
| Accordion.Toggle | App.tsx:14-16 | after a click on `id`, `id` is open if and only if it was closed before, and no other item is open; everything is closed if and only if `id` was open |
| Accordion.ToggleTwice | App.tsx:15 | from all closed, or from `id` open, two clicks on `id` restore the state |
| Accordion.ToggleTwiceClosesOther | App.tsx:15 | with another item open, two clicks on `id` leave everything closed |
| Accordion.MountedSimulator | App.tsx:49-69 | the create simulator is mounted if and only if "sim-create" is open, the reply simulator if and only if "sim-reply" is open, and the follow simulator never |
| Accordion.ToggleAll | App.tsx:14-16 | definition, no contract of its own: a series of header clicks applied in order; Accordion.ToggleAllOpenAfter characterises its result |
| Accordion.ToggleAllOpenAfter | App.tsx:12-16 | after any series of clicks, only the last clicked item can be open, and it is open exactly when the run of clicks it received at the end, counting its being open at the start, is odd |
| Accordion.OnlyLastClickedOpen | App.tsx:12-16 | starting with everything closed, an item that is open was the last one clicked, so at most one item is ever open |

## Left out

- Timing. `wait`, `setTimeout` and the pacing constants only separate the updates. The model keeps the order of the updates and drops the delays.
- `getElementCenter`. It reads DOM rectangles with floating-point arithmetic. The model takes the centre of each element as the `Env.center` parameter and treats it as an opaque value.
- React's effect lifecycle and batching. Each setter call is one frame, applied at once.
- Stale closures and effect re-runs are not modelled.
- Cancellation. The loop has no unmount guard, so there is none to model.
- The `user-info` mode. The driver has no branch for it, so the loop would spin without awaiting. `Scenario.Mode` has only the three modes the simulator accepts.
- The JSX, the class strings' meaning, `dangerouslySetInnerHTML`, and any HTML parsing or sanitisation. The renderer's output string is where the model ends.
- Code points versus UTF-16. `for…of` walks code points and Dafny's `char` is a Unicode scalar value, so the typing loops agree for the literals used. JavaScript's `.` on lone surrogates is not modelled.
- Determinism of `parseMarkdown`. It holds because every stage is a Dafny function, so it has no lemma of its own.
- The text guides in the accordion and the `Cursor` component, which are presentation only.
- ScenarioFacts.CreateFrames: states the step range and the title and body prefixes for each frame, not the one-character growth between frames. That growth is stated per typing loop by ScenarioFacts.RunTyping.
- Scenario.Env: whether the menu option is mounted is a free parameter, not tied to the menu flag that renders it (components/ForumSimulator.tsx:290-293). So FollowFacts.FollowPassFinal and FollowOutcome also cover a bell without an option, which a rendered page does not produce. FollowFacts.FollowWatchesWhenMenuRendered states the outcome under the rendering rule.
- FollowFacts.FollowFrames: states the step range only from the third frame on. The first two frames still show the step the previous pass ended on.
