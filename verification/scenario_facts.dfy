/** What one pass of the driver does to the frames it produces: the
    resets at its start, the typed prefixes, the paired clicks, the steps
    it announces, and what it leaves at the end. */
module ScenarioFacts {
  import opened Wrappers
  import opened Simulation
  import opened Scenario

  /** Frame `n - 1` of a typing loop shows the first `n` characters. */
  lemma {:induction false} TypingFrame(start: Frame, field: TextField, base: string, text: string, n: nat)
    requires 0 < n <= |text|
    ensures Run(start, Typing(field, base, text))[n - 1] == start.(sim := WithText(start.sim, field, base + text[..n]))
    decreases n
  {
    var ops := Typing(field, base, text);
    var r := Run(start, ops);
    assert ops[n - 1] == Set(SetText(field, base + text[..n]));
    if n == 1 {
      MergeSetText(start.sim, field, base + text[..1]);
    } else {
      TypingFrame(start, field, base, text, n - 1);
      MergeSetText(r[n - 2].sim, field, base + text[..n]);
    }
  }

  /** During a typing loop the field shows the base followed by the
      characters typed so far; after it, the base and the whole text. */
  lemma RunTyping(start: Frame, field: TextField, base: string, text: string)
    ensures forall n :: 0 < n <= |text| ==>
      Run(start, Typing(field, base, text))[n - 1] == start.(sim := WithText(start.sim, field, base + text[..n]))
    ensures |text| > 0 ==>
      Final(start, Typing(field, base, text)) == start.(sim := WithText(start.sim, field, base + text))
  {
    forall n | 0 < n <= |text|
      ensures Run(start, Typing(field, base, text))[n - 1] == start.(sim := WithText(start.sim, field, base + text[..n]))
    {
      TypingFrame(start, field, base, text, n);
    }
    if |text| > 0 {
      TypingFrame(start, field, base, text, |text|);
      assert text[..|text|] == text;
    }
  }

  /** The updates of a typing loop change one text field, and only to
      prefixes of the base followed by the text. */
  lemma TypingKeeps(inv: Invariant, field: TextField, base: string, text: string)
    requires inv.TitleWithin? && field == TitleField ==> base + text <= inv.full
    requires inv.BodyWithin? && field == BodyField ==> base + text <= inv.typed
    requires inv.TitleIs? ==> field != TitleField
    ensures forall op | op in Typing(field, base, text) :: Keeps(inv, op)
  {
    var ops := Typing(field, base, text);
    forall op | op in ops
      ensures Keeps(inv, op)
    {
      var i :| 0 <= i < |ops| && ops[i] == op;
      var t := base + text[..i + 1];
      assert ops[i] == Set(SetText(field, t));
      assert t == (base + text)[..|t|];
    }
  }

  /** A typing loop presses nothing and announces no step. */
  lemma TypingQuiet(field: TextField, base: string, text: string)
    ensures ClicksPaired(Typing(field, base, text))
    ensures StepValues(Typing(field, base, text)) == []
  {
    var ops := Typing(field, base, text);
    forall i | 0 <= i < |ops|
      ensures !Presses(ops[i]) && !Announces(ops[i])
    {
      assert ops[i] == Set(SetText(field, base + text[..i + 1]));
    }
    forall op | op in ops
      ensures !Announces(op)
    {
      var i :| 0 <= i < |ops| && ops[i] == op;
    }
  }

  lemma PrefixOfConcat(a: string, b: string)
    ensures a <= a + b
  {
    assert (a + b)[..|a|] == a;
  }

  /** The body a create pass types when every element is mounted. */
  const CreateBody := Part1 + Part2 + Part3

  /** The texts a create pass types are prefixes of the title and body it
      ends with. */
  lemma CreateTextsArePrefixes()
    ensures "" + TopicTitle <= TopicTitle
    ensures "" + Part1 <= CreateBody && Part1 + Part2 <= CreateBody && Part1 + Part2 + Part3 <= CreateBody
  {
    assert "" + TopicTitle == TopicTitle;
    assert "" + Part1 == Part1;
    PrefixOfConcat(Part1, Part2 + Part3);
    PrefixOfConcat(Part1 + Part2, Part3);
    assert Part1 + (Part2 + Part3) == CreateBody;
  }

  /** Every call of `ops` keeps `inv`. */
  predicate KeptBy(inv: Invariant, ops: seq<Op>) {
    forall op | op in ops :: Keeps(inv, op)
  }

  /** Opening the composer breaks only the pairing of the submit flag with
      a closed composer. */
  lemma OpenComposerKeeps(env: Env, button: Target, inv: Invariant)
    requires !inv.SubmitClosesComposer? && inv != ComposerIs(false)
    ensures KeptBy(inv, OpenComposer(env, button))
  {
  }

  /** Submitting breaks only "not submitted". */
  lemma SubmitPostKeeps(env: Env, inv: Invariant)
    requires inv != SubmittedIs(false) && inv != ComposerIs(true)
    ensures KeptBy(inv, SubmitPost(env))
  {
  }

  lemma TypeTitleKeeps(env: Env, inv: Invariant)
    requires inv.TitleWithin? ==> TopicTitle <= inv.full
    requires !inv.TitleIs?
    ensures KeptBy(inv, TypeTitle(env))
  {
    assert "" + TopicTitle == TopicTitle;
    TypingKeeps(inv, TitleField, "", TopicTitle);
  }

  lemma WriteBodyKeeps(env: Env, inv: Invariant)
    requires !inv.ToolIs? && (inv.BodyWithin? ==> CreateBody <= inv.typed)
    ensures KeptBy(inv, WriteBody(env))
  {
    if inv.BodyWithin? {
      CreateTextsArePrefixes();
    }
    TypingKeeps(inv, BodyField, "", Part1);
    TypingKeeps(inv, BodyField, Part1, Part2);
    TypingKeeps(inv, BodyField, Part1 + Part2, Part3);
  }

  /** Properties no call of a create pass can break. */
  lemma CreateKeeps(env: Env, inv: Invariant)
    requires inv == StepWithin(1, 4) || inv.SelectionIs? || inv == TitleWithin(TopicTitle) || inv == BodyWithin(CreateBody, CreateBody)
    ensures KeptBy(inv, CreatePass(env))
  {
    OpenComposerKeeps(env, NewTopicButton, inv);
    TypeTitleKeeps(env, inv);
    WriteBodyKeeps(env, inv);
    SubmitPostKeeps(env, inv);
  }

  /** An invariant that a pass's first call establishes and all its calls
      keep holds in every frame of the pass. */
  lemma KeptFromFirst(inv: Invariant, start: Frame, ops: seq<Op>)
    requires 0 < |ops| && Holds(inv, Apply(start, ops[0])) && KeptBy(inv, ops)
    ensures forall i :: 0 <= i < |ops| ==> Holds(inv, Run(start, ops)[i])
  {
    RunKeepsWindow(inv, start, ops, 0, |ops|);
  }

  /** In every frame of a create pass the step is between 1 and 4, the
      title is a prefix of the topic title, the body is a prefix of the
      full body, and the selection is what it was before the pass. */
  lemma CreateFrames(env: Env, start: Frame)
    ensures var r := Run(start, CreatePass(env));
      forall i :: 0 <= i < |r| ==>
        1 <= r[i].sim.step <= 4 && r[i].sim.title <= TopicTitle && r[i].sim.body <= CreateBody &&
        r[i].sim.selectionRange == start.sim.selectionRange
  {
    var ops := CreatePass(env);
    var r := Run(start, ops);
    assert ops[0] == CreateReset;
    assert r[0].sim.step == 1 && r[0].sim.title == "" && r[0].sim.body == "";
    CreateKeeps(env, StepWithin(1, 4));
    KeptFromFirst(StepWithin(1, 4), start, ops);
    CreateKeeps(env, TitleWithin(TopicTitle));
    KeptFromFirst(TitleWithin(TopicTitle), start, ops);
    CreateKeeps(env, BodyWithin(CreateBody, CreateBody));
    KeptFromFirst(BodyWithin(CreateBody, CreateBody), start, ops);
    CreateKeeps(env, SelectionIs(start.sim.selectionRange));
    RunKeeps(SelectionIs(start.sim.selectionRange), start, ops);
  }

  /** A create pass starts by resetting the step, the instruction, both
      texts and both flags, and nothing else. */
  lemma CreateResets(env: Env, start: Frame)
    ensures Run(start, CreatePass(env))[0] == start.(sim := start.sim.(
      step := 1, instruction := CreateStep1, isComposerOpen := false,
      isSubmitted := false, title := "", body := ""))
  {
    assert CreatePass(env)[0] == CreateReset;
  }

  /** Every call before the submit block keeps the post unsubmitted. */
  lemma CreateDraftUnsubmitted(env: Env)
    ensures KeptBy(SubmittedIs(false), CreateDraft(env))
  {
    OpenComposerKeeps(env, NewTopicButton, SubmittedIs(false));
    TypeTitleKeeps(env, SubmittedIs(false));
    WriteBodyKeeps(env, SubmittedIs(false));
  }

  /** From a draft frame that is not submitted, the submit block only ever
      shows a submitted post with the composer closed. */
  lemma SubmitFrames(env: Env, start: Frame)
    requires !start.sim.isSubmitted
    ensures var r := Run(start, SubmitPost(env));
      forall i :: 0 <= i < |r| ==> (r[i].sim.isSubmitted ==> !r[i].sim.isComposerOpen)
    ensures SubmitButton in env.mounted ==>
      Final(start, SubmitPost(env)).sim == start.sim.(
        cursorPos := env.center(SubmitButton), isClicking := false,
        isSubmitted := true, isComposerOpen := false)
  {
    RunKeeps(SubmitClosesComposer, start, SubmitPost(env));
  }

  /** The submitted flag and an open composer never show together in a
      create pass: the flag is reset at the start and set only by the
      update that closes the composer. */
  lemma CreateSubmitCloses(env: Env, start: Frame)
    ensures var r := Run(start, CreatePass(env));
      forall i :: 0 <= i < |r| ==> (r[i].sim.isSubmitted ==> !r[i].sim.isComposerOpen)
  {
    var draft := CreateDraft(env);
    var r := Run(start, CreatePass(env));
    assert draft[0] == CreateReset;
    CreateDraftUnsubmitted(env);
    KeptFromFirst(SubmittedIs(false), start, draft);
    var mid := Final(start, draft);
    SubmitFrames(env, mid);
    RunAppend(start, draft, SubmitPost(env));
    forall i | 0 <= i < |r|
      ensures r[i].sim.isSubmitted ==> !r[i].sim.isComposerOpen
    {
      if i < |draft| {
        assert r[i] == Run(start, draft)[i];
      } else {
        assert r[i] == Run(mid, SubmitPost(env))[i - |draft|];
      }
    }
  }

  /** An announcement contributes its step and nothing else. */
  lemma AnnounceStep(n: int, text: string)
    ensures StepValues([Announce(n, text)]) == [n]
  {
  }

  lemma ResetSteps()
    ensures StepValues([CreateReset]) == [1] && StepValues([ReplyReset]) == [1]
  {
  }

  /** The announcements of a pass made of announcing updates with quiet
      blocks between them are those of the announcing updates. */
  lemma StepsOfBlocks(a: Op, p: seq<Op>, b: Op, q: seq<Op>, c: Op, t: seq<Op>)
    requires StepValues(p) == [] && StepValues(q) == [] && StepValues(t) == []
    ensures StepValues([a] + p + [b] + q + [c] + t) == StepValues([a]) + StepValues([b]) + StepValues([c])
  {
    StepValuesAppend([a], p);
    StepValuesAppend([a] + p, [b]);
    StepValuesAppend([a] + p + [b], q);
    StepValuesAppend([a] + p + [b] + q, [c]);
    StepValuesAppend([a] + p + [b] + q + [c], t);
  }

  /** The same with a fourth announcing update and block. */
  lemma StepsOfBlocks4(a: Op, p: seq<Op>, b: Op, q: seq<Op>, c: Op, t: seq<Op>, d: Op, w: seq<Op>)
    requires StepValues(p) == [] && StepValues(q) == [] && StepValues(t) == [] && StepValues(w) == []
    ensures StepValues([a] + p + [b] + q + [c] + t + [d] + w)
      == StepValues([a]) + StepValues([b]) + StepValues([c]) + StepValues([d])
  {
    StepsOfBlocks(a, p, b, q, c, t);
    StepValuesAppend([a] + p + [b] + q + [c] + t, [d]);
    StepValuesAppend([a] + p + [b] + q + [c] + t + [d], w);
  }

  /** Blocks whose presses are released inside them, separated by updates
      that press nothing, release every press at once. */
  lemma ClicksOfBlocks(a: Op, p: seq<Op>, b: Op, q: seq<Op>, c: Op, t: seq<Op>)
    requires !Presses(a) && !Presses(b) && !Presses(c)
    requires ClicksPaired(p) && ClicksPaired(q) && ClicksPaired(t)
    ensures ClicksPaired([a] + p + [b] + q + [c] + t)
  {
    ClicksPairedAppend([a], p);
    ClicksPairedAppend([a] + p, [b]);
    ClicksPairedAppend([a] + p + [b], q);
    ClicksPairedAppend([a] + p + [b] + q, [c]);
    ClicksPairedAppend([a] + p + [b] + q + [c], t);
  }

  lemma ClicksOfBlocks4(a: Op, p: seq<Op>, b: Op, q: seq<Op>, c: Op, t: seq<Op>, d: Op, w: seq<Op>)
    requires !Presses(a) && !Presses(b) && !Presses(c) && !Presses(d)
    requires ClicksPaired(p) && ClicksPaired(q) && ClicksPaired(t) && ClicksPaired(w)
    ensures ClicksPaired([a] + p + [b] + q + [c] + t + [d] + w)
  {
    ClicksOfBlocks(a, p, b, q, c, t);
    ClicksPairedAppend([a] + p + [b] + q + [c] + t, [d]);
    ClicksPairedAppend([a] + p + [b] + q + [c] + t + [d], w);
  }

  /** Two quiet blocks make a quiet block. */
  lemma QuietAppend(p: seq<Op>, q: seq<Op>)
    requires ClicksPaired(p) && StepValues(p) == []
    requires ClicksPaired(q) && StepValues(q) == []
    ensures ClicksPaired(p + q) && StepValues(p + q) == []
  {
    ClicksPairedAppend(p, q);
    StepValuesAppend(p, q);
  }

  lemma TypeIntroQuiet(env: Env)
    ensures ClicksPaired(TypeIntro(env)) && StepValues(TypeIntro(env)) == []
  {
    TypingQuiet(BodyField, "", Part1);
    QuietAppend([MoveTo(env, Editor)], Typing(BodyField, "", Part1));
    QuietAppend([MoveTo(env, Editor)] + Typing(BodyField, "", Part1),
      [Set(NoChange.(instruction := Some(BoldHint))), MoveTo(env, BoldButton)]);
  }

  lemma TypeBoldQuiet(env: Env)
    ensures ClicksPaired(TypeBold(env)) && StepValues(TypeBold(env)) == []
  {
    TypingQuiet(BodyField, Part1, Part2);
    QuietAppend(
      [Set(NoChange.(isClicking := Some(true), activeTool := Some(Some(BoldTool)))), Release, MoveTo(env, Editor)],
      Typing(BodyField, Part1, Part2));
  }

  lemma TypeRestQuiet()
    ensures ClicksPaired(TypeRest) && StepValues(TypeRest) == []
  {
    TypingQuiet(BodyField, Part1 + Part2, Part3);
    QuietAppend([Set(NoChange.(activeTool := Some(None)))], Typing(BodyField, Part1 + Part2, Part3));
  }

  lemma WriteBodyQuiet(env: Env)
    ensures ClicksPaired(WriteBody(env)) && StepValues(WriteBody(env)) == []
  {
    if Editor in env.mounted && BoldButton in env.mounted {
      TypeIntroQuiet(env);
      TypeBoldQuiet(env);
      TypeRestQuiet();
      QuietAppend(TypeIntro(env), TypeBold(env));
      QuietAppend(TypeIntro(env) + TypeBold(env), TypeRest);
    }
  }

  lemma TypeTitleQuiet(env: Env)
    ensures ClicksPaired(TypeTitle(env)) && StepValues(TypeTitle(env)) == []
  {
    if TitleInput in env.mounted {
      TypingQuiet(TitleField, "", TopicTitle);
      QuietAppend([MoveTo(env, TitleInput)], Typing(TitleField, "", TopicTitle));
    }
  }

  /** Opening the composer and submitting press once and release at once. */
  lemma ClickQuiet(env: Env, target: Target, effect: Update)
    requires effect.step.None?
    ensures ClicksPaired(Click(env, target, effect)) && StepValues(Click(env, target, effect)) == []
  {
  }

  lemma OpenAndSubmitQuiet(env: Env, button: Target)
    ensures ClicksPaired(OpenComposer(env, button)) && StepValues(OpenComposer(env, button)) == []
    ensures ClicksPaired(SubmitPost(env)) && StepValues(SubmitPost(env)) == []
  {
    ClickQuiet(env, button, NoChange.(isComposerOpen := Some(true)));
    ClickQuiet(env, SubmitButton, NoChange.(isSubmitted := Some(true), isComposerOpen := Some(false)));
  }

  /** Every press of a create pass is released by the next update. */
  lemma CreateClicksPaired(env: Env)
    ensures ClicksPaired(CreatePass(env))
  {
    TypeTitleQuiet(env);
    WriteBodyQuiet(env);
    OpenAndSubmitQuiet(env, NewTopicButton);
    ClicksOfBlocks4(CreateReset, OpenComposer(env, NewTopicButton), Announce(2, CreateStep2), TypeTitle(env),
      Announce(3, CreateStep3), WriteBody(env), Announce(4, CreateStep4), SubmitPost(env));
  }

  /** A create pass announces steps 1, 2, 3 and 4 in that order whichever
      elements are mounted: a missing element skips only its own block. */
  lemma CreateSteps(env: Env)
    ensures StepValues(CreatePass(env)) == [1, 2, 3, 4]
  {
    TypeTitleQuiet(env);
    WriteBodyQuiet(env);
    OpenAndSubmitQuiet(env, NewTopicButton);
    ResetSteps();
    AnnounceStep(2, CreateStep2);
    AnnounceStep(3, CreateStep3);
    AnnounceStep(4, CreateStep4);
    StepsOfBlocks4(CreateReset, OpenComposer(env, NewTopicButton), Announce(2, CreateStep2), TypeTitle(env),
      Announce(3, CreateStep3), WriteBody(env), Announce(4, CreateStep4), SubmitPost(env));
  }

  /** So within a create pass the step shown never goes down, and a pass
      that starts not clicking never stays clicking and ends not
      clicking. */
  lemma CreateStepsAndClicks(env: Env, start: Frame)
    requires !start.sim.isClicking
    ensures StepsAscend(Run(start, CreatePass(env)))
    ensures var r := Run(start, CreatePass(env));
      forall i :: 0 <= i < |r| && r[i].sim.isClicking ==> i + 1 < |r| && !r[i + 1].sim.isClicking
    ensures !Final(start, CreatePass(env)).sim.isClicking
  {
    CreateSteps(env);
    assert CreatePass(env)[0] == CreateReset;
    RunStepsAscendFrom(start, CreatePass(env));
    CreateClicksPaired(env);
    ClicksReleased(start, CreatePass(env));
  }
}
