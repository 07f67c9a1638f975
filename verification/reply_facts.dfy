/** What a reply pass does to the frames it produces: unlike a create
    pass it keeps the title, and the image markup reaches the editor in a
    single update after the message has been typed. */
module ReplyFacts {
  import opened Wrappers
  import opened Simulation
  import opened Scenario
  import opened ScenarioFacts
  import opened CreateOutcome

  /** The body a reply pass ends with when the editor is mounted. */
  const ReplyBody := ReplyMessage + ReplyImage

  lemma WriteReplyKeeps(env: Env, inv: Invariant)
    requires inv.BodyWithin? ==> ReplyMessage <= inv.typed && inv.full == ReplyBody
    ensures KeptBy(inv, WriteReply(env))
  {
    if Editor in env.mounted {
      assert "" + ReplyMessage == ReplyMessage;
      TypingKeeps(inv, BodyField, "", ReplyMessage);
    }
  }

  /** Properties no call of a reply pass can break. */
  lemma ReplyKeeps(env: Env, inv: Invariant)
    requires inv == StepWithin(1, 3) || inv.SelectionIs? || inv.TitleIs? || inv.ToolIs?
      || inv == BodyWithin(ReplyMessage, ReplyBody)
    ensures KeptBy(inv, ReplyPass(env))
  {
    OpenComposerKeeps(env, ReplyButton, inv);
    WriteReplyKeeps(env, inv);
    SubmitPostKeeps(env, inv);
  }

  /** A reply pass starts by resetting the step, the instruction, the body
      and both flags; the title keeps whatever it held. */
  lemma ReplyResets(env: Env, start: Frame)
    ensures Run(start, ReplyPass(env))[0] == start.(sim := start.sim.(
      step := 1, instruction := ReplyStep1, isComposerOpen := false,
      isSubmitted := false, body := ""))
  {
    assert ReplyPass(env)[0] == ReplyReset;
  }

  /** In every frame of a reply pass the step is between 1 and 3; the
      title, the selection and the active tool are those before the pass;
      and the body is a prefix of the message or the message with the image
      markup appended, never anything in between. */
  lemma ReplyFrames(env: Env, start: Frame)
    ensures var r := Run(start, ReplyPass(env));
      forall i :: 0 <= i < |r| ==>
        1 <= r[i].sim.step <= 3 && r[i].sim.title == start.sim.title &&
        r[i].sim.selectionRange == start.sim.selectionRange && r[i].sim.activeTool == start.sim.activeTool &&
        (r[i].sim.body <= ReplyMessage || r[i].sim.body == ReplyBody)
  {
    var ops := ReplyPass(env);
    var r := Run(start, ops);
    assert ops[0] == ReplyReset;
    assert r[0].sim.step == 1 && r[0].sim.body == "";
    ReplyKeeps(env, StepWithin(1, 3));
    KeptFromFirst(StepWithin(1, 3), start, ops);
    ReplyKeeps(env, BodyWithin(ReplyMessage, ReplyBody));
    KeptFromFirst(BodyWithin(ReplyMessage, ReplyBody), start, ops);
    ReplyKeeps(env, TitleIs(start.sim.title));
    RunKeeps(TitleIs(start.sim.title), start, ops);
    ReplyKeeps(env, SelectionIs(start.sim.selectionRange));
    RunKeeps(SelectionIs(start.sim.selectionRange), start, ops);
    ReplyKeeps(env, ToolIs(start.sim.activeTool));
    RunKeeps(ToolIs(start.sim.activeTool), start, ops);
  }

  lemma ReplyDraftUnsubmitted(env: Env)
    ensures KeptBy(SubmittedIs(false), ReplyDraft(env))
  {
    OpenComposerKeeps(env, ReplyButton, SubmittedIs(false));
    WriteReplyKeeps(env, SubmittedIs(false));
  }

  /** The submitted flag and an open composer never show together in a
      reply pass. */
  lemma ReplySubmitCloses(env: Env, start: Frame)
    ensures var r := Run(start, ReplyPass(env));
      forall i :: 0 <= i < |r| ==> (r[i].sim.isSubmitted ==> !r[i].sim.isComposerOpen)
  {
    var draft := ReplyDraft(env);
    var r := Run(start, ReplyPass(env));
    assert draft[0] == ReplyReset;
    ReplyDraftUnsubmitted(env);
    KeptFromFirst(SubmittedIs(false), start, draft);
    var mid := Final(start, draft);
    SubmitFrames(env, mid);
    RunAppend(start, draft, SubmitPost(env));
    forall i | 0 <= i < |r|
      ensures r[i].sim.isSubmitted ==> !r[i].sim.isComposerOpen
    {
      if i < |draft| {
        assert r[i] == Run(start, draft)[i];
      } else {
        assert r[i] == Run(mid, SubmitPost(env))[i - |draft|];
      }
    }
  }

  lemma WriteReplyQuiet(env: Env)
    ensures ClicksPaired(WriteReply(env)) && StepValues(WriteReply(env)) == []
  {
    if Editor in env.mounted {
      TypingQuiet(BodyField, "", ReplyMessage);
      QuietAppend([MoveTo(env, Editor)], Typing(BodyField, "", ReplyMessage));
      QuietAppend([MoveTo(env, Editor)] + Typing(BodyField, "", ReplyMessage),
        [Set(NoChange.(body := Some(ReplyBody)))]);
    }
  }

  /** A reply pass announces steps 1, 2 and 3 in that order whichever
      elements are mounted, and releases every press at once. */
  lemma ReplyStepsAndPairs(env: Env)
    ensures StepValues(ReplyPass(env)) == [1, 2, 3]
    ensures ClicksPaired(ReplyPass(env))
  {
    WriteReplyQuiet(env);
    OpenAndSubmitQuiet(env, ReplyButton);
    ResetSteps();
    AnnounceStep(2, ReplyStep2);
    AnnounceStep(3, ReplyStep3);
    StepsOfBlocks(ReplyReset, OpenComposer(env, ReplyButton), Announce(2, ReplyStep2), WriteReply(env),
      Announce(3, ReplyStep3), SubmitPost(env));
    ClicksOfBlocks(ReplyReset, OpenComposer(env, ReplyButton), Announce(2, ReplyStep2), WriteReply(env),
      Announce(3, ReplyStep3), SubmitPost(env));
  }

  /** So within a reply pass the step never goes down, and from a frame
      that is not clicking no frame stays clicking and the pass ends not
      clicking. */
  lemma ReplyStepsAndClicks(env: Env, start: Frame)
    requires !start.sim.isClicking
    ensures StepsAscend(Run(start, ReplyPass(env)))
    ensures var r := Run(start, ReplyPass(env));
      forall i :: 0 <= i < |r| && r[i].sim.isClicking ==> i + 1 < |r| && !r[i + 1].sim.isClicking
    ensures !Final(start, ReplyPass(env)).sim.isClicking
  {
    ReplyStepsAndPairs(env);
    assert ReplyPass(env)[0] == ReplyReset;
    RunStepsAscendFrom(start, ReplyPass(env));
    ClicksReleased(start, ReplyPass(env));
  }

  lemma WriteReplyFinal(env: Env, s: Frame)
    requires Editor in env.mounted
    ensures Final(s, WriteReply(env)) == s.(sim := s.sim.(cursorPos := env.center(Editor), body := ReplyBody))
  {
    var typing := Typing(BodyField, "", ReplyMessage);
    FinalAppend(s, [MoveTo(env, Editor)], typing);
    FinalAppend(s, [MoveTo(env, Editor)] + typing, [Set(NoChange.(body := Some(ReplyBody)))]);
    TypingFinal(BodyField, "", ReplyMessage, Apply(s, MoveTo(env, Editor)));
  }

  /** Every element a reply pass aims at. */
  predicate ReplyMounted(env: Env) {
    ReplyButton in env.mounted && Editor in env.mounted && SubmitButton in env.mounted
  }

  lemma ReplyDraftFinal(env: Env, start: Frame)
    requires ReplyMounted(env)
    ensures Final(start, ReplyDraft(env)) == start.(sim := start.sim.(
      step := 3, instruction := ReplyStep3, isComposerOpen := true, isSubmitted := false,
      body := ReplyBody, cursorPos := env.center(Editor), isClicking := false))
  {
    var s1 := Apply(start, ReplyReset);
    var s2 := Final(s1, OpenComposer(env, ReplyButton));
    var head := [ReplyReset] + OpenComposer(env, ReplyButton) + [Announce(2, ReplyStep2)] + WriteReply(env);
    FinalOfBlocks(start, ReplyReset, OpenComposer(env, ReplyButton), Announce(2, ReplyStep2), WriteReply(env));
    FinalAppend(start, head, [Announce(3, ReplyStep3)]);
    OpenComposerFinal(env, ReplyButton, s1);
    WriteReplyFinal(env, Apply(s2, Announce(2, ReplyStep2)));
  }

  /** With every element mounted, a reply pass ends on step 3 with the
      reply submitted, the composer closed, the message and the image
      markup in the body and the pointer released over the submit button;
      the title, the tool, the selection, the watch status and the menu are
      untouched. */
  lemma ReplyPassFinal(env: Env, start: Frame)
    requires ReplyMounted(env)
    ensures Final(start, ReplyPass(env)) == start.(sim := start.sim.(
      step := 3, instruction := ReplyStep3, isComposerOpen := false, isSubmitted := true,
      body := ReplyBody, cursorPos := env.center(SubmitButton), isClicking := false))
  {
    FinalAppend(start, ReplyDraft(env), SubmitPost(env));
    ReplyDraftFinal(env, start);
    SubmitPostFinal(env, Final(start, ReplyDraft(env)));
  }
}
