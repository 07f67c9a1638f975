/** Where a create pass leaves the simulated page when every element it
    aims at is mounted, and which frames show the bold tool switched on. */
module CreateOutcome {
  import opened Wrappers
  import opened Simulation
  import opened Scenario
  import opened ScenarioFacts

  /** The state after a block made of one update, a block, one update and
      a block is that of applying them one after the other. */
  lemma FinalOfBlocks(start: Frame, a: Op, p: seq<Op>, b: Op, q: seq<Op>)
    ensures Final(start, [a] + p + [b] + q) == Final(Apply(Final(Apply(start, a), p), b), q)
  {
    FinalAppend(start, [a], p);
    FinalAppend(start, [a] + p, [b]);
    FinalAppend(start, [a] + p + [b], q);
  }

  /** A click leaves the pointer on the element, released, with the
      click's effect applied. */
  lemma ClickFinal(env: Env, target: Target, effect: Update, s: Frame)
    ensures Final(s, Click(env, target, effect))
      == s.(sim := Merge(s.sim.(cursorPos := env.center(target)), effect.(isClicking := Some(false))))
  {
  }

  lemma OpenComposerFinal(env: Env, button: Target, s: Frame)
    requires button in env.mounted
    ensures Final(s, OpenComposer(env, button))
      == s.(sim := s.sim.(cursorPos := env.center(button), isClicking := false, isComposerOpen := true))
  {
    ClickFinal(env, button, NoChange.(isComposerOpen := Some(true)), s);
  }

  lemma SubmitPostFinal(env: Env, s: Frame)
    requires SubmitButton in env.mounted
    ensures Final(s, SubmitPost(env))
      == s.(sim := s.sim.(cursorPos := env.center(SubmitButton), isClicking := false,
                          isSubmitted := true, isComposerOpen := false))
  {
    ClickFinal(env, SubmitButton, NoChange.(isSubmitted := Some(true), isComposerOpen := Some(false)), s);
  }

  /** Typing a non-empty text after `base` leaves the field holding both. */
  lemma TypingFinal(field: TextField, base: string, text: string, s: Frame)
    requires text != []
    ensures Final(s, Typing(field, base, text)) == s.(sim := WithText(s.sim, field, base + text))
  {
    RunTyping(s, field, base, text);
  }

  lemma TypeTitleFinal(env: Env, s: Frame)
    requires TitleInput in env.mounted
    ensures Final(s, TypeTitle(env)) == s.(sim := s.sim.(cursorPos := env.center(TitleInput), title := TopicTitle))
  {
    var m := Apply(s, MoveTo(env, TitleInput));
    FinalAppend(s, [MoveTo(env, TitleInput)], Typing(TitleField, "", TopicTitle));
    TypingFinal(TitleField, "", TopicTitle, m);
    assert "" + TopicTitle == TopicTitle;
  }

  lemma TypeIntroFinal(env: Env, s: Frame)
    ensures Final(s, TypeIntro(env))
      == s.(sim := s.sim.(cursorPos := env.center(BoldButton), body := Part1, instruction := BoldHint))
  {
    var m := Apply(s, MoveTo(env, Editor));
    var typing := Typing(BodyField, "", Part1);
    var tail := [Set(NoChange.(instruction := Some(BoldHint))), MoveTo(env, BoldButton)];
    FinalAppend(s, [MoveTo(env, Editor)], typing);
    FinalAppend(s, [MoveTo(env, Editor)] + typing, tail);
    TypingFinal(BodyField, "", Part1, m);
    assert "" + Part1 == Part1;
  }

  lemma TypeBoldFinal(env: Env, s: Frame)
    ensures Final(s, TypeBold(env))
      == s.(sim := s.sim.(cursorPos := env.center(Editor), isClicking := false,
                          activeTool := Some(BoldTool), body := Part1 + Part2))
  {
    var head := [Set(NoChange.(isClicking := Some(true), activeTool := Some(Some(BoldTool)))), Release,
                 MoveTo(env, Editor)];
    FinalAppend(s, head, Typing(BodyField, Part1, Part2));
    TypingFinal(BodyField, Part1, Part2, Final(s, head));
  }

  lemma TypeRestFinal(s: Frame)
    ensures Final(s, TypeRest) == s.(sim := s.sim.(activeTool := None, body := CreateBody))
  {
    var head := [Set(NoChange.(activeTool := Some(None)))];
    FinalAppend(s, head, Typing(BodyField, Part1 + Part2, Part3));
    TypingFinal(BodyField, Part1 + Part2, Part3, Final(s, head));
  }

  /** After the body block the editor holds the whole body, the bold tool
      is off again and the pointer rests on the editor. */
  lemma WriteBodyFinal(env: Env, s: Frame)
    requires Editor in env.mounted && BoldButton in env.mounted
    ensures Final(s, WriteBody(env))
      == s.(sim := s.sim.(cursorPos := env.center(Editor), isClicking := false, activeTool := None,
                          body := CreateBody, instruction := BoldHint))
  {
    FinalAppend(s, TypeIntro(env), TypeBold(env));
    FinalAppend(s, TypeIntro(env) + TypeBold(env), TypeRest);
    TypeIntroFinal(env, s);
    TypeBoldFinal(env, Final(s, TypeIntro(env)));
    TypeRestFinal(Final(s, TypeIntro(env) + TypeBold(env)));
  }

  /** Every element a create pass aims at. */
  predicate CreateMounted(env: Env) {
    NewTopicButton in env.mounted && TitleInput in env.mounted && Editor in env.mounted &&
    BoldButton in env.mounted && SubmitButton in env.mounted
  }

  /** Up to the title: step 2, the composer open and the title typed. */
  lemma CreateTitleFinal(env: Env, start: Frame)
    requires CreateMounted(env)
    ensures Final(start, [CreateReset] + OpenComposer(env, NewTopicButton) + [Announce(2, CreateStep2)] + TypeTitle(env))
      == start.(sim := start.sim.(
        step := 2, instruction := CreateStep2, isComposerOpen := true, isSubmitted := false,
        title := TopicTitle, body := "", cursorPos := env.center(TitleInput), isClicking := false))
  {
    var s1 := Apply(start, CreateReset);
    var s2 := Final(s1, OpenComposer(env, NewTopicButton));
    FinalOfBlocks(start, CreateReset, OpenComposer(env, NewTopicButton), Announce(2, CreateStep2), TypeTitle(env));
    OpenComposerFinal(env, NewTopicButton, s1);
    TypeTitleFinal(env, Apply(s2, Announce(2, CreateStep2)));
  }

  /** From step 3 to step 4: the body typed with the bold tool off again. */
  lemma CreateBodyFinal(env: Env, s: Frame)
    requires CreateMounted(env)
    ensures Apply(Final(Apply(s, Announce(3, CreateStep3)), WriteBody(env)), Announce(4, CreateStep4))
      == s.(sim := s.sim.(step := 4, instruction := CreateStep4, body := CreateBody,
                          cursorPos := env.center(Editor), isClicking := false, activeTool := None))
  {
    WriteBodyFinal(env, Apply(s, Announce(3, CreateStep3)));
  }

  /** The draft ends on step 4 with the composer open, the title and the
      whole body typed, and nothing pressed or selected as a tool. */
  lemma CreateDraftFinal(env: Env, start: Frame)
    requires CreateMounted(env)
    ensures Final(start, CreateDraft(env)) == start.(sim := start.sim.(
      step := 4, instruction := CreateStep4, isComposerOpen := true, isSubmitted := false,
      title := TopicTitle, body := CreateBody, cursorPos := env.center(Editor),
      isClicking := false, activeTool := None))
  {
    var head := [CreateReset] + OpenComposer(env, NewTopicButton) + [Announce(2, CreateStep2)] + TypeTitle(env);
    FinalAppend(start, head, [Announce(3, CreateStep3)]);
    FinalAppend(start, head + [Announce(3, CreateStep3)], WriteBody(env));
    FinalAppend(start, head + [Announce(3, CreateStep3)] + WriteBody(env), [Announce(4, CreateStep4)]);
    CreateTitleFinal(env, start);
    CreateBodyFinal(env, Final(start, head));
  }

  /** With every element mounted, a create pass ends on step 4 with the
      topic submitted, the composer closed, the title and the whole body
      typed, the pointer released over the submit button and the bold tool
      off; the selection, the watch status and the menu are untouched. */
  lemma CreatePassFinal(env: Env, start: Frame)
    requires CreateMounted(env)
    ensures Final(start, CreatePass(env)) == start.(sim := start.sim.(
      step := 4, instruction := CreateStep4, isComposerOpen := false, isSubmitted := true,
      title := TopicTitle, body := CreateBody, cursorPos := env.center(SubmitButton),
      isClicking := false, activeTool := None))
  {
    FinalAppend(start, CreateDraft(env), SubmitPost(env));
    CreateDraftFinal(env, start);
    SubmitPostFinal(env, Final(start, CreateDraft(env)));
  }

  /** The bold tool is active and the editor holds the first part and then
      `typed`. */
  predicate BoldFrame(f: Frame, typed: string) {
    f.sim.activeTool == Some(BoldTool) && f.sim.body == Part1 + typed
  }

  /** While the starred part is typed the bold tool shows as active, and
      the editor holds the first part and the starred part typed so far. */
  lemma BoldWhileTyping(env: Env, s: Frame)
    ensures forall n :: 0 < n <= |Part2| ==> BoldFrame(Run(s, TypeBold(env))[n + 2], Part2[..n])
  {
    var head := [Set(NoChange.(isClicking := Some(true), activeTool := Some(Some(BoldTool)))), Release,
                 MoveTo(env, Editor)];
    var m := Final(s, head);
    var typing := Typing(BodyField, Part1, Part2);
    var r := Run(s, TypeBold(env));
    RunAppend(s, head, typing);
    RunTyping(m, BodyField, Part1, Part2);
    assert m.sim.activeTool == Some(BoldTool);
    forall n | 0 < n <= |Part2|
      ensures BoldFrame(r[n + 2], Part2[..n])
    {
      assert r[n + 2] == Run(m, typing)[n - 1];
      assert Run(m, typing)[n - 1] == m.(sim := WithText(m.sim, BodyField, Part1 + Part2[..n]));
      assert WithText(m.sim, BodyField, Part1 + Part2[..n]) == m.sim.(body := Part1 + Part2[..n]);
    }
  }

  /** The bold tool is on from the press of B until the last starred
      character is typed: in every frame of the bold block. */
  lemma BoldFromPress(env: Env, s: Frame)
    ensures forall i :: 0 <= i < |TypeBold(env)| ==> Run(s, TypeBold(env))[i].sim.activeTool == Some(BoldTool)
  {
    var inv := ToolIs(Some(BoldTool));
    var head := [Set(NoChange.(isClicking := Some(true), activeTool := Some(Some(BoldTool)))), Release,
                 MoveTo(env, Editor)];
    TypingKeeps(inv, BodyField, Part1, Part2);
    assert KeptBy(inv, head);
    assert TypeBold(env) == head + Typing(BodyField, Part1, Part2);
    KeptFromFirst(inv, s, TypeBold(env));
    forall i | 0 <= i < |TypeBold(env)|
      ensures Run(s, TypeBold(env))[i].sim.activeTool == Some(BoldTool)
    {
      assert Holds(inv, Run(s, TypeBold(env))[i]);
    }
  }

  /** The bold tool is off in every frame of the last part. */
  lemma PlainAfterBold(s: Frame)
    ensures forall i :: 0 <= i < |TypeRest| ==> Run(s, TypeRest)[i].sim.activeTool == None
  {
    TypingKeeps(ToolIs(None), BodyField, Part1 + Part2, Part3);
    KeptFromFirst(ToolIs(None), s, TypeRest);
    forall i | 0 <= i < |TypeRest|
      ensures Run(s, TypeRest)[i].sim.activeTool == None
    {
      assert Holds(ToolIs(None), Run(s, TypeRest)[i]);
    }
  }

  /** The calls of a create pass before the press of B. */
  function BeforeBold(env: Env): seq<Op> {
    [CreateReset] + OpenComposer(env, NewTopicButton) + [Announce(2, CreateStep2)] + TypeTitle(env)
    + [Announce(3, CreateStep3)] + TypeIntro(env)
  }

  /** The calls after the last starred character. */
  function AfterBold(env: Env): seq<Op> {
    TypeRest + [Announce(4, CreateStep4)] + SubmitPost(env)
  }

  lemma SplitAtBold(x: Op, p: seq<Op>, y: Op, q: seq<Op>, z: Op, i: seq<Op>, b: seq<Op>, t: seq<Op>, w: Op, u: seq<Op>)
    ensures [x] + p + [y] + q + [z] + (i + b + t) + [w] + u == ([x] + p + [y] + q + [z] + i) + b + (t + [w] + u)
  {
  }

  lemma CreatePassAroundBold(env: Env)
    requires Editor in env.mounted && BoldButton in env.mounted
    ensures CreatePass(env) == BeforeBold(env) + TypeBold(env) + AfterBold(env)
  {
    assert WriteBody(env) == TypeIntro(env) + TypeBold(env) + TypeRest;
    SplitAtBold(CreateReset, OpenComposer(env, NewTopicButton), Announce(2, CreateStep2), TypeTitle(env),
                Announce(3, CreateStep3), TypeIntro(env), TypeBold(env), TypeRest, Announce(4, CreateStep4),
                SubmitPost(env));
  }

  /** Nothing before the press of B, and nothing after the last starred
      character, sets the tool to bold. */
  lemma ToolOffAroundBold(env: Env)
    ensures KeptBy(ToolIs(None), BeforeBold(env))
    ensures KeptBy(ToolIs(None), AfterBold(env))
  {
    var inv := ToolIs(None);
    OpenComposerKeeps(env, NewTopicButton, inv);
    TypeTitleKeeps(env, inv);
    TypingKeeps(inv, BodyField, "", Part1);
    TypingKeeps(inv, BodyField, Part1 + Part2, Part3);
    SubmitPostKeeps(env, inv);
  }

  /** Three blocks run one after the other, where the outer two keep the
      tool off, the last starts by switching it off, and the middle one
      shows it as bold throughout: the bold frames are exactly the middle
      block's. */
  lemma {:induction false} ToolWindow(start: Frame, a: seq<Op>, b: seq<Op>, c: seq<Op>)
    requires start.sim.activeTool == None
    requires KeptBy(ToolIs(None), a) && KeptBy(ToolIs(None), c)
    requires 0 < |b| && forall i :: 0 <= i < |b| ==> Run(Final(start, a), b)[i].sim.activeTool == Some(BoldTool)
    requires 0 < |c| && c[0].Set? && c[0].u.activeTool == Some(None)
    ensures var r := Run(start, a + b + c);
      forall i :: 0 <= i < |r| ==>
        if |a| <= i < |a| + |b| then r[i].sim.activeTool == Some(BoldTool) else r[i].sim.activeTool == None
  {
    var inv := ToolIs(None);
    RunAppend(start, a + b, c);
    RunAppend(start, a, b);
    FinalAppend(start, a, b);
    var ra := Run(start, a);
    var mid := Final(start, a);
    var rb := Run(mid, b);
    var end := Final(start, a + b);
    var rc := Run(end, c);
    var r := Run(start, a + b + c);
    assert r == ra + rb + rc;
    RunKeeps(inv, start, a);
    assert end.sim.activeTool == Some(BoldTool) by {
      assert end == rb[|b| - 1];
    }
    assert Holds(inv, Apply(end, c[0])) by {
      assert Took(Apply(end, c[0]).sim, c[0].u, ActiveTool);
    }
    KeptFromFirst(inv, end, c);
    forall i | 0 <= i < |r|
      ensures if |a| <= i < |a| + |b| then r[i].sim.activeTool == Some(BoldTool) else r[i].sim.activeTool == None
    {
      if i < |a| {
        assert r[i] == ra[i];
        assert Holds(inv, ra[i]);
      } else if i < |a| + |b| {
        assert r[i] == rb[i - |a|];
      } else {
        assert r[i] == rc[i - |a| - |b|];
        assert Holds(inv, rc[i - |a| - |b|]);
      }
    }
  }

  /** In a whole create pass that starts with no tool selected, the bold
      tool shows as active exactly in the frames from the press of B to the
      last starred character, and no tool is selected in every other frame. */
  lemma BoldWindowInPass(env: Env, start: Frame)
    requires Editor in env.mounted && BoldButton in env.mounted
    requires start.sim.activeTool == None
    ensures var k := |BeforeBold(env)|; var m := k + |TypeBold(env)|;
      var r := Run(start, CreatePass(env));
      forall i :: 0 <= i < |r| ==>
        if k <= i < m then r[i].sim.activeTool == Some(BoldTool) else r[i].sim.activeTool == None
  {
    CreatePassAroundBold(env);
    ToolOffAroundBold(env);
    BoldFromPress(env, Final(start, BeforeBold(env)));
    assert AfterBold(env)[0] == Set(NoChange.(activeTool := Some(None)));
    ToolWindow(start, BeforeBold(env), TypeBold(env), AfterBold(env));
  }
}
