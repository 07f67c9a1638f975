/** What a follow pass does: the watch status and the menu are reset
    before the step-1 announcement, step 2 and the choice of "watching"
    happen only when the bell is mounted, and the texts, the tool and the
    selection are never touched. */
module FollowFacts {
  import opened Wrappers
  import opened Simulation
  import opened Scenario
  import opened ScenarioFacts
  import opened CreateOutcome

  /** The frame the announcement of step 1 leaves. */
  function Announced(start: Frame): Frame {
    start.(watch := NotWatching, menuVisible := false,
           sim := start.sim.(step := 1, instruction := FollowStep1, isComposerOpen := false, isSubmitted := false))
  }

  /** The first two frames reset the watch status and hide the menu but
      still show the previous step; the third announces step 1 and closes
      the composer. */
  lemma FollowResets(env: Env, start: Frame)
    ensures var r := Run(start, FollowPass(env));
      |r| >= 3 && r[0] == start.(watch := NotWatching) &&
      r[1] == start.(watch := NotWatching, menuVisible := false) &&
      r[2] == Announced(start)
  {
    var ops := FollowPass(env);
    assert ops[0] == SetWatch(NotWatching) && ops[1] == SetMenu(false) && ops[2] == FollowAnnounce;
  }

  /** The tail of the menu choice: the watch status, the menu and the
      closing instruction. */
  const Chosen := [SetWatch(Watching), SetMenu(false), Set(NoChange.(instruction := Some(FollowDone)))]

  /** Showing the menu and announcing step 2. */
  const MenuShown := [SetMenu(true), Announce(2, FollowStep2)]

  lemma ChooseWatchingQuiet(env: Env)
    ensures ClicksPaired(ChooseWatching(env)) && StepValues(ChooseWatching(env)) == []
  {
    if WatchMenuOption in env.mounted {
      ClickQuiet(env, WatchMenuOption, NoChange);
      assert ClicksPaired(Chosen) && StepValues(Chosen) == [];
      QuietAppend(Click(env, WatchMenuOption, NoChange), Chosen);
    }
  }

  lemma OpenWatchMenuQuiet(env: Env)
    requires WatchButton in env.mounted
    ensures ClicksPaired(OpenWatchMenu(env)) && StepValues(OpenWatchMenu(env)) == [2]
  {
    var click := Click(env, WatchButton, NoChange);
    ClickQuiet(env, WatchButton, NoChange);
    ChooseWatchingQuiet(env);
    assert ClicksPaired(MenuShown) && StepValues(MenuShown) == [2];
    ClicksPairedAppend(click, MenuShown);
    ClicksPairedAppend(click + MenuShown, ChooseWatching(env));
    StepValuesAppend(click, MenuShown);
    StepValuesAppend(click + MenuShown, ChooseWatching(env));
  }

  /** A follow pass announces step 1, and step 2 exactly when the bell is
      mounted; every press is released by the next update. */
  lemma FollowStepsAndPairs(env: Env)
    ensures StepValues(FollowPass(env)) == if WatchButton in env.mounted then [1, 2] else [1]
    ensures ClicksPaired(FollowPass(env))
  {
    assert StepValues(FollowReset) == [] && ClicksPaired(FollowReset);
    assert StepValues([FollowAnnounce]) == [1] && ClicksPaired([FollowAnnounce]);
    if WatchButton in env.mounted {
      OpenWatchMenuQuiet(env);
    }
    StepValuesAppend([FollowAnnounce], OpenWatchMenu(env));
    StepValuesAppend(FollowReset, FollowSteps(env));
    ClicksPairedAppend([FollowAnnounce], OpenWatchMenu(env));
    ClicksPairedAppend(FollowReset, FollowSteps(env));
  }

  lemma FollowStepsValues(env: Env)
    ensures StepValues(FollowSteps(env)) == if WatchButton in env.mounted then [1, 2] else [1]
  {
    FollowStepsAndPairs(env);
    StepValuesAppend(FollowReset, FollowSteps(env));
    assert StepValues(FollowReset) == [];
  }

  /** From the announcement on, the step never goes down. */
  lemma FollowStepsAscend(env: Env, start: Frame)
    ensures StepsAscend(Run(start, FollowPass(env))[2..])
  {
    var steps := FollowSteps(env);
    assert |FollowReset| == 2;
    RunAfter(start, FollowReset, steps);
    FollowStepsStartAscending(env);
    RunStepsAscendFrom(Final(start, FollowReset), steps);
  }

  lemma FollowStepsStartAscending(env: Env)
    ensures var steps := FollowSteps(env);
      0 < |steps| && Announces(steps[0]) && Ascending(StepValues(steps))
  {
    FollowStepsValues(env);
    assert FollowSteps(env)[0] == FollowAnnounce;
  }

  /** From a frame that is not clicking, no frame of a follow pass stays
      clicking and the pass ends not clicking. */
  lemma FollowClicks(env: Env, start: Frame)
    requires !start.sim.isClicking
    ensures var r := Run(start, FollowPass(env));
      forall i :: 0 <= i < |r| && r[i].sim.isClicking ==> i + 1 < |r| && !r[i + 1].sim.isClicking
    ensures !Final(start, FollowPass(env)).sim.isClicking
  {
    FollowStepsAndPairs(env);
    ClicksReleased(start, FollowPass(env));
  }

  /** Every call of a click without effect, of the menu choice and of the
      resets keeps every property but the step. */
  lemma FollowBlocksKeep(env: Env, target: Target, inv: Invariant)
    ensures KeptBy(inv, Click(env, target, NoChange))
    ensures KeptBy(inv, Chosen)
    ensures KeptBy(inv, FollowReset)
    ensures KeptBy(inv, ChooseWatching(env))
  {
  }

  /** Properties no call of a follow pass after the resets can break. */
  lemma FollowKeeps(env: Env, inv: Invariant)
    requires inv.TitleIs? || inv.SelectionIs? || inv.ToolIs? || inv == StepWithin(1, 2)
      || inv == SubmittedIs(false) || inv == ComposerIs(false)
    ensures KeptBy(inv, FollowSteps(env))
    ensures KeptBy(inv, FollowPass(env))
  {
    FollowBlocksKeep(env, WatchButton, inv);
    FollowBlocksKeep(env, WatchMenuOption, inv);
    assert KeptBy(inv, MenuShown);
    assert Keeps(inv, FollowAnnounce);
  }

  /** From the announcement on the step is 1 or 2 and the post is neither
      submitted nor being composed; in every frame the title, the selection
      and the tool are those before the pass. */
  lemma FollowFrames(env: Env, start: Frame)
    ensures var r := Run(start, FollowPass(env));
      forall i :: 2 <= i < |r| ==>
        1 <= r[i].sim.step <= 2 && !r[i].sim.isSubmitted && !r[i].sim.isComposerOpen
    ensures var r := Run(start, FollowPass(env));
      forall i :: 0 <= i < |r| ==>
        (r[i].sim.title == start.sim.title && r[i].sim.selectionRange == start.sim.selectionRange &&
         r[i].sim.activeTool == start.sim.activeTool)
  {
    FollowFramesAfterReset(env, start);
    FollowFramesKeep(env, start);
  }

  lemma FollowFramesAfterReset(env: Env, start: Frame)
    ensures var r := Run(start, FollowPass(env));
      forall i :: 2 <= i < |r| ==>
        1 <= r[i].sim.step <= 2 && !r[i].sim.isSubmitted && !r[i].sim.isComposerOpen
  {
    var ops := FollowPass(env);
    var r := Run(start, ops);
    var mid := Final(start, FollowReset);
    var steps := FollowSteps(env);
    assert |FollowReset| == 2;
    RunAfter(start, FollowReset, steps);
    assert steps[0] == FollowAnnounce;
    FollowKeeps(env, StepWithin(1, 2));
    KeptFromFirst(StepWithin(1, 2), mid, steps);
    FollowKeeps(env, SubmittedIs(false));
    KeptFromFirst(SubmittedIs(false), mid, steps);
    FollowKeeps(env, ComposerIs(false));
    KeptFromFirst(ComposerIs(false), mid, steps);
    forall i | 2 <= i < |r|
      ensures 1 <= r[i].sim.step <= 2 && !r[i].sim.isSubmitted && !r[i].sim.isComposerOpen
    {
      assert r[i] == Run(mid, steps)[i - 2];
      assert Holds(StepWithin(1, 2), Run(mid, steps)[i - 2]);
      assert Holds(SubmittedIs(false), Run(mid, steps)[i - 2]);
      assert Holds(ComposerIs(false), Run(mid, steps)[i - 2]);
    }
  }

  lemma FollowFramesKeep(env: Env, start: Frame)
    ensures var r := Run(start, FollowPass(env));
      forall i :: 0 <= i < |r| ==>
        (r[i].sim.title == start.sim.title && r[i].sim.selectionRange == start.sim.selectionRange &&
         r[i].sim.activeTool == start.sim.activeTool)
  {
    var ops := FollowPass(env);
    FollowKeeps(env, TitleIs(start.sim.title));
    RunKeeps(TitleIs(start.sim.title), start, ops);
    FollowKeeps(env, SelectionIs(start.sim.selectionRange));
    RunKeeps(SelectionIs(start.sim.selectionRange), start, ops);
    FollowKeeps(env, ToolIs(start.sim.activeTool));
    RunKeeps(ToolIs(start.sim.activeTool), start, ops);
  }

  /** A click without effect only moves the pointer and releases it. */
  lemma PlainClickFinal(env: Env, target: Target, s: Frame)
    ensures Final(s, Click(env, target, NoChange)) == s.(sim := s.sim.(cursorPos := env.center(target), isClicking := false))
  {
    ClickFinal(env, target, NoChange, s);
    MergeReleases(s.sim.(cursorPos := env.center(target)));
  }

  lemma MergeReleases(t: SimulationState)
    ensures Merge(t, NoChange.(isClicking := Some(false))) == t.(isClicking := false)
  {
  }

  lemma MenuShownFinal(t: Frame)
    ensures Final(t, MenuShown) == t.(menuVisible := true, sim := t.sim.(step := 2, instruction := FollowStep2))
  {
  }

  lemma ChosenFinal(t: Frame)
    ensures Final(t, Chosen) == t.(watch := Watching, menuVisible := false, sim := t.sim.(instruction := FollowDone))
  {
  }

  /** The bell is pressed, the menu shows and step 2 is announced. */
  lemma OpenedMenu(env: Env, s: Frame)
    ensures Final(s, Click(env, WatchButton, NoChange) + MenuShown)
      == s.(menuVisible := true, sim := s.sim.(step := 2, instruction := FollowStep2,
                                               cursorPos := env.center(WatchButton), isClicking := false))
  {
    FinalAppend(s, Click(env, WatchButton, NoChange), MenuShown);
    PlainClickFinal(env, WatchButton, s);
    MenuShownFinal(Final(s, Click(env, WatchButton, NoChange)));
  }

  /** "Watching" is chosen and the menu hides again. */
  lemma ChoseWatching(env: Env, s: Frame)
    requires WatchMenuOption in env.mounted
    ensures Final(s, ChooseWatching(env))
      == s.(watch := Watching, menuVisible := false,
            sim := s.sim.(instruction := FollowDone, cursorPos := env.center(WatchMenuOption), isClicking := false))
  {
    FinalAppend(s, Click(env, WatchMenuOption, NoChange), Chosen);
    PlainClickFinal(env, WatchMenuOption, s);
    ChosenFinal(Final(s, Click(env, WatchMenuOption, NoChange)));
  }

  /** Where a follow pass leaves the page, in each of the three cases the
      mounted elements allow. */
  lemma FollowPassFinal(env: Env, start: Frame)
    ensures var f := Final(start, FollowPass(env)); var a := Announced(start);
      if WatchButton !in env.mounted then f == a
      else if WatchMenuOption !in env.mounted then
        f == a.(menuVisible := true, sim := a.sim.(step := 2, instruction := FollowStep2,
                                                  cursorPos := env.center(WatchButton), isClicking := false))
      else
        f == a.(watch := Watching, sim := a.sim.(step := 2, instruction := FollowDone,
                                                cursorPos := env.center(WatchMenuOption), isClicking := false))
  {
    FinalAppend(start, FollowReset, FollowSteps(env));
    var mid := Final(start, FollowReset);
    FinalAppend(mid, [FollowAnnounce], OpenWatchMenu(env));
    assert Final(mid, [FollowAnnounce]) == Announced(start);
    if WatchButton in env.mounted {
      var head := Click(env, WatchButton, NoChange) + MenuShown;
      FinalAppend(Announced(start), head, ChooseWatching(env));
      OpenedMenu(env, Announced(start));
      if WatchMenuOption in env.mounted {
        ChoseWatching(env, Final(Announced(start), head));
      }
    }
  }

  /** The pass ends watching exactly when both the bell and the menu
      option are mounted; it leaves the menu showing exactly when the bell
      is mounted but the option is not; it ends on step 2 exactly when the
      bell is mounted. */
  lemma FollowOutcome(env: Env, start: Frame)
    ensures Final(start, FollowPass(env)).watch == Watching
      <==> WatchButton in env.mounted && WatchMenuOption in env.mounted
    ensures Final(start, FollowPass(env)).menuVisible
      <==> WatchButton in env.mounted && WatchMenuOption !in env.mounted
    ensures Final(start, FollowPass(env)).sim.step == if WatchButton in env.mounted then 2 else 1
  {
    FollowPassFinal(env, start);
  }

  /** The calls of a follow pass before the menu option's ref is read. */
  function BeforeOption(env: Env): seq<Op> {
    FollowReset + [FollowAnnounce] + Click(env, WatchButton, NoChange) + MenuShown
  }

  /** With the bell mounted, the pass reads the option's ref only after it
      has made the menu visible. */
  lemma MenuVisibleAtOptionLookup(env: Env, start: Frame)
    requires WatchButton in env.mounted
    ensures FollowPass(env) == BeforeOption(env) + ChooseWatching(env)
    ensures Final(start, BeforeOption(env)).menuVisible
  {
    var head := FollowReset + [FollowAnnounce];
    assert BeforeOption(env) == head + (Click(env, WatchButton, NoChange) + MenuShown);
    FinalAppend(start, head, Click(env, WatchButton, NoChange) + MenuShown);
    OpenedMenu(env, Final(start, head));
  }

  /** The option is rendered inside the menu, so its ref is set whenever
      the menu is visible. */
  predicate OptionRenderedWithMenu(env: Env, f: Frame) {
    f.menuVisible ==> WatchMenuOption in env.mounted
  }

  /** On a page that renders the option whenever the menu is visible, a
      follow pass with the bell mounted always ends watching, with the menu
      hidden, on step 2 and with the closing message shown. */
  lemma FollowWatchesWhenMenuRendered(env: Env, start: Frame)
    requires WatchButton in env.mounted
    requires OptionRenderedWithMenu(env, Final(start, BeforeOption(env)))
    ensures var f := Final(start, FollowPass(env));
      f.watch == Watching && !f.menuVisible && f.sim.step == 2 && f.sim.instruction == FollowDone
  {
    MenuVisibleAtOptionLookup(env, start);
    FollowPassFinal(env, start);
  }
}
