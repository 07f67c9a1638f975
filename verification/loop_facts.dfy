/** The `while (true)` loop of the driver: any number of passes of one
    mode, run from the simulator's initial state, each pass seeing the page
    as it is then. */
module LoopFacts {
  import opened Wrappers
  import opened Simulation
  import opened Scenario
  import opened ScenarioFacts
  import opened ReplyFacts
  import opened FollowFacts

  /** The last step a mode announces. */
  function MaxStep(mode: Mode): int {
    match mode
    case Create => 4
    case Reply => 3
    case Follow => 2
  }

  /** Every pass of a mode keeps the step within the mode's range and the
      selection; reply and follow passes keep the title and the tool too. */
  lemma PassKeeps(mode: Mode, env: Env, inv: Invariant)
    requires inv == StepWithin(1, MaxStep(mode)) || inv.SelectionIs?
      || (mode != Create && (inv.TitleIs? || inv.ToolIs?))
    ensures KeptBy(inv, Pass(mode, env))
  {
    match mode
    case Create => CreateKeeps(env, inv);
    case Reply => ReplyKeeps(env, inv);
    case Follow => FollowKeeps(env, inv);
  }

  /** The passes of a loop, one block each. */
  function PassList(mode: Mode, envs: seq<Env>): (r: seq<seq<Op>>)
    ensures |r| == |envs| && forall i :: 0 <= i < |envs| ==> r[i] == Pass(mode, envs[i])
    ensures Flatten(r) == Passes(mode, envs)
  {
    seq(|envs|, i requires 0 <= i < |envs| => Pass(mode, envs[i]))
  }

  /** Blocks that each keep `inv` make a run that keeps it. */
  lemma {:induction false} FlattenKeeps(inv: Invariant, xss: seq<seq<Op>>)
    requires forall i :: 0 <= i < |xss| ==> KeptBy(inv, xss[i])
    ensures KeptBy(inv, Flatten(xss))
    decreases |xss|
  {
    if xss != [] {
      FlattenKeeps(inv, xss[1..]);
    }
  }

  lemma PassesKeep(mode: Mode, envs: seq<Env>, inv: Invariant)
    requires inv == StepWithin(1, MaxStep(mode)) || inv.SelectionIs?
      || (mode != Create && (inv.TitleIs? || inv.ToolIs?))
    ensures KeptBy(inv, Passes(mode, envs))
  {
    var xss := PassList(mode, envs);
    forall i | 0 <= i < |xss|
      ensures KeptBy(inv, xss[i])
    {
      PassKeeps(mode, envs[i], inv);
    }
    FlattenKeeps(inv, xss);
  }

  /** However many passes run, every frame shows a step of the mode, no
      selection, and, outside the create mode, an empty title and no
      active tool. */
  lemma LoopFrames(mode: Mode, envs: seq<Env>)
    ensures var r := Run(Initial, Passes(mode, envs));
      forall i :: 0 <= i < |r| ==>
        1 <= r[i].sim.step <= MaxStep(mode) && r[i].sim.selectionRange == None &&
        (mode != Create ==> r[i].sim.title == "" && r[i].sim.activeTool == None)
  {
    var ops := Passes(mode, envs);
    PassesKeep(mode, envs, StepWithin(1, MaxStep(mode)));
    RunKeeps(StepWithin(1, MaxStep(mode)), Initial, ops);
    PassesKeep(mode, envs, SelectionIs(None));
    RunKeeps(SelectionIs(None), Initial, ops);
    if mode != Create {
      PassesKeep(mode, envs, TitleIs(""));
      RunKeeps(TitleIs(""), Initial, ops);
      PassesKeep(mode, envs, ToolIs(None));
      RunKeeps(ToolIs(None), Initial, ops);
    }
  }

  lemma PassClicksPaired(mode: Mode, env: Env)
    ensures ClicksPaired(Pass(mode, env))
  {
    match mode
    case Create => CreateClicksPaired(env);
    case Reply => ReplyStepsAndPairs(env);
    case Follow => FollowStepsAndPairs(env);
  }

  lemma {:induction false} FlattenPaired(xss: seq<seq<Op>>)
    requires forall i :: 0 <= i < |xss| ==> ClicksPaired(xss[i])
    ensures ClicksPaired(Flatten(xss))
    decreases |xss|
  {
    if xss != [] {
      FlattenPaired(xss[1..]);
      ClicksPairedAppend(xss[0], Flatten(xss[1..]));
    }
  }

  lemma PassesClicksPaired(mode: Mode, envs: seq<Env>)
    ensures ClicksPaired(Passes(mode, envs))
  {
    var xss := PassList(mode, envs);
    forall i | 0 <= i < |xss|
      ensures ClicksPaired(xss[i])
    {
      PassClicksPaired(mode, envs[i]);
    }
    FlattenPaired(xss);
  }

  /** The cursor never stays pressed: every clicking frame of the loop is
      followed by one that is not, and the loop never stops clicking. */
  lemma LoopClicks(mode: Mode, envs: seq<Env>)
    ensures var r := Run(Initial, Passes(mode, envs));
      forall i :: 0 <= i < |r| && r[i].sim.isClicking ==> i + 1 < |r| && !r[i + 1].sim.isClicking
    ensures !Final(Initial, Passes(mode, envs)).sim.isClicking
  {
    PassesClicksPaired(mode, envs);
    ClicksReleased(Initial, Passes(mode, envs));
  }

  /** `k` copies of `block`, one after the other. */
  function Repeat(block: seq<int>, k: nat): seq<int> {
    if k == 0 then [] else block + Repeat(block, k - 1)
  }

  lemma {:induction false} RepeatLength(block: seq<int>, k: nat)
    ensures |Repeat(block, k)| == k * |block|
  {
    if k > 0 {
      RepeatLength(block, k - 1);
      assert k * |block| == (k - 1) * |block| + |block|;
    }
  }

  /** One copy fewer is a prefix. */
  lemma {:induction false} RepeatPrefix(block: seq<int>, k: nat)
    requires k > 0
    ensures Repeat(block, k - 1) <= Repeat(block, k)
  {
    if k > 1 {
      RepeatPrefix(block, k - 1);
      var shorter := Repeat(block, k - 2);
      var longer := Repeat(block, k - 1);
      assert (block + longer)[..|block| + |shorter|] == block + longer[..|shorter|];
    }
  }

  /** A repetition starts with the block and repeats with its period. */
  lemma RepeatPeriodic(block: seq<int>, k: nat)
    ensures k > 0 ==> block <= Repeat(block, k)
    ensures forall i :: 0 <= i && i + |block| < |Repeat(block, k)| ==>
      Repeat(block, k)[i + |block|] == Repeat(block, k)[i]
  {
    var r := Repeat(block, k);
    if k > 0 {
      assert r[..|block|] == block;
      RepeatPrefix(block, k);
      forall i | 0 <= i && i + |block| < |r|
        ensures r[i + |block|] == r[i]
      {
        assert r[i + |block|] == Repeat(block, k - 1)[i];
      }
    }
  }

  /** Blocks that each announce `block` announce it once per block. */
  lemma {:induction false} FlattenSteps(xss: seq<seq<Op>>, block: seq<int>)
    requires forall i :: 0 <= i < |xss| ==> StepValues(xss[i]) == block
    ensures StepValues(Flatten(xss)) == Repeat(block, |xss|)
    decreases |xss|
  {
    if xss != [] {
      FlattenSteps(xss[1..], block);
      StepValuesAppend(xss[0], Flatten(xss[1..]));
    }
  }

  /** The steps each create or reply pass announces. */
  function Block(mode: Mode): seq<int> {
    if mode == Create then [1, 2, 3, 4] else [1, 2, 3]
  }

  lemma ModeSteps(mode: Mode, env: Env)
    requires mode != Follow
    ensures StepValues(Pass(mode, env)) == Block(mode)
  {
    if mode == Create {
      CreateSteps(env);
    } else {
      ReplyStepsAndPairs(env);
    }
  }

  lemma PassesStepsRepeat(mode: Mode, envs: seq<Env>)
    requires mode != Follow
    ensures StepValues(Passes(mode, envs)) == Repeat(Block(mode), |envs|)
  {
    var xss := PassList(mode, envs);
    forall i | 0 <= i < |xss|
      ensures StepValues(xss[i]) == Block(mode)
    {
      ModeSteps(mode, envs[i]);
    }
    FlattenSteps(xss, Block(mode));
  }

  /** In the create mode the bubble announces 1, 2, 3, 4 on every
      iteration, and in the reply mode 1, 2, 3, whatever is mounted: the
      announcements are the block once per pass, so they start with the
      block and repeat with its length. */
  lemma LoopSteps(mode: Mode, envs: seq<Env>)
    requires mode != Follow
    ensures StepValues(Passes(mode, envs)) == Repeat(Block(mode), |envs|)
    ensures var xs := StepValues(Passes(mode, envs));
      |xs| == MaxStep(mode) * |envs| &&
      (|envs| > 0 ==> forall i :: 0 <= i < MaxStep(mode) ==> xs[i] == i + 1) &&
      forall i :: 0 <= i && i + MaxStep(mode) < |xs| ==> xs[i + MaxStep(mode)] == xs[i]
  {
    var block := Block(mode);
    assert |block| == MaxStep(mode) && forall i :: 0 <= i < |block| ==> block[i] == i + 1;
    PassesStepsRepeat(mode, envs);
    RepeatLength(block, |envs|);
    RepeatPeriodic(block, |envs|);
  }
}
