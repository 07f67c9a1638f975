/** The state of one simulator: the `SimulationState` record, the watch
    status and the watch-menu flag, and the updates the scenario driver
    applies to them one after another. */
module Simulation {
  import opened Wrappers

  /** A cursor position in the container's coordinates. */
  datatype Coordinate = Coordinate(x: real, y: real)

  datatype SelectionRange = SelectionRange(start: int, end: int)

  datatype SimulationState = SimulationState(
    step: int,
    instruction: string,
    isComposerOpen: bool,
    title: string,
    body: string,
    isSubmitted: bool,
    cursorPos: Coordinate,
    isClicking: bool,
    activeTool: Option<string>,
    selectionRange: Option<SelectionRange>)

  /** A `Partial<SimulationState>`: `None` is a key the update leaves out.
      For the two nullable fields the new value is itself an `Option`, so
      that "set to null" and "leave alone" stay apart. */
  datatype Update = Update(
    step: Option<int>,
    instruction: Option<string>,
    isComposerOpen: Option<bool>,
    title: Option<string>,
    body: Option<string>,
    isSubmitted: Option<bool>,
    cursorPos: Option<Coordinate>,
    isClicking: Option<bool>,
    activeTool: Option<Option<string>>,
    selectionRange: Option<Option<SelectionRange>>)

  /** The empty update `{}`; others are written `NoChange.(step := Some(2))`. */
  const NoChange := Update(None, None, None, None, None, None, None, None, None, None)

  /** The keys of the state record. */
  datatype Field =
    | Step | Instruction | ComposerOpen | Title | Body
    | Submitted | CursorPos | Clicking | ActiveTool | Selection

  /** The update has key `f`. */
  predicate Mentions(u: Update, f: Field) {
    match f
    case Step => u.step.Some?
    case Instruction => u.instruction.Some?
    case ComposerOpen => u.isComposerOpen.Some?
    case Title => u.title.Some?
    case Body => u.body.Some?
    case Submitted => u.isSubmitted.Some?
    case CursorPos => u.cursorPos.Some?
    case Clicking => u.isClicking.Some?
    case ActiveTool => u.activeTool.Some?
    case Selection => u.selectionRange.Some?
  }

  /** Field `f` of `s` holds the value the update gives it. */
  predicate Took(s: SimulationState, u: Update, f: Field) {
    match f
    case Step => u.step == Some(s.step)
    case Instruction => u.instruction == Some(s.instruction)
    case ComposerOpen => u.isComposerOpen == Some(s.isComposerOpen)
    case Title => u.title == Some(s.title)
    case Body => u.body == Some(s.body)
    case Submitted => u.isSubmitted == Some(s.isSubmitted)
    case CursorPos => u.cursorPos == Some(s.cursorPos)
    case Clicking => u.isClicking == Some(s.isClicking)
    case ActiveTool => u.activeTool == Some(s.activeTool)
    case Selection => u.selectionRange == Some(s.selectionRange)
  }

  /** `s` and `t` agree on field `f`. */
  predicate SameAt(s: SimulationState, t: SimulationState, f: Field) {
    match f
    case Step => s.step == t.step
    case Instruction => s.instruction == t.instruction
    case ComposerOpen => s.isComposerOpen == t.isComposerOpen
    case Title => s.title == t.title
    case Body => s.body == t.body
    case Submitted => s.isSubmitted == t.isSubmitted
    case CursorPos => s.cursorPos == t.cursorPos
    case Clicking => s.isClicking == t.isClicking
    case ActiveTool => s.activeTool == t.activeTool
    case Selection => s.selectionRange == t.selectionRange
  }

  /** `safeSetState(updates)`: `{ ...prev, ...updates }`. A key of the
      update takes the new value, every other field keeps the old one. */
  function Merge(prev: SimulationState, u: Update): (r: SimulationState)
    ensures forall f: Field :: Mentions(u, f) ==> Took(r, u, f)
    ensures forall f: Field :: !Mentions(u, f) ==> SameAt(r, prev, f)
  {
    SimulationState(
      u.step.GetOr(prev.step),
      u.instruction.GetOr(prev.instruction),
      u.isComposerOpen.GetOr(prev.isComposerOpen),
      u.title.GetOr(prev.title),
      u.body.GetOr(prev.body),
      u.isSubmitted.GetOr(prev.isSubmitted),
      u.cursorPos.GetOr(prev.cursorPos),
      u.isClicking.GetOr(prev.isClicking),
      u.activeTool.GetOr(prev.activeTool),
      u.selectionRange.GetOr(prev.selectionRange))
  }

  /** The two halves of the merge's contract determine its result: a state
      that takes every key of the update and keeps every other field is
      the merge. */
  lemma MergeUnique(prev: SimulationState, u: Update, r: SimulationState)
    requires forall f: Field :: Mentions(u, f) ==> Took(r, u, f)
    requires forall f: Field :: !Mentions(u, f) ==> SameAt(r, prev, f)
    ensures r == Merge(prev, u)
  {
    var m := Merge(prev, u);
    forall f: Field
      ensures SameAt(r, m, f)
    {
      if Mentions(u, f) {
        assert Took(r, u, f) && Took(m, u, f);
      } else {
        assert SameAt(r, prev, f) && SameAt(m, prev, f);
      }
    }
    assert SameAt(r, m, Step) && SameAt(r, m, Instruction) && SameAt(r, m, ComposerOpen);
    assert SameAt(r, m, Title) && SameAt(r, m, Body) && SameAt(r, m, Submitted);
    assert SameAt(r, m, CursorPos) && SameAt(r, m, Clicking);
    assert SameAt(r, m, ActiveTool) && SameAt(r, m, Selection);
  }

  /** `{ ...u, ...v }`: the keys of both, with `v`'s values where both
      have one. */
  function Compose(u: Update, v: Update): (w: Update)
    ensures forall f: Field :: Mentions(w, f) <==> Mentions(u, f) || Mentions(v, f)
  {
    Update(
      v.step.OrElse(u.step),
      v.instruction.OrElse(u.instruction),
      v.isComposerOpen.OrElse(u.isComposerOpen),
      v.title.OrElse(u.title),
      v.body.OrElse(u.body),
      v.isSubmitted.OrElse(u.isSubmitted),
      v.cursorPos.OrElse(u.cursorPos),
      v.isClicking.OrElse(u.isClicking),
      v.activeTool.OrElse(u.activeTool),
      v.selectionRange.OrElse(u.selectionRange))
  }

  /** Two merges in a row are one merge of the composed update. */
  lemma MergeCompose(s: SimulationState, u: Update, v: Update)
    ensures Merge(Merge(s, u), v) == Merge(s, Compose(u, v))
  {
  }

  /** The empty update changes nothing, and repeating an update changes
      nothing more. */
  lemma MergeNoChange(s: SimulationState, u: Update)
    ensures Merge(s, NoChange) == s
    ensures Merge(Merge(s, u), u) == Merge(s, u)
  {
  }

  datatype WatchStatus = NotWatching | Watching

  /** Everything the driver writes: the state record and the two separate
      state hooks of the follow scenario. */
  datatype Frame = Frame(sim: SimulationState, watch: WatchStatus, menuVisible: bool)

  /** One setter call of the driver. */
  datatype Op =
    | Set(u: Update)                 // safeSetState(u)
    | SetWatch(status: WatchStatus)  // setWatchStatus(status)
    | SetMenu(visible: bool)         // setIsWatchMenuVisible(visible)

  function Apply(f: Frame, op: Op): Frame {
    match op
    case Set(u) => f.(sim := Merge(f.sim, u))
    case SetWatch(w) => f.(watch := w)
    case SetMenu(v) => f.(menuVisible := v)
  }

  /** The state after each call of `ops`, in order. */
  function Run(start: Frame, ops: seq<Op>): (r: seq<Frame>)
    ensures |r| == |ops|
    ensures |ops| > 0 ==> r[0] == Apply(start, ops[0])
    ensures forall i :: 0 < i < |ops| ==> r[i] == Apply(r[i - 1], ops[i])
    decreases |ops|
  {
    if ops == [] then []
    else
      var f := Apply(start, ops[0]);
      [f] + Run(f, ops[1..])
  }

  /** The state after all of `ops`: the last frame of the run. */
  function Final(start: Frame, ops: seq<Op>): (r: Frame)
    ensures |ops| > 0 ==> r == Run(start, ops)[|ops| - 1]
    ensures |ops| == 0 ==> r == start
    decreases |ops|
  {
    if ops == [] then start else Final(Apply(start, ops[0]), ops[1..])
  }

  lemma {:induction false} RunAppend(start: Frame, a: seq<Op>, b: seq<Op>)
    ensures Run(start, a + b) == Run(start, a) + Run(Final(start, a), b)
    decreases |a|
  {
    if a == [] {
      assert a + b == b;
    } else {
      var f := Apply(start, a[0]);
      assert (a + b)[0] == a[0] && (a + b)[1..] == a[1..] + b;
      RunAppend(f, a[1..], b);
      calc {
        Run(start, a + b);
        [f] + Run(f, a[1..] + b);
        [f] + (Run(f, a[1..]) + Run(Final(f, a[1..]), b));
        ([f] + Run(f, a[1..])) + Run(Final(f, a[1..]), b);
      }
    }
  }

  /** The frames after a prefix of calls are those of running the rest
      from where the prefix ends. */
  lemma RunAfter(start: Frame, a: seq<Op>, b: seq<Op>)
    ensures Run(start, a + b)[|a|..] == Run(Final(start, a), b)
  {
    RunAppend(start, a, b);
  }

  lemma {:induction false} FinalAppend(start: Frame, a: seq<Op>, b: seq<Op>)
    ensures Final(start, a + b) == Final(Final(start, a), b)
    decreases |a|
  {
    if a == [] {
      assert a + b == b;
    } else {
      assert (a + b)[0] == a[0] && (a + b)[1..] == a[1..] + b;
      FinalAppend(Apply(start, a[0]), a[1..], b);
    }
  }

  /** The simulator's first render (ForumSimulator's `useState` initial
      values). */
  const Initial := Frame(
    SimulationState(1, "טוען הדמיה...", false, "", "", false, Coordinate(50.0, 50.0), false, None, None),
    NotWatching, false)

  /** A property of frames, and the calls that cannot break it. */
  datatype Invariant =
    | StepWithin(lo: int, hi: int)
    | SelectionIs(range: Option<SelectionRange>)
    | SubmittedIs(submitted: bool)
    | ComposerIs(open: bool)
    | SubmitClosesComposer
    | ToolIs(tool: Option<string>)
    | TitleWithin(full: string)
    | TitleIs(title: string)
    | BodyWithin(typed: string, full: string)

  predicate Holds(inv: Invariant, f: Frame) {
    match inv
    case StepWithin(lo, hi) => lo <= f.sim.step <= hi
    case SelectionIs(range) => f.sim.selectionRange == range
    case SubmittedIs(b) => f.sim.isSubmitted == b
    case ComposerIs(b) => f.sim.isComposerOpen == b
    case SubmitClosesComposer => f.sim.isSubmitted ==> !f.sim.isComposerOpen
    case ToolIs(tool) => f.sim.activeTool == tool
    case TitleWithin(full) => f.sim.title <= full
    case TitleIs(title) => f.sim.title == title
    case BodyWithin(typed, full) => f.sim.body <= typed || f.sim.body == full
  }

  /** Looking only at the call: it cannot take a frame where the invariant
      holds to one where it does not. */
  predicate Keeps(inv: Invariant, op: Op) {
    !op.Set? ||
    var u := op.u;
    match inv
    case StepWithin(lo, hi) => u.step.Some? ==> lo <= u.step.value <= hi
    case SelectionIs(range) => u.selectionRange.Some? ==> u.selectionRange.value == range
    case SubmittedIs(b) => u.isSubmitted.Some? ==> u.isSubmitted.value == b
    case ComposerIs(b) => u.isComposerOpen.Some? ==> u.isComposerOpen.value == b
    case SubmitClosesComposer =>
      u.isSubmitted == Some(false) || u.isComposerOpen == Some(false) ||
      (u.isSubmitted.None? && u.isComposerOpen.None?)
    case ToolIs(tool) => u.activeTool.Some? ==> u.activeTool.value == tool
    case TitleWithin(full) => u.title.Some? ==> u.title.value <= full
    case TitleIs(title) => u.title.Some? ==> u.title.value == title
    case BodyWithin(typed, full) => u.body.Some? ==> (u.body.value <= typed || u.body.value == full)
  }

  lemma KeepsStep(inv: Invariant, f: Frame, op: Op)
    requires Holds(inv, f) && Keeps(inv, op)
    ensures Holds(inv, Apply(f, op))
  {
  }

  /** An invariant every call keeps holds in every frame of the run. */
  lemma {:induction false} RunKeeps(inv: Invariant, start: Frame, ops: seq<Op>)
    requires Holds(inv, start)
    requires forall op | op in ops :: Keeps(inv, op)
    ensures forall i :: 0 <= i < |ops| ==> Holds(inv, Run(start, ops)[i])
    ensures Holds(inv, Final(start, ops))
    decreases |ops|
  {
    if ops != [] {
      var f := Apply(start, ops[0]);
      KeepsStep(inv, start, ops[0]);
      assert forall op | op in ops[1..] :: op in ops;
      RunKeeps(inv, f, ops[1..]);
      var r := Run(start, ops);
      assert r == [f] + Run(f, ops[1..]);
      forall i | 0 < i < |ops|
        ensures Holds(inv, r[i])
      {
        assert r[i] == Run(f, ops[1..])[i - 1];
      }
    }
  }

  /** An invariant that holds in frame `k`, and that the calls after it
      and before `m` keep, holds in frames `k` to `m - 1`. */
  lemma {:induction false} RunKeepsWindow(inv: Invariant, start: Frame, ops: seq<Op>, k: nat, m: nat)
    requires k < m <= |ops|
    requires Holds(inv, Run(start, ops)[k])
    requires forall i :: k < i < m ==> Keeps(inv, ops[i])
    ensures forall i :: k <= i < m ==> Holds(inv, Run(start, ops)[i])
    decreases m
  {
    if k + 1 < m {
      RunKeepsWindow(inv, start, ops, k, m - 1);
      var r := Run(start, ops);
      KeepsStep(inv, r[m - 2], ops[m - 1]);
    }
  }

  /** A press: an update that sets `isClicking` to true. */
  predicate Presses(op: Op) {
    op.Set? && op.u.isClicking == Some(true)
  }

  predicate Releases(op: Op) {
    op.Set? && op.u.isClicking == Some(false)
  }

  /** Every press is followed at once by a release. */
  predicate ClicksPaired(ops: seq<Op>) {
    forall i :: 0 <= i < |ops| && Presses(ops[i]) ==> i + 1 < |ops| && Releases(ops[i + 1])
  }

  lemma ClicksPairedAppend(a: seq<Op>, b: seq<Op>)
    requires ClicksPaired(a) && ClicksPaired(b)
    ensures ClicksPaired(a + b)
  {
    var c := a + b;
    forall i | 0 <= i < |c| && Presses(c[i])
      ensures i + 1 < |c| && Releases(c[i + 1])
    {
      if i < |a| {
        assert c[i] == a[i] && c[i + 1] == a[i + 1];
      } else {
        assert c[i] == b[i - |a|] && c[i + 1] == b[i + 1 - |a|];
      }
    }
  }

  /** From a frame that is not clicking, a frame is clicking only right
      after a press. */
  lemma {:induction false} ClickingOnlyAfterPress(start: Frame, ops: seq<Op>, i: nat)
    requires !start.sim.isClicking && ClicksPaired(ops) && i < |ops|
    ensures Run(start, ops)[i].sim.isClicking ==> Presses(ops[i])
    decreases i
  {
    var r := Run(start, ops);
    if i > 0 {
      ClickingOnlyAfterPress(start, ops, i - 1);
      if r[i - 1].sim.isClicking {
        assert Releases(ops[i]);
      }
    }
  }

  /** Every press is released by the next update, so the run never stays
      clicking and never ends clicking. */
  lemma ClicksReleased(start: Frame, ops: seq<Op>)
    requires !start.sim.isClicking && ClicksPaired(ops)
    ensures forall i :: 0 <= i < |ops| && Run(start, ops)[i].sim.isClicking ==>
      i + 1 < |ops| && !Run(start, ops)[i + 1].sim.isClicking
    ensures !Final(start, ops).sim.isClicking
  {
    var r := Run(start, ops);
    forall i | 0 <= i < |ops| && r[i].sim.isClicking
      ensures i + 1 < |ops| && !r[i + 1].sim.isClicking
    {
      ClickingOnlyAfterPress(start, ops, i);
    }
    if |ops| > 0 {
      ClickingOnlyAfterPress(start, ops, |ops| - 1);
    }
  }

  /** An update that sets `step`. */
  predicate Announces(op: Op) {
    op.Set? && op.u.step.Some?
  }

  /** The `step` values the updates of `ops` announce, in order. */
  function StepValues(ops: seq<Op>): (r: seq<int>)
    ensures |r| <= |ops|
    ensures (forall op | op in ops :: !Announces(op)) ==> r == []
  {
    if ops == [] then []
    else (if Announces(ops[0]) then [ops[0].u.step.value] else []) + StepValues(ops[1..])
  }

  lemma {:induction false} StepValuesAppend(a: seq<Op>, b: seq<Op>)
    ensures StepValues(a + b) == StepValues(a) + StepValues(b)
    decreases |a|
  {
    if a == [] {
      assert a + b == b;
    } else {
      assert (a + b)[0] == a[0] && (a + b)[1..] == a[1..] + b;
      StepValuesAppend(a[1..], b);
      var head := if Announces(a[0]) then [a[0].u.step.value] else [];
      calc {
        StepValues(a + b);
        head + StepValues(a[1..] + b);
        head + (StepValues(a[1..]) + StepValues(b));
        (head + StepValues(a[1..])) + StepValues(b);
      }
    }
  }

  predicate Ascending(xs: seq<int>) {
    forall i, j :: 0 <= i <= j < |xs| ==> xs[i] <= xs[j]
  }

  predicate StepsAscend(frames: seq<Frame>) {
    forall i, j :: 0 <= i <= j < |frames| ==> frames[i].sim.step <= frames[j].sim.step
  }

  /** The step after one call: the announced one, or the old one. */
  lemma StepAfter(start: Frame, op: Op)
    ensures Apply(start, op).sim.step == if Announces(op) then op.u.step.value else start.sim.step
  {
    if op.Set? {
      if Announces(op) {
        assert Took(Apply(start, op).sim, op.u, Step);
      } else {
        assert SameAt(Apply(start, op).sim, start.sim, Step);
      }
    }
  }

  lemma ConsAscend(f: Frame, rest: seq<Frame>)
    requires StepsAscend(rest)
    requires forall i :: 0 <= i < |rest| ==> f.sim.step <= rest[i].sim.step
    ensures StepsAscend([f] + rest)
  {
    var r := [f] + rest;
    forall i, j | 0 <= i <= j < |r|
      ensures r[i].sim.step <= r[j].sim.step
    {
      if 0 < i {
        assert r[i] == rest[i - 1] && r[j] == rest[j - 1];
      } else if 0 < j {
        assert r[j] == rest[j - 1];
      }
    }
  }

  /** When the announced steps never go below the current one and never go
      down, neither does the step shown in any frame. */
  lemma {:induction false} RunStepsAscend(start: Frame, ops: seq<Op>)
    requires Ascending([start.sim.step] + StepValues(ops))
    ensures StepsAscend(Run(start, ops))
    ensures forall i :: 0 <= i < |ops| ==> start.sim.step <= Run(start, ops)[i].sim.step
    decreases |ops|
  {
    if ops != [] {
      var f := Apply(start, ops[0]);
      var head := if Announces(ops[0]) then [ops[0].u.step.value] else [];
      var xs := [start.sim.step] + StepValues(ops);
      assert xs == [start.sim.step] + head + StepValues(ops[1..]);
      var ys := [f.sim.step] + StepValues(ops[1..]);
      StepAfter(start, ops[0]);
      forall i, j | 0 <= i <= j < |ys|
        ensures ys[i] <= ys[j]
      {
        if head == [] {
          assert ys[i] == xs[i] && ys[j] == xs[j];
        } else {
          assert ys[i] == xs[i + 1] && ys[j] == xs[j + 1];
        }
      }
      assert start.sim.step <= f.sim.step by {
        if head != [] {
          assert xs[0] <= xs[1];
        }
      }
      RunStepsAscend(f, ops[1..]);
      var r := Run(start, ops);
      var rest := Run(f, ops[1..]);
      assert r == [f] + rest;
      ConsAscend(f, rest);
      forall i | 0 <= i < |ops|
        ensures start.sim.step <= r[i].sim.step
      {
        if 0 < i {
          assert r[i] == rest[i - 1];
        }
      }
    }
  }

  /** A run whose first call announces a step, and whose announcements
      never go down, shows steps that never go down. */
  lemma RunStepsAscendFrom(start: Frame, ops: seq<Op>)
    requires 0 < |ops| && Announces(ops[0]) && Ascending(StepValues(ops))
    ensures StepsAscend(Run(start, ops))
  {
    var f := Apply(start, ops[0]);
    var xs := StepValues(ops);
    assert xs == [ops[0].u.step.value] + StepValues(ops[1..]);
    StepAfter(start, ops[0]);
    RunStepsAscend(f, ops[1..]);
    var rest := Run(f, ops[1..]);
    assert Run(start, ops) == [f] + rest;
    ConsAscend(f, rest);
  }
}
