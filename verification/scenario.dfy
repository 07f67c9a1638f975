/** One pass of the scenario driver per mode: the setter calls it makes,
    in order, given which of the elements it aims at are mounted. Waits only
    separate calls and are left out; each typing loop becomes one update
    per character. */
module Scenario {
  import opened Wrappers
  import opened Simulation

  /** The simulator's `mode` prop. */
  datatype Mode = Create | Reply | Follow

  /** The elements the driver reaches through refs. */
  datatype Target =
    | NewTopicButton | ReplyButton | WatchButton | WatchMenuOption
    | TitleInput | Editor | BoldButton | SubmitButton

  /** What a pass sees of the page: which refs are set, and where the
      centre of each element is (`getElementCenter`, whose geometry is not
      modelled). */
  datatype Env = Env(mounted: set<Target>, center: Target -> Coordinate)

  // The texts the driver shows and types.
  const CreateStep1 := "כדי לפתוח נושא חדש, לחצו על 'נושא חדש'"
  const CreateStep2 := "כעת, הזינו כותרת ברורה וממוקדת"
  const TopicTitle := "המלצה על ספר חדש שיצא לאור השבוע"
  const CreateStep3 := "בגוף ההודעה, נכתוב את הפרטים ונדגיש את שם הספר"
  const Part1 := "אני רוצה להמליץ לכם על הספר "
  const BoldHint := "נלחץ על B כדי להפעיל הדגשה"
  const Part2 := "**'אור הלב'**"
  const Part3 := " - ספר מדהים לכל המשפחה."
  const CreateStep4 := "לסיום, נלחץ על כפתור השליחה"
  const ReplyStep1 := "כדי להגיב להודעה מסוימת, לחצו על כפתור 'הגב'"
  const ReplyStep2 := "נכתוב תגובה ונוסיף תמונה להמחשה"
  const ReplyMessage := "יישר כוח! הנה תמונה של הספר מהחנות:"
  // A blank line, then `![ספר](https://picsum.photos/400/200)`.
  const ReplyImage := "\n\n" + ("![" + "ספר" + "](" + "https://picsum.photos/400/200" + ")")
  const ReplyStep3 := "נשלח את התגובה שלנו"
  const FollowStep1 := "רוצים לקבל התראות? חפשו את כפתור המעקב (הפעמון)"
  const FollowStep2 := "בתפריט שנפתח, בחרו ב-'עוקב'"
  const FollowDone := "מעולה! כעת תקבלו התראה על כל תגובה חדשה בנושא"
  const BoldTool := "bold"

  datatype TextField = TitleField | BodyField

  /** `{ title: t }` or `{ body: t }`. */
  function SetText(field: TextField, t: string): Update {
    match field
    case TitleField => NoChange.(title := Some(t))
    case BodyField => NoChange.(body := Some(t))
  }

  function WithText(s: SimulationState, field: TextField, t: string): SimulationState {
    match field
    case TitleField => s.(title := t)
    case BodyField => s.(body := t)
  }

  /** The update replaces the one text field and nothing else. */
  lemma MergeSetText(s: SimulationState, field: TextField, t: string)
    ensures Merge(s, SetText(field, t)) == WithText(s, field, t)
  {
  }

  /** `for (const char of text) { acc += char; safeSetState({ field: acc }); }`
      with `acc` starting as `base`: one update per character, each carrying
      everything typed so far. */
  function Typing(field: TextField, base: string, text: string): (r: seq<Op>)
    ensures |r| == |text|
    ensures forall n :: 0 < n <= |text| ==> r[n - 1] == Set(SetText(field, base + text[..n]))
    decreases |text|
  {
    if text == [] then []
    else
      var init := text[..|text| - 1];
      assert forall n | 0 < n <= |init| :: init[..n] == text[..n];
      assert text[..|text|] == text;
      Typing(field, base, init) + [Set(SetText(field, base + text))]
  }

  /** `{ step, instruction }`: the bubble announces a new step. */
  function Announce(step: int, text: string): Op {
    Set(NoChange.(step := Some(step), instruction := Some(text)))
  }

  /** `{ cursorPos: getElementCenter(target) }`. */
  function MoveTo(env: Env, target: Target): Op {
    Set(NoChange.(cursorPos := Some(env.center(target))))
  }

  const Press := Set(NoChange.(isClicking := Some(true)))
  const Release := Set(NoChange.(isClicking := Some(false)))

  /** Move to a button and press it, then release it together with
      `effect`. */
  function Click(env: Env, target: Target, effect: Update): seq<Op> {
    [MoveTo(env, target), Press, Set(effect.(isClicking := Some(false)))]
  }

  /** Open the composer with the new-topic or reply button, if mounted. */
  function OpenComposer(env: Env, button: Target): seq<Op> {
    if button in env.mounted then Click(env, button, NoChange.(isComposerOpen := Some(true))) else []
  }

  /** Press submit: the post is submitted and the composer closes in the
      releasing update. */
  function SubmitPost(env: Env): seq<Op> {
    if SubmitButton in env.mounted then
      Click(env, SubmitButton, NoChange.(isSubmitted := Some(true), isComposerOpen := Some(false)))
    else []
  }

  // --- create ---

  const CreateReset := Set(NoChange.(
    step := Some(1), instruction := Some(CreateStep1), isComposerOpen := Some(false),
    isSubmitted := Some(false), title := Some(""), body := Some("")))

  function TypeTitle(env: Env): seq<Op> {
    if TitleInput in env.mounted then [MoveTo(env, TitleInput)] + Typing(TitleField, "", TopicTitle) else []
  }

  /** Type the first part and move to the B button. */
  function TypeIntro(env: Env): seq<Op> {
    [MoveTo(env, Editor)] + Typing(BodyField, "", Part1)
    + [Set(NoChange.(instruction := Some(BoldHint))), MoveTo(env, BoldButton)]
  }

  /** Press B, which switches the bold tool on, go back to the editor and
      type the starred part. */
  function TypeBold(env: Env): seq<Op> {
    [Set(NoChange.(isClicking := Some(true), activeTool := Some(Some(BoldTool)))), Release,
     MoveTo(env, Editor)]
    + Typing(BodyField, Part1, Part2)
  }

  /** Switch the bold tool off and type the rest. */
  const TypeRest := [Set(NoChange.(activeTool := Some(None)))] + Typing(BodyField, Part1 + Part2, Part3)

  /** The body block runs only when both the editor and the B button are
      mounted. */
  function WriteBody(env: Env): seq<Op> {
    if Editor in env.mounted && BoldButton in env.mounted then
      TypeIntro(env) + TypeBold(env) + TypeRest
    else []
  }

  /** Everything before the submit block. */
  function CreateDraft(env: Env): seq<Op> {
    [CreateReset] + OpenComposer(env, NewTopicButton)
    + [Announce(2, CreateStep2)] + TypeTitle(env)
    + [Announce(3, CreateStep3)] + WriteBody(env)
    + [Announce(4, CreateStep4)]
  }

  function CreatePass(env: Env): seq<Op> {
    CreateDraft(env) + SubmitPost(env)
  }

  // --- reply ---

  /** Unlike the create reset, this one leaves the title alone. */
  const ReplyReset := Set(NoChange.(
    step := Some(1), instruction := Some(ReplyStep1), isComposerOpen := Some(false),
    isSubmitted := Some(false), body := Some("")))

  /** Type the message, then append the image markup in one update. */
  function WriteReply(env: Env): seq<Op> {
    if Editor in env.mounted then
      [MoveTo(env, Editor)] + Typing(BodyField, "", ReplyMessage)
      + [Set(NoChange.(body := Some(ReplyMessage + ReplyImage)))]
    else []
  }

  function ReplyDraft(env: Env): seq<Op> {
    [ReplyReset] + OpenComposer(env, ReplyButton)
    + [Announce(2, ReplyStep2)] + WriteReply(env)
    + [Announce(3, ReplyStep3)]
  }

  function ReplyPass(env: Env): seq<Op> {
    ReplyDraft(env) + SubmitPost(env)
  }

  // --- follow ---

  /** The watch status and the menu are reset before the step-1
      announcement, so the first two frames still show the previous step. */
  const FollowReset := [SetWatch(NotWatching), SetMenu(false)]

  const FollowAnnounce := Set(NoChange.(
    step := Some(1), instruction := Some(FollowStep1),
    isComposerOpen := Some(false), isSubmitted := Some(false)))

  /** Step 2 and the choice of "watching" happen only inside the
      watch-button block. */
  function OpenWatchMenu(env: Env): seq<Op> {
    if WatchButton in env.mounted then
      Click(env, WatchButton, NoChange) + [SetMenu(true), Announce(2, FollowStep2)] + ChooseWatching(env)
    else []
  }

  /** Pick "watching", which also hides the menu. */
  function ChooseWatching(env: Env): seq<Op> {
    if WatchMenuOption in env.mounted then
      Click(env, WatchMenuOption, NoChange)
      + [SetWatch(Watching), SetMenu(false), Set(NoChange.(instruction := Some(FollowDone)))]
    else []
  }

  function FollowSteps(env: Env): seq<Op> {
    [FollowAnnounce] + OpenWatchMenu(env)
  }

  function FollowPass(env: Env): seq<Op> {
    FollowReset + FollowSteps(env)
  }

  /** One iteration of the `while (true)` loop. */
  function Pass(mode: Mode, env: Env): seq<Op> {
    match mode
    case Create => CreatePass(env)
    case Reply => ReplyPass(env)
    case Follow => FollowPass(env)
  }

  /** The blocks of `xss`, one after the other. */
  function Flatten(xss: seq<seq<Op>>): seq<Op>
    decreases |xss|
  {
    if xss == [] then [] else xss[0] + Flatten(xss[1..])
  }

  /** The first `|envs|` iterations, the i-th seeing the page as `envs[i]`. */
  function Passes(mode: Mode, envs: seq<Env>): seq<Op> {
    Flatten(seq(|envs|, i requires 0 <= i < |envs| => Pass(mode, envs[i])))
  }
}
