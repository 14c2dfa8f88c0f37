/** One actor's slot: its mailbox, its lifecycle flags, and every callback it will ever see. */
module ActorSlots {
  import opened Options

  datatype Message = Resume | Stop | StopWith(value: nat) | User(id: nat)

  datatype Slot = Slot(
    mailbox: seq<Message>,
    poisoned: bool,
    stopping: bool,
    started: bool,
    suspended: bool,
    exitValue: Option<nat>)

  datatype StopReason = Panicked | Completed | Normal

  /** What a callback asked of the runtime about its own actor. */
  datatype Asks = Asks(stop: bool, stopWith: Option<nat>, suspend: bool)

  datatype StartOutcome = StartReturned(asks: Asks) | StartPanicked

  datatype Outcome = Handled(asks: Asks) | Mismatched | HandlerPanicked

  datatype StopOutcome = StopReturned | StopPanicked

  function Spawned(): (slot: Slot) {
    Slot([], false, false, false, false, None)
  }

  predicate Skipped(slot: Slot) {
    slot.poisoned || slot.stopping || slot.suspended
  }

  predicate Dead(slot: Slot) {
    slot.poisoned || slot.stopping
  }

  predicate OnStopEligible(slot: Slot) {
    slot.stopping && !slot.poisoned
  }

  function ReasonFor(slot: Slot): (r: StopReason) {
    if slot.poisoned then Panicked else if slot.exitValue.Some? then Completed else Normal
  }

  // ─── transitions ───────────────────────────────────────────────────────────

  function Stopped(slot: Slot, value: Option<nat>): (slot': Slot) {
    slot.(stopping := true, mailbox := [], exitValue := if value.Some? then value else slot.exitValue)
  }

  function Poisoned(slot: Slot): (slot': Slot) {
    slot.(poisoned := true, mailbox := [])
  }

  /** A control signal takes effect at once on a suspended actor, which no tick will reach. */
  predicate Intercepted(slot: Slot, msg: Message) {
    slot.suspended && !msg.User?
  }

  function Delivered(slot: Slot, msg: Message): (slot': Slot) {
    if Intercepted(slot, msg) then
      match msg
      case Resume => slot.(suspended := false)
      case Stop => Stopped(slot, None)
      case StopWith(value) => Stopped(slot, Some(value))
      case User(_) => slot
    else slot.(mailbox := slot.mailbox + [msg])
  }

  predicate AsksStop(asks: Asks) {
    asks.stop || asks.stopWith.Some?
  }

  function Honoured(slot: Slot, asks: Asks): (slot': Slot) {
    if AsksStop(asks) then Stopped(slot, asks.stopWith)
    else if asks.suspend then slot.(suspended := true)
    else slot
  }

  function AfterStart(slot: Slot, outcome: StartOutcome): (slot': Slot) {
    var started := slot.(started := true);
    match outcome
    case StartPanicked => Poisoned(started)
    case StartReturned(asks) => Honoured(started, asks)
  }

  /** The slot once the message at the front of its mailbox has been dealt with. */
  function AfterMessage(slot: Slot, outcome: Outcome): (slot': Slot)
    requires slot.mailbox != []
  {
    var rest := slot.(mailbox := slot.mailbox[1..]);
    match slot.mailbox[0]
    case Stop => Stopped(rest, None)
    case StopWith(value) => Stopped(rest, Some(value))
    case _ =>
      match outcome
      case HandlerPanicked => Poisoned(rest)
      case Mismatched => rest
      case Handled(asks) => Honoured(rest, asks)
  }

  predicate IsControl(msg: Message) {
    msg.Stop? || msg.StopWith?
  }

  // ─── what may be seen of a life ────────────────────────────────────────────

  /** `Panic` is one of `on_start` or a handler; one of `on_stop` has a mark of its own. */
  datatype Mark =
    | OnStart
    | Handle(msg: Message)
    | Panic
    | StopAsked(value: Option<nat>)
    | Suspending
    | Resuming
    | OnStop
    | OnStopPanic
    | Removed(reason: StopReason, value: Option<nat>)

  /** What has been seen of a life so far; `lawful` is lost as soon as something is out of order. */
  datatype Story = Story(
    lawful: bool, started: bool, stopAsked: bool, suspended: bool, panicked: bool, value: Option<nat>,
    onStopRan: bool, removed: bool)

  function Untold(): (s: Story) {
    Story(true, false, false, false, false, None, false, false)
  }

  /** The law, read off the observable marks alone: whether this may be seen next. */
  predicate MayBeSeen(s: Story, m: Mark) {
    !s.removed &&
    match m
    case OnStart => !s.started && !s.stopAsked && !s.suspended && !s.panicked
    case Handle(_) => s.started && !s.stopAsked && !s.suspended && !s.panicked
    case Panic => s.started && !s.stopAsked && !s.panicked
    case OnStop => s.stopAsked && !s.panicked && !s.onStopRan
    case OnStopPanic => s.onStopRan
    case Removed(reason, value) =>
      && (s.stopAsked || s.panicked) && s.onStopRan == !s.panicked && value == s.value
      && reason == (if s.panicked then Panicked else if s.value.Some? then Completed else Normal)
    case _ => true
  }

  /** What is known once this has been seen. */
  function Told(s: Story, m: Mark): (s': Story) {
    Story(
      s.lawful && MayBeSeen(s, m),
      s.started || m.OnStart?,
      s.stopAsked || m.StopAsked?,
      (s.suspended || m.Suspending?) && !m.Resuming?,
      s.panicked || m.Panic?,
      if m.StopAsked? && m.value.Some? then m.value else s.value,
      s.onStopRan || m.OnStop?,
      s.removed || m.Removed?)
  }

  function StoryOf(marks: seq<Mark>): (s: Story) {
    if marks == [] then Untold() else Told(StoryOf(marks[..|marks| - 1]), marks[|marks| - 1])
  }

  // ─── the life of one slot, step by step ────────────────────────────────────

  /** `calls` counts the handler calls of the tick in progress, or of the last one. */
  datatype Life = Life(
    slot: Slot,
    present: bool,
    ticking: bool,
    calls: nat,
    marks: seq<Mark>,
    story: Story,
    delivered: seq<Message>,
    consumed: seq<Message>,
    discarded: seq<Message>)

  datatype Step =
    | Deliver(msg: Message)
    | AdminStop
    | AdminSuspend
    | AdminResume
    | BeginTick(start: StartOutcome)
    | NextMessage(outcome: Outcome)
    | EndTick
    | Cleanup(last: StopOutcome)

  function Birth(): (l: Life) {
    Life(Spawned(), true, false, 0, [], Untold(), [], [], [])
  }

  predicate Enabled(l: Life, step: Step) {
    && l.present
    && match step
       case NextMessage(_) => l.ticking && l.slot.mailbox != []
       case EndTick => l.ticking && l.slot.mailbox == []
       case _ => !l.ticking
  }

  function Note(l: Life, m: Mark): (l': Life) {
    l.(marks := l.marks + [m], story := Told(l.story, m))
  }

  /** What was in the mailbox of an actor that is stopped or poisoned is discarded. */
  function Discard(l: Life, lost: seq<Message>): (l': Life) {
    l.(discarded := l.discarded + lost)
  }

  function NoteAsks(l: Life, asks: Asks): (l': Life) {
    if AsksStop(asks) then Note(l, StopAsked(asks.stopWith))
    else if asks.suspend then Note(l, Suspending)
    else l
  }

  function NoteStart(l: Life, outcome: StartOutcome): (l': Life) {
    match outcome
    case StartPanicked => Note(Note(l, OnStart), Panic)
    case StartReturned(asks) => NoteAsks(Note(l, OnStart), asks)
  }

  function NoteMessage(l: Life, msg: Message, outcome: Outcome): (l': Life) {
    match msg
    case Stop => Note(l, StopAsked(None))
    case StopWith(value) => Note(l, StopAsked(Some(value)))
    case _ =>
      match outcome
      case HandlerPanicked => Note(Note(l, Handle(msg)), Panic)
      case Mismatched => Note(l, Handle(msg))
      case Handled(asks) => NoteAsks(Note(l, Handle(msg)), asks)
  }

  function NoteDelivery(l: Life, msg: Message): (l': Life) {
    if !Intercepted(l.slot, msg) then l.(delivered := l.delivered + [msg])
    else
      match msg
      case Stop => Discard(Note(l, StopAsked(None)), l.slot.mailbox)
      case StopWith(value) => Discard(Note(l, StopAsked(Some(value))), l.slot.mailbox)
      case _ => Note(l, Resuming)
  }

  function Begin(l: Life, outcome: StartOutcome): (l': Life) {
    if Dead(l.slot) then Discard(l, l.slot.mailbox).(slot := l.slot.(mailbox := []))
    else if l.slot.suspended then l
    else if l.slot.started then l.(ticking := true, calls := 0)
    else
      var slot := AfterStart(l.slot, outcome);
      var lost := if Dead(slot) then l.slot.mailbox else [];
      Discard(NoteStart(l, outcome), lost).(slot := slot, ticking := !Skipped(slot), calls := 0)
  }

  /** One pass of the message loop; it ends on a stop, a panic, a suspension, or the budget. */
  function Advance(l: Life, outcome: Outcome, budget: nat): (l': Life)
    requires l.slot.mailbox != []
  {
    var msg, slot := l.slot.mailbox[0], AfterMessage(l.slot, outcome);
    var calls := l.calls + if IsControl(msg) then 0 else 1;
    Discard(NoteMessage(l, msg, outcome), if Dead(slot) then l.slot.mailbox[1..] else []).(
      slot := slot,
      consumed := l.consumed + [msg],
      calls := calls,
      ticking := !Skipped(slot) && (budget == 0 || calls < budget))
  }

  function NoteStop(l: Life, last: StopOutcome): (l': Life) {
    match last
    case StopReturned => Note(l, OnStop)
    case StopPanicked => Note(Note(l, OnStop), OnStopPanic)
  }

  /** The reason is fixed by the flags; whatever `on_stop` does comes too late to change it. */
  function Clean(l: Life, last: StopOutcome): (l': Life) {
    if !Dead(l.slot) then l
    else
      var stopped := if OnStopEligible(l.slot) then NoteStop(l, last) else l;
      Note(stopped, Removed(ReasonFor(l.slot), l.slot.exitValue)).(present := false)
  }

  function Next(l: Life, step: Step, budget: nat): (l': Life)
    requires Enabled(l, step)
  {
    match step
    case Deliver(msg) => NoteDelivery(l, msg).(slot := Delivered(l.slot, msg))
    case AdminStop => Discard(Note(l, StopAsked(None)), l.slot.mailbox).(slot := Stopped(l.slot, None))
    case AdminSuspend => Note(l, Suspending).(slot := l.slot.(suspended := true))
    case AdminResume => Note(l, Resuming).(slot := l.slot.(suspended := false))
    case BeginTick(start) => Begin(l, start)
    case NextMessage(outcome) => Advance(l, outcome, budget)
    case EndTick => l.(ticking := false)
    case Cleanup(last) => Clean(l, last)
  }

  predicate Runs(l: Life, steps: seq<Step>, budget: nat)
    decreases |steps|
  {
    steps == [] || (Enabled(l, steps[0]) && Runs(Next(l, steps[0], budget), steps[1..], budget))
  }

  function Run(l: Life, steps: seq<Step>, budget: nat): (l': Life)
    requires Runs(l, steps, budget)
    decreases |steps|
  {
    if steps == [] then l else Run(Next(l, steps[0], budget), steps[1..], budget)
  }

  // ─── invariants ────────────────────────────────────────────────────────────

  /** The slot's flags say what the story tells. */
  predicate Agrees(slot: Slot, s: Story) {
    && slot.started == s.started && slot.stopping == s.stopAsked && slot.poisoned == s.panicked
    && slot.suspended == s.suspended && slot.exitValue == s.value && !s.onStopRan && !s.removed
  }

  predicate Inv(l: Life, budget: nat) {
    && l.story.lawful
    && (l.present ==> Agrees(l.slot, l.story))
    && l.delivered == l.consumed + l.discarded + l.slot.mailbox
    && (!Dead(l.slot) ==> l.discarded == [])
    && (l.ticking ==> l.slot.started && !Skipped(l.slot))
    && (budget > 0 ==> l.calls <= budget && (l.ticking ==> l.calls < budget))
  }

  lemma Regroup(a: seq<Message>, b: seq<Message>, c: seq<Message>, d: seq<Message>)
    ensures a + b + (c + d) == a + b + c + d
    ensures a + (b + c) + d == a + b + c + d
  {
  }

  lemma SignalKeepsAgreement(l: Life, msg: Message)
    requires l.story.lawful && Agrees(l.slot, l.story)
    ensures NoteDelivery(l, msg).story.lawful && Agrees(Delivered(l.slot, msg), NoteDelivery(l, msg).story)
  {
  }

  lemma DeliverKeepsInv(l: Life, msg: Message, budget: nat)
    requires Inv(l, budget) && Enabled(l, Deliver(msg))
    ensures Inv(Next(l, Deliver(msg), budget), budget)
  {
    SignalKeepsAgreement(l, msg);
    Regroup(l.consumed, l.discarded, l.slot.mailbox, [msg]);
    Regroup(l.consumed, l.discarded, l.slot.mailbox, []);
  }

  lemma BeginKeepsInv(l: Life, start: StartOutcome, budget: nat)
    requires Inv(l, budget) && Enabled(l, BeginTick(start))
    ensures Inv(Next(l, BeginTick(start), budget), budget)
  {
    Regroup(l.consumed, l.discarded, l.slot.mailbox, []);
    assert l.discarded + [] == l.discarded;
  }

  lemma AsksKeepAgreement(l: Life, asks: Asks)
    requires l.story.lawful && Agrees(l.slot, l.story)
    ensures var s' := NoteAsks(l, asks).story;
            s'.lawful && Agrees(Honoured(l.slot, asks), s')
  {
  }

  lemma MessageKeepsAgreement(l: Life, outcome: Outcome)
    requires l.slot.mailbox != [] && l.story.lawful && Agrees(l.slot, l.story) && l.slot.started && !Skipped(l.slot)
    ensures var s' := NoteMessage(l, l.slot.mailbox[0], outcome).story;
            s'.lawful && Agrees(AfterMessage(l.slot, outcome), s')
  {
    var msg, rest := l.slot.mailbox[0], l.slot.(mailbox := l.slot.mailbox[1..]);
    if !IsControl(msg) && outcome.Handled? { AsksKeepAgreement(Note(l, Handle(msg)).(slot := rest), outcome.asks); }
  }

  // The front of the mailbox is consumed, and the rest is left there or discarded.
  lemma FirstConsumed(consumed: seq<Message>, mailbox: seq<Message>)
    requires mailbox != []
    ensures consumed + [] + mailbox == (consumed + [mailbox[0]]) + ([] + []) + mailbox[1..]
    ensures consumed + [] + mailbox == (consumed + [mailbox[0]]) + ([] + mailbox[1..]) + []
  {
    assert mailbox == [mailbox[0]] + mailbox[1..];
  }

  lemma AdvanceKeepsInv(l: Life, outcome: Outcome, budget: nat)
    requires Inv(l, budget) && Enabled(l, NextMessage(outcome))
    ensures Inv(Next(l, NextMessage(outcome), budget), budget)
  {
    MessageKeepsAgreement(l, outcome);
    assert l.discarded == [];
    FirstConsumed(l.consumed, l.slot.mailbox);
  }

  lemma NextKeepsInv(l: Life, step: Step, budget: nat)
    requires Inv(l, budget) && Enabled(l, step)
    ensures Inv(Next(l, step, budget), budget)
  {
    match step
    case Deliver(msg) => DeliverKeepsInv(l, msg, budget);
    case BeginTick(start) => BeginKeepsInv(l, start, budget);
    case NextMessage(outcome) => AdvanceKeepsInv(l, outcome, budget);
    case AdminStop => Regroup(l.consumed, l.discarded, l.slot.mailbox, []);
    case _ =>
  }

  /** The running story is the story of the marks. */
  ghost predicate Recorded(l: Life) {
    l.story == StoryOf(l.marks)
  }

  lemma NoteKeepsRecord(l: Life, m: Mark)
    requires Recorded(l)
    ensures Recorded(Note(l, m))
  {
    assert (l.marks + [m])[..|l.marks|] == l.marks;
  }

  lemma AsksKeepRecord(l: Life, m: Mark, asks: Asks)
    requires Recorded(l)
    ensures Recorded(NoteAsks(Note(l, m), asks)) && Recorded(Note(Note(l, m), Panic))
  {
    NoteKeepsRecord(l, m);
    NoteKeepsRecord(Note(l, m), Panic);
    NoteKeepsRecord(Note(l, m), StopAsked(asks.stopWith));
    NoteKeepsRecord(Note(l, m), Suspending);
  }

  lemma MessageKeepsRecord(l: Life, msg: Message, outcome: Outcome)
    requires Recorded(l)
    ensures Recorded(NoteMessage(l, msg, outcome))
  {
    if IsControl(msg) { NoteKeepsRecord(l, StopAsked(if msg.Stop? then None else Some(msg.value))); }
    else if outcome.Mismatched? { NoteKeepsRecord(l, Handle(msg)); }
    else { AsksKeepRecord(l, Handle(msg), if outcome.Handled? then outcome.asks else Asks(false, None, false)); }
  }

  lemma NextKeepsRecord(l: Life, step: Step, budget: nat)
    requires Recorded(l) && Enabled(l, step)
    ensures Recorded(Next(l, step, budget))
  {
    match step
    case Deliver(msg) =>
      if IsControl(msg) { NoteKeepsRecord(l, StopAsked(if msg.Stop? then None else Some(msg.value))); }
      NoteKeepsRecord(l, Resuming);
    case AdminStop => NoteKeepsRecord(l, StopAsked(None));
    case AdminSuspend => NoteKeepsRecord(l, Suspending);
    case AdminResume => NoteKeepsRecord(l, Resuming);
    case BeginTick(start) =>
      AsksKeepRecord(l, OnStart, if start.StartReturned? then start.asks else Asks(false, None, false));
    case NextMessage(outcome) => MessageKeepsRecord(l, l.slot.mailbox[0], outcome);
    case Cleanup(last) =>
      NoteKeepsRecord(l, OnStop);
      NoteKeepsRecord(Note(l, OnStop), OnStopPanic);
      var stopped := if OnStopEligible(l.slot) then NoteStop(l, last) else l;
      NoteKeepsRecord(stopped, Removed(ReasonFor(l.slot), l.slot.exitValue));
    case _ =>
  }

  lemma {:induction false} RunKeepsInv(l: Life, steps: seq<Step>, budget: nat)
    requires Inv(l, budget) && Recorded(l) && Runs(l, steps, budget)
    ensures Inv(Run(l, steps, budget), budget) && Recorded(Run(l, steps, budget))
    decreases |steps|
  {
    if steps != [] {
      NextKeepsInv(l, steps[0], budget);
      NextKeepsRecord(l, steps[0], budget);
      RunKeepsInv(Next(l, steps[0], budget), steps[1..], budget);
    }
  }

  // ─── what every run shows ──────────────────────────────────────────────────

  /** Law once broken stays broken, and what was once seen is not forgotten. */
  predicate Remembers(s: Story, s': Story) {
    && (s'.lawful ==> s.lawful)
    && (s.started ==> s'.started) && (s.stopAsked ==> s'.stopAsked) && (s.panicked ==> s'.panicked)
    && (s.onStopRan ==> s'.onStopRan) && (s.removed ==> s'.removed)
  }

  lemma ToldRemembers(s: Story, m: Mark)
    ensures Remembers(s, Told(s, m))
  {
  }

  lemma {:induction false} StoryRemembers(marks: seq<Mark>, k: nat)
    requires k <= |marks|
    ensures Remembers(StoryOf(marks[..k]), StoryOf(marks))
    decreases |marks|
  {
    if k == |marks| {
      assert marks[..k] == marks;
    } else {
      var front := marks[..|marks| - 1];
      StoryRemembers(front, k);
      ToldRemembers(StoryOf(front), marks[|marks| - 1]);
      assert front[..k] == marks[..k];
    }
  }

  lemma MarkFits(marks: seq<Mark>, i: nat)
    requires i < |marks| && StoryOf(marks).lawful
    ensures Told(StoryOf(marks[..i]), marks[i]).lawful
    ensures StoryOf(marks[..i + 1]) == Told(StoryOf(marks[..i]), marks[i])
  {
    StoryRemembers(marks, i + 1);
    assert marks[..i + 1][..i] == marks[..i];
  }

  lemma StorySince(marks: seq<Mark>, i: nat, j: nat)
    requires i < j < |marks| && StoryOf(marks).lawful
    ensures Remembers(Told(StoryOf(marks[..i]), marks[i]), StoryOf(marks[..j]))
  {
    StoryRemembers(marks, j);
    MarkFits(marks, i);
    StoryRemembers(marks[..j], i + 1);
    assert marks[..j][..i + 1] == marks[..i + 1];
  }

  /** Started, in a story, means that the start was seen. */
  lemma {:induction false} StartedWasSeen(marks: seq<Mark>)
    requires StoryOf(marks).started
    ensures OnStart in marks
    decreases |marks|
  {
    var front := marks[..|marks| - 1];
    assert marks == front + [marks[|marks| - 1]];
    if marks[|marks| - 1] != OnStart { StartedWasSeen(front); }
  }

  /** A suspension lasts until something resumes the actor. */
  lemma {:induction false} SuspendedUntilResumed(marks: seq<Mark>, i: nat, j: nat)
    requires i < j <= |marks| && marks[i].Suspending? && forall k :: i < k < j ==> !marks[k].Resuming?
    ensures StoryOf(marks[..j]).suspended
    decreases j
  {
    var before := marks[..j - 1];
    assert marks[..j][..j - 1] == before;
    if i < j - 1 { SuspendedUntilResumed(marks, i, j - 1); }
  }

  predicate IsCallback(m: Mark) {
    m.OnStart? || m.Handle?
  }

  /**
   Of two moments in a lawful story: the start comes once and before any message is handled; nothing
   is handled or started once a stop was asked for or a callback panicked, nor between a suspension and the next
   resumption; `on_stop` comes once, never after such a panic, and only once it has been called can it panic
   itself; and nothing at all happens after the removal.
   */
  predicate InOrder(marks: seq<Mark>, i: nat, j: nat)
    requires i < j < |marks|
  {
    && (marks[i].OnStart? ==> !marks[j].OnStart?)
    && (marks[j].Handle? ==> OnStart in marks[..j])
    && (marks[i].Panic? || marks[i].StopAsked? ==> !IsCallback(marks[j]))
    && (marks[i].Suspending? && IsCallback(marks[j]) ==> exists k :: i < k < j && marks[k].Resuming?)
    && (marks[i].OnStop? ==> !marks[j].OnStop?)
    && (marks[j].OnStopPanic? ==> OnStop in marks[..j])
    && (marks[i].Panic? ==> !marks[j].OnStop?)
    && !marks[i].Removed?
  }

  lemma AfterFits(s: Story, before: Mark, s': Story, m: Mark)
    requires Remembers(Told(s, before), s') && Told(s', m).lawful
    ensures (before.OnStart? ==> !m.OnStart?) && (before.OnStop? ==> !m.OnStop?) && !before.Removed?
    ensures (before.Panic? ==> !m.OnStop? && !IsCallback(m)) && (before.StopAsked? ==> !IsCallback(m))
  {
  }

  lemma NowFits(s: Story, m: Mark)
    requires Told(s, m).lawful
    ensures (m.Handle? ==> s.started) && (m.OnStopPanic? ==> s.onStopRan) && (IsCallback(m) ==> !s.suspended)
  {
  }

  lemma LawfulMeansInOrder(marks: seq<Mark>, i: nat, j: nat)
    requires StoryOf(marks).lawful && i < j < |marks|
    ensures InOrder(marks, i, j)
  {
    MarkFits(marks, j);
    StorySince(marks, i, j);
    AfterFits(StoryOf(marks[..i]), marks[i], StoryOf(marks[..j]), marks[j]);
    NowFits(StoryOf(marks[..j]), marks[j]);
    if marks[j].Handle? { StartedWasSeen(marks[..j]); }
    if marks[j].OnStopPanic? { PanicWasSeen(marks[..j]); }
    if marks[i].Suspending? && forall k :: i < k < j ==> !marks[k].Resuming? { SuspendedUntilResumed(marks, i, j); }
  }

  /** Over every run of one slot, of any length, its callbacks come in order. */
  lemma CallbacksInOrder(steps: seq<Step>, budget: nat, i: nat, j: nat)
    requires Runs(Birth(), steps, budget) && i < j < |Run(Birth(), steps, budget).marks|
    ensures InOrder(Run(Birth(), steps, budget).marks, i, j)
  {
    RunKeepsInv(Birth(), steps, budget);
    LawfulMeansInOrder(Run(Birth(), steps, budget).marks, i, j);
  }

  lemma ToldNotes(s: Story, m: Mark)
    ensures Told(s, m).panicked == (s.panicked || m == Panic)
    ensures Told(s, m).onStopRan == (s.onStopRan || m == OnStop)
  {
  }

  lemma ToldValue(s: Story, m: Mark)
    ensures Told(s, m).value.Some? == (s.value.Some? || (m.StopAsked? && m.value.Some?))
  {
  }

  lemma SeenOneMore(front: seq<Mark>, last: Mark, m: Mark)
    ensures m in front + [last] <==> m in front || m == last
  {
  }

  // What a story has of a panic, of `on_stop` and of an exit value was seen in the marks.
  lemma {:induction false} PanicWasSeen(marks: seq<Mark>)
    ensures StoryOf(marks).panicked <==> Panic in marks
    ensures StoryOf(marks).onStopRan <==> OnStop in marks
    decreases |marks|
  {
    if marks != [] {
      var front, last := marks[..|marks| - 1], marks[|marks| - 1];
      PanicWasSeen(front);
      ToldNotes(StoryOf(front), last);
      SeenOneMore(front, last, Panic);
      SeenOneMore(front, last, OnStop);
      assert marks == front + [last];
    }
  }

  ghost predicate Valued(marks: seq<Mark>) {
    exists v :: StopAsked(Some(v)) in marks
  }

  lemma ValuedOneMore(front: seq<Mark>, last: Mark)
    ensures Valued(front + [last]) <==> Valued(front) || (last.StopAsked? && last.value.Some?)
  {
    if v :| StopAsked(Some(v)) in front { assert StopAsked(Some(v)) in front + [last]; }
    if last.StopAsked? && last.value.Some? { assert StopAsked(Some(last.value.value)) in front + [last]; }
  }

  lemma {:induction false} ValueWasSeen(marks: seq<Mark>)
    ensures StoryOf(marks).value.Some? <==> Valued(marks)
    decreases |marks|
  {
    if marks != [] {
      var front, last := marks[..|marks| - 1], marks[|marks| - 1];
      ValueWasSeen(front);
      ToldValue(StoryOf(front), last);
      ValuedOneMore(front, last);
      assert marks == front + [last];
    }
  }

  lemma RemovalFits(marks: seq<Mark>, i: nat)
    requires StoryOf(marks).lawful && i < |marks| && marks[i].Removed?
    ensures && (marks[i].reason == Panicked <==> Panic in marks[..i])
            && (marks[i].reason == Completed <==> Panic !in marks[..i] && Valued(marks[..i]))
            && (OnStop in marks[..i] <==> Panic !in marks[..i])
  {
    MarkFits(marks, i);
    PanicWasSeen(marks[..i]);
    ValueWasSeen(marks[..i]);
  }

  /**
   The reason an actor is removed for matches its history: panicked if and only if `on_start` or a
   handler panicked, otherwise completed if and only if some stop carried a value; and `on_stop` ran
   before the removal if and only if neither panicked. A panic of `on_stop` plays no part in it.
   */
  lemma RemovalMatchesHistory(steps: seq<Step>, budget: nat, i: nat)
    requires Runs(Birth(), steps, budget)
    requires i < |Run(Birth(), steps, budget).marks| && Run(Birth(), steps, budget).marks[i].Removed?
    ensures var marks := Run(Birth(), steps, budget).marks;
            && (marks[i].reason == Panicked <==> Panic in marks[..i])
            && (marks[i].reason == Completed <==> Panic !in marks[..i] && Valued(marks[..i]))
            && (OnStop in marks[..i] <==> Panic !in marks[..i])
  {
    RunKeepsInv(Birth(), steps, budget);
    RemovalFits(Run(Birth(), steps, budget).marks, i);
  }

  /** Whether `on_stop` panics or returns, the actor is removed for the same reason and with the same value. */
  lemma StopPanicIsSwallowed(l: Life)
    ensures var quiet, loud := Clean(l, StopReturned), Clean(l, StopPanicked);
            && loud == quiet.(marks := loud.marks, story := loud.story)
            && (Dead(l.slot) ==> loud.marks[|loud.marks| - 1] == quiet.marks[|quiet.marks| - 1])
            && (OnStopEligible(l.slot) <==> loud.marks != quiet.marks)
            && loud.story == quiet.story
  {
    var quiet, loud := Clean(l, StopReturned), Clean(l, StopPanicked);
    if OnStopEligible(l.slot) {
      assert |loud.marks| == |quiet.marks| + 1;
    }
  }

  /**
   What was put in a mailbox is what was consumed, then what was discarded, then what is still there,
   in order; nothing is discarded while the actor lives; and a tick with a positive budget never calls
   its handler more often than that.
   */
  lemma NothingIsLostOrReordered(steps: seq<Step>, budget: nat)
    requires Runs(Birth(), steps, budget)
    ensures var l := Run(Birth(), steps, budget);
            && l.delivered == l.consumed + l.discarded + l.slot.mailbox
            && (!Dead(l.slot) ==> l.discarded == [])
            && (budget > 0 ==> l.calls <= budget)
  {
    RunKeepsInv(Birth(), steps, budget);
  }

  // ─── what is asked takes effect ────────────────────────────────────────────

  /** The asks of a callback that returns in this step, if one does. */
  function AskedNow(l: Life, step: Step): (asks: Option<Asks>) {
    match step
    case BeginTick(StartReturned(asks)) => if Skipped(l.slot) || l.slot.started then None else Some(asks)
    case NextMessage(Handled(asks)) =>
      if l.slot.mailbox == [] || IsControl(l.slot.mailbox[0]) then None else Some(asks)
    case _ => None
  }

  /** A callback or an operator suspends the actor; a stop asked for at the same time comes first. */
  predicate Suspends(l: Life, step: Step) {
    || step.AdminSuspend?
    || (AskedNow(l, step).Some? && AskedNow(l, step).value.suspend && !AsksStop(AskedNow(l, step).value))
  }

  predicate Resumes(l: Life, step: Step) {
    step.AdminResume? || (step == Deliver(Resume) && l.slot.suspended)
  }

  /** The actor is told to stop: by an operator, by its own callback, or by a signal that is taken up now. */
  predicate Stops(l: Life, step: Step, value: Option<nat>) {
    match step
    case AdminStop => value.None?
    case Deliver(msg) => l.slot.suspended && IsControl(msg) && value == ValueOf(msg)
    case NextMessage(_) =>
      if l.slot.mailbox != [] && IsControl(l.slot.mailbox[0]) then value == ValueOf(l.slot.mailbox[0])
      else AskedNow(l, step).Some? && AsksStop(AskedNow(l, step).value) && value == AskedNow(l, step).value.stopWith
    case _ => AskedNow(l, step).Some? && AsksStop(AskedNow(l, step).value) && value == AskedNow(l, step).value.stopWith
  }

  function ValueOf(msg: Message): (value: Option<nat>) {
    if msg.StopWith? then Some(msg.value) else None
  }

  predicate Panics(l: Life, step: Step) {
    || (step == BeginTick(StartPanicked) && !Skipped(l.slot) && !l.slot.started)
    || (step == NextMessage(HandlerPanicked) && l.slot.mailbox != [] && !IsControl(l.slot.mailbox[0]))
  }

  /** The flags after a step are those before it, but for what the step asks. */
  ghost predicate TakesEffect(l: Life, step: Step, slot': Slot) {
    && slot'.suspended == (if Suspends(l, step) then true else if Resumes(l, step) then false else l.slot.suspended)
    && (slot'.stopping <==> l.slot.stopping || exists value :: Stops(l, step, value))
    && (slot'.poisoned <==> l.slot.poisoned || Panics(l, step))
    && (forall value :: Stops(l, step, value) ==>
          slot'.exitValue == if value.Some? then value else l.slot.exitValue)
    && ((forall value :: !Stops(l, step, value)) ==> slot'.exitValue == l.slot.exitValue)
  }

  lemma SignalTakesEffect(l: Life, msg: Message)
    ensures TakesEffect(l, Deliver(msg), Delivered(l.slot, msg))
  {
    if l.slot.suspended && IsControl(msg) { assert Stops(l, Deliver(msg), ValueOf(msg)); }
  }

  lemma StartTakesEffect(l: Life, start: StartOutcome, budget: nat)
    requires Inv(l, budget) && Enabled(l, BeginTick(start))
    ensures TakesEffect(l, BeginTick(start), Next(l, BeginTick(start), budget).slot)
  {
    var asks := AskedNow(l, BeginTick(start));
    if asks.Some? && AsksStop(asks.value) { assert Stops(l, BeginTick(start), asks.value.stopWith); }
  }

  lemma MessageTakesEffect(l: Life, outcome: Outcome)
    requires l.slot.mailbox != [] && !Skipped(l.slot)
    ensures TakesEffect(l, NextMessage(outcome), AfterMessage(l.slot, outcome))
  {
    var msg, asks := l.slot.mailbox[0], AskedNow(l, NextMessage(outcome));
    if IsControl(msg) { assert Stops(l, NextMessage(outcome), ValueOf(msg)); }
    if asks.Some? && AsksStop(asks.value) { assert Stops(l, NextMessage(outcome), asks.value.stopWith); }
  }

  /**
   In every state and for every step: the actor is suspended, resumed, stopped or poisoned exactly if the step says
   so, and keeps the value of the last stop that carried one.
   */
  lemma WhatIsAskedTakesEffect(l: Life, step: Step, budget: nat)
    requires Inv(l, budget) && Enabled(l, step)
    ensures TakesEffect(l, step, Next(l, step, budget).slot)
  {
    match step
    case AdminStop => assert Stops(l, step, None);
    case Deliver(msg) => SignalTakesEffect(l, msg);
    case NextMessage(outcome) => MessageTakesEffect(l, outcome);
    case BeginTick(start) => StartTakesEffect(l, start, budget);
    case _ =>
  }

  // ─── what is taken from a mailbox is handled ───────────────────────────────

  /** The messages handed to the handler, in order. */
  function HandledIn(marks: seq<Mark>): (msgs: seq<Message>) {
    if marks == [] then []
    else
      var last := marks[|marks| - 1];
      HandledIn(marks[..|marks| - 1]) + if last.Handle? then [last.msg] else []
  }

  /** The messages that are no stop signals, in order. */
  function Plain(msgs: seq<Message>): (plain: seq<Message>) {
    if msgs == [] then []
    else Plain(msgs[..|msgs| - 1]) + if IsControl(msgs[|msgs| - 1]) then [] else [msgs[|msgs| - 1]]
  }

  ghost predicate AllHandled(l: Life) {
    HandledIn(l.marks) == Plain(l.consumed)
  }

  lemma HandledOneMore(l: Life, m: Mark)
    ensures HandledIn(Note(l, m).marks) == HandledIn(l.marks) + if m.Handle? then [m.msg] else []
  {
    assert (l.marks + [m])[..|l.marks|] == l.marks;
  }

  lemma AsksHandleNothing(l: Life, asks: Asks)
    ensures HandledIn(NoteAsks(l, asks).marks) == HandledIn(l.marks)
  {
    HandledOneMore(l, StopAsked(asks.stopWith));
    HandledOneMore(l, Suspending);
  }

  lemma MessageHandled(l: Life, msg: Message, outcome: Outcome)
    ensures HandledIn(NoteMessage(l, msg, outcome).marks) == HandledIn(l.marks) + if IsControl(msg) then [] else [msg]
  {
    HandledOneMore(l, Handle(msg));
    HandledOneMore(Note(l, Handle(msg)), Panic);
    if IsControl(msg) { HandledOneMore(l, StopAsked(ValueOf(msg))); }
    else if outcome.Handled? { AsksHandleNothing(Note(l, Handle(msg)), outcome.asks); }
  }

  lemma StartHandlesNothing(l: Life, start: StartOutcome)
    ensures HandledIn(NoteStart(l, start).marks) == HandledIn(l.marks) && NoteStart(l, start).consumed == l.consumed
  {
    HandledOneMore(l, OnStart);
    HandledOneMore(Note(l, OnStart), Panic);
    if start.StartReturned? { AsksHandleNothing(Note(l, OnStart), start.asks); }
  }

  lemma EndHandlesNothing(l: Life, last: StopOutcome)
    ensures HandledIn(Clean(l, last).marks) == HandledIn(l.marks)
  {
    HandledOneMore(l, OnStop);
    HandledOneMore(Note(l, OnStop), OnStopPanic);
    var stopped := if OnStopEligible(l.slot) then NoteStop(l, last) else l;
    HandledOneMore(stopped, Removed(ReasonFor(l.slot), l.slot.exitValue));
  }

  lemma SignalHandlesNothing(l: Life, msg: Message)
    ensures HandledIn(NoteDelivery(l, msg).marks) == HandledIn(l.marks) && NoteDelivery(l, msg).consumed == l.consumed
  {
    HandledOneMore(l, StopAsked(ValueOf(msg)));
    HandledOneMore(l, Resuming);
  }

  lemma AdvanceKeepsHandled(l: Life, outcome: Outcome, budget: nat)
    requires AllHandled(l) && l.slot.mailbox != []
    ensures AllHandled(Advance(l, outcome, budget))
  {
    var msg, l' := l.slot.mailbox[0], Advance(l, outcome, budget);
    MessageHandled(l, msg, outcome);
    assert l'.marks == NoteMessage(l, msg, outcome).marks && l'.consumed == l.consumed + [msg];
    assert (l.consumed + [msg])[..|l.consumed|] == l.consumed;
  }

  lemma BeginKeepsHandled(l: Life, start: StartOutcome)
    requires AllHandled(l)
    ensures AllHandled(Begin(l, start))
  {
    StartHandlesNothing(l, start);
    var l', begins := Begin(l, start), !Skipped(l.slot) && !l.slot.started;
    assert l'.marks == if begins then NoteStart(l, start).marks else l.marks;
    assert l'.consumed == l.consumed;
    assert HandledIn(l'.marks) == HandledIn(l.marks);
  }

  lemma NextKeepsHandled(l: Life, step: Step, budget: nat)
    requires AllHandled(l) && Enabled(l, step)
    ensures AllHandled(Next(l, step, budget))
  {
    match step
    case Deliver(msg) => SignalHandlesNothing(l, msg);
    case AdminStop => HandledOneMore(l, StopAsked(None));
    case AdminSuspend => HandledOneMore(l, Suspending);
    case AdminResume => HandledOneMore(l, Resuming);
    case BeginTick(start) => BeginKeepsHandled(l, start);
    case NextMessage(outcome) => AdvanceKeepsHandled(l, outcome, budget);
    case EndTick =>
    case Cleanup(last) => EndHandlesNothing(l, last);
  }

  lemma {:induction false} RunKeepsHandled(l: Life, steps: seq<Step>, budget: nat)
    requires AllHandled(l) && Runs(l, steps, budget)
    ensures AllHandled(Run(l, steps, budget))
    decreases |steps|
  {
    if steps != [] {
      NextKeepsHandled(l, steps[0], budget);
      RunKeepsHandled(Next(l, steps[0], budget), steps[1..], budget);
    }
  }

  /** Over every run the handler was called with exactly the messages taken, in order, but the stop signals. */
  lemma ConsumedIsHandled(steps: seq<Step>, budget: nat)
    requires Runs(Birth(), steps, budget)
    ensures var l := Run(Birth(), steps, budget); HandledIn(l.marks) == Plain(l.consumed)
  {
    RunKeepsHandled(Birth(), steps, budget);
  }
}
