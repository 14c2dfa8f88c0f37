/** What an operator's commands do to the actors: in the pool, in a pass, and over any number of passes. */
module Orders {
  import opened ActorSlots
  import opened ActorTurns
  import opened Callbacks
  import opened Commands
  import opened Conservation
  import opened Options
  import opened Passes
  import opened Queues
  import opened Routing

  // ─── a command is a step of a life ─────────────────────────────────────────

  function StepOf(c: AdminCommand): (step: Option<Step>) {
    match c
    case StopActor(_) => Some(AdminStop)
    case SuspendActor(_) => Some(AdminSuspend)
    case ResumeActor(_) => Some(AdminResume)
    case _ => None
  }

  /** A command is the step of its actor's life, and leaves every other actor alone. */
  lemma CommandIsStep(pool: Pool, c: AdminCommand, a: Address, l: Life, budget: nat)
    requires a in pool && l.slot == pool[a] && l.present && !l.ticking
    ensures ApplyTo(pool, c)[a] ==
              if Target(c) == Some(a) && StepOf(c).Some? then Next(l, StepOf(c).value, budget).slot else pool[a]
  {
  }

  /** What the commands last said about suspending this actor. */
  function LastWord(cs: seq<AdminCommand>, a: Address): (suspend: Option<bool>) {
    if cs == [] then None
    else if cs[|cs| - 1] == SuspendActor(a) then Some(true)
    else if cs[|cs| - 1] == ResumeActor(a) then Some(false)
    else LastWord(cs[..|cs| - 1], a)
  }

  lemma StopSeen(cs: seq<AdminCommand>, c: AdminCommand, a: Address)
    ensures StopActor(a) in cs + [c] <==> StopActor(a) in cs || c == StopActor(a)
  {
  }

  /**
   After any number of commands an actor is suspended or not as the last of them said, and stops with an empty
   mailbox exactly if one of them said so; nothing else of it changes.
   */
  lemma {:induction false} CommandsTakeEffect(pool: Pool, cs: seq<AdminCommand>, a: Address)
    requires a in pool
    ensures var slot, slot', stop := pool[a], ApplyAll(pool, cs)[a], StopActor(a) in cs;
            slot' == slot.(suspended := if LastWord(cs, a).Some? then LastWord(cs, a).value else slot.suspended,
                           stopping := slot.stopping || stop,
                           mailbox := if stop then [] else slot.mailbox)
    decreases |cs|
  {
    if cs != [] {
      var front, last := cs[..|cs| - 1], cs[|cs| - 1];
      CommandsTakeEffect(pool, front, a);
      StopSeen(front, last, a);
      assert cs == front + [last];
    }
  }

  // ─── the dead ──────────────────────────────────────────────────────────────

  lemma {:induction false} DeadStayDead(pool: Pool, es: seq<Envelope>, a: Address)
    requires a in pool && Dead(pool[a])
    ensures Dead(DeliverAll(pool, es)[a])
    decreases |es|
  {
    if es != [] { DeadStayDead(pool, es[..|es| - 1], a); }
  }

  /** Whoever is dead when the turns begin is gone at the end of the pass. */
  lemma DeadAreGone(setup: Setup, p: Pass, a: Address)
    requires IsPass(setup, p) && a in p.inlet.managed.pool && Dead(p.inlet.managed.pool[a])
    requires a !in FirstInstalled(setup, p.ticks.ticked)
    ensures a !in p.after.pool
  {
    var t := p.ticks.ticked;
    assert Dead(t.pool[a]);
    var mid := Installed(t, setup.ingressBudget);
    InstalledAll(t.pool, FirstInstalled(setup, t), a);
    DeadStayDead(mid.pool, Fated(mid.Seen(setup.id), mid.pendingLocal, Landing), a);
    assert a in DeadIn(p.outlet.settled.pool);
  }

  /** The commands a pass applies, in order. */
  function AppliedIn(setup: Setup, p: Pass): (cs: seq<AdminCommand>) {
    var s := p.inlet.delivered;
    Manage(s.Seen(setup.id), s.deferredAdmin, s.admin, setup.ingressBudget).done
  }

  /** An actor stopped by a command is removed by the end of that pass. */
  lemma StoppedIsRemoved(setup: Setup, p: Pass, a: Address)
    requires IsPass(setup, p) && a in p.inlet.delivered.pool && StopActor(a) in AppliedIn(setup, p)
    requires a !in FirstInstalled(setup, p.ticks.ticked)
    ensures a !in p.after.pool
  {
    var s := p.inlet.delivered;
    CommandsTakeEffect(s.pool, AppliedIn(setup, p), a);
    DeadStayDead(ApplyAll(s.pool, AppliedIn(setup, p)), p.inlet.messages, a);
    DeadAreGone(setup, p, a);
  }

  // ─── the suspended ─────────────────────────────────────────────────────────

  predicate Asleep(slot: Slot) {
    slot.suspended && !Dead(slot)
  }

  /** No signal to stop or resume is among these for this actor. */
  predicate Undisturbed(es: seq<Envelope>, a: Address) {
    forall e :: e in es && e.dest == a ==> e.msg.User?
  }

  lemma {:induction false} AsleepGets(pool: Pool, es: seq<Envelope>, a: Address)
    requires a in pool && Asleep(pool[a]) && Undisturbed(es, a)
    ensures DeliverAll(pool, es)[a] == pool[a].(mailbox := pool[a].mailbox + MessagesFor(es, a))
    decreases |es|
  {
    if es == [] {
      assert pool[a].mailbox + [] == pool[a].mailbox;
    } else {
      assert es[|es| - 1] in es;
      AsleepGets(pool, es[..|es| - 1], a);
    }
  }

  /** A slot with more in its mailbox. */
  function WithMail(slot: Slot, msgs: seq<Message>): (slot': Slot) {
    slot.(mailbox := slot.mailbox + msgs)
  }

  lemma MailTwice(slot: Slot, first: seq<Message>, second: seq<Message>)
    ensures WithMail(WithMail(slot, first), second) == WithMail(slot, first + second)
  {
    Grouped(slot.mailbox, first, second);
  }

  /** What a pass brings to the pool before the commands, and after them. */
  function BroughtFirst(setup: Setup, p: Pass): (es: seq<Envelope>) {
    var s := p.inlet.installed;
    Drain(s.Seen(setup.id), s.deferred, s.transfers, setup.ingressBudget).landed
  }

  function BroughtLate(setup: Setup, p: Pass): (es: seq<Envelope>) {
    var mid := Installed(p.ticks.ticked, setup.ingressBudget);
    Fated(mid.Seen(setup.id), mid.pendingLocal, Landing)
  }

  function BroughtLast(setup: Setup, p: Pass): (es: seq<Envelope>) {
    var s := Buried(p.outlet.settled, setup.id, p.outlet.last, p.outlet.notices);
    Fated(s.Seen(setup.id), s.pendingLocal, Landing)
  }

  /** Nothing in this pass, once its commands are applied, stops, resumes or replaces the actor. */
  predicate LeftAsleep(setup: Setup, p: Pass, a: Address) {
    && Undisturbed(p.inlet.messages, a) && Undisturbed(BroughtLate(setup, p), a)
    && Undisturbed(p.outlet.notices, a) && Undisturbed(BroughtLast(setup, p), a)
    && a !in FirstInstalled(setup, p.ticks.ticked)
  }

  lemma SleepsThroughTurns(setup: Setup, p: Pass, a: Address)
    requires IsPass(setup, p) && a in p.inlet.managed.pool && Asleep(p.inlet.managed.pool[a])
    ensures a in p.ticks.ticked.pool && p.ticks.ticked.pool[a] == p.inlet.managed.pool[a]
    ensures CallsIn(p.inlet.managed.pool[a], p.ticks.starts[a], p.ticks.outcomes[a]) == 0
    ensures p.ticks.outcomes[a] == []
  {
  }

  lemma SleepsThroughDelivery(setup: Setup, p: Pass, a: Address)
    requires IsPass(setup, p) && a in p.ticks.ticked.pool && Asleep(p.ticks.ticked.pool[a]) && LeftAsleep(setup, p, a)
    ensures a in p.outlet.settled.pool
    ensures p.outlet.settled.pool[a] == WithMail(p.ticks.ticked.pool[a], MessagesFor(BroughtLate(setup, p), a))
  {
    var t := p.ticks.ticked;
    InstalledAll(t.pool, FirstInstalled(setup, t), a);
    AsleepGets(Installed(t, setup.ingressBudget).pool, BroughtLate(setup, p), a);
  }

  lemma SleepsThroughBurial(setup: Setup, p: Pass, a: Address)
    requires IsPass(setup, p) && a in p.outlet.settled.pool && Asleep(p.outlet.settled.pool[a]) &&
               LeftAsleep(setup, p, a)
    ensures a in p.after.pool
    ensures p.after.pool[a] ==
              WithMail(p.outlet.settled.pool[a],
                       MessagesFor(p.outlet.notices, a) + MessagesFor(BroughtLast(setup, p), a))
  {
    var s := p.outlet.settled;
    var left := s.pool - DeadIn(s.pool);
    assert a in left && left[a] == s.pool[a];
    AsleepGets(left, p.outlet.notices, a);
    AsleepGets(DeliverAll(left, p.outlet.notices), BroughtLast(setup, p), a);
    MailTwice(s.pool[a], MessagesFor(p.outlet.notices, a), MessagesFor(BroughtLast(setup, p), a));
  }

  /** What comes for the actor after the commands of a pass, in order. */
  function LaterMail(setup: Setup, p: Pass, a: Address): (msgs: seq<Message>) {
    MessagesFor(p.inlet.messages, a)
    + (MessagesFor(BroughtLate(setup, p), a)
       + (MessagesFor(p.outlet.notices, a) + MessagesFor(BroughtLast(setup, p), a)))
  }

  /**
   An actor that is suspended once the commands of a pass are applied has no handler call in that pass, and keeps
   its mailbox, with what comes for it behind, unless something in the pass resumes or stops it.
   */
  lemma SuspendedIsLeftAlone(setup: Setup, p: Pass, a: Address)
    requires IsPass(setup, p) && a in p.inlet.delivered.pool && LeftAsleep(setup, p, a)
    requires Asleep(ApplyAll(p.inlet.delivered.pool, AppliedIn(setup, p))[a])
    ensures var slot := ApplyAll(p.inlet.delivered.pool, AppliedIn(setup, p))[a];
            a in p.after.pool && p.after.pool[a] == WithMail(slot, LaterMail(setup, p, a))
    ensures a in p.ticks.outcomes && p.ticks.outcomes[a] == []
  {
    var slot := ApplyAll(p.inlet.delivered.pool, AppliedIn(setup, p))[a];
    AsleepGets(ApplyAll(p.inlet.delivered.pool, AppliedIn(setup, p)), p.inlet.messages, a);
    SleepsThroughTurns(setup, p, a);
    SleepsThroughDelivery(setup, p, a);
    SleepsThroughBurial(setup, p, a);
    var late, last := MessagesFor(BroughtLate(setup, p), a),
      MessagesFor(p.outlet.notices, a) + MessagesFor(BroughtLast(setup, p), a);
    MailTwice(WithMail(slot, MessagesFor(p.inlet.messages, a)), late, last);
    MailTwice(slot, MessagesFor(p.inlet.messages, a), late + last);
  }

  // ─── over many passes ──────────────────────────────────────────────────────

  /** Nothing in the whole pass stops, resumes or replaces the actor. */
  predicate Unheard(setup: Setup, p: Pass, a: Address) {
    && LeftAsleep(setup, p, a) && Undisturbed(BroughtFirst(setup, p), a)
    && StopActor(a) !in AppliedIn(setup, p) && ResumeActor(a) !in AppliedIn(setup, p)
    && a !in FirstInstalled(setup, p.before)
  }

  lemma {:induction false} NotResumed(cs: seq<AdminCommand>, a: Address)
    requires ResumeActor(a) !in cs
    ensures LastWord(cs, a) != Some(false)
    decreases |cs|
  {
    if cs != [] {
      assert cs[|cs| - 1] in cs;
      NotResumed(cs[..|cs| - 1], a);
    }
  }

  /** An actor that is suspended sleeps through a pass in which nothing resumes or stops it. */
  lemma SleepsThroughPass(setup: Setup, p: Pass, a: Address)
    requires IsPass(setup, p) && a in p.before.pool && Asleep(p.before.pool[a]) && Unheard(setup, p, a)
    ensures a in p.after.pool
    ensures p.after.pool[a] ==
              WithMail(p.before.pool[a], MessagesFor(BroughtFirst(setup, p), a) + LaterMail(setup, p, a))
    ensures a in p.ticks.outcomes && p.ticks.outcomes[a] == []
  {
    InstalledAll(p.before.pool, FirstInstalled(setup, p.before), a);
    AsleepGets(p.inlet.installed.pool, BroughtFirst(setup, p), a);
    CommandsTakeEffect(p.inlet.delivered.pool, AppliedIn(setup, p), a);
    NotResumed(AppliedIn(setup, p), a);
    SuspendedIsLeftAlone(setup, p, a);
    MailTwice(p.before.pool[a], MessagesFor(BroughtFirst(setup, p), a), LaterMail(setup, p, a));
  }

  /** The pass begins where the one before it ended, and nothing in it stops, resumes or replaces the actor. */
  predicate UnheardAt(setup: Setup, ps: seq<Pass>, i: nat, a: Address)
    requires i < |ps|
  {
    IsPass(setup, ps[i]) && (i > 0 ==> ps[i].before == ps[i - 1].after) && Unheard(setup, ps[i], a)
  }

  /** All that comes for the actor in one pass, and in the first `n` of them, in order. */
  function MailIn(setup: Setup, p: Pass, a: Address): (msgs: seq<Message>) {
    MessagesFor(BroughtFirst(setup, p), a) + LaterMail(setup, p, a)
  }

  function AllMail(setup: Setup, ps: seq<Pass>, n: nat, a: Address): (msgs: seq<Message>)
    requires n <= |ps|
  {
    if n == 0 then [] else AllMail(setup, ps, n - 1, a) + MailIn(setup, ps[n - 1], a)
  }

  lemma SleepsOn(setup: Setup, p: Pass, a: Address, slot: Slot, mail: seq<Message>)
    requires IsPass(setup, p) && Unheard(setup, p, a) && Asleep(slot)
    requires a in p.before.pool && p.before.pool[a] == WithMail(slot, mail)
    ensures a in p.after.pool && p.after.pool[a] == WithMail(slot, mail + MailIn(setup, p, a))
    ensures a in p.ticks.outcomes && p.ticks.outcomes[a] == []
  {
    SleepsThroughPass(setup, p, a);
    MailTwice(slot, mail, MailIn(setup, p, a));
  }

  /**
   Over any number of passes: a suspended actor has no handler call and loses no message until something resumes
   or stops it.
   */
  lemma {:induction false} SleepsUntilResumed(setup: Setup, ps: seq<Pass>, n: nat, a: Address)
    requires 0 < n <= |ps| && a in ps[0].before.pool && Asleep(ps[0].before.pool[a])
    requires forall i :: 0 <= i < n ==> UnheardAt(setup, ps, i, a)
    ensures a in ps[n - 1].after.pool
    ensures ps[n - 1].after.pool[a] == WithMail(ps[0].before.pool[a], AllMail(setup, ps, n, a))
    ensures a in ps[n - 1].ticks.outcomes && ps[n - 1].ticks.outcomes[a] == []
    decreases n
  {
    var slot, mail := ps[0].before.pool[a], AllMail(setup, ps, n - 1, a);
    assert UnheardAt(setup, ps, n - 1, a);
    if n == 1 { assert slot.mailbox + [] == slot.mailbox; } else { SleepsUntilResumed(setup, ps, n - 1, a); }
    SleepsOn(setup, ps[n - 1], a, slot, mail);
  }

  // ─── the resumed ───────────────────────────────────────────────────────────

  /** A turn of an actor that may run, and is started and has mail, takes at least one message. */
  lemma TurnTakesMail(slot: Slot, start: StartOutcome, outcomes: seq<Outcome>, budget: nat, slot': Slot)
    requires IsTurn(slot, start, outcomes, budget, slot') && !Skipped(slot)
    ensures slot.started && slot.mailbox != [] ==> outcomes != []
    ensures slot'.started
  {
    var ready := if slot.started then slot else AfterStart(slot, start);
    StartedStays(ready, outcomes, budget);
  }

  lemma {:induction false} StartedStays(slot: Slot, outcomes: seq<Outcome>, budget: nat)
    requires Looped(slot, outcomes, budget) && slot.started
    ensures Processed(slot, outcomes).started
    decreases |outcomes|
  {
    if outcomes != [] { StartedStays(slot, outcomes[..|outcomes| - 1], budget); }
  }

  lemma AwakeStaysAwake(pool: Pool, es: seq<Envelope>, a: Address)
    requires a in pool && !Skipped(pool[a])
    ensures DeliverAll(pool, es)[a] == WithMail(pool[a], MessagesFor(es, a))
  {
    DeliveredInOrder(pool, es, a);
  }

  /**
   An actor whose last command in a pass resumes it, and that is not dead, has its turn in that pass: it is started
   if it was not, and takes a message if it has one.
   */
  lemma ResumedHasItsTurn(setup: Setup, p: Pass, a: Address)
    requires IsPass(setup, p) && a in p.inlet.delivered.pool && LastWord(AppliedIn(setup, p), a) == Some(false)
    requires !Dead(p.inlet.delivered.pool[a]) && StopActor(a) !in AppliedIn(setup, p)
    ensures var slot := p.inlet.delivered.pool[a];
            && a in p.ticks.ticked.pool && p.ticks.ticked.pool[a].started
            && (slot.started && slot.mailbox != [] ==> p.ticks.outcomes[a] != [])
  {
    var s := p.inlet.delivered;
    CommandsTakeEffect(s.pool, AppliedIn(setup, p), a);
    AwakeStaysAwake(ApplyAll(s.pool, AppliedIn(setup, p)), p.inlet.messages, a);
    TurnTakesMail(p.inlet.managed.pool[a], p.ticks.starts[a], p.ticks.outcomes[a], setup.messageBudget,
                  p.ticks.ticked.pool[a]);
  }

  // ─── the woken ─────────────────────────────────────────────────────────────

  lemma {:induction false} ResumeWakes(pool: Pool, es: seq<Envelope>, a: Address)
    requires a in pool && Envelope(a, Resume) in es
    ensures !DeliverAll(pool, es)[a].suspended
    decreases |es|
  {
    var front, last := es[..|es| - 1], es[|es| - 1];
    assert es == front + [last];
    if last != Envelope(a, Resume) { ResumeWakes(pool, front, a); }
  }

  lemma {:induction false} WakeIsStaged(addressMap: map<Address, nat>, id: nat, effects: seq<Effect>, n: nat, i: nat)
    requires i < n <= |effects| && effects[i].Wake?
    ensures Envelope(effects[i].actor, Resume) in StagedBy(addressMap, id, effects, n)
    decreases n
  {
    if i < n - 1 { WakeIsStaged(addressMap, id, effects, n - 1, i); }
  }

  /** Whoever a callback wakes, if present, is suspended no more once the pass has handed out the messages. */
  lemma WokenIsResumed(setup: Setup, p: Pass, i: nat)
    requires IsPass(setup, p) && i < |p.ticks.effects| && p.ticks.effects[i].Wake?
    requires p.ticks.effects[i].actor in p.ticks.ticked.pool
    ensures var a := p.ticks.effects[i].actor;
            a in p.outlet.settled.pool && !p.outlet.settled.pool[a].suspended
  {
    var a, t := p.ticks.effects[i].actor, p.ticks.ticked;
    var mid := Installed(t, setup.ingressBudget);
    WakeIsStaged(p.inlet.managed.addressMap, setup.id, p.ticks.effects, |p.ticks.effects|, i);
    assert Envelope(a, Resume) in t.pendingLocal;
    InstalledAll(t.pool, FirstInstalled(setup, t), a);
    FatedMeans(mid.Seen(setup.id), mid.pendingLocal, Landing, Envelope(a, Resume));
    ResumeWakes(mid.pool, Fated(mid.Seen(setup.id), mid.pendingLocal, Landing), a);
  }

  // ─── the removed ───────────────────────────────────────────────────────────

  /** A removed actor is forgotten: nothing sent to it lands or is kept; the address of every other stays as it was. */
  lemma RemovedIsForgotten(s: State, id: nat, effects: seq<Effect>, notices: seq<Envelope>, a: Address)
    ensures var t := Buried(s, id, effects, notices);
            && (a in DeadIn(s.pool) ==> a !in t.pool && a !in t.addressMap && FateOf(t.Seen(id), a) == Dropping)
            && (a !in DeadIn(s.pool) ==>
                  && (a in s.pool <==> a in t.pool)
                  && (a in s.addressMap ==> a in t.addressMap))
  {
    if a in s.addressMap { MapKeeps(s.addressMap, id, effects, |effects|, a); }
  }

  lemma {:induction false} MapKeeps(addressMap: map<Address, nat>, id: nat, effects: seq<Effect>, n: nat, a: Address)
    requires n <= |effects| && a in addressMap
    ensures a in MapAfter(addressMap, id, effects, n)
    decreases n
  {
    if n > 0 { MapKeeps(addressMap, id, effects, n - 1, a); }
  }

  /** What the last callbacks of a pass sent to an actor removed in it is dropped, not kept for later. */
  lemma RemovedHearsNothing(setup: Setup, p: Pass, e: Envelope)
    requires IsPass(setup, p) && e.dest in DeadIn(p.outlet.settled.pool) && e in p.after.deferred
    ensures e in p.outlet.settled.deferred
  {
    var s := p.outlet.settled;
    var t := Buried(s, setup.id, p.outlet.last, p.outlet.notices);
    RemovedIsForgotten(s, setup.id, p.outlet.last, p.outlet.notices, e.dest);
    FatedMeans(t.Seen(setup.id), t.pendingLocal, Waiting, e);
  }

  // ─── commands that come too early ──────────────────────────────────────────

  /** The actor a command is for is on its way to this worker: mapped here, and not yet in the pool. */
  predicate TooEarly(s: State, id: nat, c: AdminCommand) {
    !c.ListActors? && c.actor !in s.pool && c.actor in s.addressMap && s.addressMap[c.actor] == id
  }

  lemma {:induction false} ApartMeans<T>(queue: seq<T>, s: set<T>, x: T)
    ensures x in Apart(queue, s) <==> x in queue && x !in s
    decreases |queue|
  {
    if queue != [] {
      ApartMeans(queue[..|queue| - 1], s, x);
      assert queue == queue[..|queue| - 1] + [queue[|queue| - 1]];
    }
  }

  /** No command runs before its actor has come; one that waits for its actor is still waiting after the pass. */
  lemma CommandsAwaitTheirActor(setup: Setup, p: Pass, c: AdminCommand)
    requires IsPass(setup, p) && TooEarly(p.inlet.delivered, setup.id, c)
    ensures c !in AppliedIn(setup, p)
    ensures c in p.inlet.delivered.deferredAdmin ==> c in p.inlet.managed.deferredAdmin
  {
    var s := p.inlet.delivered;
    var view, q, t := s.Seen(setup.id), s.deferredAdmin, s.admin;
    var free := NoneWaits(view, q);
    var k, n := Reach(free, |q|, |t|, setup.ingressBudget), Turns(free, |q|, setup.ingressBudget);
    var stuck := StuckCommands(view, q + t);
    assert Waits(view, c);
    ApartMeans(q[..Min(n, |q|)], stuck, c);
    ApartMeans(t[..k], stuck, c);
    if c in q[..Min(n, |q|)] { assert c in q + t; }
    if c in t[..k] { assert c in q + t; }
    if c in q {
      assert c in stuck;
      RetainedAddUp(q, n, stuck);
      assert multiset(q)[c] > 0 && multiset(Apart(q[..Min(n, |q|)], stuck))[c] == 0;
      assert c in Rotated(q, stuck, n);
    }
  }
}
