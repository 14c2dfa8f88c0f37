/**
 One pass of a worker over values: what each phase makes of the worker's state, given what arrives
 meanwhile, what the callbacks do and what the runtime itself sends.
 */
module Passes {
  import opened ActorSlots
  import opened ActorTurns
  import opened Callbacks
  import opened Commands
  import opened Options
  import opened Queues
  import opened Routing

  datatype Setup = Setup(id: nat, ingressBudget: nat, messageBudget: nat)

  datatype State = State(
    pool: Pool,
    addressMap: map<Address, nat>,
    spawns: seq<Address>,
    transfers: seq<Envelope>,
    deferred: seq<Envelope>,
    pendingLocal: seq<Envelope>,
    admin: seq<AdminCommand>,
    deferredAdmin: seq<AdminCommand>)
  {
    function Seen(id: nat): (view: View) {
      View(pool.Keys, addressMap, id)
    }

    function Touched(): (touch: Touch) {
      Touch(addressMap, pendingLocal, spawns)
    }
  }

  function DeadIn(pool: Pool): (dead: set<Address>) {
    set a | a in pool && Dead(pool[a])
  }

  /** Nothing more can be done for this actor before something new happens to it. */
  predicate AtRest(slot: Slot) {
    Skipped(slot) || (slot.started && slot.mailbox == [])
  }

  /** No actor awaits cleanup, and every actor that is not suspended is started with an empty mailbox. */
  predicate Quiet(pool: Pool) {
    forall a :: a in pool ==> !Dead(pool[a]) && AtRest(pool[a])
  }

  /** How much of a queue of `n` the budget reaches. */
  function Share(n: nat, budget: nat): (share: nat) {
    Turns(true, n, budget)
  }

  datatype Obituary = Obituary(reason: StopReason, value: Option<nat>)

  function ObituaryOf(slot: Slot): (o: Obituary) {
    Obituary(ReasonFor(slot), slot.exitValue)
  }

  /** Some of the dead have been removed, each with its reason and value. */
  predicate TakenAway(before: Pool, gone: set<Address>, pool: Pool, dead: map<Address, Obituary>) {
    gone <= before.Keys && pool == before - gone && dead == map a | a in gone :: ObituaryOf(before[a])
  }

  lemma TakeAwayOneMore(before: Pool, gone: set<Address>, pool: Pool, dead: map<Address, Obituary>, a: Address)
    requires TakenAway(before, gone, pool, dead) && a in before
    ensures TakenAway(before, gone + {a}, pool - {a}, dead[a := ObituaryOf(before[a])])
  {
  }

  // ─── the phases ────────────────────────────────────────────────────────────

  /** The front of the spawn queue is installed. */
  function Installed(s: State, budget: nat): (s': State) {
    var k := Share(|s.spawns|, budget);
    s.(pool := InstallAll(s.pool, s.spawns[..k]), spawns := s.spawns[k..])
  }

  /** Retained transfers, then queued ones, are delivered, retained or dropped. */
  function Transferred(s: State, id: nat, budget: nat): (s': State) {
    var d := Drain(s.Seen(id), s.deferred, s.transfers, budget);
    s.(pool := DeliverAll(s.pool, d.landed), deferred := d.deferred, transfers := d.transfers)
  }

  /** How far into a queue the budget reaches after `count` turns over what was retained. */
  function Onward(queued: nat, count: nat, budget: nat): (n: nat)
    ensures n <= queued
  {
    if budget == 0 then queued else Min(queued, budget - Min(count, budget))
  }

  lemma TransferredIs(s: State, id: nat, budget: nat, count: nat, n: nat, landed: seq<Envelope>, s': State)
    requires budget == 0 ==> AllCanSettle(s.Seen(id), s.deferred)
    requires count == Turns(AllCanSettle(s.Seen(id), s.deferred), |s.deferred|, budget)
    requires n == Onward(|s.transfers|, count, budget)
    requires landed ==
               Settled(s.Seen(id), s.deferred, count, Landing) + Fated(s.Seen(id), s.transfers[..n], Landing)
    requires s'.deferred ==
               Rotated(s.deferred, StuckEnvelopes(s.Seen(id), s.deferred), count)
               + Fated(s.Seen(id), s.transfers[..n], Waiting)
    requires s' == s.(pool := DeliverAll(s.pool, landed), deferred := s'.deferred, transfers := s.transfers[n..])
    ensures s' == Transferred(s, id, budget)
    ensures n == Reach(AllCanSettle(s.Seen(id), s.deferred), |s.deferred|, |s.transfers|, budget)
  {
  }

  /** Retained commands, then queued ones, are applied or retained. */
  function Managed(s: State, id: nat, budget: nat): (s': State) {
    var o := Manage(s.Seen(id), s.deferredAdmin, s.admin, budget);
    s.(pool := ApplyAll(s.pool, o.done), deferredAdmin := o.kept, admin := o.rest)
  }

  lemma ManagedIs(s: State, id: nat, budget: nat, stuck: set<AdminCommand>, count: nat, n: nat,
      applied: seq<AdminCommand>, s': State)
    requires stuck == StuckCommands(s.Seen(id), s.deferredAdmin + s.admin)
    requires budget == 0 ==> NoneWaits(s.Seen(id), s.deferredAdmin)
    requires count == Turns(NoneWaits(s.Seen(id), s.deferredAdmin), |s.deferredAdmin|, budget)
    requires n == Onward(|s.admin|, count, budget)
    requires applied ==
               Apart(s.deferredAdmin[..Min(count, |s.deferredAdmin|)], stuck) + Apart(s.admin[..n], stuck)
    requires s'.deferredAdmin == Rotated(s.deferredAdmin, stuck, count) + Among(s.admin[..n], stuck)
    requires s' == s.(pool := ApplyAll(s.pool, applied), deferredAdmin := s'.deferredAdmin, admin := s.admin[n..])
    ensures s' == Managed(s, id, budget)
    ensures n == Reach(NoneWaits(s.Seen(id), s.deferredAdmin), |s.deferredAdmin|, |s.admin|, budget)
  {
  }

  /** Messages of the runtime's own go to the actors here. */
  function Routed(s: State, messages: seq<Envelope>): (s': State) {
    s.(pool := DeliverAll(s.pool, messages))
  }

  /** What was staged is delivered, retained or dropped. */
  function Flushed(s: State, id: nat): (s': State) {
    var view := s.Seen(id);
    s.(pool := DeliverAll(s.pool, Fated(view, s.pendingLocal, Landing)),
       deferred := s.deferred + Fated(view, s.pendingLocal, Waiting),
       pendingLocal := [])
  }

  /** The dead are removed and unmapped, after their last callbacks, and the others get the notices of it. */
  function Buried(s: State, id: nat, effects: seq<Effect>, notices: seq<Envelope>): (s': State) {
    s.(pool := DeliverAll(s.pool - DeadIn(s.pool), notices),
       addressMap := MapAfter(s.addressMap, id, effects, |effects|) - DeadIn(s.pool),
       pendingLocal := s.pendingLocal + StagedBy(s.addressMap, id, effects, |effects|),
       spawns := s.spawns + SpawnedBy(effects, |effects|))
  }

  // The dead taken away, then unmapped, then announced, is the dead buried.
  lemma BuriedIs(s: State, id: nat, effects: seq<Effect>, notices: seq<Envelope>, s': State,
      dead: map<Address, Obituary>)
    requires TakenAway(s.pool, DeadIn(s.pool), s'.pool, dead) && Leads(id, effects, s.Touched(), s'.Touched())
    requires s' == s.(pool := s'.pool, addressMap := s'.addressMap, pendingLocal := s'.pendingLocal, spawns :=
               s'.spawns)
    ensures Buried(s, id, effects, notices) ==
              s'.(pool := DeliverAll(s'.pool, notices), addressMap := s'.addressMap - dead.Keys)
  {
  }

  /**
   What other threads may do between two phases: push to the queues, map new actors, unmap their own.
   An address that something here still waits for is not mapped afresh.
   */
  predicate Arrived(id: nat, s: State, s': State) {
    && s' == s.(spawns := s'.spawns, transfers := s'.transfers, admin := s'.admin, addressMap := s'.addressMap)
    && s.spawns <= s'.spawns && s.transfers <= s'.transfers && s.admin <= s'.admin
    && (forall e :: e in s.deferred ==>
          (MappedHere(s'.addressMap, id, e.dest) <==> MappedHere(s.addressMap, id, e.dest)))
    && (forall c :: c in s.deferredAdmin && Target(c).Some? ==>
          (MappedHere(s'.addressMap, id, Target(c).value) <==> MappedHere(s.addressMap, id, Target(c).value)))
  }

  /** Every actor has its turn, and the callbacks stage and spawn. */
  predicate Ticked(setup: Setup, s: State, t: Ticks) {
    && TickedBut(s.pool, t.ticked.pool, {}, t.starts, t.outcomes, setup.messageBudget)
    && Leads(setup.id, t.effects, s.Touched(), t.ticked.Touched())
    && t.ticked == s.(pool := t.ticked.pool, addressMap := t.ticked.addressMap,
                      pendingLocal := t.ticked.pendingLocal, spawns := t.ticked.spawns)
  }

  lemma TickedAll(
    setup: Setup, s: State, starts: map<Address, StartOutcome>, outcomes: map<Address, seq<Outcome>>,
    effects: seq<Effect>, s': State)
    returns (t: Ticks)
    requires TickedBut(s.pool, s'.pool, {}, starts, outcomes, setup.messageBudget)
    requires Leads(setup.id, effects, s.Touched(), s'.Touched())
    requires s' == s.(pool := s'.pool, addressMap := s'.addressMap, pendingLocal := s'.pendingLocal,
                      spawns := s'.spawns)
    ensures t == Ticks(starts, outcomes, effects, s') && Ticked(setup, s, t)
  {
    t := Ticks(starts, outcomes, effects, s');
  }

  /** All but some have had their turn. */
  predicate TickedBut(
    before: Pool, after: Pool, todo: set<Address>, starts: map<Address, StartOutcome>,
    outcomes: map<Address, seq<Outcome>>, budget: nat)
  {
    && before.Keys == after.Keys && todo <= before.Keys && starts.Keys == outcomes.Keys == before.Keys - todo
    && (forall a :: a in todo ==> after[a] == before[a])
    && (forall a :: a in before && a !in todo ==> IsTurn(before[a], starts[a], outcomes[a], budget, after[a]))
  }

  lemma TickedOneMore(
    before: Pool, after: Pool, todo: set<Address>, starts: map<Address, StartOutcome>,
    outcomes: map<Address, seq<Outcome>>, budget: nat, a: Address, start: StartOutcome, handled: seq<Outcome>,
    slot: Slot)
    requires TickedBut(before, after, todo, starts, outcomes, budget) && a in todo
    requires IsTurn(before[a], start, handled, budget, slot)
    ensures TickedBut(before, after[a := slot], todo - {a}, starts[a := start], outcomes[a := handled], budget)
  {
  }

  // ─── a pass ────────────────────────────────────────────────────────────────

  /** The states after the first three phases, with what had arrived by then, and what the extension sent. */
  datatype Inlet = Inlet(installed: State, delivered: State, managed: State, messages: seq<Envelope>)

  /** What the callbacks did in the turns, and the state after them. */
  datatype Ticks = Ticks(
    starts: map<Address, StartOutcome>, outcomes: map<Address, seq<Outcome>>, effects: seq<Effect>, ticked: State)

  /** The state before the dead are removed, what their last callbacks did, and the notices of their deaths. */
  datatype Outlet = Outlet(settled: State, last: seq<Effect>, notices: seq<Envelope>)

  datatype Pass = Pass(before: State, inlet: Inlet, ticks: Ticks, outlet: Outlet, after: State)

  /** Phases 1 to 4, each with what arrives behind it. */
  predicate Ingests(setup: Setup, s: State, i: Inlet) {
    && Arrived(setup.id, Installed(s, setup.ingressBudget), i.installed)
    && Arrived(setup.id, Transferred(i.installed, setup.id, setup.ingressBudget), i.delivered)
    && Arrived(setup.id, Routed(Managed(i.delivered, setup.id, setup.ingressBudget), i.messages), i.managed)
  }

  /** Phases 6 to 9. */
  predicate Settles(setup: Setup, t: State, o: Outlet, s': State) {
    && Arrived(setup.id, Flushed(Installed(t, setup.ingressBudget), setup.id), o.settled)
    && (DeadIn(o.settled.pool) == {} ==> o.last == [] && o.notices == [])
    && Arrived(setup.id, Flushed(Buried(o.settled, setup.id, o.last, o.notices), setup.id), s')
  }

  predicate IsPass(setup: Setup, p: Pass) {
    && Ingests(setup, p.before, p.inlet)
    && Ticked(setup, p.inlet.managed, p.ticks)
    && Settles(setup, p.ticks.ticked, p.outlet, p.after)
  }

  // ─── whether there was anything to do ──────────────────────────────────────

  /** Something retained could be settled, or something queued was taken up. */
  predicate TransfersMove(s: State, id: nat, budget: nat) {
    var view, q := s.Seen(id), s.deferred;
    var free := AllCanSettle(view, q);
    var n := Turns(free, |q|, budget);
    || Settled(view, q, n, Landing) != [] || Settled(view, q, n, Dropping) != []
    || Reach(free, |q|, |s.transfers|, budget) > 0
  }

  predicate CommandsMove(s: State, id: nat, budget: nat) {
    var view, q := s.Seen(id), s.deferredAdmin;
    var free := NoneWaits(view, q);
    || Apart(q[..Min(Turns(free, |q|, budget), |q|)], StuckCommands(view, q + s.admin)) != []
    || Reach(free, |q|, |s.admin|, budget) > 0
  }

  /** The handler calls of one turn. */
  function CallsIn(slot: Slot, start: StartOutcome, outcomes: seq<Outcome>): (n: nat) {
    if Skipped(slot) then 0 else Calls(if slot.started then slot else AfterStart(slot, start), outcomes)
  }

  predicate AnyCall(pool: Pool, starts: map<Address, StartOutcome>, outcomes: map<Address, seq<Outcome>>)
    requires starts.Keys == outcomes.Keys <= pool.Keys
  {
    exists a :: a in starts && CallsIn(pool[a], starts[a], outcomes[a]) > 0
  }

  lemma CallOneMore(
    pool: Pool, starts: map<Address, StartOutcome>, outcomes: map<Address, seq<Outcome>>,
    a: Address, start: StartOutcome, handled: seq<Outcome>)
    requires starts.Keys == outcomes.Keys <= pool.Keys && a in pool && a !in starts
    ensures AnyCall(pool, starts[a := start], outcomes[a := handled]) <==>
              AnyCall(pool, starts, outcomes) || CallsIn(pool[a], start, handled) > 0
  {
    var starts', outcomes' := starts[a := start], outcomes[a := handled];
    if b :| b in starts && CallsIn(pool[b], starts[b], outcomes[b]) > 0 { assert b in starts'; }
    if CallsIn(pool[a], start, handled) > 0 { assert a in starts'; }
  }

  predicate IngestWorks(setup: Setup, s: State, i: Inlet) {
    || s.spawns != [] || TransfersMove(i.installed, setup.id, setup.ingressBudget)
    || CommandsMove(i.delivered, setup.id, setup.ingressBudget) || i.messages != []
  }

  predicate SettleWorks(t: State, o: Outlet) {
    t.spawns != [] || t.pendingLocal != [] || DeadIn(o.settled.pool) != {}
  }

  /** Some phase of the pass had something to do. */
  predicate Worked(setup: Setup, p: Pass)
    requires p.ticks.starts.Keys == p.ticks.outcomes.Keys <= p.inlet.managed.pool.Keys
  {
    || IngestWorks(setup, p.before, p.inlet) || AnyCall(p.inlet.managed.pool, p.ticks.starts, p.ticks.outcomes)
    || SettleWorks(p.ticks.ticked, p.outlet)
  }

  lemma PassOf(setup: Setup, s: State, i: Inlet, t: Ticks, o: Outlet, s': State) returns (p: Pass)
    requires Ingests(setup, s, i) && Ticked(setup, i.managed, t) && Settles(setup, t.ticked, o, s')
    ensures p == Pass(s, i, t, o, s') && IsPass(setup, p)
    ensures Worked(setup, p) <==>
              IngestWorks(setup, s, i) || AnyCall(i.managed.pool, t.starts, t.outcomes) || SettleWorks(t.ticked, o)
  {
    p := Pass(s, i, t, o, s');
  }

  // ─── without a budget ──────────────────────────────────────────────────────

  /** Whoever is waited for is settled, or its spawn request has arrived. */
  predicate Announced(s: State, id: nat) {
    && (forall e :: e in s.deferred ==> FateOf(s.Seen(id), e.dest) != Waiting || e.dest in s.spawns)
    && (forall c :: c in s.deferredAdmin && Waits(s.Seen(id), c) ==> Target(c).value in s.spawns)
  }

  predicate Unblocked(s: State, id: nat) {
    AllCanSettle(s.Seen(id), s.deferred) && NoneWaits(s.Seen(id), s.deferredAdmin)
  }

  /** Once all requests are installed, nothing retained is stuck, and so the loops over it end. */
  lemma AnnouncedUnblocks(s: State, id: nat)
    requires Announced(s, id)
    ensures Unblocked(Installed(s, 0), id)
  {
    assert s.spawns[..|s.spawns|] == s.spawns;
    forall a ensures a in InstallAll(s.pool, s.spawns) <==> a in s.pool || a in s.spawns {
      InstalledAll(s.pool, s.spawns, a);
    }
  }

  lemma ArrivalsUnblocked(id: nat, s: State, s': State)
    requires Arrived(id, s, s') && NoneWaits(s.Seen(id), s.deferredAdmin)
    ensures NoneWaits(s'.Seen(id), s'.deferredAdmin)
    ensures Unblocked(s, id) ==> Unblocked(s', id)
  {
  }

  // ─── what the front of each queue gets ─────────────────────────────────────

  /** What the front of each queue gets of a pass, whatever arrives behind it. */
  ghost predicate Served(s: State, s': State, budget: nat) {
    && Drained(s.spawns, s'.spawns, Share(|s.spawns|, budget))
    && (s.deferred == [] ==> Drained(s.transfers, s'.transfers, Share(|s.transfers|, budget)))
    && (s.deferredAdmin == [] ==> Drained(s.admin, s'.admin, Share(|s.admin|, budget)))
  }

  lemma TakenFromFront<T>(before: seq<T>, k: nat, after: seq<T>)
    requires k <= |before| && before[k..] <= after
    ensures Drained(before, after, k)
  {
    DrainedBy(before, after, k, k);
  }

  // A queue that only grows before it is served, and after.
  lemma ServedBetween<T>(before: seq<T>, grown: seq<T>, served: seq<T>, after: seq<T>, budget: nat)
    requires before <= grown && Drained(grown, served, Share(|grown|, budget)) && served <= after
    ensures Drained(before, after, Share(|before|, budget))
  {
    DrainedSince(before, grown, served, Share(|before|, budget), Share(|grown|, budget));
    DrainedNone(served, after);
    DrainedOn(before, served, after, Share(|before|, budget), 0);
  }

  // What the later phases leave of the queues.
  lemma IngestedSpawns(setup: Setup, s: State, i: Inlet)
    requires Ingests(setup, s, i)
    ensures s.spawns[Share(|s.spawns|, setup.ingressBudget)..] <= i.managed.spawns
  {
  }

  lemma SettledQueues(setup: Setup, t: State, o: Outlet, s': State)
    requires Settles(setup, t, o, s')
    ensures t.spawns[Share(|t.spawns|, setup.ingressBudget)..] <= s'.spawns
    ensures t.transfers <= s'.transfers && t.admin <= s'.admin
  {
  }

  lemma TickedQueues(setup: Setup, s: State, t: Ticks)
    requires Ticked(setup, s, t)
    ensures s.spawns <= t.ticked.spawns && s.transfers == t.ticked.transfers && s.admin == t.ticked.admin
  {
  }

  lemma TwiceServed<T>(before: seq<T>, served: seq<T>, grown: seq<T>, after: seq<T>, k: nat, m: nat)
    requires k <= |before| && before[k..] <= served <= grown && m <= |grown| && grown[m..] <= after
    ensures Drained(before, after, k)
  {
    TakenFromFront(before, k, grown);
    TakenFromFront(grown, m, after);
    DrainedOn(before, grown, after, k, m);
  }

  lemma OnceServed<T>(before: seq<T>, grown: seq<T>, served: seq<T>, after: seq<T>, budget: nat)
    requires before <= grown && grown[Share(|grown|, budget)..] <= served <= after
    ensures Drained(before, after, Share(|before|, budget))
  {
    TakenFromFront(grown, Share(|grown|, budget), served);
    ServedBetween(before, grown, served, after, budget);
  }

  lemma IngestedTransfers(setup: Setup, s: State, i: Inlet)
    requires Ingests(setup, s, i) && s.deferred == []
    ensures var grown := i.installed.transfers;
            && s.transfers <= grown && i.delivered.transfers <= i.managed.transfers
            && grown[Share(|grown|, setup.ingressBudget)..] <= i.delivered.transfers
  {
    assert AllCanSettle(i.installed.Seen(setup.id), i.installed.deferred);
  }

  lemma IngestedCommands(setup: Setup, s: State, i: Inlet)
    requires Ingests(setup, s, i) && s.deferredAdmin == []
    ensures var grown := i.delivered.admin;
            s.admin <= grown && grown[Share(|grown|, setup.ingressBudget)..] <= i.managed.admin
  {
    assert NoneWaits(i.delivered.Seen(setup.id), i.delivered.deferredAdmin);
  }

  lemma IngestServes(setup: Setup, s: State, i: Inlet, transfers: seq<Envelope>, admin: seq<AdminCommand>)
    requires Ingests(setup, s, i) && i.managed.transfers <= transfers && i.managed.admin <= admin
    ensures s.deferred == [] ==> Drained(s.transfers, transfers, Share(|s.transfers|, setup.ingressBudget))
    ensures s.deferredAdmin == [] ==> Drained(s.admin, admin, Share(|s.admin|, setup.ingressBudget))
  {
    if s.deferred == [] {
      IngestedTransfers(setup, s, i);
      OnceServed(s.transfers, i.installed.transfers, i.delivered.transfers, transfers, setup.ingressBudget);
    }
    if s.deferredAdmin == [] {
      IngestedCommands(setup, s, i);
      OnceServed(s.admin, i.delivered.admin, i.managed.admin, admin, setup.ingressBudget);
    }
  }

  /** Whatever arrives meanwhile and whatever the callbacks do, the front of each queue is served up to the budget. */
  lemma PassServes(setup: Setup, p: Pass)
    requires IsPass(setup, p)
    ensures Served(p.before, p.after, setup.ingressBudget)
  {
    var t := p.ticks.ticked;
    IngestedSpawns(setup, p.before, p.inlet);
    TickedQueues(setup, p.inlet.managed, p.ticks);
    SettledQueues(setup, t, p.outlet, p.after);
    IngestServes(setup, p.before, p.inlet, p.after.transfers, p.after.admin);
    TwiceServed(p.before.spawns, p.inlet.managed.spawns, t.spawns, p.after.spawns,
                Share(|p.before.spawns|, setup.ingressBudget), Share(|t.spawns|, setup.ingressBudget));
  }

  // ─── what leaves and what stays ────────────────────────────────────────────

  lemma {:induction false} KeysInstalled(pool: Pool, addrs: seq<Address>)
    ensures InstallAll(pool, addrs).Keys == pool.Keys + set a | a in addrs
  {
    forall a ensures a in InstallAll(pool, addrs).Keys <==> a in pool.Keys + set b | b in addrs {
      InstalledAll(pool, addrs, a);
    }
  }

  function FirstInstalled(setup: Setup, s: State): (addrs: seq<Address>) {
    s.spawns[..Share(|s.spawns|, setup.ingressBudget)]
  }

  /** Actors enter the pool only as their requests are taken up, and leave it only as dead. */
  lemma OnlyTheDeadLeave(setup: Setup, p: Pass)
    requires IsPass(setup, p)
    ensures p.after.pool.Keys ==
              p.before.pool.Keys + (set a | a in FirstInstalled(setup, p.before))
                  + (set a | a in FirstInstalled(setup, p.ticks.ticked))
              - DeadIn(p.outlet.settled.pool)
  {
    KeysInstalled(p.before.pool, FirstInstalled(setup, p.before));
    KeysInstalled(p.ticks.ticked.pool, FirstInstalled(setup, p.ticks.ticked));
  }

  // Without the dead, removal changes nothing.
  lemma NoneBuried(s: State, id: nat)
    requires DeadIn(s.pool) == {} && s.pendingLocal == []
    ensures Flushed(Buried(s, id, [], []), id).pool == s.pool
  {
    assert s.pool - {} == s.pool;
  }

  lemma NothingSettled(s: State, id: nat, budget: nat)
    requires s.spawns == [] && s.pendingLocal == []
    ensures Flushed(Installed(s, budget), id).pool == s.pool && Flushed(Installed(s, budget), id).pendingLocal == []
  {
  }

  lemma LivingAtRest(pool: Pool)
    requires DeadIn(pool) == {} && forall a :: a in pool ==> AtRest(pool[a])
    ensures Quiet(pool)
  {
    forall a | a in pool ensures !Dead(pool[a]) { assert a !in DeadIn(pool); }
  }

  /** If all were at rest after their turns, nothing had come up in them, and nobody died, then all are quiet. */
  lemma IdlePassIsQuiet(setup: Setup, t: State, o: Outlet, s': State)
    requires Settles(setup, t, o, s')
    requires forall a :: a in t.pool ==> AtRest(t.pool[a])
    requires !SettleWorks(t, o)
    ensures Quiet(s'.pool) && s'.pool == t.pool
  {
    NothingSettled(t, setup.id, setup.ingressBudget);
    NoneBuried(o.settled, setup.id);
    LivingAtRest(s'.pool);
  }
}
