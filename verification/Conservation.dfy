/** What goes into a worker's queues in a pass, what comes out of them, and what is still there. */
module Conservation {
  import opened ActorSlots
  import opened Callbacks
  import opened Commands
  import opened Passes
  import opened Queues
  import opened Routing

  /** Requests, envelopes and commands that were put in, and what became of those that were taken out. */
  datatype Flow = Flow(
    pushed: seq<Address>, installed: seq<Address>,
    entered: seq<Envelope>, landed: seq<Envelope>, dropped: seq<Envelope>,
    asked: seq<AdminCommand>, applied: seq<AdminCommand>)

  function Still(): (f: Flow) {
    Flow([], [], [], [], [], [], [])
  }

  function Then(f: Flow, g: Flow): (h: Flow) {
    Flow(f.pushed + g.pushed, f.installed + g.installed, f.entered + g.entered, f.landed + g.landed,
         f.dropped + g.dropped, f.asked + g.asked, f.applied + g.applied)
  }

  /** Envelopes that are queued, retained or staged. */
  function Envelopes(s: State): (es: multiset<Envelope>) {
    multiset(s.deferred) + multiset(s.transfers) + multiset(s.pendingLocal)
  }

  function CommandsIn(s: State): (cs: multiset<AdminCommand>) {
    multiset(s.deferredAdmin) + multiset(s.admin)
  }

  /** Requests are installed in order or still queued. */
  predicate RequestsKept(s: State, f: Flow, s': State) {
    s.spawns + f.pushed == f.installed + s'.spawns
  }

  /** Every envelope was delivered, was dropped or still waits. */
  predicate EnvelopesKept(s: State, f: Flow, s': State) {
    Envelopes(s) + multiset(f.entered) == multiset(f.landed) + multiset(f.dropped) + Envelopes(s')
  }

  /** Every command was applied or still waits. */
  predicate CommandsKept(s: State, f: Flow, s': State) {
    CommandsIn(s) + multiset(f.asked) == multiset(f.applied) + CommandsIn(s')
  }

  predicate Conserved(s: State, f: Flow, s': State) {
    RequestsKept(s, f, s') && EnvelopesKept(s, f, s') && CommandsKept(s, f, s')
  }

  // ─── one thing after another ───────────────────────────────────────────────

  lemma RowOn<T>(a: seq<T>, i: seq<T>, o: seq<T>, b: seq<T>, i': seq<T>, o': seq<T>, c: seq<T>)
    requires a + i == o + b && b + i' == o' + c
    ensures a + (i + i') == (o + o') + c
  {
    Grouped(a, i, i');
    Grouped(o, b, i');
    Grouped(o, o', c);
  }

  lemma SumOn<T>(a: multiset<T>, i: multiset<T>, o: multiset<T>, d: multiset<T>, b: multiset<T>, i': multiset<T>,
      o': multiset<T>, d': multiset<T>, c: multiset<T>)
    requires a + i == o + d + b && b + i' == o' + d' + c
    ensures a + (i + i') == (o + o') + (d + d') + c
  {
    assert a + (i + i') == (a + i) + i';
    assert (o + d + b) + i' == o + d + (b + i');
    assert o + d + (o' + d' + c) == (o + o') + (d + d') + c;
  }

  lemma BagOn<T>(a: multiset<T>, i: seq<T>, o: seq<T>, d: seq<T>, b: multiset<T>, i': seq<T>, o': seq<T>, d': seq<T>,
      c: multiset<T>)
    requires a + multiset(i) == multiset(o) + multiset(d) + b
    requires b + multiset(i') == multiset(o') + multiset(d') + c
    ensures a + multiset(i + i') == multiset(o + o') + multiset(d + d') + c
  {
    PutTogether(i, i');
    PutTogether(o, o');
    PutTogether(d, d');
    SumOn(a, multiset(i), multiset(o), multiset(d), b, multiset(i'), multiset(o'), multiset(d'), c);
  }

  lemma ConservedOn(s: State, f: Flow, s': State, g: Flow, s'': State)
    requires Conserved(s, f, s') && Conserved(s', g, s'')
    ensures Conserved(s, Then(f, g), s'')
  {
    RowOn(s.spawns, f.pushed, f.installed, s'.spawns, g.pushed, g.installed, s''.spawns);
    BagOn(Envelopes(s), f.entered, f.landed, f.dropped, Envelopes(s'), g.entered, g.landed, g.dropped, Envelopes(s''));
    BagOn(CommandsIn(s), f.asked, f.applied, [], CommandsIn(s'), g.asked, g.applied, [], CommandsIn(s''));
  }

  // ─── the phases ────────────────────────────────────────────────────────────

  function InstallFlow(s: State, budget: nat): (f: Flow) {
    Still().(installed := s.spawns[..Share(|s.spawns|, budget)])
  }

  lemma InstalledConserves(s: State, budget: nat)
    ensures Conserved(s, InstallFlow(s, budget), Installed(s, budget))
  {
  }

  function TransferFlow(s: State, id: nat, budget: nat): (f: Flow) {
    var d := Drain(s.Seen(id), s.deferred, s.transfers, budget);
    Still().(landed := d.landed, dropped := d.dropped)
  }

  lemma TransferredConserves(s: State, id: nat, budget: nat)
    ensures Conserved(s, TransferFlow(s, id, budget), Transferred(s, id, budget))
  {
    DrainAddsUp(s.Seen(id), s.deferred, s.transfers, budget);
    var d := Drain(s.Seen(id), s.deferred, s.transfers, budget);
    WithOthers(s.deferred, s.transfers, s.pendingLocal, d);
  }

  lemma WithOthers(q: seq<Envelope>, t: seq<Envelope>, others: seq<Envelope>, d: Drainage)
    requires multiset(q) + multiset(t) ==
               multiset(d.landed) + multiset(d.dropped) + multiset(d.deferred) + multiset(d.transfers)
    ensures multiset(q) + multiset(t) + multiset(others) ==
              multiset(d.landed) + multiset(d.dropped)
              + (multiset(d.deferred) + multiset(d.transfers) + multiset(others))
  {
  }

  function ManageFlow(s: State, id: nat, budget: nat): (f: Flow) {
    Still().(applied := Manage(s.Seen(id), s.deferredAdmin, s.admin, budget).done)
  }

  lemma ManagedConserves(s: State, id: nat, budget: nat)
    ensures Conserved(s, ManageFlow(s, id, budget), Managed(s, id, budget))
  {
    ManageAddsUp(s.Seen(id), s.deferredAdmin, s.admin, budget);
  }

  /** What the callbacks put in: the children's requests and what they staged. */
  function EffectFlow(s: State, id: nat, effects: seq<Effect>): (f: Flow) {
    Still().(pushed := SpawnedBy(effects, |effects|), entered := StagedBy(s.addressMap, id, effects, |effects|))
  }

  lemma EffectsConserve(s: State, id: nat, effects: seq<Effect>, s': State)
    requires s'.spawns == s.spawns + SpawnedBy(effects, |effects|)
    requires s'.pendingLocal == s.pendingLocal + StagedBy(s.addressMap, id, effects, |effects|)
    requires s' == s.(pool := s'.pool, addressMap := s'.addressMap, pendingLocal := s'.pendingLocal,
                      spawns := s'.spawns)
    ensures Conserved(s, EffectFlow(s, id, effects), s')
  {
    PutTogether(s.pendingLocal, StagedBy(s.addressMap, id, effects, |effects|));
  }

  function FlushFlow(s: State, id: nat): (f: Flow) {
    Still().(landed := Fated(s.Seen(id), s.pendingLocal, Landing), dropped :=
        Fated(s.Seen(id), s.pendingLocal, Dropping))
  }

  lemma FlushedConserves(s: State, id: nat)
    ensures Conserved(s, FlushFlow(s, id), Flushed(s, id))
  {
    var view := s.Seen(id);
    FatesAddUp(view, s.pendingLocal);
    PutTogether(s.deferred, Fated(view, s.pendingLocal, Waiting));
  }

  function Since<T>(before: seq<T>, after: seq<T>): (more: seq<T>)
    requires before <= after
    ensures before + more == after
  {
    after[|before|..]
  }

  function ArrivalFlow(id: nat, s: State, s': State): (f: Flow)
    requires Arrived(id, s, s')
  {
    Still().(pushed := Since(s.spawns, s'.spawns), entered := Since(s.transfers, s'.transfers),
             asked := Since(s.admin, s'.admin))
  }

  lemma ArrivedConserves(id: nat, s: State, s': State)
    requires Arrived(id, s, s')
    ensures Conserved(s, ArrivalFlow(id, s, s'), s')
  {
    PutTogether(s.transfers, Since(s.transfers, s'.transfers));
    PutTogether(s.admin, Since(s.admin, s'.admin));
  }

  // ─── a pass ────────────────────────────────────────────────────────────────

  function NewActorsFlow(setup: Setup, s: State, s': State): (f: Flow)
    requires Arrived(setup.id, Installed(s, setup.ingressBudget), s')
  {
    Then(InstallFlow(s, setup.ingressBudget), ArrivalFlow(setup.id, Installed(s, setup.ingressBudget), s'))
  }

  lemma NewActorsConserve(setup: Setup, s: State, s': State)
    requires Arrived(setup.id, Installed(s, setup.ingressBudget), s')
    ensures Conserved(s, NewActorsFlow(setup, s, s'), s')
  {
    var mid := Installed(s, setup.ingressBudget);
    InstalledConserves(s, setup.ingressBudget);
    ArrivedConserves(setup.id, mid, s');
    ConservedOn(s, InstallFlow(s, setup.ingressBudget), mid, ArrivalFlow(setup.id, mid, s'), s');
  }

  function DeliveriesFlow(setup: Setup, s: State, s': State): (f: Flow)
    requires Arrived(setup.id, Transferred(s, setup.id, setup.ingressBudget), s')
  {
    Then(TransferFlow(s, setup.id, setup.ingressBudget),
         ArrivalFlow(setup.id, Transferred(s, setup.id, setup.ingressBudget), s'))
  }

  lemma DeliveriesConserve(setup: Setup, s: State, s': State)
    requires Arrived(setup.id, Transferred(s, setup.id, setup.ingressBudget), s')
    ensures Conserved(s, DeliveriesFlow(setup, s, s'), s')
  {
    var mid := Transferred(s, setup.id, setup.ingressBudget);
    TransferredConserves(s, setup.id, setup.ingressBudget);
    ArrivedConserves(setup.id, mid, s');
    ConservedOn(s, TransferFlow(s, setup.id, setup.ingressBudget), mid, ArrivalFlow(setup.id, mid, s'), s');
  }

  function AdministrationFlow(setup: Setup, s: State, messages: seq<Envelope>, s': State): (f: Flow)
    requires Arrived(setup.id, Routed(Managed(s, setup.id, setup.ingressBudget), messages), s')
  {
    Then(ManageFlow(s, setup.id, setup.ingressBudget),
         ArrivalFlow(setup.id, Routed(Managed(s, setup.id, setup.ingressBudget), messages), s'))
  }

  lemma AdministrationConserves(setup: Setup, s: State, messages: seq<Envelope>, s': State)
    requires Arrived(setup.id, Routed(Managed(s, setup.id, setup.ingressBudget), messages), s')
    ensures Conserved(s, AdministrationFlow(setup, s, messages, s'), s')
  {
    var mid := Routed(Managed(s, setup.id, setup.ingressBudget), messages);
    ManagedConserves(s, setup.id, setup.ingressBudget);
    ArrivedConserves(setup.id, mid, s');
    ConservedOn(s, ManageFlow(s, setup.id, setup.ingressBudget), mid, ArrivalFlow(setup.id, mid, s'), s');
  }

  /** What a flush and the arrivals behind it come to. */
  function FlushingFlow(id: nat, s: State, s': State): (f: Flow)
    requires Arrived(id, Flushed(s, id), s')
  {
    Then(FlushFlow(s, id), ArrivalFlow(id, Flushed(s, id), s'))
  }

  lemma FlushingConserves(id: nat, s: State, s': State)
    requires Arrived(id, Flushed(s, id), s')
    ensures Conserved(s, FlushingFlow(id, s, s'), s')
  {
    FlushedConserves(s, id);
    ArrivedConserves(id, Flushed(s, id), s');
    ConservedOn(s, FlushFlow(s, id), Flushed(s, id), ArrivalFlow(id, Flushed(s, id), s'), s');
  }

  function IngestFlow(setup: Setup, s: State, i: Inlet): (f: Flow)
    requires Ingests(setup, s, i)
  {
    Then(NewActorsFlow(setup, s, i.installed),
         Then(DeliveriesFlow(setup, i.installed, i.delivered),
              AdministrationFlow(setup, i.delivered, i.messages, i.managed)))
  }

  lemma IngestConserves(setup: Setup, s: State, i: Inlet)
    requires Ingests(setup, s, i)
    ensures Conserved(s, IngestFlow(setup, s, i), i.managed)
  {
    var f := NewActorsFlow(setup, s, i.installed);
    var g := DeliveriesFlow(setup, i.installed, i.delivered);
    var h := AdministrationFlow(setup, i.delivered, i.messages, i.managed);
    NewActorsConserve(setup, s, i.installed);
    DeliveriesConserve(setup, i.installed, i.delivered);
    AdministrationConserves(setup, i.delivered, i.messages, i.managed);
    ConservedOn(i.installed, g, i.delivered, h, i.managed);
    ConservedOn(s, f, i.installed, Then(g, h), i.managed);
  }

  function LateFlow(setup: Setup, t: State, o: Outlet): (f: Flow)
    requires Arrived(setup.id, Flushed(Installed(t, setup.ingressBudget), setup.id), o.settled)
  {
    Then(InstallFlow(t, setup.ingressBudget),
         FlushingFlow(setup.id, Installed(t, setup.ingressBudget), o.settled))
  }

  lemma LateConserves(setup: Setup, t: State, o: Outlet)
    requires Arrived(setup.id, Flushed(Installed(t, setup.ingressBudget), setup.id), o.settled)
    ensures Conserved(t, LateFlow(setup, t, o), o.settled)
  {
    var mid := Installed(t, setup.ingressBudget);
    InstalledConserves(t, setup.ingressBudget);
    FlushingConserves(setup.id, mid, o.settled);
    ConservedOn(t, InstallFlow(t, setup.ingressBudget), mid, FlushingFlow(setup.id, mid, o.settled),
                o.settled);
  }

  function BurialFlow(setup: Setup, t: State, o: Outlet, s': State): (f: Flow)
    requires Arrived(setup.id, Flushed(Buried(o.settled, setup.id, o.last, o.notices), setup.id), s')
  {
    Then(EffectFlow(o.settled, setup.id, o.last),
         FlushingFlow(setup.id, Buried(o.settled, setup.id, o.last, o.notices), s'))
  }

  lemma BurialConserves(setup: Setup, t: State, o: Outlet, s': State)
    requires Arrived(setup.id, Flushed(Buried(o.settled, setup.id, o.last, o.notices), setup.id), s')
    ensures Conserved(o.settled, BurialFlow(setup, t, o, s'), s')
  {
    var mid := Buried(o.settled, setup.id, o.last, o.notices);
    EffectsConserve(o.settled, setup.id, o.last, mid);
    FlushingConserves(setup.id, mid, s');
    ConservedOn(o.settled, EffectFlow(o.settled, setup.id, o.last), mid, FlushingFlow(setup.id, mid, s'), s');
  }

  /** All that went in and came out in a pass, in order. */
  function PassFlow(setup: Setup, p: Pass): (f: Flow)
    requires IsPass(setup, p)
  {
    Then(IngestFlow(setup, p.before, p.inlet),
         Then(EffectFlow(p.inlet.managed, setup.id, p.ticks.effects),
             Then(LateFlow(setup, p.ticks.ticked, p.outlet), BurialFlow(setup, p.ticks.ticked, p.outlet, p.after))))
  }

  /**
   Over a whole pass nothing is lost or made up: every request that was queued or came in is installed, in
   order, or still queued; every envelope that was queued, retained or staged, or came in, is delivered,
   dropped or still waits; every command is applied or still waits.
   */
  lemma PassConserves(setup: Setup, p: Pass)
    requires IsPass(setup, p)
    ensures Conserved(p.before, PassFlow(setup, p), p.after)
  {
    var turns, late, burial := EffectFlow(p.inlet.managed, setup.id, p.ticks.effects),
      LateFlow(setup, p.ticks.ticked, p.outlet), BurialFlow(setup, p.ticks.ticked, p.outlet, p.after);
    IngestConserves(setup, p.before, p.inlet);
    EffectsConserve(p.inlet.managed, setup.id, p.ticks.effects, p.ticks.ticked);
    LateConserves(setup, p.ticks.ticked, p.outlet);
    BurialConserves(setup, p.ticks.ticked, p.outlet, p.after);
    ConservedOn(p.ticks.ticked, late, p.outlet.settled, burial, p.after);
    ConservedOn(p.inlet.managed, turns, p.ticks.ticked, Then(late, burial), p.after);
    ConservedOn(p.before, IngestFlow(setup, p.before, p.inlet), p.inlet.managed, Then(turns, Then(late, burial)),
        p.after);
  }

  /** What the worker went by when it delivered: in the transfer phase, after the turns, and after the removals. */
  function Views(setup: Setup, p: Pass): (views: seq<View>) {
    [p.inlet.installed.Seen(setup.id),
     Installed(p.ticks.ticked, setup.ingressBudget).Seen(setup.id),
     Buried(p.outlet.settled, setup.id, p.outlet.last, p.outlet.notices).Seen(setup.id)]
  }

  lemma IngestSettles(setup: Setup, s: State, i: Inlet)
    requires Ingests(setup, s, i)
    ensures var f, i := IngestFlow(setup, s, i), i.installed;
            var d := Drain(i.Seen(setup.id), i.deferred, i.transfers, setup.ingressBudget);
            f.landed == d.landed && f.dropped == d.dropped
  {
  }

  lemma FlushSettles(id: nat, s: State, s': State)
    requires Arrived(id, Flushed(s, id), s')
    ensures var f := FlushingFlow(id, s, s');
            && f.landed == Fated(s.Seen(id), s.pendingLocal, Landing)
            && f.dropped == Fated(s.Seen(id), s.pendingLocal, Dropping)
  {
  }

  lemma LateSettles(setup: Setup, t: State, o: Outlet, s': State)
    requires Settles(setup, t, o, s')
    ensures var f, g := LateFlow(setup, t, o), BurialFlow(setup, t, o, s');
            var mid, buried :=
              Installed(t, setup.ingressBudget), Buried(o.settled, setup.id, o.last, o.notices);
            && f.landed == Fated(mid.Seen(setup.id), t.pendingLocal, Landing)
            && f.dropped == Fated(mid.Seen(setup.id), t.pendingLocal, Dropping)
            && g.landed == Fated(buried.Seen(setup.id), buried.pendingLocal, Landing)
            && g.dropped == Fated(buried.Seen(setup.id), buried.pendingLocal, Dropping)
  {
    FlushSettles(setup.id, Installed(t, setup.ingressBudget), o.settled);
    FlushSettles(setup.id, Buried(o.settled, setup.id, o.last, o.notices), s');
  }

  lemma FlowOfFour(a: Flow, b: Flow, c: Flow, d: Flow)
    requires b.landed == [] && b.dropped == []
    ensures Then(a, Then(b, Then(c, d))).landed == a.landed + (c.landed + d.landed)
    ensures Then(a, Then(b, Then(c, d))).dropped == a.dropped + (c.dropped + d.dropped)
  {
  }

  /** The envelopes settled in a pass, phase by phase. */
  lemma SettledWhen(setup: Setup, p: Pass)
    requires IsPass(setup, p)
    ensures var f, v, b := PassFlow(setup, p), Views(setup, p), setup.ingressBudget;
            var d := Drain(v[0], p.inlet.installed.deferred, p.inlet.installed.transfers, b);
            var staged := Buried(p.outlet.settled, setup.id, p.outlet.last, p.outlet.notices).pendingLocal;
            && f.landed == d.landed + (Fated(v[1], p.ticks.ticked.pendingLocal, Landing) + Fated(v[2], staged, Landing))
            && f.dropped == d.dropped
               + (Fated(v[1], p.ticks.ticked.pendingLocal, Dropping) + Fated(v[2], staged, Dropping))
  {
    IngestSettles(setup, p.before, p.inlet);
    LateSettles(setup, p.ticks.ticked, p.outlet, p.after);
    FlowOfFour(IngestFlow(setup, p.before, p.inlet), EffectFlow(p.inlet.managed, setup.id, p.ticks.effects),
        LateFlow(setup, p.ticks.ticked, p.outlet),
               BurialFlow(setup, p.ticks.ticked, p.outlet, p.after));
  }

  /**
   What was delivered was for an actor installed here, and what was dropped was for one neither
   installed nor mapped here, when it was taken up.
   */
  lemma PassSifts(setup: Setup, p: Pass, e: Envelope)
    requires IsPass(setup, p)
    ensures e in PassFlow(setup, p).landed ==> exists v :: v in Views(setup, p) && FateOf(v, e.dest) == Landing
    ensures e in PassFlow(setup, p).dropped ==> exists v :: v in Views(setup, p) && FateOf(v, e.dest) == Dropping
  {
    SettledWhen(setup, p);
    var v := Views(setup, p);
    var staged := Buried(p.outlet.settled, setup.id, p.outlet.last, p.outlet.notices).pendingLocal;
    DrainSifts(v[0], p.inlet.installed.deferred, p.inlet.installed.transfers, setup.ingressBudget, e);
    FatedMeans(v[1], p.ticks.ticked.pendingLocal, Landing, e);
    FatedMeans(v[1], p.ticks.ticked.pendingLocal, Dropping, e);
    FatedMeans(v[2], staged, Landing, e);
    FatedMeans(v[2], staged, Dropping, e);
    assert v[0] in v && v[1] in v && v[2] in v;
  }
}
