/** What a command needs when its turn comes: its lease is live and its edge has a ring, in every run. */
module EdgeNeeds {
  import opened Alignment
  import opened EdgeArena
  import opened EdgeGrowth
  import opened EdgeLaws
  import opened EdgeQueue
  import opened EdgeRings
  import opened EdgeRuns
  import opened EdgeRuntimes
  import opened Options
  import opened Placement
  import A = Arena
  import E = EdgeLifecycle

  /** A ring is asked to be installed only before it is given back. */
  ghost predicate InstalledFirst(commands: seq<E.Command>) {
    forall i: nat, j: nat :: i < j < |commands| && commands[j].InstallWorkerRing? ==>
      commands[i] != E.ReleaseArenaLease(commands[j].ring)
  }

  /** What was asked to be installed went to that edge, at that place, and who was to be connected has a ring. */
  predicate Grounded(s: E.State, l: Ledger, c: E.Command) {
    match c
    case InstallWorkerRing(e, ring, direction, layout, _) =>
      && ring in l.home && l.home[ring] == e && e in s.records
      && s.records[e].direction == direction && s.records[e].layout == Some(layout)
    case EstablishSend(e, _, _) => HasRing(s.records, e)
    case EstablishRecv(e, _) => HasRing(s.records, e)
    case _ => true
  }

  ghost predicate NeedsMet(s: E.State, l: Ledger) {
    InstalledFirst(s.commands) && forall c :: c in s.commands ==> Grounded(s, l, c)
  }

  // ─── an event ──────────────────────────────────────────────────────────────

  lemma DueIsGrounded(s: E.State, l: Ledger, event: E.Event, c: E.Command)
    requires Accounted(s, l) && Lawful(s, l, event) && Due(s, event, c)
    ensures Grounded(E.Observe(s, event), Enter(s, l, event), c)
  {
    AccountedIsApart(s, l);
    match c
    case InstallWorkerRing(e, _, _, _, _) =>
      FoundByRequest(s, e);
      RecordsMove(s, event, e);
    case EstablishSend(e, _, _) => RecordsMove(s, event, e);
    case EstablishRecv(e, _) => RecordsMove(s, event, e);
    case _ =>
  }

  lemma GroundedStays(s: E.State, l: Ledger, event: E.Event, c: E.Command)
    requires Accounted(s, l) && Lawful(s, l, event) && Grounded(s, l, c) && Grows(s, E.Observe(s, event))
    ensures Grounded(E.Observe(s, event), Enter(s, l, event), c)
  {
  }

  // A ring that is brought has not been given back, and the event that brings it does not give it back either.
  lemma BroughtIsNotReleased(s: E.State, l: Ledger, event: E.Event, c: E.Command)
    requires Accounted(s, l) && Lawful(s, l, event) && Due(s, event, c) && c.InstallWorkerRing?
    ensures E.ReleaseArenaLease(c.ring) !in s.commands && !Due(s, event, E.ReleaseArenaLease(c.ring))
  {
    AccountedIsApart(s, l);
    assert ReleaseOk(s, l, c.ring);
  }

  lemma ObservedInstalledFirst(s: E.State, l: Ledger, event: E.Event)
    requires Accounted(s, l) && PeersOk(s) && Lawful(s, l, event) && InstalledFirst(s.commands)
    ensures InstalledFirst(E.Observe(s, event).commands)
  {
    var cs, cs' := s.commands, E.Observe(s, event).commands;
    AccountedIsApart(s, l);
    AddedIsDue(s, event, 0);
    forall i: nat, j: nat | i < j < |cs'| && cs'[j].InstallWorkerRing?
      ensures cs'[i] != E.ReleaseArenaLease(cs'[j].ring)
    {
      AddedIsDue(s, event, i);
      AddedIsDue(s, event, j);
      if j >= |cs| {
        BroughtIsNotReleased(s, l, event, cs'[j]);
        if i < |cs| { assert cs'[i] == cs[i]; }
      } else {
        assert cs'[i] == cs[i] && cs'[j] == cs[j];
      }
    }
  }

  lemma ObservedNeedsMet(s: E.State, l: Ledger, event: E.Event)
    requires Accounted(s, l) && Kept(s) && Lawful(s, l, event) && NeedsMet(s, l)
    requires Grows(s, E.Observe(s, event))
    ensures NeedsMet(E.Observe(s, event), Enter(s, l, event)) && Kept(E.Observe(s, event))
  {
    var cs, cs' := s.commands, E.Observe(s, event).commands;
    AccountedIsApart(s, l);
    NextKept(s, event);
    ObservedInstalledFirst(s, l, event);
    forall c | c in cs' ensures Grounded(E.Observe(s, event), Enter(s, l, event), c) {
      var i :| 0 <= i < |cs'| && cs'[i] == c;
      AddedIsDue(s, event, i);
      if i < |cs| {
        assert cs[i] == c;
        GroundedStays(s, l, event, c);
      } else {
        DueIsGrounded(s, l, event, c);
      }
    }
  }

  // ─── what is torn down was set up ──────────────────────────────────────────

  predicate ConnectAt(commands: seq<E.Command>, i: nat, e: nat) {
    i < |commands| && (commands[i].EstablishSend? || commands[i].EstablishRecv?) && commands[i].edge == e
  }

  predicate InstallAt(commands: seq<E.Command>, i: nat, e: nat, ring: nat) {
    i < |commands| && commands[i].InstallWorkerRing? && commands[i].edge == e && commands[i].ring == ring
  }

  /** The command undoes what an earlier one did: a pump started before, a ring installed before. */
  ghost predicate Undoes(commands: seq<E.Command>, j: nat)
    requires j < |commands|
  {
    match commands[j]
    case StopPump(e, _) => exists i: nat :: i < j && ConnectAt(commands, i, e)
    case UninstallWorkerRing(e, ring) => exists i: nat :: i < j && InstallAt(commands, i, e, ring)
    case _ => true
  }

  /** What an edge takes to be set up was asked for. */
  ghost predicate SetUp(s: E.State, e: nat)
    requires e in s.records
  {
    var r := s.records[e];
    && (r.driverEstablished ==> exists i: nat :: ConnectAt(s.commands, i, e))
    && (r.ring.Some? ==> exists i: nat :: InstallAt(s.commands, i, e, r.ring.value))
  }

  ghost predicate InGoodOrder(s: E.State) {
    && (forall j: nat :: j < |s.commands| ==> Undoes(s.commands, j))
    && (forall e :: e in s.records ==> SetUp(s, e))
  }

  lemma UndoesStays(cs: seq<E.Command>, cs': seq<E.Command>, j: nat)
    requires cs <= cs' && j < |cs| && Undoes(cs, j)
    ensures Undoes(cs', j)
  {
    assert cs'[j] == cs[j];
    match cs[j]
    case StopPump(e, _) =>
      var i: nat :| i < j && ConnectAt(cs, i, e);
      assert ConnectAt(cs', i, e);
    case UninstallWorkerRing(e, ring) =>
      var i: nat :| i < j && InstallAt(cs, i, e, ring);
      assert InstallAt(cs', i, e, ring);
    case _ =>
  }

  lemma AddedUndoes(s: E.State, event: E.Event, j: nat)
    requires Apart(s) && PeersOk(s) && InGoodOrder(s) && |s.commands| <= j < |E.Observe(s, event).commands|
    ensures Undoes(E.Observe(s, event).commands, j)
  {
    var cs, cs' := s.commands, E.Observe(s, event).commands;
    AddedIsDue(s, event, j);
    match cs'[j]
    case StopPump(e, _) =>
      assert SetUp(s, e);
      var i: nat :| ConnectAt(cs, i, e);
      assert ConnectAt(cs', i, e);
    case UninstallWorkerRing(e, ring) =>
      assert SetUp(s, e);
      var i: nat :| InstallAt(cs, i, e, ring);
      assert InstallAt(cs', i, e, ring);
    case _ =>
  }

  lemma ConnectStays(cs: seq<E.Command>, cs': seq<E.Command>, e: nat)
    requires cs <= cs' && exists i: nat :: ConnectAt(cs, i, e)
    ensures exists i: nat :: ConnectAt(cs', i, e)
  {
    var i: nat :| ConnectAt(cs, i, e);
    assert ConnectAt(cs', i, e);
  }

  lemma InstallStays(cs: seq<E.Command>, cs': seq<E.Command>, e: nat, ring: nat)
    requires cs <= cs' && exists i: nat :: InstallAt(cs, i, e, ring)
    ensures exists i: nat :: InstallAt(cs', i, e, ring)
  {
    var i: nat :| InstallAt(cs, i, e, ring);
    assert InstallAt(cs', i, e, ring);
  }

  // An edge is newly connected, or newly given a ring, only by the event that asks for it.
  lemma NewlySetUp(s: E.State, event: E.Event, e: nat)
    requires Apart(s) && e in s.records && !event.StoppedExternally?
    requires E.ProvisionedEdge(event).Some? ==> E.ProvisionedEdge(event).value !in s.records
    ensures var s' := E.Observe(s, event);
            && e in s'.records
            && (s'.records[e].driverEstablished ==> s.records[e].driverEstablished || GetsInstalled(s, event, e))
            && (s'.records[e].ring == s.records[e].ring || GetsRing(s, event, e))
            && (GetsRing(s, event, e) ==> s'.records[e].ring == Some(event.ring))
  {
    RecordsMove(s, event, e);
  }

  lemma ConnectIsAdded(s: E.State, event: E.Event, e: nat)
    requires Apart(s) && PeersOk(s) && GetsInstalled(s, event, e)
    ensures exists i: nat :: ConnectAt(E.Observe(s, event).commands, i, e)
  {
    var r, cs' := s.records[e], E.Observe(s, event).commands;
    var i := DueIsAdded(s, event, if r.direction.Egress? then E.EstablishSend(e, r.peer.value, r.layout.value)
                                  else E.EstablishRecv(e, r.layout.value));
    assert ConnectAt(cs', i, e);
  }

  lemma InstallIsAdded(s: E.State, event: E.Event, e: nat)
    requires Apart(s) && PeersOk(s) && GetsRing(s, event, e)
    ensures exists i: nat :: InstallAt(E.Observe(s, event).commands, i, e, event.ring)
  {
    var r, cs' := s.records[e], E.Observe(s, event).commands;
    var i := DueIsAdded(s, event, E.InstallWorkerRing(e, event.ring, r.direction, event.layout, r.spec));
    assert InstallAt(cs', i, e, event.ring);
  }

  lemma StaysSetUp(s: E.State, event: E.Event, e: nat)
    requires Apart(s) && PeersOk(s) && e in s.records && SetUp(s, e) && !event.StoppedExternally?
    requires E.ProvisionedEdge(event).Some? ==> E.ProvisionedEdge(event).value !in s.records
    ensures e in E.Observe(s, event).records && SetUp(E.Observe(s, event), e)
  {
    var s' := E.Observe(s, event);
    AddedIsDue(s, event, 0);
    NewlySetUp(s, event, e);
    if s.records[e].driverEstablished { ConnectStays(s.commands, s'.commands, e); }
    if GetsInstalled(s, event, e) { ConnectIsAdded(s, event, e); }
    if GetsRing(s, event, e) {
      InstallIsAdded(s, event, e);
    } else if s.records[e].ring.Some? {
      InstallStays(s.commands, s'.commands, e, s.records[e].ring.value);
    }
  }

  lemma ObservedInGoodOrder(s: E.State, event: E.Event)
    requires Apart(s) && PeersOk(s) && InGoodOrder(s) && !event.StoppedExternally?
    requires E.ProvisionedEdge(event).Some? ==> E.ProvisionedEdge(event).value !in s.records
    ensures InGoodOrder(E.Observe(s, event))
  {
    var s' := E.Observe(s, event);
    AddedIsDue(s, event, 0);
    forall j: nat | j < |s'.commands| ensures Undoes(s'.commands, j) {
      if j < |s.commands| { UndoesStays(s.commands, s'.commands, j); } else { AddedUndoes(s, event, j); }
    }
    forall e | e in s'.records ensures SetUp(s', e) {
      RecordsMove(s, event, e);
      if e in s.records { StaysSetUp(s, event, e); }
    }
  }

  lemma {:induction false} GoodOrderAt(node: nat, c: Course, k: nat)
    requires IsCourse(node, c) && k <= |c.events|
    ensures InGoodOrder(c.states[k])
    decreases k
  {
    if k > 0 {
      GoodOrderAt(node, c, k - 1);
      StepOf(node, c, k - 1);
      ObservedInGoodOrder(c.states[k - 1], c.events[k - 1]);
    }
  }

  /**
   Over every lawful run, a pump is asked to stop only after it was asked to start, and a ring to be uninstalled
   only after it was asked to be installed for that edge.
   */
  lemma TornDownAfterSetUp(node: nat, events: seq<E.Event>, j: nat)
    requires LawfulRun(E.New(node), Open(), events) && j < |E.Run(E.New(node), events).commands|
    ensures Undoes(E.Run(E.New(node), events).commands, j)
  {
    var c := LawfulRunIsCourse(node, events);
    GoodOrderAt(node, c, |events|);
  }

  // ─── whole runs ────────────────────────────────────────────────────────────

  ghost predicate WorldMeetsNeeds(w: World) {
    Kept(w.est) && NeedsMet(w.est, w.ledger)
  }

  lemma EventMeetsNeeds(w: World, event: E.Event)
    requires Inv(w) && WorldMeetsNeeds(w) && Lawful(w.est, w.ledger, event)
    ensures WorldMeetsNeeds(EdgeArena.Observed(w, event))
  {
    EdgeArena.ObservedKeepsBooks(w, event);
    ObservedNeedsMet(w.est, w.ledger, event);
  }

  lemma NextMeetsNeeds(w: World, step: Step)
    requires Inv(w) && WorldMeetsNeeds(w) && Enabled(w, step)
    ensures WorldMeetsNeeds(Next(w, step))
  {
    match step
    case Edge(event) => EventMeetsNeeds(w, event);
    case Deliver(answer) =>
      if Told(answer).Some? {
        if answer.RingLeased? { ArrivalIsLawful(w, answer.lease); }
        EventMeetsNeeds(w, Told(answer).value);
      }
    case _ =>
  }

  lemma {:induction false} RunMeetsNeeds(w: World, steps: seq<Step>)
    requires Inv(w) && WorldMeetsNeeds(w) && Runs(w, steps)
    requires w.arena.nextRingId + |w.arena.pending| + |steps| < U64_MAX
    ensures Inv(Run(w, steps)) && WorldMeetsNeeds(Run(w, steps))
    decreases |steps|
  {
    if steps != [] {
      NextKeepsInv(w, steps[0]);
      NextMeetsNeeds(w, steps[0]);
      RunMeetsNeeds(Next(w, steps[0]), steps[1..]);
    }
  }

  /** The lease a command installs is live at the very place it names, and the edge it connects has a ring. */
  predicate HasItsNeeds(w: World, c: E.Command) {
    match c
    case InstallWorkerRing(_, ring, _, layout, _) =>
      A.Lookup(w.arena, ring).Some? && A.Lookup(w.arena, ring).value.layout == layout
    case EstablishSend(e, _, _) => HasRing(w.est.records, e)
    case EstablishRecv(e, _) => HasRing(w.est.records, e)
    case _ => true
  }

  lemma NextHasItsNeeds(w: World)
    requires Inv(w) && WorldMeetsNeeds(w) && w.cursor < |w.est.commands|
    ensures HasItsNeeds(w, w.est.commands[w.cursor])
  {
    var c := w.est.commands[w.cursor];
    assert c in w.est.commands && Grounded(w.est, w.ledger, c);
    if c.InstallWorkerRing? {
      assert RingOk(w, c.ring) && w.ledger.Leased(c.ring);
      forall i: nat | i < w.cursor ensures w.est.commands[..w.cursor][i] != E.ReleaseArenaLease(c.ring) {
        assert w.est.commands[..w.cursor][i] == w.est.commands[i];
      }
      assert !ReleaseRun(w, c.ring);
    }
  }

  /** Whether what a command needs of the arena and of the records is there. */
  predicate LeaseThere(w: World, c: E.Command) {
    c.InstallWorkerRing? && A.Lookup(w.arena, c.ring).Some?
  }

  predicate RingThere(w: World, c: E.Command) {
    (c.EstablishSend? || c.EstablishRecv?) && HasRing(w.est.records, c.edge)
  }

  /**
   In every run of establisher and arena, whatever the pace and order: when its turn comes, a command to install a
   ring finds the lease live and at the place it names, and a command to connect an edge finds the edge's ring. So
   it fails exactly if it is to send and there is no outbound edge, or is for the worker or the transport and these
   do not do their part.
   */
  lemma CommandsFindTheirNeeds(config: Config, node: nat, steps: seq<Step>, works: bool, outgoing: bool)
    requires config.ceiling > 0 && |steps| < U64_MAX - 1 && Runs(Init(config, node), steps)
    requires var w := Run(Init(config, node), steps); w.cursor < |w.est.commands|
    ensures var w := Run(Init(config, node), steps);
            var c := w.est.commands[w.cursor];
            && HasItsNeeds(w, c)
            && (Failure(c, works, LeaseThere(w, c), RingThere(w, c), outgoing).Some? <==>
                  || (c.EstablishSend? && (!outgoing || !works))
                  || (!works && (c.InstallWorkerRing? || c.UninstallWorkerRing?)))
  {
    InitInv(config, node);
    assert InstalledFirst(E.New(node).commands);
    RunMeetsNeeds(Init(config, node), steps);
    NextHasItsNeeds(Run(Init(config, node), steps));
  }
}
