/** What an observation may add to the establisher, and what it may never take away. */
module EdgeGrowth {
  import opened EdgeLifecycle
  import opened Options
  import opened Placement

  /** A record keeps its direction, and its ring and layout once it has them; commands and request ids only grow. */
  ghost predicate Grows(s: State, s': State) {
    && s.commands <= s'.commands && s.nextRequest <= s'.nextRequest
    && (forall e :: e in s.records ==> e in s'.records && s'.records[e].direction == s.records[e].direction)
    && (forall e :: e in s.records && s.records[e].ring.Some? ==>
          e in s'.records && s'.records[e].ring == s.records[e].ring && s'.records[e].layout == s.records[e].layout)
    && (forall c :: c in s'.commands && c.LeaseRing? ==> c in s.commands || s.nextRequest <= c.request < s'.nextRequest)
  }

  lemma GrowsOn(a: State, b: State, c: State)
    requires Grows(a, b) && Grows(b, c)
    ensures Grows(a, c)
  {
  }

  lemma IssueGrows(s: State, c: Command)
    requires !c.LeaseRing?
    ensures Grows(s, Issue(s, c))
  {
  }

  lemma UpdateGrows(s: State, edge: nat, r: Record)
    requires edge in s.records && r.ring == s.records[edge].ring && r.layout == s.records[edge].layout
    requires r.direction == s.records[edge].direction
    ensures Grows(s, SetRecord(s, edge, r))
  {
  }

  lemma MarkGrows(s: State, edge: nat)
    ensures Grows(s, MarkStoppedWithEvent(s, edge))
  {
  }

  lemma StoppingGrows(s: State, edge: nat)
    ensures Grows(s, StartStopping(s, edge))
  {
    if edge in s.records && !s.records[edge].state.Stopping? && !s.records[edge].state.Stopped? {
      var r := s.records[edge];
      var s0 := SetRecord(s, edge, r.(state := Stopping));
      UpdateGrows(s, edge, r.(state := Stopping));
      var s1 := Issue(s0, CancelQueuedLease(r.request, edge));
      IssueGrows(s0, CancelQueuedLease(r.request, edge));
      GrowsOn(s, s0, s1);
      if r.ring.None? {
        MarkGrows(s1, edge);
        GrowsOn(s, s1, StartStopping(s, edge));
      } else {
        StoppingLeasedGrows(s, s1, edge, r);
      }
    }
  }

  lemma StoppingLeasedGrows(s: State, s1: State, edge: nat, r: Record)
    requires Grows(s, s1) && r.ring.Some?
    ensures var s2 := if r.driverEstablished then Issue(s1, StopPump(edge, r.ring.value)) else s1;
            var s3 := if CleanupRequired(r) then Issue(s2, UninstallWorkerRing(edge, r.ring.value)) else s2;
            Grows(s, s3) && Grows(s, ReleaseRing(s3, edge, r.ring.value))
  {
    var s2 := if r.driverEstablished then Issue(s1, StopPump(edge, r.ring.value)) else s1;
    var s3 := if CleanupRequired(r) then Issue(s2, UninstallWorkerRing(edge, r.ring.value)) else s2;
    var s4 := Issue(s3, ReleaseArenaLease(r.ring.value));
    IssueGrows(s1, StopPump(edge, r.ring.value));
    GrowsOn(s, s1, s2);
    IssueGrows(s2, UninstallWorkerRing(edge, r.ring.value));
    GrowsOn(s, s2, s3);
    IssueGrows(s3, ReleaseArenaLease(r.ring.value));
    GrowsOn(s, s3, s4);
    MarkGrows(s4, edge);
    GrowsOn(s, s4, ReleaseRing(s3, edge, r.ring.value));
  }

  lemma ProofsGrow(s: State, edge: nat, r: Record, ring: nat)
    requires edge in s.records && r.ring == s.records[edge].ring && r.layout == s.records[edge].layout
    requires r.direction == s.records[edge].direction
    ensures Grows(s, ReleaseAfterProofs(SetRecord(s, edge, r), edge, ring))
  {
    var s1 := SetRecord(s, edge, r);
    var s2 := Issue(s1, ReleaseArenaLease(ring));
    UpdateGrows(s, edge, r);
    IssueGrows(s1, ReleaseArenaLease(ring));
    GrowsOn(s, s1, s2);
    MarkGrows(s2, edge);
    GrowsOn(s, s2, ReleaseRing(s1, edge, ring));
  }

  lemma ProvisionGrows(s: State, edge: nat, node: nat, direction: Direction, peer: Option<nat>, spec: RingSpec)
    requires edge !in s.records
    ensures Grows(s, Provision(s, edge, node, direction, peer, spec))
  {
  }

  lemma LeaseGrows(s: State, edge: nat, ring: nat, layout: Layout)
    requires edge in s.records && Placed(s.records[edge])
    ensures Grows(s, LeaseTo(s, edge, ring, layout))
  {
  }

  lemma InstallGrows(s: State, edge: nat, ring: nat)
    ensures Grows(s, OnRingInstalled(s, edge, ring))
  {
    if edge in s.records {
      var r := s.records[edge];
      var r' := r.(workerInstalled := true, driverEstablished := true, state := WaitingForDriver);
      UpdateGrows(s, edge, r');
    }
  }

  lemma ObserveGrows(s: State, event: Event)
    requires AllPlaced(s)
    requires ProvisionedEdge(event).Some? ==> ProvisionedEdge(event).value !in s.records
    ensures Grows(s, Observe(s, event))
  {
    match event
    case ProvisionTx(edge, node, consumer, spec) => ProvisionGrows(s, edge, node, Egress, Some(consumer), spec);
    case ProvisionRx(edge, node, spec) => ProvisionGrows(s, edge, node, Ingress, None, spec);
    case RingLeased(request, ring, layout) =>
      var found := EdgeForRequest(s, request);
      if found.Some? { LeaseGrows(s, found.value, ring, layout); }
    case RingInstalled(edge, ring) => InstallGrows(s, edge, ring);
    case RingLeaseRejected(request, reason) => RejectGrows(s, request, reason);
    case DriverEdgeReady(edge) => ReadyGrows(s, edge);
    case StreamFault(edge, reason) => FaultGrows(s, edge, StreamFailed(reason));
    case RingFault(edge, _, reason) => FaultGrows(s, edge, RingFailed(reason));
    case StopEdge(edge) => StoppingGrows(s, edge);
    case PumpStopped(edge, ring) => PumpGrows(s, edge, ring);
    case RingQuiesced(ring) => TeardownGrows(s, ring);
    case QuiescenceProven(ring) => TeardownGrows(s, ring);
    case StoppedExternally(edge) =>
      if edge in s.records { UpdateGrows(s, edge, s.records[edge].(state := Stopped)); }
  }

  lemma RejectGrows(s: State, request: nat, reason: LeaseRejection)
    ensures Grows(s, OnLeaseRejected(s, request, reason))
  {
    var found := EdgeForWaitingRequest(s, request);
    if found.Some? { UpdateGrows(s, found.value, s.records[found.value].(state := Failed)); }
  }

  lemma ReadyGrows(s: State, edge: nat)
    ensures Grows(s, OnDriverReady(s, edge))
  {
    if edge in s.records { UpdateGrows(s, edge, s.records[edge].(state := Ready)); }
  }

  lemma FaultGrows(s: State, edge: nat, reason: FaultReason)
    ensures Grows(s, FaultEdge(s, edge, reason))
  {
    StoppingGrows(Notify(s, EdgeFaulted(edge, reason)), edge);
  }

  lemma PumpGrows(s: State, edge: nat, ring: nat)
    ensures Grows(s, OnPumpStopped(s, edge, ring))
  {
    if edge in s.records { ProofsGrow(s, edge, s.records[edge].(pumpStopped := true), ring); }
  }

  lemma TeardownGrows(s: State, ring: nat)
    requires AllPlaced(s)
    ensures Grows(s, OnRingQuiesced(s, ring)) && Grows(s, OnQuiescenceProven(s, ring))
  {
    var found := EdgeForRing(s, ring);
    if found.Some? {
      ProofsGrow(s, found.value, s.records[found.value].(workerRingQuiesced := true), ring);
      ProofsGrow(s, found.value, s.records[found.value].(quiescenceProven := true), ring);
    }
  }

  lemma StoppingAnnounces(s: State, edge: nat)
    ensures s.events <= StartStopping(s, edge).events
  {
  }

  lemma ObserveAnnounces(s: State, event: Event)
    ensures s.events <= Observe(s, event).events
  {
    match event
    case StreamFault(edge, reason) => StoppingAnnounces(Notify(s, EdgeFaulted(edge, StreamFailed(reason))), edge);
    case RingFault(edge, _, reason) => StoppingAnnounces(Notify(s, EdgeFaulted(edge, RingFailed(reason))), edge);
    case StopEdge(edge) => StoppingAnnounces(s, edge);
    case _ =>
  }

  // ─── a record with a ring no longer waits for one ──────────────────────────

  predicate Placed(r: Record) {
    r.ring.Some? ==> !r.state.WaitingForLease?
  }

  ghost predicate AllPlaced(s: State) {
    forall e :: e in s.records ==> Placed(s.records[e])
  }

  lemma StoppingKeepsPlaced(s: State, edge: nat)
    requires AllPlaced(s)
    ensures AllPlaced(StartStopping(s, edge))
  {
  }

  lemma ObserveKeepsPlaced(s: State, event: Event)
    requires AllPlaced(s)
    ensures AllPlaced(Observe(s, event))
  {
    match event
    case StreamFault(edge, reason) => StoppingKeepsPlaced(Notify(s, EdgeFaulted(edge, StreamFailed(reason))), edge);
    case RingFault(edge, _, reason) => StoppingKeepsPlaced(Notify(s, EdgeFaulted(edge, RingFailed(reason))), edge);
    case StopEdge(edge) => StoppingKeepsPlaced(s, edge);
    case _ =>
  }

  // ─── how much work an observation can cause ────────────────────────────────

  /** More than everything that executing a command can still bring about. */
  function Weight(c: Command): (n: nat) {
    match c
    case LeaseRing(_, _, _, _) => 4
    case InstallWorkerRing(_, _, _, _, _) => 3
    case StopPump(_, _) => 3
    case UninstallWorkerRing(_, _) => 3
    case EstablishSend(_, _, _) => 2
    case EstablishRecv(_, _) => 2
    case CancelQueuedLease(_, _) => 1
    case ReleaseArenaLease(_) => 1
  }

  /** The weight of the first `n` commands. */
  function WeightTo(commands: seq<Command>, n: nat): (w: nat)
    requires n <= |commands|
  {
    if n == 0 then 0 else WeightTo(commands, n - 1) + Weight(commands[n - 1])
  }

  function TotalWeight(commands: seq<Command>): (w: nat) {
    WeightTo(commands, |commands|)
  }

  lemma {:induction false} WeightIsLocal(commands: seq<Command>, commands': seq<Command>, n: nat)
    requires commands <= commands' && n <= |commands|
    ensures WeightTo(commands', n) == WeightTo(commands, n)
    decreases n
  {
    if n > 0 { WeightIsLocal(commands, commands', n - 1); }
  }

  lemma WeightOfOneMore(commands: seq<Command>, c: Command)
    ensures TotalWeight(commands + [c]) == TotalWeight(commands) + Weight(c)
  {
    WeightIsLocal(commands, commands + [c], |commands|);
  }

  lemma {:induction false} WeightGrows(commands: seq<Command>, n: nat, m: nat)
    requires n <= m <= |commands|
    ensures WeightTo(commands, n) <= WeightTo(commands, m)
    decreases m
  {
    if n < m { WeightGrows(commands, n, m - 1); }
  }

  /** All work ever asked for: commands by weight, and announcements. */
  function Load(s: State): (n: nat) {
    TotalWeight(s.commands) + |s.events|
  }

  /** What one event can add to the load, for the events that answer a command. */
  function Cost(event: Event): (n: nat) {
    match event
    case RingLeased(_, _, _) => 3
    case RingInstalled(_, _) => 2
    case PumpStopped(_, _) => 2
    case RingQuiesced(_) => 2
    case RingLeaseRejected(_, _) => 1
    case DriverEdgeReady(_) => 1
    case _ => 8
  }

  lemma ProofsCost(s: State, edge: nat, ring: nat)
    ensures Load(ReleaseAfterProofs(s, edge, ring)) <= Load(s) + 2
  {
    WeightOfOneMore(s.commands, ReleaseArenaLease(ring));
  }

  lemma LeaseCost(s: State, edge: nat, ring: nat, layout: Layout)
    requires edge in s.records
    ensures Load(LeaseTo(s, edge, ring, layout)) <= Load(s) + 3
  {
    WeightOfOneMore(s.commands, ReleaseArenaLease(ring));
    WeightOfOneMore(s.commands, InstallWorkerRing(edge, ring, s.records[edge].direction, layout, s.records[edge].spec));
  }

  lemma InstallCost(s: State, edge: nat, ring: nat)
    ensures Load(OnRingInstalled(s, edge, ring)) <= Load(s) + 2
  {
    if edge in s.records && s.records[edge].layout.Some? {
      var r := s.records[edge];
      WeightOfOneMore(s.commands, EstablishRecv(edge, r.layout.value));
      if r.peer.Some? { WeightOfOneMore(s.commands, EstablishSend(edge, r.peer.value, r.layout.value)); }
    }
  }

  /** An event that answers a command adds less to the load than the command weighed. */
  lemma ObserveCost(s: State, event: Event)
    requires Cost(event) < 8
    ensures Load(Observe(s, event)) <= Load(s) + Cost(event)
  {
    match event
    case RingLeased(request, ring, layout) =>
      var found := EdgeForRequest(s, request);
      if found.Some? { LeaseCost(s, found.value, ring, layout); }
    case RingInstalled(edge, ring) => InstallCost(s, edge, ring);
    case PumpStopped(edge, ring) =>
      if edge in s.records { ProofsCost(SetRecord(s, edge, s.records[edge].(pumpStopped := true)), edge, ring); }
    case RingQuiesced(ring) =>
      var found := EdgeForRing(s, ring);
      if found.Some? {
        ProofsCost(SetRecord(s, found.value, s.records[found.value].(workerRingQuiesced := true)), found.value, ring);
      }
    case _ =>
  }
}
