/**
 What the establisher does, event by event: which commands it issues and what it announces, and for which edge,
 read off the event and the edge's record; and what that comes to over whole runs.
 */
module EdgeLaws {
  import opened EdgeLifecycle
  import opened EdgeRings
  import opened Options
  import opened Placement

  /** No two edges share a request or a ring. */
  ghost predicate Apart(s: State) {
    && (forall d, e :: d in s.records && e in s.records && s.records[d].request == s.records[e].request ==> d == e)
    && (forall d, e :: d in s.records && e in s.records && s.records[d].ring.Some? ==>
          s.records[d].ring == s.records[e].ring ==> d == e)
  }

  lemma AccountedIsApart(s: State, l: Ledger)
    requires Accounted(s, l)
    ensures Apart(s)
  {
  }

  // Each lookup finds the one edge there is.
  lemma FoundByRequest(s: State, e: nat)
    requires Apart(s) && e in s.records
    ensures EdgeForRequest(s, s.records[e].request) == Some(e)
    ensures s.records[e].state.WaitingForLease? ==> EdgeForWaitingRequest(s, s.records[e].request) == Some(e)
  {
    if s.records[e].state.WaitingForLease? {
      assert e in set d | d in s.records && s.records[d].state.WaitingForLease?
                          && s.records[d].request == s.records[e].request;
    }
  }

  lemma FoundByRing(s: State, e: nat)
    requires Apart(s) && e in s.records && s.records[e].ring.Some?
    ensures EdgeForRing(s, s.records[e].ring.value) == Some(e)
  {
  }

  // ─── what an event means for an edge ───────────────────────────────────────

  predicate Live(r: Record) {
    !r.state.Stopping? && !r.state.Stopped? && !r.state.Failed?
  }

  /** The event brings the edge the ring it waits for. */
  predicate GetsRing(s: State, event: Event, e: nat) {
    && e in s.records && s.records[e].state.WaitingForLease?
    && event.RingLeased? && event.request == s.records[e].request
  }

  /** The event brings a ring for an edge that no longer waits for one. */
  predicate ComesTooLate(s: State, event: Event, e: nat) {
    && e in s.records && !s.records[e].state.WaitingForLease?
    && event.RingLeased? && event.request == s.records[e].request
  }

  predicate LosesLease(s: State, event: Event, e: nat) {
    && e in s.records && s.records[e].state.WaitingForLease?
    && event.RingLeaseRejected? && event.request == s.records[e].request
  }

  /** The ring the edge waits to have installed was installed. */
  predicate GetsInstalled(s: State, event: Event, e: nat) {
    && e in s.records && s.records[e].state.WaitingForWorkerRing? && s.records[e].layout.Some?
    && event.RingInstalled? && event.edge == e && s.records[e].ring == Some(event.ring)
  }

  predicate GetsReady(s: State, event: Event, e: nat) {
    e in s.records && s.records[e].state.WaitingForDriver? && event == DriverEdgeReady(e)
  }

  /** The event tells of a failure of an edge that is still of use. */
  predicate Faults(s: State, event: Event, e: nat, reason: FaultReason) {
    && e in s.records && Live(s.records[e])
    && match event
       case StreamFault(edge, why) => edge == e && reason == StreamFailed(why)
       case RingFault(edge, ring, why) => edge == e && s.records[e].ring == Some(ring) && reason == RingFailed(why)
       case _ => false
  }

  ghost predicate StopBegins(s: State, event: Event, e: nat) {
    && e in s.records && !s.records[e].state.Stopping? && !s.records[e].state.Stopped?
    && (event == StopEdge(e) || exists reason :: Faults(s, event, e, reason))
  }

  /** The event is a proof about the ring of an edge that is stopping. */
  predicate Proves(s: State, event: Event, e: nat, ring: nat) {
    && e in s.records && s.records[e].state.Stopping? && s.records[e].ring == Some(ring)
    && (event == PumpStopped(e, ring) || event == RingQuiesced(ring) || event == QuiescenceProven(ring))
  }

  /** With this proof, every proof the edge needs has been observed. */
  predicate CompletesProofs(s: State, event: Event, e: nat, ring: nat) {
    && Proves(s, event, e, ring)
    && (s.records[e].driverEstablished ==> s.records[e].pumpStopped || event.PumpStopped?)
    && (CleanupRequired(s.records[e]) ==> s.records[e].workerRingQuiesced || event.RingQuiesced?)
    && (s.records[e].quiescenceProven || event.QuiescenceProven?)
  }

  /** The command is what this event calls for. */
  ghost predicate Due(s: State, event: Event, c: Command) {
    match c
    case LeaseRing(q, e, direction, spec) =>
      && q == s.nextRequest
      && (if direction.Egress? then event.ProvisionTx? && event.edge == e && event.node == s.node && event.spec == spec
          else event == ProvisionRx(e, s.node, spec))
    case InstallWorkerRing(e, ring, direction, layout, spec) =>
      && GetsRing(s, event, e) && event.ring == ring && event.layout == layout
      && direction == s.records[e].direction && spec == s.records[e].spec
    case EstablishSend(e, consumer, layout) =>
      && GetsInstalled(s, event, e) && s.records[e].direction.Egress? && s.records[e].peer == Some(consumer)
      && s.records[e].layout == Some(layout)
    case EstablishRecv(e, layout) =>
      GetsInstalled(s, event, e) && s.records[e].direction.Ingress? && s.records[e].layout == Some(layout)
    case CancelQueuedLease(q, e) => StopBegins(s, event, e) && q == s.records[e].request
    case StopPump(e, ring) =>
      StopBegins(s, event, e) && s.records[e].ring == Some(ring) && s.records[e].driverEstablished
    case UninstallWorkerRing(e, ring) =>
      StopBegins(s, event, e) && s.records[e].ring == Some(ring) && CleanupRequired(s.records[e])
    case ReleaseArenaLease(ring) =>
      || (exists e :: ComesTooLate(s, event, e) && event.ring == ring)
      || (exists e :: StopBegins(s, event, e) && s.records[e].ring == Some(ring) && NoProofDue(s.records[e]))
      || (exists e :: CompletesProofs(s, event, e, ring))
  }

  /** The announcement is what this event calls for. */
  ghost predicate Worth(s: State, event: Event, n: Notice) {
    match n
    case EdgeReady(e, actor) => GetsReady(s, event, e) && actor == s.records[e].actor
    case EdgeFaulted(e, reason) =>
      (LosesLease(s, event, e) && reason == LeaseRejected(event.reason)) || Faults(s, event, e, reason)
    case EdgeStopped(e) =>
      || (StopBegins(s, event, e) && NoProofDue(s.records[e]))
      || (exists ring :: CompletesProofs(s, event, e, ring))
  }

  function Count<T(==)>(before: seq<T>, after: seq<T>, x: T): (n: nat)
    requires before <= after
  {
    multiset(after[|before|..])[x]
  }

  ghost predicate IssuesDue(s: State, event: Event, s': State) {
    s.commands <= s'.commands && forall c :: Count(s.commands, s'.commands, c) == if Due(s, event, c) then 1 else 0
  }

  ghost predicate SaysWorth(s: State, event: Event, s': State) {
    s.events <= s'.events && forall n :: Count(s.events, s'.events, n) == if Worth(s, event, n) then 1 else 0
  }

  // ─── how to show it ────────────────────────────────────────────────────────

  lemma IssuesNone(s: State, event: Event, s': State)
    requires s'.commands == s.commands && forall c :: !Due(s, event, c)
    ensures IssuesDue(s, event, s')
  {
  }

  lemma IssuesOne(s: State, event: Event, s': State, c0: Command)
    requires s'.commands == s.commands + [c0] && forall c :: Due(s, event, c) <==> c == c0
    ensures IssuesDue(s, event, s')
  {
    assert s'.commands[|s.commands|..] == [c0];
  }

  lemma SaysNone(s: State, event: Event, s': State)
    requires s'.events == s.events && forall n :: !Worth(s, event, n)
    ensures SaysWorth(s, event, s')
  {
  }

  lemma SaysOne(s: State, event: Event, s': State, n0: Notice)
    requires s'.events == s.events + [n0] && forall n :: Worth(s, event, n) <==> n == n0
    ensures SaysWorth(s, event, s')
  {
    assert s'.events[|s.events|..] == [n0];
  }

  // ─── event by event ────────────────────────────────────────────────────────

  lemma ProvisionLaw(s: State, event: Event)
    requires event.ProvisionTx? || event.ProvisionRx?
    ensures IssuesDue(s, event, Observe(s, event)) && SaysWorth(s, event, Observe(s, event))
  {
    var s' := Observe(s, event);
    if event.node == s.node {
      IssuesOne(s, event, s', LeaseRing(s.nextRequest, event.edge, if event.ProvisionTx? then Egress else Ingress,
                                        event.spec));
    } else {
      IssuesNone(s, event, s');
    }
    SaysNone(s, event, s');
  }

  lemma LeaseDue(s: State, event: Event, e: nat)
    requires Apart(s) && event.RingLeased? && e in s.records && s.records[e].request == event.request
    ensures var r := s.records[e];
            var due := if r.state.WaitingForLease?
                       then InstallWorkerRing(e, event.ring, r.direction, event.layout, r.spec)
                       else ReleaseArenaLease(event.ring);
            forall c :: Due(s, event, c) <==> c == due
  {
    assert forall d :: ComesTooLate(s, event, d) || GetsRing(s, event, d) ==> d == e;
    if !s.records[e].state.WaitingForLease? { assert ComesTooLate(s, event, e); }
  }

  lemma LeaseLaw(s: State, event: Event)
    requires Apart(s) && event.RingLeased?
    ensures IssuesDue(s, event, Observe(s, event)) && SaysWorth(s, event, Observe(s, event))
  {
    var s', found := Observe(s, event), EdgeForRequest(s, event.request);
    SaysNone(s, event, s');
    if found.None? {
      IssuesNone(s, event, s');
    } else {
      var e := found.value;
      var r := s.records[e];
      LeaseDue(s, event, e);
      IssuesOne(s, event, s', if r.state.WaitingForLease?
                              then InstallWorkerRing(e, event.ring, r.direction, event.layout, r.spec)
                              else ReleaseArenaLease(event.ring));
    }
  }

  lemma RejectLaw(s: State, event: Event)
    requires Apart(s) && event.RingLeaseRejected?
    ensures IssuesDue(s, event, Observe(s, event)) && SaysWorth(s, event, Observe(s, event))
  {
    var s', found := Observe(s, event), EdgeForWaitingRequest(s, event.request);
    IssuesNone(s, event, s');
    forall e: nat | LosesLease(s, event, e) ensures found == Some(e) { FoundByRequest(s, e); }
    if found.None? {
      SaysNone(s, event, s');
    } else {
      assert LosesLease(s, event, found.value);
      SaysOne(s, event, s', EdgeFaulted(found.value, LeaseRejected(event.reason)));
    }
  }

  lemma InstallLaw(s: State, event: Event)
    requires event.RingInstalled? && PeersOk(s)
    ensures IssuesDue(s, event, Observe(s, event)) && SaysWorth(s, event, Observe(s, event))
  {
    var s', e := Observe(s, event), event.edge;
    SaysNone(s, event, s');
    if GetsInstalled(s, event, e) {
      var r := s.records[e];
      IssuesOne(s, event, s', if r.direction.Egress? then EstablishSend(e, r.peer.value, r.layout.value)
                              else EstablishRecv(e, r.layout.value));
    } else {
      IssuesNone(s, event, s');
    }
  }

  lemma ReadyLaw(s: State, event: Event)
    requires event.DriverEdgeReady? || event.StoppedExternally?
    ensures IssuesDue(s, event, Observe(s, event)) && SaysWorth(s, event, Observe(s, event))
  {
    var s', e := Observe(s, event), event.edge;
    IssuesNone(s, event, s');
    if GetsReady(s, event, e) {
      SaysOne(s, event, s', EdgeReady(e, s.records[e].actor));
    } else {
      SaysNone(s, event, s');
    }
  }

  // ─── stopping ──────────────────────────────────────────────────────────────

  /** What the teardown of this record asks for. */
  predicate AskedFor(r: Record, e: nat, c: Command) {
    match c
    case CancelQueuedLease(q, d) => q == r.request && d == e
    case StopPump(d, ring) => d == e && r.ring == Some(ring) && r.driverEstablished
    case UninstallWorkerRing(d, ring) => d == e && r.ring == Some(ring) && CleanupRequired(r)
    case ReleaseArenaLease(ring) => r.ring == Some(ring) && NoProofDue(r)
    case _ => false
  }

  lemma TeardownCounts(r: Record, e: nat, c: Command)
    ensures multiset(TeardownOf(r, e))[c] == if AskedFor(r, e, c) then 1 else 0
  {
    var a := [CancelQueuedLease(r.request, e)];
    var b := if r.ring.Some? && r.driverEstablished then [StopPump(e, r.ring.value)] else [];
    var d := if r.ring.Some? && CleanupRequired(r) then [UninstallWorkerRing(e, r.ring.value)] else [];
    var f := if r.ring.Some? && NoProofDue(r) then [ReleaseArenaLease(r.ring.value)] else [];
    assert TeardownOf(r, e) == a + b + d + f;
    assert multiset(a + b + d + f) == multiset(a) + multiset(b) + multiset(d) + multiset(f);
  }

  lemma StopDue(s: State, event: Event, e: nat, c: Command)
    requires event.StopEdge? || event.StreamFault? || event.RingFault?
    requires event.edge == e && StopBegins(s, event, e)
    ensures Due(s, event, c) <==> AskedFor(s.records[e], e, c)
  {
    assert forall d :: StopBegins(s, event, d) ==> d == e;
  }

  lemma StopIssuesDue(s: State, s0: State, event: Event, e: nat)
    requires event.StopEdge? || event.StreamFault? || event.RingFault?
    requires event.edge == e && StopBegins(s, event, e) && s0 == s.(events := s0.events)
    ensures IssuesDue(s, event, StartStopping(s0, e))
  {
    var s', r := StartStopping(s0, e), s.records[e];
    StopIssues(s0, e);
    assert (s.commands + TeardownOf(r, e))[|s.commands|..] == TeardownOf(r, e);
    forall c ensures Count(s.commands, s'.commands, c) == if Due(s, event, c) then 1 else 0 {
      TeardownCounts(r, e, c);
      StopDue(s, event, e, c);
    }
  }

  lemma NoStop(s: State, event: Event)
    requires event.StopEdge? || event.StreamFault? || event.RingFault?
    requires !StopBegins(s, event, event.edge)
    ensures IssuesDue(s, event, s) && SaysWorth(s, event, s)
  {
    forall e: nat ensures !StopBegins(s, event, e) {
      if e != event.edge { assert !exists reason :: Faults(s, event, e, reason); }
    }
    forall e: nat, reason: FaultReason ensures Faults(s, event, e, reason) ==> StopBegins(s, event, e) {}
    IssuesNone(s, event, s);
    SaysNone(s, event, s);
  }

  lemma StopLaw(s: State, event: Event)
    requires event.StopEdge?
    ensures IssuesDue(s, event, Observe(s, event)) && SaysWorth(s, event, Observe(s, event))
  {
    var s', e := Observe(s, event), event.edge;
    if StopBegins(s, event, e) {
      StopIssuesDue(s, s, event, e);
      StopRecords(s, e);
      if NoProofDue(s.records[e]) { SaysOne(s, event, s', EdgeStopped(e)); } else { SaysNone(s, event, s'); }
    } else {
      NoStop(s, event);
    }
  }

  /** The reason the event gives for a fault. */
  function ReasonOf(event: Event): (reason: FaultReason)
    requires event.StreamFault? || event.RingFault?
  {
    if event.StreamFault? then StreamFailed(event.streamReason) else RingFailed(event.ringReason)
  }

  lemma FaultSays(s: State, event: Event, e: nat, s': State)
    requires (event.StreamFault? || event.RingFault?) && event.edge == e && Faults(s, event, e, ReasonOf(event))
    requires s'.events == s.events + [EdgeFaulted(e, ReasonOf(event))]
                          + (if NoProofDue(s.records[e]) then [EdgeStopped(e)] else [])
    ensures SaysWorth(s, event, s')
  {
    var said := [EdgeFaulted(e, ReasonOf(event))] + (if NoProofDue(s.records[e]) then [EdgeStopped(e)] else []);
    assert s'.events == s.events + said;
    assert s'.events[|s.events|..] == said;
    assert StopBegins(s, event, e);
    assert multiset(said) == multiset{EdgeFaulted(e, ReasonOf(event))}
                            + if NoProofDue(s.records[e]) then multiset{EdgeStopped(e)} else multiset{};
    forall n ensures multiset(said)[n] == if Worth(s, event, n) then 1 else 0 {
      assert forall d :: StopBegins(s, event, d) ==> d == e;
    }
  }

  lemma FaultLaw(s: State, event: Event)
    requires event.StreamFault? || event.RingFault?
    ensures IssuesDue(s, event, Observe(s, event)) && SaysWorth(s, event, Observe(s, event))
  {
    var s', e, reason := Observe(s, event), event.edge, ReasonOf(event);
    if Faults(s, event, e, reason) {
      assert StopBegins(s, event, e);
      var s0 := Notify(s, EdgeFaulted(e, reason));
      StopIssuesDue(s, s0, event, e);
      StopRecords(s0, e);
      FaultSays(s, event, e, s');
    } else {
      assert !exists why :: Faults(s, event, e, why);
      NoStop(s, event);
    }
  }

  // ─── proofs ────────────────────────────────────────────────────────────────

  function WithProof(r: Record, event: Event): (r': Record) {
    match event
    case PumpStopped(_, _) => r.(pumpStopped := true)
    case RingQuiesced(_) => r.(workerRingQuiesced := true)
    case QuiescenceProven(_) => r.(quiescenceProven := true)
    case _ => r
  }

  lemma OneProven(s: State, event: Event, e: nat, ring: nat, d: nat, k: nat)
    requires Apart(s) && Proves(s, event, e, ring) && Proves(s, event, d, k)
    ensures d == e && k == ring
  {
  }

  lemma ProofDue(s: State, event: Event, e: nat, ring: nat)
    requires Apart(s) && Proves(s, event, e, ring)
    ensures forall c :: Due(s, event, c) <==> c == ReleaseArenaLease(ring) && CompletesProofs(s, event, e, ring)
    ensures forall n :: Worth(s, event, n) <==> n == EdgeStopped(e) && CompletesProofs(s, event, e, ring)
  {
    forall d: nat, k: nat ensures CompletesProofs(s, event, d, k) ==> d == e && k == ring {
      if Proves(s, event, d, k) { OneProven(s, event, e, ring, d, k); }
    }
  }

  // With the last proof the ring is given back and the edge has stopped.
  lemma ProofReleases(s: State, event: Event, e: nat, ring: nat)
    requires Proves(s, event, e, ring)
    ensures var s' := ReleaseAfterProofs(SetRecord(s, e, WithProof(s.records[e], event)), e, ring);
            if CompletesProofs(s, event, e, ring) then
              s'.commands == s.commands + [ReleaseArenaLease(ring)] && s'.events == s.events + [EdgeStopped(e)]
            else s'.commands == s.commands && s'.events == s.events
  {
  }

  lemma ProofSettles(s: State, event: Event, e: nat, ring: nat)
    requires Apart(s) && Proves(s, event, e, ring)
    requires Observe(s, event) == ReleaseAfterProofs(SetRecord(s, e, WithProof(s.records[e], event)), e, ring)
    ensures IssuesDue(s, event, Observe(s, event)) && SaysWorth(s, event, Observe(s, event))
  {
    var s' := ReleaseAfterProofs(SetRecord(s, e, WithProof(s.records[e], event)), e, ring);
    ProofDue(s, event, e, ring);
    ProofReleases(s, event, e, ring);
    if CompletesProofs(s, event, e, ring) {
      IssuesOne(s, event, s', ReleaseArenaLease(ring));
      SaysOne(s, event, s', EdgeStopped(e));
    } else {
      IssuesNone(s, event, s');
      SaysNone(s, event, s');
    }
  }

  lemma ProofIgnored(s: State, event: Event)
    requires event.PumpStopped? || event.RingQuiesced? || event.QuiescenceProven?
    requires Observe(s, event) == s && forall e: nat, ring: nat :: !Proves(s, event, e, ring)
    ensures IssuesDue(s, event, s) && SaysWorth(s, event, s)
  {
    IssuesNone(s, event, s);
    SaysNone(s, event, s);
  }

  lemma PumpLaw(s: State, event: Event)
    requires Apart(s) && event.PumpStopped?
    ensures IssuesDue(s, event, Observe(s, event)) && SaysWorth(s, event, Observe(s, event))
  {
    if Proves(s, event, event.edge, event.ring) {
      ProofSettles(s, event, event.edge, event.ring);
    } else {
      ProofIgnored(s, event);
    }
  }

  lemma QuiesceLaw(s: State, event: Event)
    requires Apart(s) && (event.RingQuiesced? || event.QuiescenceProven?)
    ensures IssuesDue(s, event, Observe(s, event)) && SaysWorth(s, event, Observe(s, event))
  {
    var found := EdgeForRing(s, event.ring);
    if found.Some? && s.records[found.value].state.Stopping? {
      ProofSettles(s, event, found.value, event.ring);
    } else {
      forall e: nat, ring: nat ensures !Proves(s, event, e, ring) {
        if Proves(s, event, e, ring) {
          FoundByRing(s, e);
          assert false;
        }
      }
      ProofIgnored(s, event);
    }
  }

  /** Outgoing edges have a peer. */
  predicate PeersOk(s: State) {
    forall e :: e in s.records && s.records[e].direction.Egress? ==> s.records[e].peer.Some?
  }

  /** Every event issues exactly the commands it calls for, once each, and announces exactly what it calls for. */
  lemma ObserveDoesWhatIsDue(s: State, event: Event)
    requires Apart(s) && PeersOk(s)
    ensures IssuesDue(s, event, Observe(s, event)) && SaysWorth(s, event, Observe(s, event))
  {
    match event
    case ProvisionTx(_, _, _, _) => ProvisionLaw(s, event);
    case ProvisionRx(_, _, _) => ProvisionLaw(s, event);
    case RingLeased(_, _, _) => LeaseLaw(s, event);
    case RingLeaseRejected(_, _) => RejectLaw(s, event);
    case RingInstalled(_, _) => InstallLaw(s, event);
    case DriverEdgeReady(_) => ReadyLaw(s, event);
    case StoppedExternally(_) => ReadyLaw(s, event);
    case StopEdge(_) => StopLaw(s, event);
    case StreamFault(_, _) => FaultLaw(s, event);
    case RingFault(_, _, _) => FaultLaw(s, event);
    case PumpStopped(_, _) => PumpLaw(s, event);
    case RingQuiesced(_) => QuiesceLaw(s, event);
    case QuiescenceProven(_) => QuiesceLaw(s, event);
  }

  // ─── what becomes of the records ───────────────────────────────────────────

  predicate ProvisionsHere(s: State, event: Event, e: nat) {
    (event.ProvisionTx? || event.ProvisionRx?) && event.node == s.node && event.edge == e
  }

  /** What the event leaves of the record of this edge. */
  ghost function Moved(s: State, event: Event, e: nat): (r': Record)
    requires e in s.records
  {
    var r := s.records[e];
    match event
    case ProvisionTx(_, _, _, _) => r
    case ProvisionRx(_, _, _) => r
    case RingLeased(_, ring, layout) =>
      if !GetsRing(s, event, e) then r
      else r.(ring := Some(ring), layout := Some(layout), workerRingRequested := true, state := WaitingForWorkerRing)
    case RingLeaseRejected(_, _) => if LosesLease(s, event, e) then r.(state := Failed) else r
    case RingInstalled(_, _) =>
      if !GetsInstalled(s, event, e) then r
      else r.(workerInstalled := true, driverEstablished := true, state := WaitingForDriver)
    case DriverEdgeReady(_) => if GetsReady(s, event, e) then r.(state := Ready) else r
    case StoppedExternally(d) => if d == e then r.(state := Stopped) else r
    case StopEdge(_) => BegunToStop(s, event, e)
    case StreamFault(_, _) => BegunToStop(s, event, e)
    case RingFault(_, _, _) => BegunToStop(s, event, e)
    case PumpStopped(_, _) => Proven(s, event, e)
    case RingQuiesced(_) => Proven(s, event, e)
    case QuiescenceProven(_) => Proven(s, event, e)
  }

  ghost function BegunToStop(s: State, event: Event, e: nat): (r': Record)
    requires e in s.records
  {
    var r := s.records[e];
    if StopBegins(s, event, e) then r.(state := if NoProofDue(r) then Stopped else Stopping) else r
  }

  ghost function Proven(s: State, event: Event, e: nat): (r': Record)
    requires e in s.records
  {
    var r := s.records[e];
    if r.ring.None? || !Proves(s, event, e, r.ring.value) then r
    else WithProof(r, event).(state := if CompletesProofs(s, event, e, r.ring.value) then Stopped else Stopping)
  }

  /** Nobody comes or goes, and no numbers are drawn. */
  predicate SameEdges(s: State, s': State) {
    s'.records.Keys == s.records.Keys && s'.nextRequest == s.nextRequest && s'.nextActor == s.nextActor
  }

  lemma StopMoves(s: State, e: nat)
    requires e in s.records
    ensures SameEdges(s, Observe(s, StopEdge(e))) && Observe(s, StopEdge(e)).records[e] == Moved(s, StopEdge(e), e)
    ensures forall d :: d in s.records && d != e ==> Observe(s, StopEdge(e)).records[d] == s.records[d]
  {
    if !s.records[e].state.Stopping? && !s.records[e].state.Stopped? { StopRecords(s, e); }
  }

  lemma FaultMoves(s: State, event: Event)
    requires (event.StreamFault? || event.RingFault?) && event.edge in s.records
    ensures var s', e := Observe(s, event), event.edge;
            && SameEdges(s, s') && s'.records[e] == Moved(s, event, e)
            && forall d :: d in s.records && d != e ==> s'.records[d] == s.records[d]
  {
    var e, reason := event.edge, ReasonOf(event);
    if Faults(s, event, e, reason) {
      assert StopBegins(s, event, e);
      StopRecords(Notify(s, EdgeFaulted(e, reason)), e);
    } else {
      assert !exists why :: Faults(s, event, e, why);
    }
  }

  lemma ReleaseMoves(s: State, e: nat, ring: nat)
    requires e in s.records
    ensures var s', r := ReleaseAfterProofs(s, e, ring), s.records[e];
            && SameEdges(s, s') && (forall d :: d in s.records && d != e ==> s'.records[d] == s.records[d])
            && s'.records[e] ==
                 if r.state.Stopping? && r.ring == Some(ring) && TeardownQuiesced(r) then r.(state := Stopped) else r
  {
  }

  lemma ProvenMoves(s: State, event: Event, e: nat, ring: nat)
    requires Proves(s, event, e, ring)
    ensures var s' := ReleaseAfterProofs(SetRecord(s, e, WithProof(s.records[e], event)), e, ring);
            && SameEdges(s, s') && s'.records[e] == Proven(s, event, e)
            && forall d :: d in s.records && d != e ==> s'.records[d] == s.records[d]
  {
    ReleaseMoves(SetRecord(s, e, WithProof(s.records[e], event)), e, ring);
  }

  lemma NotProven(s: State, event: Event, e: nat, ring: nat, d: nat)
    requires Apart(s) && Proves(s, event, e, ring) && d in s.records && d != e
    ensures Proven(s, event, d) == s.records[d]
  {
    if s.records[d].ring.Some? && Proves(s, event, d, s.records[d].ring.value) {
      OneProven(s, event, e, ring, d, s.records[d].ring.value);
      assert false;
    }
  }

  lemma PumpMoves(s: State, event: Event, e: nat)
    requires Apart(s) && e in s.records && event.PumpStopped?
    ensures SameEdges(s, Observe(s, event)) && Observe(s, event).records[e] == Proven(s, event, e)
  {
    var d, ring := event.edge, event.ring;
    if Proves(s, event, d, ring) {
      ProvenMoves(s, event, d, ring);
      if e != d { NotProven(s, event, d, ring, e); }
    }
  }

  lemma QuiesceMoves(s: State, event: Event, e: nat)
    requires Apart(s) && e in s.records && (event.RingQuiesced? || event.QuiescenceProven?)
    ensures SameEdges(s, Observe(s, event)) && Observe(s, event).records[e] == Proven(s, event, e)
  {
    var found := EdgeForRing(s, event.ring);
    if s.records[e].ring == Some(event.ring) { FoundByRing(s, e); }
    if found.Some? && s.records[found.value].state.Stopping? {
      ProvenMoves(s, event, found.value, event.ring);
      if e != found.value { NotProven(s, event, found.value, event.ring, e); }
    }
  }

  lemma ProofMoves(s: State, event: Event, e: nat)
    requires Apart(s) && e in s.records && (event.PumpStopped? || event.RingQuiesced? || event.QuiescenceProven?)
    ensures SameEdges(s, Observe(s, event)) && Observe(s, event).records[e] == Moved(s, event, e)
  {
    if event.PumpStopped? { PumpMoves(s, event, e); } else { QuiesceMoves(s, event, e); }
  }

  lemma AnswerMoves(s: State, event: Event, e: nat)
    requires Apart(s) && e in s.records && (event.RingLeased? || event.RingLeaseRejected?)
    ensures SameEdges(s, Observe(s, event)) && Observe(s, event).records[e] == Moved(s, event, e)
  {
    FoundByRequest(s, e);
  }

  lemma DriverMoves(s: State, event: Event, e: nat)
    requires e in s.records && (event.RingInstalled? || event.DriverEdgeReady? || event.StoppedExternally?)
    ensures SameEdges(s, Observe(s, event)) && Observe(s, event).records[e] == Moved(s, event, e)
  {
  }

  /** The record a provisioning event gives a new edge. */
  function Newcomer(s: State, event: Event): (r: Record)
    requires event.ProvisionTx? || event.ProvisionRx?
  {
    if event.ProvisionTx? then NewRecord(Egress, s.nextRequest, Some(event.consumer), s.nextActor, event.spec)
    else NewRecord(Ingress, s.nextRequest, None, s.nextActor, event.spec)
  }

  ghost predicate EdgeMoves(s: State, event: Event, e: nat, s': State) {
    && (e in s.records ==> e in s'.records && s'.records[e] == Moved(s, event, e))
    && (e !in s.records ==>
          (if ProvisionsHere(s, event, e) then e in s'.records && s'.records[e] == Newcomer(s, event)
           else e !in s'.records))
  }

  lemma ProvisionMoves(s: State, event: Event, e: nat)
    requires (event.ProvisionTx? || event.ProvisionRx?) && event.edge !in s.records
    ensures var s', n := Observe(s, event), if event.node == s.node then 1 else 0;
            && EdgeMoves(s, event, e, s') && s'.node == s.node
            && s'.nextActor == s.nextActor + n && s'.nextRequest == s.nextRequest + n
  {
  }

  lemma StopsMove(s: State, event: Event, e: nat)
    requires event.StopEdge? || event.StreamFault? || event.RingFault?
    ensures EdgeMoves(s, event, e, Observe(s, event)) && SameEdges(s, Observe(s, event))
  {
    if event.edge in s.records {
      if event.StopEdge? { StopMoves(s, event.edge); } else { FaultMoves(s, event); }
    }
  }

  lemma NodeStays(s: State, event: Event)
    ensures Observe(s, event).node == s.node
  {
  }

  /**
   Every event leaves the record of an edge as the edge's own part in it says, and every other edge alone; a new
   edge has the direction, peer and ring it was provisioned with, and the next request and actor number.
   */
  lemma RecordsMove(s: State, event: Event, e: nat)
    requires Apart(s) && (ProvisionedEdge(event).Some? ==> ProvisionedEdge(event).value !in s.records)
    ensures EdgeMoves(s, event, e, Observe(s, event)) && Observe(s, event).node == s.node
    ensures !event.ProvisionTx? && !event.ProvisionRx? ==> SameEdges(s, Observe(s, event))
  {
    NodeStays(s, event);
    if event.ProvisionTx? || event.ProvisionRx? {
      ProvisionMoves(s, event, e);
    } else if event.StopEdge? || event.StreamFault? || event.RingFault? {
      StopsMove(s, event, e);
    } else {
      if s.records.Keys != {} {
        var d :| d in s.records;
        OneEdgeMoves(s, event, d);
      }
      if e in s.records { OneEdgeMoves(s, event, e); }
    }
  }

  lemma OneEdgeMoves(s: State, event: Event, e: nat)
    requires Apart(s) && e in s.records
    requires !event.ProvisionTx? && !event.ProvisionRx? && !event.StopEdge? && !event.StreamFault? && !event.RingFault?
    ensures SameEdges(s, Observe(s, event)) && Observe(s, event).records[e] == Moved(s, event, e)
  {
    match event
    case RingLeased(_, _, _) => AnswerMoves(s, event, e);
    case RingLeaseRejected(_, _) => AnswerMoves(s, event, e);
    case PumpStopped(_, _) => ProofMoves(s, event, e);
    case RingQuiesced(_) => ProofMoves(s, event, e);
    case QuiescenceProven(_) => ProofMoves(s, event, e);
    case _ => DriverMoves(s, event, e);
  }
}
