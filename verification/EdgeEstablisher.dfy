/** The establisher itself: records, commands and announcements updated in place. */
module EdgeEstablishers {
  import opened EdgeLifecycle
  import opened Options
  import opened Placement

  class Establisher {
    const node: nat
    var nextRequest: nat
    var nextActor: nat
    var records: map<nat, Record>
    var commands: seq<Command>
    var events: seq<Notice>

    ghost function Abs(): State
      reads this
    {
      State(node, nextRequest, nextActor, records, commands, events)
    }

    constructor Create(node: nat)
      ensures Abs() == New(node)
    {
      this.node := node;
      nextRequest, nextActor := 1, 1;
      records, commands, events := map[], [], [];
    }

    method Observe(event: Event)
      modifies this
      ensures Abs() == EdgeLifecycle.Observe(old(Abs()), event)
    {
      match event
      case ProvisionTx(edge, node, consumer, spec) => ProvisionEdge(edge, node, Egress, Some(consumer), spec);
      case ProvisionRx(edge, node, spec) => ProvisionEdge(edge, node, Ingress, None, spec);
      case RingLeased(request, ring, layout) => RingLeased(request, ring, layout);
      case RingLeaseRejected(request, reason) => LeaseRejected(request, reason);
      case RingInstalled(edge, ring) => RingInstalled(edge, ring);
      case DriverEdgeReady(edge) => DriverReady(edge);
      case StreamFault(edge, reason) => Fault(edge, StreamFailed(reason));
      case RingFault(edge, ring, reason) =>
        if edge in records && records[edge].ring == Some(ring) { Fault(edge, RingFailed(reason)); }
      case StopEdge(edge) => StartStopping(edge);
      case PumpStopped(edge, ring) => PumpStopped(edge, ring);
      case RingQuiesced(ring) => RingQuiesced(ring);
      case QuiescenceProven(ring) => QuiescenceProven(ring);
      case StoppedExternally(edge) =>
        if edge in records { records := records[edge := records[edge].(state := Stopped)]; }
    }

    method ProvisionEdge(edge: nat, node: nat, direction: Direction, peer: Option<nat>, spec: RingSpec)
      modifies this
      ensures Abs() == EdgeLifecycle.Provision(old(Abs()), edge, node, direction, peer, spec)
    {
      if node != this.node { return; }
      var request := nextRequest;
      nextRequest := nextRequest + 1;
      var actor := nextActor;
      nextActor := nextActor + 1;
      records := records[edge := NewRecord(direction, request, peer, actor, spec)];
      commands := commands + [LeaseRing(request, edge, direction, spec)];
    }

    /** A lease nobody asked for changes nothing; any other is installed for its edge or released. */
    method RingLeased(request: nat, ring: nat, layout: Layout)
      modifies this
      ensures Abs() == OnRingLeased(old(Abs()), request, ring, layout)
      ensures (forall e :: e in old(records) ==> old(records)[e].request != request) ==> Abs() == old(Abs())
      ensures (exists e :: e in old(records) && old(records)[e].request == request) ==>
                exists e :: e in old(records) && LeaseSettled(old(Abs()), Abs(), request, ring, layout, e)
    {
      var found := EdgeForRequest(State(node, nextRequest, nextActor, records, commands, events), request);
      if found.None? { return; }
      var edge := found.value;
      var r := records[edge];
      if !r.state.WaitingForLease? {
        commands := commands + [ReleaseArenaLease(ring)];
        assert LeaseSettled(old(Abs()), Abs(), request, ring, layout, edge);
        return;
      }
      r := r.(ring := Some(ring), layout := Some(layout));
      r := r.(workerRingRequested := true, state := WaitingForWorkerRing);
      records := records[edge := r];
      commands := commands + [InstallWorkerRing(edge, ring, r.direction, layout, r.spec)];
      assert LeaseSettled(old(Abs()), Abs(), request, ring, layout, edge);
    }

    method LeaseRejected(request: nat, reason: LeaseRejection)
      modifies this
      ensures Abs() == OnLeaseRejected(old(Abs()), request, reason)
    {
      var found := EdgeForWaitingRequest(State(node, nextRequest, nextActor, records, commands, events), request);
      if found.None? { return; }
      records := records[found.value := records[found.value].(state := Failed)];
      events := events + [EdgeFaulted(found.value, EdgeLifecycle.LeaseRejected(reason))];
    }

    method RingInstalled(edge: nat, ring: nat)
      modifies this
      ensures Abs() == OnRingInstalled(old(Abs()), edge, ring)
    {
      if edge !in records { return; }
      var r := records[edge];
      if !r.state.WaitingForWorkerRing? || r.ring != Some(ring) { return; }
      if r.layout.None? { return; }
      records := records[edge := r.(workerInstalled := true, driverEstablished := true, state := WaitingForDriver)];
      match r.direction
      case Egress =>
        if r.peer.Some? { commands := commands + [EstablishSend(edge, r.peer.value, r.layout.value)]; }
      case Ingress =>
        commands := commands + [EstablishRecv(edge, r.layout.value)];
    }

    method DriverReady(edge: nat)
      modifies this
      ensures Abs() == OnDriverReady(old(Abs()), edge)
    {
      if edge !in records { return; }
      var r := records[edge];
      if !r.state.WaitingForDriver? { return; }
      records := records[edge := r.(state := Ready)];
      events := events + [EdgeReady(edge, r.actor)];
    }

    method Fault(edge: nat, reason: FaultReason)
      modifies this
      ensures Abs() == FaultEdge(old(Abs()), edge, reason)
    {
      if edge !in records { return; }
      var state := records[edge].state;
      if state.Stopping? || state.Stopped? || state.Failed? { return; }
      events := events + [EdgeFaulted(edge, reason)];
      StartStopping(edge);
    }

    /** An edge that is unknown, stopping or stopped is left alone; the proofs any other needs are asked for. */
    method StartStopping(edge: nat)
      modifies this
      ensures Abs() == EdgeLifecycle.StartStopping(old(Abs()), edge)
      ensures edge !in old(records) || old(records)[edge].state.Stopping? || old(records)[edge].state.Stopped? ==>
                Abs() == old(Abs())
      ensures edge in old(records) && !old(records)[edge].state.Stopping? && !old(records)[edge].state.Stopped? ==>
                StopBegun(old(Abs()), Abs(), edge)
    {
      if edge !in records { return; }
      var r := records[edge];
      if r.state.Stopping? || r.state.Stopped? { return; }
      StopIsBegun(Abs(), edge);
      records := records[edge := r.(state := Stopping)];
      commands := commands + [CancelQueuedLease(r.request, edge)];
      if r.ring.None? {
        MarkStoppedWithEvent(edge);
        return;
      }
      if r.driverEstablished { commands := commands + [StopPump(edge, r.ring.value)]; }
      if CleanupRequired(r) { commands := commands + [UninstallWorkerRing(edge, r.ring.value)]; }
      if !r.driverEstablished && !CleanupRequired(r) { ReleaseRing(edge, r.ring.value); }
    }

    method PumpStopped(edge: nat, ring: nat)
      modifies this
      ensures Abs() == OnPumpStopped(old(Abs()), edge, ring)
    {
      if edge !in records { return; }
      var r := records[edge];
      if !r.state.Stopping? || r.ring != Some(ring) { return; }
      records := records[edge := r.(pumpStopped := true)];
      ReleaseAfterTeardownProofs(edge, ring);
    }

    method RingQuiesced(ring: nat)
      modifies this
      ensures Abs() == OnRingQuiesced(old(Abs()), ring)
    {
      var found := EdgeForRing(State(node, nextRequest, nextActor, records, commands, events), ring);
      if found.None? || !records[found.value].state.Stopping? { return; }
      records := records[found.value := records[found.value].(workerRingQuiesced := true)];
      ReleaseAfterTeardownProofs(found.value, ring);
    }

    method QuiescenceProven(ring: nat)
      modifies this
      ensures Abs() == OnQuiescenceProven(old(Abs()), ring)
    {
      var found := EdgeForRing(State(node, nextRequest, nextActor, records, commands, events), ring);
      if found.None? || !records[found.value].state.Stopping? { return; }
      records := records[found.value := records[found.value].(quiescenceProven := true)];
      ReleaseAfterTeardownProofs(found.value, ring);
    }

    method ReleaseAfterTeardownProofs(edge: nat, ring: nat)
      modifies this
      ensures Abs() == ReleaseAfterProofs(old(Abs()), edge, ring)
    {
      if edge !in records { return; }
      var r := records[edge];
      if !r.state.Stopping? || r.ring != Some(ring) || !TeardownQuiesced(r) { return; }
      ReleaseRing(edge, ring);
    }

    method ReleaseRing(edge: nat, ring: nat)
      modifies this
      ensures Abs() == EdgeLifecycle.ReleaseRing(old(Abs()), edge, ring)
    {
      commands := commands + [ReleaseArenaLease(ring)];
      MarkStoppedWithEvent(edge);
    }

    method MarkStoppedWithEvent(edge: nat)
      modifies this
      ensures Abs() == EdgeLifecycle.MarkStoppedWithEvent(old(Abs()), edge)
    {
      if edge !in records || records[edge].state.Stopped? { return; }
      records := records[edge := records[edge].(state := Stopped)];
      events := events + [EdgeStopped(edge)];
    }
  }
}
