/** Two edges and an arena with room for one ring: the second edge's ring is granted, and it is never told. */
module MissedGrant {
  import opened Alignment
  import opened EdgeRuntimes
  import opened Options
  import opened Placement
  import opened Ranges
  import A = Arena
  import E = EdgeLifecycle
  import W = EdgeArena

  // ─── any establisher and any arena ─────────────────────────────────────────

  lemma GrantIsLive(a: A.State, request: A.Request, i: nat) returns (lease: A.RingLease)
    requires A.Inv(a) && A.Inv(A.Handle(a, request).0)
    requires i < |A.Handle(a, request).1| && A.Handle(a, request).1[i].RingLeased?
    ensures A.Handle(a, request).1[i] == A.RingLeased(lease) && lease in A.Handle(a, request).0.live
  {
    lease := A.Handle(a, request).1[i].lease;
    assert A.RingLeased(lease) in A.Handle(a, request).1;
    A.LiveChangesAreAnnounced(a, request, lease);
  }

  /**
   Whenever an edge waits for the request at the head of the arena's queue, and the release of the last
   live ring is executed, the request is granted, and the edge goes on waiting without a ring.
   */
  lemma QueuedGrantIsMissed(s: E.State, a: A.State, edge: nat) returns (lease: A.RingLease)
    requires A.Inv(a) && a.nextRingId + |a.pending| < U64_MAX
    requires |a.live| == 1 && a.pending != [] && !a.pending[0].cancelled
    requires edge in s.records && s.records[edge].state.WaitingForLease?
    requires s.records[edge].request == a.pending[0].request.requestId
    ensures var command := E.ReleaseArenaLease(a.live[0].ringId);
            var (a', events) := A.Handle(a, W.Asked(command).value);
            && A.RingLeased(lease) in events && lease.requestId == s.records[edge].request && lease in a'.live
            && ToldOfAnswer(s, command, events) == s
  {
    var request := A.ReleaseRing(a.live[0].ringId, true);
    A.HandleKeepsInv(a, request);
    A.LastReleaseGrantsTheHead(a);
    lease := GrantIsLive(a, request, 1);
  }

  // ─── an arena with room for one ring ───────────────────────────────────────

  predicate FirstLeased(a: A.State, spec: RingSpec, layout: Layout) {
    && a.phase.Ready? && a.pending == [] && a.free == [] && a.nextRingId == 2
    && a.live == [A.RingLease(1, 1, layout, spec.alignment)]
  }

  lemma LeaseFirst(config: Config, spec: RingSpec, layout: Layout)
    requires config.ceiling > 0 && LayoutAt(config, spec, 0) == Some(layout)
    requires layout.startOffset == 0 && layout.endOffset == config.ceiling
    ensures var (a, events) := A.Handle(A.Boot(config), A.LeaseRing(A.LeaseRequest(1, spec)));
            FirstLeased(a, spec, layout) && a.config == config
            && events == [A.RingLeased(A.RingLease(1, 1, layout, spec.alignment))]
  {
    var a := A.Boot(config);
    assert A.FirstFit(config, spec, a.free, 0) == 0;
    assert Carve(a.free, 0, 0, config.ceiling) == [];
  }

  lemma QueueSecond(a: A.State, spec: RingSpec, layout: Layout)
    requires FirstLeased(a, spec, layout) && LayoutAt(a.config, spec, 0).Some?
    ensures var (a', events) := A.Handle(a, A.LeaseRing(A.LeaseRequest(2, spec)));
            && a' == a.(pending := [A.Queued(A.LeaseRequest(2, spec), false)])
            && events == [A.RingLeaseQueued(2)]
  {
  }

  lemma CancelOther(a: A.State, spec: RingSpec)
    requires a.pending == [A.Queued(A.LeaseRequest(2, spec), false)]
    ensures A.Handle(a, A.CancelLease(1)) == (a, [])
  {
    assert A.MarkCancelled(a.pending, 1) == a.pending;
  }

  // ─── two edges ─────────────────────────────────────────────────────────────

  lemma ProvisionBoth(spec: RingSpec) returns (s: E.State, r1: E.Record, r2: E.Record)
    ensures s == E.Observe(E.Observe(E.New(0), E.ProvisionTx(1, 0, 9, spec)), E.ProvisionTx(2, 0, 9, spec))
    ensures s.records == map[1 := r1, 2 := r2]
    ensures r1 == E.NewRecord(E.Egress, 1, Some(9), 1, spec) && r2 == E.NewRecord(E.Egress, 2, Some(9), 2, spec)
    ensures s.commands == [E.LeaseRing(1, 1, E.Egress, spec), E.LeaseRing(2, 2, E.Egress, spec)]
  {
    s := E.Observe(E.Observe(E.New(0), E.ProvisionTx(1, 0, 9, spec)), E.ProvisionTx(2, 0, 9, spec));
    r1, r2 := E.NewRecord(E.Egress, 1, Some(9), 1, spec), E.NewRecord(E.Egress, 2, Some(9), 2, spec);
  }

  lemma TellFirst(s: E.State, r1: E.Record, r2: E.Record, layout: Layout)
    requires s.records == map[1 := r1, 2 := r2] && r1.request == 1 && r2.request == 2 && r1.state.WaitingForLease?
    ensures var told := r1.(ring := Some(1), layout := Some(layout), workerRingRequested := true,
                            state := E.WaitingForWorkerRing);
            E.Observe(s, E.RingLeased(1, 1, layout)) ==
              s.(records := map[1 := told, 2 := r2],
                 commands := s.commands + [E.InstallWorkerRing(1, 1, r1.direction, layout, r1.spec)])
  {
    assert s.records[1] == r1 && s.records[2] == r2;
    assert E.EdgeForRequest(s, 1) == Some(1);
  }

  lemma StopFirst(s: E.State, r1: E.Record, r2: E.Record)
    requires s.records == map[1 := r1, 2 := r2] && r1.ring == Some(1) && r1.state.WaitingForWorkerRing?
    requires r1.workerRingRequested && !r1.driverEstablished
    ensures E.Observe(s, E.StopEdge(1)) ==
              s.(records := map[1 := r1.(state := E.Stopping), 2 := r2],
                 commands := s.commands + [E.CancelQueuedLease(r1.request, 1), E.UninstallWorkerRing(1, 1)])
  {
    assert s.records[1] == r1;
  }

  lemma ProveFirst(s: E.State, r1: E.Record, r2: E.Record)
    requires s.records == map[1 := r1, 2 := r2] && r1.ring == Some(1) && r1.state.Stopping?
    requires r1.workerRingRequested && !r1.driverEstablished && !r1.quiescenceProven && r2.ring.None?
    ensures var s' := E.Observe(E.Observe(s, E.RingQuiesced(1)), E.QuiescenceProven(1));
            && s'.commands == s.commands + [E.ReleaseArenaLease(1)] && 2 in s'.records && s'.records[2] == r2
  {
    assert s.records[1] == r1 && s.records[2] == r2;
    assert E.EdgeForRing(s, 1) == Some(1);
    var s1 := E.Observe(s, E.RingQuiesced(1));
    assert s1.records[1] == r1.(workerRingQuiesced := true) && s1.records[2] == r2;
    assert E.EdgeForRing(s1, 1) == Some(1);
  }

  /** Both edges are provisioned, the first gets its ring, is stopped, and its ring is proven quiescent. */
  function Edges(spec: RingSpec, layout: Layout): (s: E.State) {
    var provisioned := E.Observe(E.Observe(E.New(0), E.ProvisionTx(1, 0, 9, spec)), E.ProvisionTx(2, 0, 9, spec));
    var stopped := E.Observe(E.Observe(provisioned, E.RingLeased(1, 1, layout)), E.StopEdge(1));
    E.Observe(E.Observe(stopped, E.RingQuiesced(1)), E.QuiescenceProven(1))
  }

  lemma EdgesIssue(spec: RingSpec, layout: Layout)
    ensures var s := Edges(spec, layout);
            && s.commands == [E.LeaseRing(1, 1, E.Egress, spec), E.LeaseRing(2, 2, E.Egress, spec),
                              E.InstallWorkerRing(1, 1, E.Egress, layout, spec), E.CancelQueuedLease(1, 1),
                              E.UninstallWorkerRing(1, 1), E.ReleaseArenaLease(1)]
            && 2 in s.records && s.records[2] == E.NewRecord(E.Egress, 2, Some(9), 2, spec)
  {
    var s, r1, r2 := ProvisionBoth(spec);
    TellFirst(s, r1, r2, layout);
    var told := r1.(ring := Some(1), layout := Some(layout), workerRingRequested := true,
                    state := E.WaitingForWorkerRing);
    s := E.Observe(s, E.RingLeased(1, 1, layout));
    StopFirst(s, told, r2);
    s := E.Observe(s, E.StopEdge(1));
    ProveFirst(s, told.(state := E.Stopping), r2);
  }

  /** The arena once it has handled the commands before the release: two leases and a cancel that finds nothing. */
  function Room(config: Config, spec: RingSpec): (a: A.State) {
    var leased := A.Handle(A.Boot(config), A.LeaseRing(A.LeaseRequest(1, spec))).0;
    A.Handle(A.Handle(leased, A.LeaseRing(A.LeaseRequest(2, spec))).0, A.CancelLease(1)).0
  }

  lemma RoomHoldsOne(config: Config, spec: RingSpec, layout: Layout)
    requires config.ceiling > 0 && LayoutAt(config, spec, 0) == Some(layout)
    requires layout.startOffset == 0 && layout.endOffset == config.ceiling
    ensures var a := Room(config, spec);
            && A.Inv(a) && a.nextRingId == 2 && a.live == [A.RingLease(1, 1, layout, spec.alignment)]
            && a.pending == [A.Queued(A.LeaseRequest(2, spec), false)]
  {
    var first, second := A.LeaseRing(A.LeaseRequest(1, spec)), A.LeaseRing(A.LeaseRequest(2, spec));
    A.BootIsSound(config);
    A.HandleKeepsInv(A.Boot(config), first);
    LeaseFirst(config, spec, layout);
    var leased := A.Handle(A.Boot(config), first).0;
    A.HandleKeepsInv(leased, second);
    QueueSecond(leased, spec, layout);
    CancelOther(A.Handle(leased, second).0, spec);
  }

  // What the commands before the release ask of the arena.
  lemma EdgesAsk(cs: seq<E.Command>, spec: RingSpec)
    requires |cs| == 6 && cs[0] == E.LeaseRing(1, 1, E.Egress, spec) && cs[1] == E.LeaseRing(2, 2, E.Egress, spec)
    requires cs[2].InstallWorkerRing? && cs[3] == E.CancelQueuedLease(1, 1) && cs[4].UninstallWorkerRing?
    ensures AskedTo(cs, 5) ==
              [A.LeaseRing(A.LeaseRequest(1, spec)), A.LeaseRing(A.LeaseRequest(2, spec)), A.CancelLease(1)]
  {
    assert AskedTo(cs, 1) == [A.LeaseRing(A.LeaseRequest(1, spec))];
    assert AskedTo(cs, 3) == AskedTo(cs, 2) == AskedTo(cs, 1) + [A.LeaseRing(A.LeaseRequest(2, spec))];
    assert AskedTo(cs, 5) == AskedTo(cs, 4) == AskedTo(cs, 3) + [A.CancelLease(1)];
  }

  /**
   What the establisher has issued has led the arena there, the release is next, and it grants the second
   edge's request; the second edge is not told and still waits for its lease.
   */
  ghost predicate Missed(config: Config, spec: RingSpec, layout: Layout, lease: A.RingLease) {
    var s, a := Edges(spec, layout), Room(config, spec);
    && |s.commands| == 6 && s.commands[5] == E.ReleaseArenaLease(1)
    && AskedTo(s.commands, 5) ==
         [A.LeaseRing(A.LeaseRequest(1, spec)), A.LeaseRing(A.LeaseRequest(2, spec)), A.CancelLease(1)]
    && A.Handle(A.Boot(config), A.LeaseRing(A.LeaseRequest(1, spec))).1 ==
         [A.RingLeased(A.RingLease(1, 1, layout, spec.alignment))]
    && (var (a', events) := A.Handle(a, A.ReleaseRing(1, true));
        && A.RingLeased(lease) in events && lease.requestId == 2 && lease in a'.live
        && ToldOfAnswer(s, s.commands[5], events) == s)
    && 2 in s.records && s.records[2].request == 2 && s.records[2].state.WaitingForLease? && s.records[2].ring.None?
  }

  lemma RingThatFills(config: Config, spec: RingSpec, layout: Layout) returns (lease: A.RingLease)
    requires config.ceiling > 0 && LayoutAt(config, spec, 0) == Some(layout)
    requires layout.startOffset == 0 && layout.endOffset == config.ceiling
    ensures Missed(config, spec, layout, lease)
  {
    var s, a := Edges(spec, layout), Room(config, spec);
    EdgesIssue(spec, layout);
    EdgesAsk(s.commands, spec);
    LeaseFirst(config, spec, layout);
    RoomHoldsOne(config, spec, layout);
    lease := QueuedGrantIsMissed(s, a, 2);
  }

  /** An arena of 64 bytes and two edges that ask for rings of 8 and 56 bytes. */
  lemma SecondEdgeIsNotTold() returns (config: Config, spec: RingSpec, layout: Layout, lease: A.RingLease)
    ensures config == Config(64, 1) && spec == RingSpec(8, 56, 1)
    ensures Missed(config, spec, layout, lease)
  {
    A.SmallestLayout();
    config, spec, layout := Config(64, 1), RingSpec(8, 56, 1), Layout(0, 8, 64, 56, 1);
    lease := RingThatFills(config, spec, layout);
  }
}
