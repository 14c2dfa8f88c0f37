/** What becomes of every ring leased to the establisher: held by one edge, or released once. */
module EdgeRings {
  import opened EdgeLifecycle
  import opened Options
  import opened Placement

  /**
   The books an observer keeps beside the establisher: which edge each request was made for, which
   edge each ring went to, and which rings arrived after their edge had stopped waiting.
   */
  datatype Ledger = Ledger(asked: map<nat, nat>, home: map<nat, nat>, late: set<nat>) {
    predicate Leased(ring: nat) {
      ring in home || ring in late
    }
  }

  function Open(): (l: Ledger) {
    Ledger(map[], map[], {})
  }

  function Enter(s: State, l: Ledger, event: Event): (l': Ledger) {
    match event
    case RingLeased(request, ring, _) =>
      var found := EdgeForRequest(s, request);
      if found.None? then l
      else if s.records[found.value].state.WaitingForLease? then l.(home := l.home[ring := found.value])
      else l.(late := l.late + {ring})
    case ProvisionTx(edge, node, _, _) => if node == s.node then l.(asked := l.asked[s.nextRequest := edge]) else l
    case ProvisionRx(edge, node, _) => if node == s.node then l.(asked := l.asked[s.nextRequest := edge]) else l
    case _ => l
  }

  /** A ring reaches a record together with its layout, and leaves it only once teardown is proven. */
  predicate RecordOk(r: Record) {
    && (r.ring.Some? ==> r.workerRingRequested && r.layout.Some? && !r.state.WaitingForLease? && !r.state.Failed?)
    && (r.ring.None? ==> r.state.WaitingForLease? || r.state.Failed? || r.state.Stopped?)
    && (r.ring.Some? && r.state.Stopped? ==> TeardownQuiesced(r))
  }

  /** The edge the ring went to still needs it. */
  predicate Held(s: State, l: Ledger, ring: nat) {
    ring in l.home && l.home[ring] in s.records && !s.records[l.home[ring]].state.Stopped?
  }

  predicate Released(s: State, ring: nat) {
    ReleaseArenaLease(ring) in s.commands
  }

  ghost predicate RequestsOk(s: State, l: Ledger) {
    && 1 <= s.nextRequest
    && (forall e :: e in s.records ==> 1 <= s.records[e].request < s.nextRequest)
    && (forall e :: e in s.records ==> s.records[e].request in l.asked && l.asked[s.records[e].request] == e)
    && (forall q :: 1 <= q < s.nextRequest ==>
           q in l.asked && l.asked[q] in s.records && s.records[l.asked[q]].request == q)
  }

  ghost predicate HomesOk(s: State, l: Ledger) {
    && (forall e :: e in s.records ==> RecordOk(s.records[e]))
    && (forall e :: e in s.records && s.records[e].ring.Some? ==>
          s.records[e].ring.value in l.home && l.home[s.records[e].ring.value] == e)
    && (forall k :: k in l.home ==> l.home[k] in s.records && s.records[l.home[k]].ring == Some(k))
    && l.home.Keys !! l.late
  }

  predicate ReleaseOk(s: State, l: Ledger, k: nat) {
    && (Released(s, k) <==> l.Leased(k) && !Held(s, l, k))
    && multiset(s.commands)[ReleaseArenaLease(k)] == if Released(s, k) then 1 else 0
  }

  /** A leased ring is either held or released, and no release is ever issued twice. */
  ghost predicate ReleasesOk(s: State, l: Ledger) {
    forall k :: ReleaseOk(s, l, k)
  }

  ghost predicate Accounted(s: State, l: Ledger) {
    RequestsOk(s, l) && HomesOk(s, l) && ReleasesOk(s, l)
  }

  // ─── the kinds of change a transition makes ────────────────────────────────

  lemma IssuedReleases(s: State, s': State, c: Command, k: nat)
    requires s'.commands == s.commands + [c]
    ensures Released(s', k) <==> Released(s, k) || c == ReleaseArenaLease(k)
    ensures multiset(s'.commands)[ReleaseArenaLease(k)] ==
              multiset(s.commands)[ReleaseArenaLease(k)] + if c == ReleaseArenaLease(k) then 1 else 0
  {
    assert multiset(s'.commands) == multiset(s.commands) + multiset{c};
  }

  /** One record may change, but not its request, its ring or whether it still needs it. */
  ghost predicate SameStanding(s: State, s': State, edge: nat, r: Record) {
    && edge in s.records && RecordOk(r)
    && s'.records == s.records[edge := r] && s'.nextRequest == s.nextRequest
    && r.request == s.records[edge].request && r.ring == s.records[edge].ring
    && (r.ring.Some? ==> (r.state.Stopped? <==> s.records[edge].state.Stopped?))
  }

  // Requests and homes depend on a record only through its request and its ring.
  lemma BooksCarryOver(s: State, s': State, edge: nat, r: Record, l: Ledger)
    requires RequestsOk(s, l) && HomesOk(s, l) && edge in s.records && RecordOk(r)
    requires s'.records == s.records[edge := r] && s'.nextRequest == s.nextRequest
    requires r.request == s.records[edge].request && r.ring == s.records[edge].ring
    ensures RequestsOk(s', l) && HomesOk(s', l)
  {
  }

  lemma UpdateKeeps(s: State, s': State, edge: nat, r: Record, l: Ledger)
    requires Accounted(s, l) && SameStanding(s, s', edge, r) && s'.commands == s.commands
    ensures Accounted(s', l)
  {
    BooksCarryOver(s, s', edge, r, l);
    forall k ensures ReleaseOk(s', l, k) {
      assert ReleaseOk(s, l, k);
    }
  }

  lemma IssueKeeps(s: State, c: Command, l: Ledger)
    requires Accounted(s, l) && !c.ReleaseArenaLease?
    ensures Accounted(Issue(s, c), l)
  {
    forall k ensures ReleaseOk(Issue(s, c), l, k) {
      assert ReleaseOk(s, l, k);
      IssuedReleases(s, Issue(s, c), c, k);
    }
  }

  lemma NotifyKeeps(s: State, n: Notice, l: Ledger)
    requires Accounted(s, l)
    ensures Accounted(Notify(s, n), l)
  {
    forall k ensures ReleaseOk(Notify(s, n), l, k) {
      assert ReleaseOk(s, l, k);
    }
  }

  // A record that has every proof stops and gives its ring back.
  lemma ReleaseKeeps(s: State, edge: nat, ring: nat, l: Ledger)
    requires Accounted(s, l) && edge in s.records && s.records[edge].ring == Some(ring)
    requires s.records[edge].state.Stopping? && TeardownQuiesced(s.records[edge])
    ensures Accounted(ReleaseRing(s, edge, ring), l)
  {
    var s' := ReleaseRing(s, edge, ring);
    BooksCarryOver(s, s', edge, s.records[edge].(state := Stopped), l);
    forall k ensures ReleaseOk(s', l, k) {
      ReleasedAt(s, s', edge, ring, l, k);
    }
  }

  lemma ReleasedAt(s: State, s': State, edge: nat, ring: nat, l: Ledger, k: nat)
    requires HomesOk(s, l) && ReleaseOk(s, l, k) && edge in s.records && s.records[edge].ring == Some(ring)
    requires !s.records[edge].state.Stopped? && s' == ReleaseRing(s, edge, ring)
    ensures ReleaseOk(s', l, k)
  {
    IssuedReleases(s, s', ReleaseArenaLease(ring), k);
    assert l.home[ring] == edge;
    if k in l.home && k != ring { assert s.records[l.home[k]].ring == Some(k); }
  }

  // A ring that arrives too late is given back at once.
  lemma LateLeaseKeeps(s: State, ring: nat, l: Ledger)
    requires Accounted(s, l) && !l.Leased(ring)
    ensures Accounted(Issue(s, ReleaseArenaLease(ring)), l.(late := l.late + {ring}))
  {
    var s', l' := Issue(s, ReleaseArenaLease(ring)), l.(late := l.late + {ring});
    forall k ensures ReleaseOk(s', l', k) {
      assert ReleaseOk(s, l, k);
      IssuedReleases(s, s', ReleaseArenaLease(ring), k);
    }
  }

  lemma LeaseKeepsHomes(s: State, edge: nat, ring: nat, layout: Layout, l: Ledger)
    requires HomesOk(s, l) && edge in s.records && s.records[edge].state.WaitingForLease? && !l.Leased(ring)
    ensures HomesOk(LeaseTo(s, edge, ring, layout), l.(home := l.home[ring := edge]))
  {
    var s', l' := LeaseTo(s, edge, ring, layout), l.(home := l.home[ring := edge]);
    assert s.records[edge].ring.None?;
    forall k | k in l'.home ensures l'.home[k] in s'.records && s'.records[l'.home[k]].ring == Some(k) {
      if k != ring { assert l.home[k] != edge; }
    }
    forall e | e in s'.records && s'.records[e].ring.Some?
      ensures s'.records[e].ring.value in l'.home && l'.home[s'.records[e].ring.value] == e
    {
      if e != edge { assert s'.records[e] == s.records[e]; }
    }
  }

  lemma LeaseKeeps(s: State, edge: nat, ring: nat, layout: Layout, l: Ledger)
    requires Accounted(s, l) && edge in s.records && s.records[edge].state.WaitingForLease? && !l.Leased(ring)
    ensures Accounted(LeaseTo(s, edge, ring, layout), l.(home := l.home[ring := edge]))
  {
    var s', l' := LeaseTo(s, edge, ring, layout), l.(home := l.home[ring := edge]);
    LeaseKeepsHomes(s, edge, ring, layout, l);
    forall k ensures ReleaseOk(s', l', k) {
      assert ReleaseOk(s, l, k);
      IssuedReleases(s, s', s'.commands[|s.commands|], k);
      if k in l.home { assert s.records[l.home[k]].ring == Some(k) && l.home[k] != edge; }
    }
  }

  lemma ProvisionKeepsRequests(s: State, s': State, edge: nat, l: Ledger)
    requires RequestsOk(s, l) && edge !in s.records
    requires s'.nextRequest == s.nextRequest + 1 && edge in s'.records && s'.records[edge].request == s.nextRequest
    requires s'.records == s.records[edge := s'.records[edge]]
    ensures RequestsOk(s', l.(asked := l.asked[s.nextRequest := edge]))
  {
    var l' := l.(asked := l.asked[s.nextRequest := edge]);
    forall q | 1 <= q < s'.nextRequest
      ensures q in l'.asked && l'.asked[q] in s'.records && s'.records[l'.asked[q]].request == q
    {
      if q < s.nextRequest { assert l.asked[q] != edge; }
    }
  }

  lemma ProvisionKeeps(s: State, edge: nat, node: nat, direction: Direction, peer: Option<nat>, spec: RingSpec,
      l: Ledger)
    requires Accounted(s, l) && edge !in s.records
    ensures Accounted(Provision(s, edge, node, direction, peer, spec),
                      if node == s.node then l.(asked := l.asked[s.nextRequest := edge]) else l)
  {
    if node == s.node {
      var s' := Provision(s, edge, node, direction, peer, spec);
      var l' := l.(asked := l.asked[s.nextRequest := edge]);
      ProvisionKeepsRequests(s, s', edge, l);
      assert HomesOk(s', l');
      forall k ensures ReleaseOk(s', l', k) {
        assert ReleaseOk(s, l, k);
        IssuedReleases(s, s', s'.commands[|s.commands|], k);
      }
    }
  }

  // ─── every event ───────────────────────────────────────────────────────────

  lemma ProofsKeep(s: State, edge: nat, r: Record, ring: nat, l: Ledger)
    requires Accounted(s, l) && edge in s.records && s.records[edge].ring == Some(ring) &&
               s.records[edge].state.Stopping?
    requires r.ring == Some(ring) && r.request == s.records[edge].request && r.state.Stopping? && RecordOk(r)
    ensures Accounted(ReleaseAfterProofs(SetRecord(s, edge, r), edge, ring), l)
  {
    var s1 := SetRecord(s, edge, r);
    UpdateKeeps(s, s1, edge, r, l);
    if TeardownQuiesced(r) { ReleaseKeeps(s1, edge, ring, l); }
  }

  lemma StopUnleasedIs(s: State, edge: nat)
    requires edge in s.records && s.records[edge].ring.None?
    requires !s.records[edge].state.Stopping? && !s.records[edge].state.Stopped?
    ensures var r := s.records[edge];
            StartStopping(s, edge) ==
              Notify(SetRecord(Issue(s, CancelQueuedLease(r.request, edge)), edge, r.(state := Stopped)),
                     EdgeStopped(edge))
  {
    var r := s.records[edge];
    var stopping, stopped := r.(state := Stopping), r.(state := Stopped);
    assert s.records[edge := stopping][edge := stopped] == s.records[edge := stopped];
  }

  lemma StopUnleasedKeeps(s: State, edge: nat, l: Ledger)
    requires Accounted(s, l) && edge in s.records && s.records[edge].ring.None?
    requires !s.records[edge].state.Stopping? && !s.records[edge].state.Stopped?
    ensures Accounted(StartStopping(s, edge), l)
  {
    var r := s.records[edge];
    var stopped := r.(state := Stopped);
    var s1 := Issue(s, CancelQueuedLease(r.request, edge));
    var s2 := SetRecord(s1, edge, stopped);
    IssueKeeps(s, CancelQueuedLease(r.request, edge), l);
    UpdateKeeps(s1, s2, edge, stopped, l);
    NotifyKeeps(s2, EdgeStopped(edge), l);
    StopUnleasedIs(s, edge);
  }

  lemma StopLeasedKeeps(s: State, edge: nat, l: Ledger)
    requires Accounted(s, l) && edge in s.records && s.records[edge].ring.Some?
    requires !s.records[edge].state.Stopping? && !s.records[edge].state.Stopped?
    ensures Accounted(StartStopping(s, edge), l)
  {
    var r := s.records[edge];
    var stopping := r.(state := Stopping);
    var s0 := SetRecord(s, edge, stopping);
    var s1 := Issue(s0, CancelQueuedLease(r.request, edge));
    var s2 := if r.driverEstablished then Issue(s1, StopPump(edge, r.ring.value)) else s1;
    UpdateKeeps(s, s0, edge, stopping, l);
    IssueKeeps(s0, CancelQueuedLease(r.request, edge), l);
    IssueKeeps(s1, StopPump(edge, r.ring.value), l);
    IssueKeeps(s2, UninstallWorkerRing(edge, r.ring.value), l);
    assert StartStopping(s, edge) == Issue(s2, UninstallWorkerRing(edge, r.ring.value));
  }

  lemma StoppingKeeps(s: State, edge: nat, l: Ledger)
    requires Accounted(s, l)
    ensures Accounted(StartStopping(s, edge), l)
  {
    if edge in s.records && !s.records[edge].state.Stopping? && !s.records[edge].state.Stopped? {
      if s.records[edge].ring.None? { StopUnleasedKeeps(s, edge, l); } else { StopLeasedKeeps(s, edge, l); }
    }
  }

  lemma FaultKeeps(s: State, edge: nat, reason: FaultReason, l: Ledger)
    requires Accounted(s, l)
    ensures Accounted(FaultEdge(s, edge, reason), l)
  {
    NotifyKeeps(s, EdgeFaulted(edge, reason), l);
    StoppingKeeps(Notify(s, EdgeFaulted(edge, reason)), edge, l);
  }

  lemma RejectKeeps(s: State, edge: nat, reason: LeaseRejection, l: Ledger)
    requires Accounted(s, l) && edge in s.records && s.records[edge].state.WaitingForLease?
    ensures Accounted(RejectTo(s, edge, reason), l)
  {
    var failed := s.records[edge].(state := Failed);
    UpdateKeeps(s, SetRecord(s, edge, failed), edge, failed, l);
    NotifyKeeps(SetRecord(s, edge, failed), EdgeFaulted(edge, LeaseRejected(reason)), l);
  }

  lemma InstalledKeeps(s: State, edge: nat, ring: nat, l: Ledger)
    requires Accounted(s, l)
    ensures Accounted(OnRingInstalled(s, edge, ring), l)
  {
    if edge in s.records {
      var r := s.records[edge];
      if r.state.WaitingForWorkerRing? && r.ring == Some(ring) && r.layout.Some? {
        var r' := r.(workerInstalled := true, driverEstablished := true, state := WaitingForDriver);
        var s1 := SetRecord(s, edge, r');
        UpdateKeeps(s, s1, edge, r', l);
        if r.direction.Egress? {
          if r.peer.Some? { IssueKeeps(s1, EstablishSend(edge, r.peer.value, r.layout.value), l); }
        } else {
          IssueKeeps(s1, EstablishRecv(edge, r.layout.value), l);
        }
      }
    }
  }

  lemma ReadyKeeps(s: State, edge: nat, l: Ledger)
    requires Accounted(s, l)
    ensures Accounted(OnDriverReady(s, edge), l)
  {
    if edge in s.records && s.records[edge].state.WaitingForDriver? {
      var ready := s.records[edge].(state := Ready);
      UpdateKeeps(s, SetRecord(s, edge, ready), edge, ready, l);
      NotifyKeeps(SetRecord(s, edge, ready), EdgeReady(edge, ready.actor), l);
    }
  }

  /**
   What the surroundings owe the establisher: an edge id is provisioned once, a lease answers a
   request that was made with a ring not leased before, and no edge is stopped behind its back.
   */
  predicate Lawful(s: State, l: Ledger, event: Event) {
    && (ProvisionedEdge(event).Some? ==> ProvisionedEdge(event).value !in s.records)
    && (event.RingLeased? ==> 1 <= event.request < s.nextRequest && !l.Leased(event.ring))
    && !event.StoppedExternally?
  }

  lemma LeasingKeeps(s: State, l: Ledger, event: Event)
    requires Accounted(s, l) && Lawful(s, l, event) && (event.RingLeased? || event.RingLeaseRejected?)
    ensures Accounted(Observe(s, event), Enter(s, l, event))
  {
    match event
    case RingLeased(request, ring, layout) =>
      var found := EdgeForRequest(s, request);
      if found.Some? {
        if s.records[found.value].state.WaitingForLease? { LeaseKeeps(s, found.value, ring, layout, l); }
        else { LateLeaseKeeps(s, ring, l); }
      }
    case RingLeaseRejected(request, reason) =>
      var found := EdgeForWaitingRequest(s, request);
      if found.Some? { RejectKeeps(s, found.value, reason, l); }
  }

  lemma PumpStoppedKeeps(s: State, edge: nat, ring: nat, l: Ledger)
    requires Accounted(s, l)
    ensures Accounted(OnPumpStopped(s, edge, ring), l)
  {
    if edge in s.records && s.records[edge].state.Stopping? && s.records[edge].ring == Some(ring) {
      ProofsKeep(s, edge, s.records[edge].(pumpStopped := true), ring, l);
    }
  }

  lemma QuiescedKeeps(s: State, edge: nat, ring: nat, l: Ledger)
    requires Accounted(s, l) && edge in s.records && s.records[edge].ring == Some(ring)
    ensures Accounted(QuiescedAt(s, edge, ring), l)
  {
    if s.records[edge].state.Stopping? { ProofsKeep(s, edge, s.records[edge].(workerRingQuiesced := true), ring, l); }
  }

  lemma ProvenKeeps(s: State, edge: nat, ring: nat, l: Ledger)
    requires Accounted(s, l) && edge in s.records && s.records[edge].ring == Some(ring)
    ensures Accounted(ProvenAt(s, edge, ring), l)
  {
    if s.records[edge].state.Stopping? { ProofsKeep(s, edge, s.records[edge].(quiescenceProven := true), ring, l); }
  }

  lemma TeardownKeeps(s: State, ring: nat, l: Ledger)
    requires Accounted(s, l)
    ensures Accounted(OnRingQuiesced(s, ring), l) && Accounted(OnQuiescenceProven(s, ring), l)
  {
    var found := EdgeForRing(s, ring);
    if found.Some? {
      QuiescedKeeps(s, found.value, ring, l);
      ProvenKeeps(s, found.value, ring, l);
    }
  }

  lemma DrivingKeeps(s: State, l: Ledger, event: Event)
    requires Accounted(s, l)
    requires event.RingInstalled? || event.DriverEdgeReady? || event.StreamFault? || event.RingFault? || event.StopEdge?
    ensures Accounted(Observe(s, event), l)
  {
    match event
    case RingInstalled(edge, ring) => InstalledKeeps(s, edge, ring, l);
    case DriverEdgeReady(edge) => ReadyKeeps(s, edge, l);
    case StreamFault(edge, reason) => FaultKeeps(s, edge, StreamFailed(reason), l);
    case RingFault(edge, _, reason) => FaultKeeps(s, edge, RingFailed(reason), l);
    case StopEdge(edge) => StoppingKeeps(s, edge, l);
  }

  lemma ObserveKeepsAccounts(s: State, l: Ledger, event: Event)
    requires Accounted(s, l) && Lawful(s, l, event)
    ensures Accounted(Observe(s, event), Enter(s, l, event))
  {
    match event
    case ProvisionTx(edge, node, consumer, spec) => ProvisionKeeps(s, edge, node, Egress, Some(consumer), spec, l);
    case ProvisionRx(edge, node, spec) => ProvisionKeeps(s, edge, node, Ingress, None, spec, l);
    case RingLeased(_, _, _) => LeasingKeeps(s, l, event);
    case RingLeaseRejected(_, _) => LeasingKeeps(s, l, event);
    case PumpStopped(edge, ring) => PumpStoppedKeeps(s, edge, ring, l);
    case RingQuiesced(ring) => TeardownKeeps(s, ring, l);
    case QuiescenceProven(ring) => TeardownKeeps(s, ring, l);
    case StoppedExternally(_) =>
    case _ => DrivingKeeps(s, l, event);
  }

  predicate LawfulRun(s: State, l: Ledger, events: seq<Event>)
    decreases |events|
  {
    events == [] || (Lawful(s, l, events[0]) && LawfulRun(Observe(s, events[0]), Enter(s, l, events[0]), events[1..]))
  }

  function EnterAll(s: State, l: Ledger, events: seq<Event>): (l': Ledger)
    decreases |events|
  {
    if events == [] then l else EnterAll(Observe(s, events[0]), Enter(s, l, events[0]), events[1..])
  }

  lemma {:induction false} RunKeepsAccounts(s: State, l: Ledger, events: seq<Event>)
    requires Accounted(s, l) && LawfulRun(s, l, events)
    ensures Accounted(Run(s, events), EnterAll(s, l, events))
    decreases |events|
  {
    if events != [] {
      ObserveKeepsAccounts(s, l, events[0]);
      RunKeepsAccounts(Observe(s, events[0]), Enter(s, l, events[0]), events[1..]);
    }
  }

  /**
   Over every lawful run, a ring ever leased is either held by exactly the edge it went to, which has
   not stopped, or has been released by exactly one command; a ring never leased is in neither place.
   */
  lemma EveryRingHeldOrReleasedOnce(node: nat, events: seq<Event>, ring: nat)
    requires LawfulRun(New(node), Open(), events)
    ensures var s, l := Run(New(node), events), EnterAll(New(node), Open(), events);
            && (Released(s, ring) <==> l.Leased(ring) && !Held(s, l, ring))
            && multiset(s.commands)[ReleaseArenaLease(ring)] == (if l.Leased(ring) && !Held(s, l, ring) then 1 else 0)
            && (forall e :: e in s.records && s.records[e].ring == Some(ring) ==> ring in l.home && l.home[ring] == e)
            && (Held(s, l, ring) ==> s.records[l.home[ring]].ring == Some(ring))
  {
    RunKeepsAccounts(New(node), Open(), events);
    assert ReleaseOk(Run(New(node), events), EnterAll(New(node), Open(), events), ring);
  }
}
