/**
 The establisher and the arena together. Commands are executed in issue order, at any pace; what the
 arena answers reaches the establisher in any order; every other edge event may come at any time.
 */
module EdgeArena {
  import opened Alignment
  import opened EdgeGrowth
  import opened EdgeRings
  import opened Options
  import opened Placement
  import A = Arena
  import E = EdgeLifecycle
  import R = Ranges

  datatype World = World(
    est: E.State,
    ledger: Ledger,
    seen: seq<E.Event>,
    arena: A.State,
    cursor: nat,
    mail: multiset<A.Event>)

  datatype Step = Edge(event: E.Event) | Execute | Deliver(answer: A.Event) | Shutdown

  function Init(config: Config, node: nat): (w: World) {
    World(E.New(node), Open(), [], A.Boot(config), 0, multiset{})
  }

  function Reason(reason: A.LeaseRejection): (r: E.LeaseRejection) {
    match reason
    case CannotFitWithinCeiling => E.CannotFit
    case ArenaShuttingDown => E.ArenaShuttingDown
  }

  /** What the establisher is told of an arena event, if anything. */
  function Told(answer: A.Event): (event: Option<E.Event>) {
    match answer
    case RingLeased(lease) => Some(E.RingLeased(lease.requestId, lease.ringId, lease.layout))
    case RingLeaseRejected(id, reason) => Some(E.RingLeaseRejected(id, Reason(reason)))
    case _ => None
  }

  /** What the arena is asked to do for a command, if anything. */
  function Asked(c: E.Command): (request: Option<A.Request>) {
    match c
    case LeaseRing(id, _, _, spec) => Some(A.LeaseRing(A.LeaseRequest(id, spec)))
    case CancelQueuedLease(id, _) => Some(A.CancelLease(id))
    case ReleaseArenaLease(ring) => Some(A.ReleaseRing(ring, true))
    case _ => None
  }

  function Observed(w: World, event: E.Event): (w': World) {
    w.(est := E.Observe(w.est, event), ledger := Enter(w.est, w.ledger, event), seen := w.seen + [event])
  }

  function Handled(w: World, request: A.Request): (w': World) {
    var (arena', events) := A.Handle(w.arena, request);
    w.(arena := arena', mail := w.mail + multiset(events))
  }

  /** An edge id is provisioned once; leases come from the arena alone; nobody stops an edge behind its back. */
  predicate Enabled(w: World, step: Step) {
    match step
    case Edge(event) =>
      && !event.RingLeased? && !event.StoppedExternally?
      && (E.ProvisionedEdge(event).Some? ==> E.ProvisionedEdge(event).value !in w.est.records)
    case Execute => w.cursor < |w.est.commands|
    case Deliver(answer) => answer in w.mail
    case Shutdown => true
  }

  function Next(w: World, step: Step): (w': World)
    requires Enabled(w, step)
  {
    match step
    case Edge(event) => Observed(w, event)
    case Execute =>
      var request := Asked(w.est.commands[w.cursor]);
      var w1 := w.(cursor := w.cursor + 1);
      if request.None? then w1 else Handled(w1, request.value)
    case Deliver(answer) =>
      var w1 := w.(mail := w.mail - multiset{answer});
      if Told(answer).None? then w1 else Observed(w1, Told(answer).value)
    case Shutdown => Handled(w, A.Shutdown)
  }

  predicate Runs(w: World, steps: seq<Step>)
    decreases |steps|
  {
    steps == [] || (Enabled(w, steps[0]) && Runs(Next(w, steps[0]), steps[1..]))
  }

  function Run(w: World, steps: seq<Step>): (w': World)
    requires Runs(w, steps)
    decreases |steps|
  {
    if steps == [] then w else Run(Next(w, steps[0]), steps[1..])
  }

  // ─── what one observation may do to the establisher ────────────────────────

  /** A teardown flag is raised only by the event that proves it, for the ring the edge has. */
  predicate Witnessed(seen: seq<E.Event>, edge: nat, r: E.Record) {
    && (r.pumpStopped ==> r.ring.Some? && E.PumpStopped(edge, r.ring.value) in seen)
    && (r.workerRingQuiesced ==> r.ring.Some? && E.RingQuiesced(r.ring.value) in seen)
    && (r.quiescenceProven ==> r.ring.Some? && E.QuiescenceProven(r.ring.value) in seen)
  }

  /** Every proof the edge's teardown calls for has been observed. */
  predicate ProofsSeen(seen: seq<E.Event>, edge: nat, r: E.Record)
    requires r.ring.Some?
  {
    && (r.driverEstablished ==> E.PumpStopped(edge, r.ring.value) in seen)
    && (E.CleanupRequired(r) ==> E.RingQuiesced(r.ring.value) in seen)
    && E.QuiescenceProven(r.ring.value) in seen
  }

  ghost predicate AllWitnessed(seen: seq<E.Event>, s: E.State) {
    forall e :: e in s.records ==> Witnessed(seen, e, s.records[e])
  }

  lemma ProofsWitnessed(s: E.State, edge: nat, r: E.Record, ring: nat, seen: seq<E.Event>)
    requires AllWitnessed(seen, s) && edge in s.records && Witnessed(seen, edge, r)
    ensures AllWitnessed(seen, E.ReleaseAfterProofs(E.SetRecord(s, edge, r), edge, ring))
  {
  }

  lemma StoppingKeepsProofs(s: E.State, edge: nat, e: nat)
    ensures var s' := E.StartStopping(s, edge);
            e in s'.records ==> e in s.records && s'.records[e] == s.records[e].(state := s'.records[e].state)
  {
    if edge in s.records && !s.records[edge].state.Stopping? && !s.records[edge].state.Stopped? {
      E.StopRecords(s, edge);
    }
  }

  lemma StoppingWitnessed(s: E.State, edge: nat, seen: seq<E.Event>)
    requires AllWitnessed(seen, s)
    ensures AllWitnessed(seen, E.StartStopping(s, edge))
  {
    var s' := E.StartStopping(s, edge);
    forall e | e in s'.records ensures Witnessed(seen, e, s'.records[e]) {
      StoppingKeepsProofs(s, edge, e);
      assert Witnessed(seen, e, s.records[e]);
    }
  }

  lemma ProofWitnessed(s: E.State, event: E.Event, seen: seq<E.Event>)
    requires event.PumpStopped? || event.RingQuiesced? || event.QuiescenceProven?
    requires AllWitnessed(seen + [event], s)
    requires forall e :: e in s.records ==> RecordOk(s.records[e])
    ensures AllWitnessed(seen + [event], E.Observe(s, event))
  {
    var seen' := seen + [event];
    match event
    case PumpStopped(edge, ring) =>
      if edge in s.records && s.records[edge].ring == Some(ring) {
        ProofsWitnessed(s, edge, s.records[edge].(pumpStopped := true), ring, seen');
      }
    case RingQuiesced(ring) =>
      var found := E.EdgeForRing(s, ring);
      if found.Some? {
        ProofsWitnessed(s, found.value, s.records[found.value].(workerRingQuiesced := true), ring, seen');
      }
    case QuiescenceProven(ring) =>
      var found := E.EdgeForRing(s, ring);
      if found.Some? {
        ProofsWitnessed(s, found.value, s.records[found.value].(quiescenceProven := true), ring, seen');
      }
  }

  lemma OtherWitnessed(s: E.State, event: E.Event, seen: seq<E.Event>)
    requires !event.PumpStopped? && !event.RingQuiesced? && !event.QuiescenceProven?
    requires AllWitnessed(seen + [event], s)
    requires forall e :: e in s.records ==> RecordOk(s.records[e])
    ensures AllWitnessed(seen + [event], E.Observe(s, event))
  {
    var seen' := seen + [event];
    match event
    case StreamFault(edge, reason) =>
      StoppingWitnessed(E.Notify(s, E.EdgeFaulted(edge, E.StreamFailed(reason))), edge, seen');
    case RingFault(edge, _, reason) =>
      StoppingWitnessed(E.Notify(s, E.EdgeFaulted(edge, E.RingFailed(reason))), edge, seen');
    case StopEdge(edge) => StoppingWitnessed(s, edge, seen');
    case RingLeased(request, ring, layout) =>
      var found := E.EdgeForRequest(s, request);
      if found.Some? { assert Witnessed(seen', found.value, s.records[found.value]); }
    case _ =>
  }

  lemma ObserveWitnesses(s: E.State, event: E.Event, seen: seq<E.Event>)
    requires AllWitnessed(seen, s)
    requires forall e :: e in s.records ==> RecordOk(s.records[e])
    ensures AllWitnessed(seen + [event], E.Observe(s, event))
  {
    assert AllWitnessed(seen + [event], s);
    if event.PumpStopped? || event.RingQuiesced? || event.QuiescenceProven? {
      ProofWitnessed(s, event, seen);
    } else {
      OtherWitnessed(s, event, seen);
    }
  }

  // ─── the joint invariant ───────────────────────────────────────────────────

  predicate ReleaseRun(w: World, ring: nat)
    requires w.cursor <= |w.est.commands|
  {
    E.ReleaseArenaLease(ring) in w.est.commands[..w.cursor]
  }

  /**
   A ring the establisher has been given is live in the arena until its release is executed, and the
   edge it went to knows the range it lies in.
   */
  ghost predicate RingOk(w: World, k: nat)
    requires w.cursor <= |w.est.commands|
  {
    && (w.ledger.Leased(k) ==> k < w.arena.nextRingId && (A.Lookup(w.arena, k).Some? <==> !ReleaseRun(w, k)))
    && (k in w.ledger.home && w.ledger.home[k] in w.est.records && A.Lookup(w.arena, k).Some? ==>
          w.est.records[w.ledger.home[k]].layout == Some(A.Lookup(w.arena, k).value.layout))
  }

  /** A live lease the establisher has not been given is on its way to it, once. */
  ghost predicate LeaseOk(w: World, lease: A.RingLease) {
    && w.mail[A.RingLeased(lease)] == (if lease in w.arena.live && !w.ledger.Leased(lease.ringId) then 1 else 0)
    && (lease in w.arena.live ==> 1 <= lease.requestId < w.est.nextRequest)
  }

  ghost predicate RequestsKnown(w: World) {
    && (forall c :: c in w.est.commands && c.LeaseRing? ==> 1 <= c.request < w.est.nextRequest)
    && (forall q :: q in A.PendingIds(w.arena.pending) ==> 1 <= q < w.est.nextRequest)
  }

  ghost predicate Inv(w: World) {
    && w.cursor <= |w.est.commands|
    && A.Inv(w.arena)
    && Accounted(w.est, w.ledger)
    && AllWitnessed(w.seen, w.est)
    && RequestsKnown(w)
    && (forall k :: RingOk(w, k))
    && (forall lease :: LeaseOk(w, lease))
  }

  lemma InitInv(config: Config, node: nat)
    requires config.ceiling > 0
    ensures Inv(Init(config, node))
  {
    A.BootIsSound(config);
    assert forall k :: ReleaseOk(E.New(node), Open(), k);
  }

  // ─── a request handled by the arena ────────────────────────────────────────

  lemma HandledLease(w: World, request: A.Request, lease: A.RingLease)
    requires Inv(w) && A.Inv(A.Handle(w.arena, request).0)
    requires request.LeaseRing? ==> 1 <= request.lease.requestId < w.est.nextRequest
    requires request.ReleaseRing? && request.verified ==> w.ledger.Leased(request.ringId)
    ensures LeaseOk(Handled(w, request), lease)
  {
    var (arena', events) := A.Handle(w.arena, request);
    A.LiveChangesAreAnnounced(w.arena, request, lease);
    A.LiveIsAccountedFor(w.arena, request);
    A.GrantsAreAnnounced(events, lease);
    assert LeaseOk(w, lease) && RingOk(w, lease.ringId);
  }

  lemma HandledKeepsRequests(w: World, request: A.Request)
    requires RequestsKnown(w)
    requires request.LeaseRing? ==> 1 <= request.lease.requestId < w.est.nextRequest
    ensures RequestsKnown(Handled(w, request))
  {
    A.LiveIsAccountedFor(w.arena, request);
  }

  lemma RingCarriesOver(w: World, w': World, k: nat)
    requires w.cursor < |w.est.commands| && RingOk(w, k) && w.arena.nextRingId <= w'.arena.nextRingId
    requires w'.est == w.est && w'.ledger == w.ledger && w'.cursor == w.cursor + 1
    requires
      var kept := if w.est.commands[w.cursor] == E.ReleaseArenaLease(k) then None else A.Lookup(w.arena, k);
      w.ledger.Leased(k) ==> A.Lookup(w'.arena, k) == kept
    ensures RingOk(w', k)
  {
    assert w.est.commands[..w.cursor + 1] == w.est.commands[..w.cursor] + [w.est.commands[w.cursor]];
  }

  lemma ExecutedRing(w: World, k: nat)
    requires w.cursor < |w.est.commands| && A.Inv(w.arena) && RingOk(w, k)
    requires var request := Asked(w.est.commands[w.cursor]); request.Some? ==> A.Inv(A.Handle(w.arena, request.value).0)
    ensures RingOk(Next(w, Execute), k)
  {
    var c, w' := w.est.commands[w.cursor], Next(w, Execute);
    if Asked(c).Some? {
      if w.ledger.Leased(k) { A.LookupCarriesOver(w.arena, Asked(c).value, k); }
      A.LiveIsAccountedFor(w.arena, Asked(c).value);
    }
    RingCarriesOver(w, w', k);
  }

  // What an executed command leaves of the arena, the requests and the leases on their way.
  // What the establisher asks of the arena: a lease under a request it knows, or a release of a ring it was given.
  lemma AskedIsSound(w: World)
    requires Inv(w) && w.cursor < |w.est.commands| && Asked(w.est.commands[w.cursor]).Some?
    ensures var request := Asked(w.est.commands[w.cursor]).value;
            && (request.LeaseRing? ==> 1 <= request.lease.requestId < w.est.nextRequest)
            && (request.ReleaseRing? && request.verified ==> w.ledger.Leased(request.ringId))
  {
    var c := w.est.commands[w.cursor];
    if c.ReleaseArenaLease? { assert ReleaseOk(w.est, w.ledger, c.ring); }
  }

  // What a request leaves of the arena, the requests and the leases on their way.
  lemma HandledLeases(w: World, request: A.Request)
    requires Inv(w) && w.arena.nextRingId + |w.arena.pending| < U64_MAX
    requires request.LeaseRing? ==> 1 <= request.lease.requestId < w.est.nextRequest
    requires request.ReleaseRing? && request.verified ==> w.ledger.Leased(request.ringId)
    ensures var w' := Handled(w, request);
            && A.Inv(w'.arena) && RequestsKnown(w') && (forall lease :: LeaseOk(w', lease))
            && w'.arena.nextRingId + |w'.arena.pending| <= w.arena.nextRingId + |w.arena.pending|
                 + (if request.LeaseRing? then 1 else 0)
  {
    A.HandleKeepsInv(w.arena, request);
    HandledKeepsRequests(w, request);
    forall lease ensures LeaseOk(Handled(w, request), lease) { HandledLease(w, request, lease); }
  }

  lemma ExecutedLeases(w: World)
    requires Inv(w) && w.cursor < |w.est.commands| && w.arena.nextRingId + |w.arena.pending| < U64_MAX
    ensures var w' := Next(w, Execute);
            && A.Inv(w'.arena) && RequestsKnown(w') && (forall lease :: LeaseOk(w', lease))
            && w'.arena.nextRingId + |w'.arena.pending| <= w.arena.nextRingId + |w.arena.pending| + 1
  {
    var w', asked := Next(w, Execute), Asked(w.est.commands[w.cursor]);
    if asked.Some? {
      AskedIsSound(w);
      HandledLeases(w, asked.value);
      forall lease ensures LeaseOk(w', lease) { assert LeaseOk(Handled(w, asked.value), lease); }
    } else {
      forall lease ensures LeaseOk(w', lease) { assert LeaseOk(w, lease); }
    }
  }

  lemma ExecutedRings(w: World)
    requires Inv(w) && w.cursor < |w.est.commands| && A.Inv(Next(w, Execute).arena)
    ensures forall k :: RingOk(Next(w, Execute), k)
  {
    forall k ensures RingOk(Next(w, Execute), k) { ExecutedRing(w, k); }
  }

  lemma ExecuteKeepsInv(w: World)
    requires Inv(w) && w.cursor < |w.est.commands| && w.arena.nextRingId + |w.arena.pending| < U64_MAX
    ensures var w' := Next(w, Execute);
            Inv(w') && w'.arena.nextRingId + |w'.arena.pending| <= w.arena.nextRingId + |w.arena.pending| + 1
  {
    ExecutedLeases(w);
    ExecutedRings(w);
  }

  lemma ShutdownKeepsInv(w: World)
    requires Inv(w) && w.arena.nextRingId + |w.arena.pending| < U64_MAX
    ensures var w' := Next(w, Shutdown);
            Inv(w') && w'.arena.nextRingId + |w'.arena.pending| <= w.arena.nextRingId + |w.arena.pending|
  {
    var w' := Next(w, Shutdown);
    HandledLeases(w, A.Shutdown);
    forall k ensures RingOk(w', k) {
      assert RingOk(w, k);
      if w.ledger.Leased(k) {
        A.LookupCarriesOver(w.arena, A.Shutdown, k);
        A.LiveIsAccountedFor(w.arena, A.Shutdown);
      }
    }
  }

  // ─── an event observed by the establisher ──────────────────────────────────

  lemma ObservedKeepsBooks(w: World, event: E.Event)
    requires w.cursor <= |w.est.commands| && Accounted(w.est, w.ledger) && AllWitnessed(w.seen, w.est) &&
               RequestsKnown(w)
    requires Lawful(w.est, w.ledger, event)
    ensures var w' := Observed(w, event);
            && Accounted(w'.est, w'.ledger) && AllWitnessed(w'.seen, w'.est) && RequestsKnown(w')
            && Grows(w.est, w'.est) && w'.est.commands[..w.cursor] == w.est.commands[..w.cursor]
  {
    ObserveKeepsAccounts(w.est, w.ledger, event);
    ObserveGrows(w.est, event);
    ObserveWitnesses(w.est, event, w.seen);
  }

  lemma ObservedRing(w: World, event: E.Event, k: nat)
    requires w.cursor <= |w.est.commands| && HomesOk(w.est, w.ledger) && RingOk(w, k)
    requires Grows(w.est, E.Observe(w.est, event)) && !event.RingLeased?
    requires E.Observe(w.est, event).commands[..w.cursor] == w.est.commands[..w.cursor]
    ensures RingOk(Observed(w, event), k)
  {
  }

  lemma ObserveKeepsInv(w: World, event: E.Event)
    requires Inv(w) && Lawful(w.est, w.ledger, event) && !event.RingLeased?
    ensures Inv(Observed(w, event))
  {
    var w' := Observed(w, event);
    ObservedKeepsBooks(w, event);
    forall k ensures RingOk(w', k) { ObservedRing(w, event, k); }
    forall lease ensures LeaseOk(w', lease) { assert LeaseOk(w, lease); }
  }

  // Taking any other answer out of the mail leaves every lease where it was.
  lemma DiscardKeepsInv(w: World, answer: A.Event)
    requires Inv(w) && answer in w.mail && !answer.RingLeased?
    ensures Inv(w.(mail := w.mail - multiset{answer}))
  {
    var w' := w.(mail := w.mail - multiset{answer});
    forall k ensures RingOk(w', k) { assert RingOk(w, k); }
    forall lease ensures LeaseOk(w', lease) { assert LeaseOk(w, lease); }
  }

  // ─── a lease that arrives ──────────────────────────────────────────────────

  lemma ArrivalIsLawful(w: World, lease: A.RingLease)
    requires Inv(w) && A.RingLeased(lease) in w.mail
    ensures Lawful(w.est, w.ledger, Told(A.RingLeased(lease)).value)
    ensures E.EdgeForRequest(w.est, lease.requestId).Some?
    ensures A.Lookup(w.arena, lease.ringId) == Some(lease)
  {
    assert LeaseOk(w, lease);
    assert w.ledger.asked[lease.requestId] in w.est.records;
    A.LookupFinds(w.arena, lease);
  }

  // Where a lease that answers a request goes: to the edge that made it, or among the late ones.
  lemma LeaseIsEntered(s: E.State, l: Ledger, lease: A.RingLease, k: nat)
    requires E.EdgeForRequest(s, lease.requestId).Some? && lease.ringId !in l.home
    ensures var s', l' := E.Observe(s, Told(A.RingLeased(lease)).value), Enter(s, l, Told(A.RingLeased(lease)).value);
            && (l'.Leased(k) <==> l.Leased(k) || k == lease.ringId)
            && (k != lease.ringId ==> (k in l'.home <==> k in l.home) && (k in l.home ==> l'.home[k] == l.home[k]))
            && (lease.ringId in l'.home ==>
                  l'.home[lease.ringId] in s'.records && s'.records[l'.home[lease.ringId]].layout == Some(lease.layout))
  {
  }

  lemma ArrivedRing(w: World, lease: A.RingLease, k: nat)
    requires w.cursor <= |w.est.commands| && HomesOk(w.est, w.ledger) && ReleaseOk(w.est, w.ledger, k) && RingOk(w, k)
    requires E.EdgeForRequest(w.est, lease.requestId).Some? && !w.ledger.Leased(lease.ringId)
    requires A.Lookup(w.arena, lease.ringId) == Some(lease) && lease.ringId < w.arena.nextRingId
    requires Grows(w.est, E.Observe(w.est, Told(A.RingLeased(lease)).value))
    requires E.Observe(w.est, Told(A.RingLeased(lease)).value).commands[..w.cursor] == w.est.commands[..w.cursor]
    ensures RingOk(Observed(w, Told(A.RingLeased(lease)).value), k)
  {
    LeaseIsEntered(w.est, w.ledger, lease, k);
    if k == lease.ringId { assert !ReleaseRun(w, k); }
  }

  lemma ArrivedLease(w: World, lease: A.RingLease, other: A.RingLease)
    requires LeaseOk(w, other) && A.RingLeased(lease) in w.mail
    requires E.EdgeForRequest(w.est, lease.requestId).Some? && !w.ledger.Leased(lease.ringId)
    requires other in w.arena.live && other.ringId == lease.ringId ==> other == lease
    requires w.est.nextRequest <= E.Observe(w.est, Told(A.RingLeased(lease)).value).nextRequest
    ensures LeaseOk(Next(w, Deliver(A.RingLeased(lease))), other)
  {
    LeaseIsEntered(w.est, w.ledger, lease, other.ringId);
  }

  lemma ArrivalKeepsInv(w: World, lease: A.RingLease)
    requires Inv(w) && A.RingLeased(lease) in w.mail
    ensures Inv(Next(w, Deliver(A.RingLeased(lease))))
  {
    var w' := Next(w, Deliver(A.RingLeased(lease)));
    ArrivalIsLawful(w, lease);
    ObservedKeepsBooks(w, Told(A.RingLeased(lease)).value);
    assert lease in w.arena.live by { assert LeaseOk(w, lease); }
    forall k ensures RingOk(w', k) {
      assert RingOk(w, k) && ReleaseOk(w.est, w.ledger, k);
      ArrivedRing(w, lease, k);
    }
    forall other ensures LeaseOk(w', other) {
      assert LeaseOk(w, other);
      A.LookupFinds(w.arena, other);
      ArrivedLease(w, lease, other);
    }
  }

  lemma DeliverKeepsInv(w: World, answer: A.Event)
    requires Inv(w) && answer in w.mail
    ensures Inv(Next(w, Deliver(answer)))
  {
    if answer.RingLeased? {
      ArrivalKeepsInv(w, answer.lease);
    } else {
      DiscardKeepsInv(w, answer);
      if Told(answer).Some? { ObserveKeepsInv(w.(mail := w.mail - multiset{answer}), Told(answer).value); }
    }
  }

  // ─── whole runs ────────────────────────────────────────────────────────────

  lemma NextKeepsInv(w: World, step: Step)
    requires Inv(w) && Enabled(w, step) && w.arena.nextRingId + |w.arena.pending| < U64_MAX
    ensures var w' := Next(w, step);
            Inv(w') && w'.arena.nextRingId + |w'.arena.pending| <= w.arena.nextRingId + |w.arena.pending| + 1
  {
    match step
    case Edge(event) => ObserveKeepsInv(w, event);
    case Execute => ExecuteKeepsInv(w);
    case Deliver(answer) => DeliverKeepsInv(w, answer);
    case Shutdown => ShutdownKeepsInv(w);
  }

  lemma {:induction false} RunKeepsInv(w: World, steps: seq<Step>)
    requires Inv(w) && Runs(w, steps) && w.arena.nextRingId + |w.arena.pending| + |steps| < U64_MAX
    ensures Inv(Run(w, steps))
    decreases |steps|
  {
    if steps != [] {
      NextKeepsInv(w, steps[0]);
      RunKeepsInv(Next(w, steps[0]), steps[1..]);
    }
  }

  lemma LiveIsDisjoint(s: A.State, a: A.RingLease, b: A.RingLease)
    requires A.Tiled(s) && a in s.live && b in s.live && a != b
    ensures R.Disjoint(A.Extent(a), A.Extent(b))
  {
    A.LiveLeasesAreApart(s.live);
    var i :| 0 <= i < |s.live| && s.live[i] == a;
    var j :| 0 <= j < |s.live| && s.live[j] == b;
  }

  /**
   In every reachable state, an edge that has a ring and has not stopped still owns its range: the
   lease is live where the edge believes it to be, and every other live lease lies apart from it. And
   it has not stopped before every teardown proof it needs was observed.
   */
  lemma RangeOutlivesItsReaders(config: Config, node: nat, steps: seq<Step>, edge: nat, other: A.RingLease)
    requires config.ceiling > 0 && |steps| < U64_MAX - 1 && Runs(Init(config, node), steps)
    requires var w := Run(Init(config, node), steps); edge in w.est.records && w.est.records[edge].ring.Some?
    ensures var w := Run(Init(config, node), steps);
            var r := w.est.records[edge];
            var lease := A.Lookup(w.arena, r.ring.value);
            && (!r.state.Stopped? ==>
                  && lease.Some? && lease.value.ringId == r.ring.value && r.layout == Some(lease.value.layout)
                  && (other in w.arena.live && other != lease.value ==>
                         R.Disjoint(A.Extent(other), A.Extent(lease.value))))
            && (r.state.Stopped? ==> ProofsSeen(w.seen, edge, r))
  {
    InitInv(config, node);
    RunKeepsInv(Init(config, node), steps);
    var w := Run(Init(config, node), steps);
    var k := w.est.records[edge].ring.value;
    UnstoppedIsLive(w, edge);
    if !w.est.records[edge].state.Stopped? {
      A.LookupMeans(w.arena, k);
      if other in w.arena.live && other != A.Lookup(w.arena, k).value {
        LiveIsDisjoint(w.arena, other, A.Lookup(w.arena, k).value);
      }
    }
  }

  lemma UnstoppedIsLive(w: World, edge: nat)
    requires Inv(w) && edge in w.est.records && w.est.records[edge].ring.Some?
    ensures var r := w.est.records[edge];
            && (!r.state.Stopped? ==>
                  A.Lookup(w.arena, r.ring.value).Some? &&
                      r.layout == Some(A.Lookup(w.arena, r.ring.value).value.layout))
            && (r.state.Stopped? ==> ProofsSeen(w.seen, edge, r))
  {
    var r := w.est.records[edge];
    assert RecordOk(r) && Witnessed(w.seen, edge, r);
    assert ReleaseOk(w.est, w.ledger, r.ring.value) && RingOk(w, r.ring.value);
  }

  /**
   In every reachable state a live lease is in exactly one place: on its way to the establisher, held
   by the edge it went to, or awaiting the one release issued for it.
   */
  lemma LiveLeaseIsInOnePlace(config: Config, node: nat, steps: seq<Step>, lease: A.RingLease)
    requires config.ceiling > 0 && |steps| < U64_MAX - 1 && Runs(Init(config, node), steps)
    requires lease in Run(Init(config, node), steps).arena.live
    ensures var w := Run(Init(config, node), steps);
            var released := E.ReleaseArenaLease(lease.ringId);
            && w.cursor <= |w.est.commands|
            && w.mail[A.RingLeased(lease)] + (if Held(w.est, w.ledger, lease.ringId) then 1 else 0)
               + multiset(w.est.commands[w.cursor..])[released] == 1
            && released !in w.est.commands[..w.cursor]
  {
    InitInv(config, node);
    RunKeepsInv(Init(config, node), steps);
    var w := Run(Init(config, node), steps);
    A.LookupFinds(w.arena, lease);
    assert LeaseOk(w, lease) && RingOk(w, lease.ringId) && ReleaseOk(w.est, w.ledger, lease.ringId);
    assert w.est.commands == w.est.commands[..w.cursor] + w.est.commands[w.cursor..];
  }

  /** Once every command has run and every answer has arrived, the live rings are those of edges not yet stopped. */
  lemma SettledWorldKeepsNothingElse(config: Config, node: nat, steps: seq<Step>, ring: nat)
    requires config.ceiling > 0 && |steps| < U64_MAX - 1 && Runs(Init(config, node), steps)
    requires var w := Run(Init(config, node), steps); w.cursor == |w.est.commands| && w.mail == multiset{}
    ensures var w := Run(Init(config, node), steps);
            A.Lookup(w.arena, ring).Some? <==>
              exists e :: e in w.est.records && w.est.records[e].ring == Some(ring) && !w.est.records[e].state.Stopped?
  {
    InitInv(config, node);
    RunKeepsInv(Init(config, node), steps);
    var w := Run(Init(config, node), steps);
    assert RingOk(w, ring) && ReleaseOk(w.est, w.ledger, ring);
    assert w.est.commands[..w.cursor] == w.est.commands;
    if A.Lookup(w.arena, ring).Some? {
      A.LookupMeans(w.arena, ring);
      LiveLeaseIsInOnePlace(config, node, steps, A.Lookup(w.arena, ring).value);
      assert w.est.records[w.ledger.home[ring]].ring == Some(ring);
    }
  }
}
