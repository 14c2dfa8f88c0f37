/** The edge establisher's protocol: each observed event updates one edge record and issues commands. */
module EdgeLifecycle {
  import opened Options
  import opened Placement

  datatype Direction = Egress | Ingress

  datatype ProvisionState =
    WaitingForLease | WaitingForWorkerRing | WaitingForDriver | Ready | Stopping | Stopped | Failed

  datatype LeaseRejection = CannotFit | ArenaShuttingDown

  datatype StreamFaultReason = ReadError | WriteError | ProtocolError

  datatype RingFaultReason = WorkerRejectedRing | WorkerCrashed

  datatype FaultReason =
    | LeaseRejected(rejection: LeaseRejection)
    | RingFailed(ringFault: RingFaultReason)
    | StreamFailed(streamFault: StreamFaultReason)

  datatype Event =
    | ProvisionTx(edge: nat, node: nat, consumer: nat, spec: RingSpec)
    | ProvisionRx(edge: nat, node: nat, spec: RingSpec)
    | RingLeased(request: nat, ring: nat, layout: Layout)
    | RingLeaseRejected(request: nat, reason: LeaseRejection)
    | RingInstalled(edge: nat, ring: nat)
    | DriverEdgeReady(edge: nat)
    | StreamFault(edge: nat, streamReason: StreamFaultReason)
    | RingFault(edge: nat, ring: nat, ringReason: RingFaultReason)
    | StopEdge(edge: nat)
    | PumpStopped(edge: nat, ring: nat)
    | RingQuiesced(ring: nat)
    | QuiescenceProven(ring: nat)
    | StoppedExternally(edge: nat)

  /** A release command always carries a verified quiescence proof. */
  datatype Command =
    | LeaseRing(request: nat, edge: nat, direction: Direction, spec: RingSpec)
    | CancelQueuedLease(request: nat, edge: nat)
    | InstallWorkerRing(edge: nat, ring: nat, direction: Direction, layout: Layout, spec: RingSpec)
    | UninstallWorkerRing(edge: nat, ring: nat)
    | EstablishSend(edge: nat, consumer: nat, layout: Layout)
    | EstablishRecv(edge: nat, layout: Layout)
    | StopPump(edge: nat, ring: nat)
    | ReleaseArenaLease(ring: nat)

  datatype Notice =
    | EdgeReady(edge: nat, actor: nat)
    | EdgeFaulted(edge: nat, reason: FaultReason)
    | EdgeStopped(edge: nat)

  datatype Record = Record(
    direction: Direction,
    state: ProvisionState,
    request: nat,
    ring: Option<nat>,
    layout: Option<Layout>,
    peer: Option<nat>,
    actor: nat,
    spec: RingSpec,
    workerRingRequested: bool,
    workerInstalled: bool,
    driverEstablished: bool,
    pumpStopped: bool,
    workerRingQuiesced: bool,
    quiescenceProven: bool)

  datatype State = State(
    node: nat,
    nextRequest: nat,
    nextActor: nat,
    records: map<nat, Record>,
    commands: seq<Command>,
    events: seq<Notice>)

  function New(node: nat): (s: State) {
    State(node, 1, 1, map[], [], [])
  }

  function NewRecord(direction: Direction, request: nat, peer: Option<nat>, actor: nat, spec: RingSpec): (r: Record) {
    Record(direction, WaitingForLease, request, None, None, peer, actor, spec, false, false, false, false, false, false)
  }

  predicate CleanupRequired(r: Record) {
    r.workerRingRequested || r.workerInstalled
  }

  /** Every proof this record needs before its range may be recycled. */
  predicate TeardownQuiesced(r: Record) {
    && (!r.driverEstablished || r.pumpStopped)
    && (!CleanupRequired(r) || r.workerRingQuiesced)
    && r.quiescenceProven
  }

  // ─── lookups, in ascending order of edge id ────────────────────────────────

  predicate IsLeast(m: nat, ids: set<nat>) {
    m in ids && forall x :: x in ids ==> m <= x
  }

  lemma {:induction false} LeastExists(ids: set<nat>) returns (m: nat)
    requires ids != {}
    ensures IsLeast(m, ids)
    decreases |ids|
  {
    var a :| a in ids;
    var rest := ids - {a};
    assert forall x :: x in ids ==> x == a || x in rest;
    if rest == {} { return a; }
    var b := LeastExists(rest);
    m := if a <= b then a else b;
  }

  function Least(ids: set<nat>): (m: nat)
    requires ids != {}
    ensures IsLeast(m, ids)
  {
    assert exists m :: IsLeast(m, ids) by { var m := LeastExists(ids); }
    var m :| IsLeast(m, ids);
    m
  }

  function FirstOf(ids: set<nat>): (e: Option<nat>)
    ensures e.Some? ==> e.value in ids
    ensures e.None? ==> ids == {}
  {
    if ids == {} then None else Some(Least(ids))
  }

  function EdgeForRequest(s: State, request: nat): (e: Option<nat>)
    ensures e.Some? ==> e.value in s.records && s.records[e.value].request == request
    ensures e.None? ==> forall e :: e in s.records ==> s.records[e].request != request
  {
    var ids := set e | e in s.records && s.records[e].request == request;
    assert forall e :: e in s.records && s.records[e].request == request ==> e in ids;
    FirstOf(ids)
  }

  function EdgeForWaitingRequest(s: State, request: nat): (e: Option<nat>)
    ensures e.Some? ==>
              e.value in s.records && s.records[e.value].state.WaitingForLease? && s.records[e.value].request == request
  {
    FirstOf(set e | e in s.records && s.records[e].state.WaitingForLease? && s.records[e].request == request)
  }

  function EdgeForRing(s: State, ring: nat): (e: Option<nat>)
    ensures e.Some? ==> e.value in s.records && s.records[e.value].ring == Some(ring)
    ensures e.None? ==> forall e :: e in s.records ==> s.records[e].ring != Some(ring)
  {
    var ids := set e | e in s.records && s.records[e].ring == Some(ring);
    assert forall e :: e in s.records && s.records[e].ring == Some(ring) ==> e in ids;
    FirstOf(ids)
  }

  // ─── transitions ───────────────────────────────────────────────────────────

  function Issue(s: State, c: Command): (s': State) {
    s.(commands := s.commands + [c])
  }

  function Notify(s: State, n: Notice): (s': State) {
    s.(events := s.events + [n])
  }

  function SetRecord(s: State, edge: nat, r: Record): (s': State) {
    s.(records := s.records[edge := r])
  }

  function Provision(s: State, edge: nat, node: nat, direction: Direction, peer: Option<nat>,
      spec: RingSpec): (s': State) {
    if node != s.node then s
    else
      var r := NewRecord(direction, s.nextRequest, peer, s.nextActor, spec);
      Issue(SetRecord(s.(nextRequest := s.nextRequest + 1, nextActor := s.nextActor + 1), edge, r),
            LeaseRing(s.nextRequest, edge, direction, spec))
  }

  function LeaseTo(s: State, edge: nat, ring: nat, layout: Layout): (s': State)
    requires edge in s.records
  {
    var r := s.records[edge];
    if !r.state.WaitingForLease? then Issue(s, ReleaseArenaLease(ring))
    else
      Issue(SetRecord(s, edge, r.(ring := Some(ring), layout := Some(layout), workerRingRequested := true,
                                  state := WaitingForWorkerRing)),
            InstallWorkerRing(edge, ring, r.direction, layout, r.spec))
  }

  function OnRingLeased(s: State, request: nat, ring: nat, layout: Layout): (s': State) {
    var found := EdgeForRequest(s, request);
    if found.None? then s else LeaseTo(s, found.value, ring, layout)
  }

  function RejectTo(s: State, edge: nat, reason: LeaseRejection): (s': State)
    requires edge in s.records
  {
    Notify(SetRecord(s, edge, s.records[edge].(state := Failed)), EdgeFaulted(edge, LeaseRejected(reason)))
  }

  function OnLeaseRejected(s: State, request: nat, reason: LeaseRejection): (s': State) {
    var found := EdgeForWaitingRequest(s, request);
    if found.None? then s else RejectTo(s, found.value, reason)
  }

  function OnRingInstalled(s: State, edge: nat, ring: nat): (s': State) {
    if edge !in s.records then s
    else
      var r := s.records[edge];
      if !r.state.WaitingForWorkerRing? || r.ring != Some(ring) || r.layout.None? then s
      else
        var s1 := SetRecord(s, edge, r.(workerInstalled := true, driverEstablished := true, state := WaitingForDriver));
        match r.direction
        case Egress => if r.peer.Some? then Issue(s1, EstablishSend(edge, r.peer.value, r.layout.value)) else s1
        case Ingress => Issue(s1, EstablishRecv(edge, r.layout.value))
  }

  function OnDriverReady(s: State, edge: nat): (s': State) {
    if edge !in s.records || !s.records[edge].state.WaitingForDriver? then s
    else Notify(SetRecord(s, edge, s.records[edge].(state := Ready)), EdgeReady(edge, s.records[edge].actor))
  }

  function MarkStoppedWithEvent(s: State, edge: nat): (s': State) {
    if edge !in s.records || s.records[edge].state.Stopped? then s
    else Notify(SetRecord(s, edge, s.records[edge].(state := Stopped)), EdgeStopped(edge))
  }

  function ReleaseRing(s: State, edge: nat, ring: nat): (s': State) {
    MarkStoppedWithEvent(Issue(s, ReleaseArenaLease(ring)), edge)
  }

  function StartStopping(s: State, edge: nat): (s': State) {
    if edge !in s.records || s.records[edge].state.Stopping? || s.records[edge].state.Stopped? then s
    else
      var r := s.records[edge];
      var s1 := Issue(SetRecord(s, edge, r.(state := Stopping)), CancelQueuedLease(r.request, edge));
      if r.ring.None? then MarkStoppedWithEvent(s1, edge)
      else
        var s2 := if r.driverEstablished then Issue(s1, StopPump(edge, r.ring.value)) else s1;
        var s3 := if CleanupRequired(r) then Issue(s2, UninstallWorkerRing(edge, r.ring.value)) else s2;
        if !r.driverEstablished && !CleanupRequired(r) then ReleaseRing(s3, edge, r.ring.value) else s3
  }

  /** The edge can be stopped now, and no proof has to be waited for. */
  predicate NoProofDue(r: Record) {
    r.ring.None? || (!r.driverEstablished && !CleanupRequired(r))
  }

  /** Exactly the proofs that are due are asked for, and the ring is given back at once only if none is. */
  ghost predicate AsksFor(issued: seq<Command>, r: Record, edge: nat) {
    && CancelQueuedLease(r.request, edge) in issued
    && (forall k: nat :: ReleaseArenaLease(k) in issued <==> r.ring == Some(k) && NoProofDue(r))
    && (forall k: nat :: StopPump(edge, k) in issued <==> r.ring == Some(k) && r.driverEstablished)
    && (forall k: nat :: UninstallWorkerRing(edge, k) in issued <==> r.ring == Some(k) && CleanupRequired(r))
  }

  /**
   Stopping a live edge asks for what is due; the edge stops and says so only if nothing is; no other
   edge is touched.
   */
  ghost predicate StopBegun(s: State, s': State, edge: nat)
    requires edge in s.records
  {
    var r := s.records[edge];
    && s'.records == s.records[edge := r.(state := if NoProofDue(r) then Stopped else Stopping)]
    && s'.events == s.events + (if NoProofDue(r) then [EdgeStopped(edge)] else [])
    && s.commands <= s'.commands && AsksFor(s'.commands[|s.commands|..], r, edge)
  }

  function TeardownOf(r: Record, edge: nat): (issued: seq<Command>) {
    [CancelQueuedLease(r.request, edge)]
    + (if r.ring.Some? && r.driverEstablished then [StopPump(edge, r.ring.value)] else [])
    + (if r.ring.Some? && CleanupRequired(r) then [UninstallWorkerRing(edge, r.ring.value)] else [])
    + (if r.ring.Some? && NoProofDue(r) then [ReleaseArenaLease(r.ring.value)] else [])
  }

  lemma TeardownAsksFor(r: Record, edge: nat)
    ensures AsksFor(TeardownOf(r, edge), r, edge)
  {
  }

  lemma StopIssues(s: State, edge: nat)
    requires edge in s.records && !s.records[edge].state.Stopping? && !s.records[edge].state.Stopped?
    ensures StartStopping(s, edge).commands == s.commands + TeardownOf(s.records[edge], edge)
  {
  }

  lemma StopRecords(s: State, edge: nat)
    requires edge in s.records && !s.records[edge].state.Stopping? && !s.records[edge].state.Stopped?
    ensures var r, s' := s.records[edge], StartStopping(s, edge);
            && s'.records == s.records[edge := r.(state := if NoProofDue(r) then Stopped else Stopping)]
            && s'.events == s.events + (if NoProofDue(r) then [EdgeStopped(edge)] else [])
  {
    var r := s.records[edge];
    var stopping, stopped := r.(state := Stopping), r.(state := Stopped);
    assert s.records[edge := stopping][edge := stopped] == s.records[edge := stopped];
  }

  lemma StopIsBegun(s: State, edge: nat)
    requires edge in s.records && !s.records[edge].state.Stopping? && !s.records[edge].state.Stopped?
    ensures StopBegun(s, StartStopping(s, edge), edge)
  {
    StopRecords(s, edge);
    StopIssues(s, edge);
    TeardownAsksFor(s.records[edge], edge);
    var before, issued := s.commands, TeardownOf(s.records[edge], edge);
    assert (before + issued)[|before|..] == issued;
  }

  /**
   What a lease comes to: it goes to the edge that asked for it if that still waits, and back to the
   arena otherwise.
   */
  ghost predicate LeaseSettled(s: State, s': State, request: nat, ring: nat, layout: Layout, edge: nat)
    requires edge in s.records
  {
    var r := s.records[edge];
    && r.request == request
    && (r.state.WaitingForLease? ==>
          && s'.commands == s.commands + [InstallWorkerRing(edge, ring, r.direction, layout, r.spec)]
          && edge in s'.records && s'.records[edge].ring == Some(ring) && s'.records[edge].layout == Some(layout)
          && s'.records[edge].state.WaitingForWorkerRing? && s'.records == s.records[edge := s'.records[edge]])
    && (!r.state.WaitingForLease? ==> s'.commands == s.commands + [ReleaseArenaLease(ring)] && s'.records == s.records)
    && s'.events == s.events
  }

  function FaultEdge(s: State, edge: nat, reason: FaultReason): (s': State) {
    if edge !in s.records then s
    else if s.records[edge].state.Stopping? || s.records[edge].state.Stopped? || s.records[edge].state.Failed? then s
    else StartStopping(Notify(s, EdgeFaulted(edge, reason)), edge)
  }

  function ReleaseAfterProofs(s: State, edge: nat, ring: nat): (s': State) {
    if edge in s.records && s.records[edge].state.Stopping? && s.records[edge].ring == Some(ring)
       && TeardownQuiesced(s.records[edge])
    then ReleaseRing(s, edge, ring) else s
  }

  function OnPumpStopped(s: State, edge: nat, ring: nat): (s': State) {
    if edge !in s.records || !s.records[edge].state.Stopping? || s.records[edge].ring != Some(ring) then s
    else ReleaseAfterProofs(SetRecord(s, edge, s.records[edge].(pumpStopped := true)), edge, ring)
  }

  function QuiescedAt(s: State, edge: nat, ring: nat): (s': State)
    requires edge in s.records
  {
    if !s.records[edge].state.Stopping? then s
    else ReleaseAfterProofs(SetRecord(s, edge, s.records[edge].(workerRingQuiesced := true)), edge, ring)
  }

  function OnRingQuiesced(s: State, ring: nat): (s': State) {
    var found := EdgeForRing(s, ring);
    if found.None? then s else QuiescedAt(s, found.value, ring)
  }

  function ProvenAt(s: State, edge: nat, ring: nat): (s': State)
    requires edge in s.records
  {
    if !s.records[edge].state.Stopping? then s
    else ReleaseAfterProofs(SetRecord(s, edge, s.records[edge].(quiescenceProven := true)), edge, ring)
  }

  function OnQuiescenceProven(s: State, ring: nat): (s': State) {
    var found := EdgeForRing(s, ring);
    if found.None? then s else ProvenAt(s, found.value, ring)
  }

  function Observe(s: State, event: Event): (s': State) {
    match event
    case ProvisionTx(edge, node, consumer, spec) => Provision(s, edge, node, Egress, Some(consumer), spec)
    case ProvisionRx(edge, node, spec) => Provision(s, edge, node, Ingress, None, spec)
    case RingLeased(request, ring, layout) => OnRingLeased(s, request, ring, layout)
    case RingLeaseRejected(request, reason) => OnLeaseRejected(s, request, reason)
    case RingInstalled(edge, ring) => OnRingInstalled(s, edge, ring)
    case DriverEdgeReady(edge) => OnDriverReady(s, edge)
    case StreamFault(edge, reason) => FaultEdge(s, edge, StreamFailed(reason))
    case RingFault(edge, ring, reason) =>
      if edge in s.records && s.records[edge].ring == Some(ring) then FaultEdge(s, edge, RingFailed(reason)) else s
    case StopEdge(edge) => StartStopping(s, edge)
    case PumpStopped(edge, ring) => OnPumpStopped(s, edge, ring)
    case RingQuiesced(ring) => OnRingQuiesced(s, ring)
    case QuiescenceProven(ring) => OnQuiescenceProven(s, ring)
    case StoppedExternally(edge) =>
      if edge in s.records then SetRecord(s, edge, s.records[edge].(state := Stopped)) else s
  }

  function Run(s: State, events: seq<Event>): (s': State)
    decreases |events|
  {
    if events == [] then s else Run(Observe(s, events[0]), events[1..])
  }

  // ─── one edge's own history ────────────────────────────────────────────────

  function Rank(state: ProvisionState): (n: nat) {
    match state
    case WaitingForLease => 0
    case WaitingForWorkerRing => 1
    case WaitingForDriver => 2
    case Ready => 3
    case Failed => 4
    case Stopping => 5
    case Stopped => 6
  }

  function ProvisionedEdge(event: Event): (e: Option<nat>) {
    match event
    case ProvisionTx(edge, _, _, _) => Some(edge)
    case ProvisionRx(edge, _, _) => Some(edge)
    case _ => None
  }

  datatype Kind = SaidReady | SaidFaulted | SaidStopped

  function KindOf(n: Notice): (k: Kind) {
    match n
    case EdgeReady(_, _) => SaidReady
    case EdgeFaulted(_, _) => SaidFaulted
    case EdgeStopped(_) => SaidStopped
  }

  /** What the first `n` announcements say about one edge, in order. */
  function SaidTo(events: seq<Notice>, n: nat, edge: nat): (ks: seq<Kind>)
    requires n <= |events|
  {
    if n == 0 then []
    else SaidTo(events, n - 1, edge) + if events[n - 1].edge == edge then [KindOf(events[n - 1])] else []
  }

  function Said(events: seq<Notice>, edge: nat): (ks: seq<Kind>) {
    SaidTo(events, |events|, edge)
  }

  /** What has been heard of an edge; `lawful` is lost when something is repeated or comes too late. */
  datatype Heard = Heard(lawful: bool, ready: bool, faulted: bool, stopped: bool)

  function Hear(h: Heard, k: Kind): (h': Heard) {
    match k
    case SaidReady => h.(lawful := h.lawful && !h.ready && !h.faulted && !h.stopped, ready := true)
    case SaidFaulted => h.(lawful := h.lawful && !h.faulted && !h.stopped, faulted := true)
    case SaidStopped => h.(lawful := h.lawful && !h.stopped, stopped := true)
  }

  function HeardTo(events: seq<Notice>, n: nat, edge: nat): (h: Heard)
    requires n <= |events|
  {
    if n == 0 then Heard(true, false, false, false)
    else if events[n - 1].edge == edge then Hear(HeardTo(events, n - 1, edge), KindOf(events[n - 1]))
    else HeardTo(events, n - 1, edge)
  }

  function HeardOf(s: State, edge: nat): (h: Heard) {
    HeardTo(s.events, |s.events|, edge)
  }

  lemma {:induction false} HeardIsLocal(events: seq<Notice>, notice: Notice, n: nat, edge: nat)
    requires n <= |events|
    ensures HeardTo(events + [notice], n, edge) == HeardTo(events, n, edge)
    decreases n
  {
    if n > 0 { HeardIsLocal(events, notice, n - 1, edge); }
  }

  lemma HeardMore(s: State, n: Notice, edge: nat)
    ensures HeardOf(Notify(s, n), edge) == if n.edge == edge then Hear(HeardOf(s, edge), KindOf(n))
              else HeardOf(s, edge)
  {
    HeardIsLocal(s.events, n, |s.events|, edge);
  }

  /** Ready, then faulted, then stopped, each at most once. */
  function InOrder(ready: bool, faulted: bool, stopped: bool): (ks: seq<Kind>) {
    (if ready then [SaidReady] else []) + (if faulted then [SaidFaulted] else [])
    + (if stopped then [SaidStopped] else [])
  }

  lemma {:induction false} LawfulIsInOrder(events: seq<Notice>, n: nat, edge: nat)
    requires n <= |events| && HeardTo(events, n, edge).lawful
    ensures var h := HeardTo(events, n, edge); SaidTo(events, n, edge) == InOrder(h.ready, h.faulted, h.stopped)
    decreases n
  {
    if n > 0 { LawfulIsInOrder(events, n - 1, edge); }
  }

  /** What may have been heard of an edge in a given state. */
  predicate Consistent(state: ProvisionState, h: Heard) {
    && h.lawful
    && match state
       case Ready => h.ready && !h.faulted && !h.stopped
       case Failed => !h.ready && h.faulted && !h.stopped
       case Stopping => !h.stopped
       case Stopped => true
       case _ => !h.ready && !h.faulted && !h.stopped
  }

  ghost predicate HistoryOf(s: State, edge: nat) {
    if edge in s.records then Consistent(s.records[edge].state, HeardOf(s, edge))
    else HeardOf(s, edge) == Heard(true, false, false, false)
  }

  /** The edge has moved forward, or not at all, and what was announced about it stays in order. */
  ghost predicate Follows(s: State, s': State, edge: nat) {
    && HistoryOf(s', edge)
    && (edge in s.records ==> edge in s'.records && Rank(s.records[edge].state) <= Rank(s'.records[edge].state))
  }

  lemma MarkStoppedFollows(s: State, e: nat, edge: nat)
    requires HistoryOf(s, edge) && (e in s.records ==> s.records[e].state.Stopping? || s.records[e].state.Stopped?)
    ensures Follows(s, MarkStoppedWithEvent(s, e), edge)
  {
    if e in s.records && !s.records[e].state.Stopped? {
      HeardMore(SetRecord(s, e, s.records[e].(state := Stopped)), EdgeStopped(e), edge);
    }
  }

  lemma StoppingFollows(s: State, e: nat, edge: nat)
    requires if edge == e && e in s.records && !s.records[e].state.Stopping? && !s.records[e].state.Stopped?
             then HeardOf(s, edge).lawful && !HeardOf(s, edge).stopped else HistoryOf(s, edge)
    ensures Follows(s, StartStopping(s, e), edge)
  {
    if e in s.records && !s.records[e].state.Stopping? && !s.records[e].state.Stopped? {
      var r := s.records[e];
      var s1 := Issue(SetRecord(s, e, r.(state := Stopping)), CancelQueuedLease(r.request, e));
      assert HistoryOf(s1, edge);
      if r.ring.None? {
        MarkStoppedFollows(s1, e, edge);
      } else if !r.driverEstablished && !CleanupRequired(r) {
        MarkStoppedFollows(Issue(s1, ReleaseArenaLease(r.ring.value)), e, edge);
      }
    }
  }

  lemma FaultFollows(s: State, e: nat, reason: FaultReason, edge: nat)
    requires HistoryOf(s, edge)
    ensures Follows(s, FaultEdge(s, e, reason), edge)
  {
    HeardMore(s, EdgeFaulted(e, reason), edge);
    if FaultEdge(s, e, reason) != s { StoppingFollows(Notify(s, EdgeFaulted(e, reason)), e, edge); }
  }

  lemma ProofsFollow(s: State, e: nat, r: Record, ring: nat, edge: nat)
    requires HistoryOf(s, edge) && e in s.records && r.state == s.records[e].state
    ensures Follows(s, ReleaseAfterProofs(SetRecord(s, e, r), e, ring), edge)
  {
    var s1 := SetRecord(s, e, r);
    if ReleaseAfterProofs(s1, e, ring) != s1 { MarkStoppedFollows(Issue(s1, ReleaseArenaLease(ring)), e, edge); }
  }

  lemma RejectFollows(s: State, e: nat, reason: LeaseRejection, edge: nat)
    requires HistoryOf(s, edge) && e in s.records && s.records[e].state.WaitingForLease?
    ensures Follows(s, RejectTo(s, e, reason), edge)
  {
    HeardMore(SetRecord(s, e, s.records[e].(state := Failed)), EdgeFaulted(e, LeaseRejected(reason)), edge);
  }

  lemma ReadyFollows(s: State, e: nat, edge: nat)
    requires HistoryOf(s, edge)
    ensures Follows(s, OnDriverReady(s, e), edge)
  {
    if e in s.records {
      HeardMore(SetRecord(s, e, s.records[e].(state := Ready)), EdgeReady(e, s.records[e].actor), edge);
    }
  }

  lemma LeaseFollows(s: State, e: nat, ring: nat, layout: Layout, edge: nat)
    requires HistoryOf(s, edge) && e in s.records
    ensures Follows(s, LeaseTo(s, e, ring, layout), edge)
  {
  }

  lemma ProofFollows(s: State, event: Event, edge: nat)
    requires HistoryOf(s, edge) && (event.PumpStopped? || event.RingQuiesced? || event.QuiescenceProven?)
    ensures Follows(s, Observe(s, event), edge)
  {
    match event
    case PumpStopped(e, ring) =>
      if e in s.records { ProofsFollow(s, e, s.records[e].(pumpStopped := true), ring, edge); }
    case RingQuiesced(ring) =>
      var found := EdgeForRing(s, ring);
      if found.Some? { ProofsFollow(s, found.value, s.records[found.value].(workerRingQuiesced := true), ring, edge); }
    case QuiescenceProven(ring) =>
      var found := EdgeForRing(s, ring);
      if found.Some? { ProofsFollow(s, found.value, s.records[found.value].(quiescenceProven := true), ring, edge); }
  }

  lemma AnswerFollows(s: State, event: Event, edge: nat)
    requires HistoryOf(s, edge) && (event.RingLeased? || event.RingLeaseRejected? || event.DriverEdgeReady?)
    ensures Follows(s, Observe(s, event), edge)
  {
    match event
    case RingLeased(request, ring, layout) =>
      var found := EdgeForRequest(s, request);
      if found.Some? { LeaseFollows(s, found.value, ring, layout, edge); }
    case RingLeaseRejected(request, reason) =>
      var found := EdgeForWaitingRequest(s, request);
      if found.Some? { RejectFollows(s, found.value, reason, edge); }
    case DriverEdgeReady(e) => ReadyFollows(s, e, edge);
  }

  lemma ObserveFollows(s: State, event: Event, edge: nat)
    requires HistoryOf(s, edge)
    requires ProvisionedEdge(event).Some? ==> ProvisionedEdge(event).value !in s.records
    ensures Follows(s, Observe(s, event), edge)
  {
    if event.PumpStopped? || event.RingQuiesced? || event.QuiescenceProven? {
      ProofFollows(s, event, edge);
    } else if event.RingLeased? || event.RingLeaseRejected? || event.DriverEdgeReady? {
      AnswerFollows(s, event, edge);
    } else {
      OtherFollows(s, event, edge);
    }
  }

  lemma OtherFollows(s: State, event: Event, edge: nat)
    requires HistoryOf(s, edge) && !event.PumpStopped? && !event.RingQuiesced? && !event.QuiescenceProven?
    requires !event.RingLeased? && !event.RingLeaseRejected? && !event.DriverEdgeReady?
    requires ProvisionedEdge(event).Some? ==> ProvisionedEdge(event).value !in s.records
    ensures Follows(s, Observe(s, event), edge)
  {
    match event
    case StreamFault(e, reason) => FaultFollows(s, e, StreamFailed(reason), edge);
    case RingFault(e, _, reason) => FaultFollows(s, e, RingFailed(reason), edge);
    case StopEdge(e) => StoppingFollows(s, e, edge);
    case _ =>
  }

  /** No edge id is provisioned twice along the run. */
  predicate ProvisionsOnce(s: State, events: seq<Event>)
    decreases |events|
  {
    events == [] ||
    (&& (ProvisionedEdge(events[0]).Some? ==> ProvisionedEdge(events[0]).value !in s.records)
     && ProvisionsOnce(Observe(s, events[0]), events[1..]))
  }

  /**
   Over any run, an edge never moves back to an earlier state, and what is announced about it is at
   most one ready, then at most one fault, then at most one stop.
   */
  lemma {:induction false} EdgeMovesForward(s: State, events: seq<Event>, edge: nat)
    requires HistoryOf(s, edge) && ProvisionsOnce(s, events)
    ensures Follows(s, Run(s, events), edge)
    decreases |events|
  {
    if events != [] {
      ObserveFollows(s, events[0], edge);
      EdgeMovesForward(Observe(s, events[0]), events[1..], edge);
    }
  }

  /** From the start, an edge is announced ready, faulted and stopped at most once each, in that order. */
  lemma AnnouncedInOrder(node: nat, events: seq<Event>, edge: nat) returns (ready: bool, faulted: bool, stopped: bool)
    requires ProvisionsOnce(New(node), events)
    ensures Said(Run(New(node), events).events, edge) == InOrder(ready, faulted, stopped)
  {
    EdgeMovesForward(New(node), events, edge);
    var s := Run(New(node), events);
    var h := HeardOf(s, edge);
    LawfulIsInOrder(s.events, |s.events|, edge);
    ready, faulted, stopped := h.ready, h.faulted, h.stopped;
  }
}
