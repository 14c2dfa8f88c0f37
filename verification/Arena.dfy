/** The arena manager as a state machine: leases, the pending queue, releases and shutdown. */
module Arena {
  import opened Alignment
  import opened Options
  import opened Placement
  import opened Ranges

  datatype LeaseRequest = LeaseRequest(requestId: nat, spec: RingSpec)

  datatype RingLease = RingLease(requestId: nat, ringId: U64, layout: Layout, requestedAlignment: U64)

  datatype Queued = Queued(request: LeaseRequest, cancelled: bool)

  datatype Phase = Ready | ShuttingDown

  datatype LeaseRejection = CannotFitWithinCeiling | ArenaShuttingDown

  datatype ReleaseRejection = MissingQuiescenceProof | UnknownRingId

  datatype Request =
    | LeaseRing(lease: LeaseRequest)
    | CancelLease(requestId: nat)
    | ReleaseRing(ringId: nat, verified: bool)
    | Shutdown

  datatype Event =
    | RingLeased(lease: RingLease)
    | RingLeaseQueued(requestId: nat)
    | RingLeaseRejected(requestId: nat, reason: LeaseRejection)
    | RingReleased(ringId: nat, startOffset: nat, endOffset: nat)
    | RingReleaseRejected(ringId: nat, why: ReleaseRejection)
    | CancelledFreshLeaseReleased(requestId: nat)

  datatype State = State(
    config: Config,
    phase: Phase,
    nextRingId: U64,
    free: seq<Range>,
    pending: seq<Queued>,
    live: seq<RingLease>,
    index: map<nat, nat>,
    allocationFailures: U64,
    releaseFailures: U64)

  function Boot(config: Config): (s: State) {
    State(config, Ready, 1, [Range(0, config.ceiling)], [], [], map[], 0, 0)
  }

  function SaturatingIncrement(n: U64): (m: U64) {
    if n < U64_MAX then n + 1 else n
  }

  function Extent(lease: RingLease): (r: Range) {
    Range(lease.layout.startOffset, lease.layout.endOffset)
  }

  function Extents(live: seq<RingLease>): (rs: seq<Range>)
    ensures |rs| == |live|
  {
    seq(|live|, i requires 0 <= i < |live| => Extent(live[i]))
  }

  /** The ring ids of the first `n` leases, to their positions. */
  function IndexTo(live: seq<RingLease>, n: nat): (index: map<nat, nat>)
    requires n <= |live|
  {
    if n == 0 then map[] else IndexTo(live, n - 1)[live[n - 1].ringId as nat := n - 1]
  }

  /** Ring ids to positions in allocation order, as rebuilt after every release. */
  function BuildIndex(live: seq<RingLease>): (index: map<nat, nat>) {
    IndexTo(live, |live|)
  }

  function Lookup(s: State, ringId: nat): (r: Option<RingLease>) {
    if ringId in s.index && s.index[ringId] < |s.live| then Some(s.live[s.index[ringId]]) else None
  }

  // ─── allocation ────────────────────────────────────────────────────────────

  predicate FitsIn(config: Config, spec: RingSpec, r: Range) {
    r.start <= U64_MAX && LayoutAt(config, spec, r.start).Some? &&
        LayoutAt(config, spec, r.start).value.endOffset <= r.end
  }

  /** The first free range from position `i` on that holds the ring, or the length of the list. */
  function FirstFit(config: Config, spec: RingSpec, free: seq<Range>, i: nat): (k: nat)
    requires i <= |free|
    ensures i <= k <= |free|
    ensures forall j :: i <= j < k ==> !FitsIn(config, spec, free[j])
    ensures k < |free| ==> FitsIn(config, spec, free[k])
    decreases |free| - i
  {
    if i == |free| || FitsIn(config, spec, free[i]) then i else FirstFit(config, spec, free, i + 1)
  }

  predicate Fits(s: State, spec: RingSpec) {
    FirstFit(s.config, spec, s.free, 0) < |s.free|
  }

  function TryAllocate(s: State, request: LeaseRequest): (r: (State, Option<RingLease>)) {
    var k := FirstFit(s.config, request.spec, s.free, 0);
    if k == |s.free| then (s, None)
    else
      var layout := LayoutAt(s.config, request.spec, s.free[k].start).value;
      var carved := s.(free := Carve(s.free, k, layout.startOffset, layout.endOffset));
      if s.nextRingId == U64_MAX then (carved, None)
      else
        var lease := RingLease(request.requestId, s.nextRingId, layout, request.spec.alignment);
        (carved.(nextRingId := s.nextRingId + 1,
                 live := s.live + [lease],
                 index := s.index[s.nextRingId as nat := |s.live|]),
         Some(lease))
  }

  // ─── requests ──────────────────────────────────────────────────────────────

  function Lease(s: State, request: LeaseRequest): (r: (State, seq<Event>)) {
    if s.phase.ShuttingDown? then
      (s.(allocationFailures := SaturatingIncrement(s.allocationFailures)),
       [RingLeaseRejected(request.requestId, ArenaShuttingDown)])
    else if LayoutAt(s.config, request.spec, 0).None? then
      (s.(allocationFailures := SaturatingIncrement(s.allocationFailures)),
       [RingLeaseRejected(request.requestId, CannotFitWithinCeiling)])
    else
      var (s', lease) := if s.pending == [] then TryAllocate(s, request) else (s, None);
      if lease.Some? then (s', [RingLeased(lease.value)])
      else (s'.(pending := s'.pending + [Queued(request, false)]), [RingLeaseQueued(request.requestId)])
  }

  function MarkCancelled(pending: seq<Queued>, requestId: nat): (pending': seq<Queued>)
    ensures |pending'| == |pending|
  {
    seq(|pending|, i requires 0 <= i < |pending| =>
      if pending[i].request.requestId == requestId then pending[i].(cancelled := true) else pending[i])
  }

  /** Settles the head of the queue if it can be settled: a cancelled request ends, one that fits is granted. */
  function RetryHead(s: State): (r: (State, Option<Event>))
    requires s.pending != []
    ensures r.1.Some? ==> r.0.pending == s.pending[1..]
    ensures r.1.None? ==> r.0.pending == s.pending
  {
    var head, rest := s.pending[0], s.(pending := s.pending[1..]);
    if head.cancelled then (rest, Some(CancelledFreshLeaseReleased(head.request.requestId)))
    else
      var (s', lease) := TryAllocate(rest, head.request);
      if lease.Some? then (s', Some(RingLeased(lease.value))) else (s'.(pending := [head] + s'.pending), None)
  }

  /** Settles the queue from the front, stopping at the first request that does not fit. */
  function Retry(s: State): (r: (State, seq<Event>))
    decreases |s.pending|
  {
    if s.pending == [] then (s, [])
    else
      var (s1, event) := RetryHead(s);
      if event.None? then (s1, []) else (Retry(s1).0, [event.value] + Retry(s1).1)
  }

  /** The state once the `i`-th lease has gone back to the free list. */
  function Returned(s: State, i: nat): (s': State)
    requires i < |s.live|
  {
    var live' := s.live[..i] + s.live[i + 1..];
    s.(live := live', index := BuildIndex(live'), free := ReturnRange(s.free, Extent(s.live[i])))
  }

  function Release(s: State, ringId: nat, verified: bool): (r: (State, seq<Event>)) {
    if ringId !in s.index || s.index[ringId] >= |s.live| then
      (s.(releaseFailures := SaturatingIncrement(s.releaseFailures)), [RingReleaseRejected(ringId, UnknownRingId)])
    else if !verified then
      (s.(releaseFailures := SaturatingIncrement(s.releaseFailures)),
          [RingReleaseRejected(ringId, MissingQuiescenceProof)])
    else
      var i := s.index[ringId];
      var released := RingReleased(ringId, s.live[i].layout.startOffset, s.live[i].layout.endOffset);
      if s.phase.Ready? then
        var (s', events) := Retry(Returned(s, i));
        (s', [released] + events)
      else (Returned(s, i), [released])
  }

  /** The last word to a waiting request when the arena shuts down. */
  function Dismissal(q: Queued): (event: Event) {
    if q.cancelled then CancelledFreshLeaseReleased(q.request.requestId)
    else RingLeaseRejected(q.request.requestId, ArenaShuttingDown)
  }

  function DrainPending(pending: seq<Queued>): (events: seq<Event>) {
    if pending == [] then [] else [Dismissal(pending[0])] + DrainPending(pending[1..])
  }

  lemma DrainFirst(events: seq<Event>, pending: seq<Queued>)
    requires pending != []
    ensures events + DrainPending(pending) == events + [Dismissal(pending[0])] + DrainPending(pending[1..])
  {
  }

  function Handle(s: State, request: Request): (r: (State, seq<Event>)) {
    match request
    case LeaseRing(lease) => Lease(s, lease)
    case CancelLease(id) => (s.(pending := MarkCancelled(s.pending, id)), [])
    case ReleaseRing(ringId, verified) => Release(s, ringId, verified)
    case Shutdown => (s.(phase := ShuttingDown, pending := []), DrainPending(s.pending))
  }

  function Run(s: State, requests: seq<Request>): (r: (State, seq<seq<Event>>))
    decreases |requests|
  {
    if requests == [] then (s, [])
    else
      var (s1, events) := Handle(s, requests[0]);
      var (s', more) := Run(s1, requests[1..]);
      (s', [events] + more)
  }

  // ─── invariants ────────────────────────────────────────────────────────────

  ghost predicate Tiled(s: State) {
    Tiles(s.free, Extents(s.live), s.config.ceiling)
  }

  predicate IdsAscend(live: seq<RingLease>, bound: nat) {
    && (forall i :: 0 <= i < |live| ==> live[i].ringId < bound)
    && (forall i, j :: 0 <= i < j < |live| ==> live[i].ringId < live[j].ringId)
  }

  /** Ids grow in allocation order, none was ever handed out twice, and the index finds each lease. */
  ghost predicate Indexed(s: State) {
    IdsAscend(s.live, s.nextRingId) && s.index == BuildIndex(s.live)
  }

  /** The request would fit an empty arena. */
  predicate Waitable(config: Config, q: Queued) {
    LayoutAt(config, q.request.spec, 0).Some?
  }

  predicate AllWaitable(config: Config, pending: seq<Queued>) {
    forall i :: 0 <= i < |pending| ==> Waitable(config, pending[i])
  }

  /** With no lease live the free list is the whole arena; otherwise the head of the queue waits for room. */
  ghost predicate QueueJustified(s: State) {
    && AllWaitable(s.config, s.pending)
    && (s.live == [] ==> s.free == [Range(0, s.config.ceiling)])
    && (s.phase.ShuttingDown? ==> s.pending == [])
    && (s.pending != [] ==> s.live != [])
    && (s.pending != [] && !s.pending[0].cancelled ==> !Fits(s, s.pending[0].request.spec))
  }

  ghost predicate Inv(s: State) {
    s.config.ceiling > 0 && Tiled(s) && Indexed(s) && QueueJustified(s)
  }

  lemma AllocateKeepsTiling(s: State, request: LeaseRequest)
    requires Tiled(s) && s.nextRingId < U64_MAX
    ensures Tiled(TryAllocate(s, request).0)
  {
    var k := FirstFit(s.config, request.spec, s.free, 0);
    if k < |s.free| {
      var (s', lease) := TryAllocate(s, request);
      var r := Extent(lease.value);
      LayoutIsPlacement(s.config, request.spec, s.free[k].start);
      assert Extents(s'.live) == Extents(s.live) + [r];
      TakeKeepsTiling(s.free, Extents(s.live), s.config.ceiling, k, r);
    }
  }

  lemma PushKeepsIds(live: seq<RingLease>, lease: RingLease)
    requires IdsAscend(live, lease.ringId)
    ensures IdsAscend(live + [lease], lease.ringId + 1)
  {
    var live' := live + [lease];
    forall i, j | 0 <= i < j < |live'| ensures live'[i].ringId < live'[j].ringId {
      assert live'[i] == live[i];
      if j < |live| { assert live'[j] == live[j]; }
    }
  }

  lemma {:induction false} IndexIsLocal(live: seq<RingLease>, lease: RingLease, n: nat)
    requires n <= |live|
    ensures IndexTo(live + [lease], n) == IndexTo(live, n)
    decreases n
  {
    if n > 0 { IndexIsLocal(live, lease, n - 1); }
  }

  lemma PushIndexes(live: seq<RingLease>, lease: RingLease)
    ensures BuildIndex(live + [lease]) == BuildIndex(live)[lease.ringId as nat := |live|]
  {
    IndexIsLocal(live, lease, |live|);
  }

  lemma AllocateKeepsIndex(s: State, request: LeaseRequest)
    requires Indexed(s)
    ensures Indexed(TryAllocate(s, request).0)
  {
    var lease := TryAllocate(s, request).1;
    if lease.Some? {
      PushKeepsIds(s.live, lease.value);
      PushIndexes(s.live, lease.value);
    }
  }

  lemma {:induction false} IndexFindsTo(live: seq<RingLease>, bound: nat, n: nat)
    requires IdsAscend(live, bound) && n <= |live|
    ensures forall i :: 0 <= i < n ==>
              live[i].ringId as nat in IndexTo(live, n) && IndexTo(live, n)[live[i].ringId as nat] == i
    ensures forall id :: id in IndexTo(live, n) ==> IndexTo(live, n)[id] < n && live[IndexTo(live, n)[id]].ringId == id
    decreases n
  {
    if n > 0 { IndexFindsTo(live, bound, n - 1); }
  }

  /** The index and the allocation order agree on every ring id. */
  lemma IndexFinds(live: seq<RingLease>)
    requires exists bound :: IdsAscend(live, bound)
    ensures forall i :: 0 <= i < |live| ==>
              live[i].ringId as nat in BuildIndex(live) && BuildIndex(live)[live[i].ringId as nat] == i
    ensures forall id :: id in BuildIndex(live) ==>
              BuildIndex(live)[id] < |live| && live[BuildIndex(live)[id]].ringId == id
  {
    var bound :| IdsAscend(live, bound);
    IndexFindsTo(live, bound, |live|);
  }

  // A request that fits an empty arena fits whenever no lease is live.
  lemma NothingLiveFits(s: State, spec: RingSpec)
    requires s.free == [Range(0, s.config.ceiling)]
    requires LayoutAt(s.config, spec, 0).Some?
    ensures Fits(s, spec)
  {
    assert FitsIn(s.config, spec, s.free[0]);
  }

  lemma ExtentsWithout(live: seq<RingLease>, i: nat)
    requires i < |live|
    ensures Extents(live[..i] + live[i + 1..]) == RemoveAt(Extents(live), i)
  {
  }

  lemma RemoveKeepsTiling(s: State, i: nat)
    requires Tiled(s) && i < |s.live|
    ensures Tiled(Returned(s, i)) && Separated(Returned(s, i).free, s.config.ceiling)
  {
    ExtentsWithout(s.live, i);
    ReturnKeepsTiling(s.free, Extents(s.live), s.config.ceiling, i);
  }

  /** Everything the state must satisfy while the queue is being retried. */
  ghost predicate Settling(s: State) {
    && s.config.ceiling > 0 && Tiled(s) && Indexed(s) && s.phase.Ready?
    && AllWaitable(s.config, s.pending)
    && (s.live == [] ==> s.free == [Range(0, s.config.ceiling)])
  }

  lemma WaitableTail(config: Config, pending: seq<Queued>)
    requires AllWaitable(config, pending) && pending != []
    ensures Waitable(config, pending[0]) && AllWaitable(config, pending[1..])
  {
    assert forall i :: 0 <= i < |pending| - 1 ==> pending[1..][i] == pending[i + 1];
  }

  lemma GrantSettles(s: State, request: LeaseRequest)
    requires Settling(s) && s.nextRingId < U64_MAX - 1 && TryAllocate(s, request).1.Some?
    ensures Settling(TryAllocate(s, request).0)
  {
    AllocateKeepsTiling(s, request);
    AllocateKeepsIndex(s, request);
  }

  lemma StuckIsJustified(s: State)
    requires Settling(s) && s.pending != [] && s.nextRingId < U64_MAX
    requires !s.pending[0].cancelled && TryAllocate(s.(pending := s.pending[1..]), s.pending[0].request).1.None?
    ensures RetryHead(s).0 == s && Inv(s)
  {
    var head, rest := s.pending[0], s.(pending := s.pending[1..]);
    assert [head] + rest.pending == s.pending;
    WaitableTail(s.config, s.pending);
    if s.live == [] { NothingLiveFits(rest, head.request.spec); }
  }

  // A head that is settled leaves the rest to be retried; one that is not ends the pass.
  lemma HeadSettles(s: State)
    requires Settling(s) && s.pending != [] && s.nextRingId + |s.pending| < U64_MAX
    ensures var (s1, event) := RetryHead(s);
            && (event.Some? ==> Settling(s1) && s1.nextRingId + |s1.pending| <= s.nextRingId + |s.pending|)
            && (event.None? ==> s1 == s && Inv(s))
  {
    var head, rest := s.pending[0], s.(pending := s.pending[1..]);
    WaitableTail(s.config, s.pending);
    assert Settling(rest);
    if !head.cancelled {
      if TryAllocate(rest, head.request).1.Some? { GrantSettles(rest, head.request); } else { StuckIsJustified(s); }
    }
  }

  lemma {:induction false} RetrySettles(s: State)
    requires Settling(s) && s.nextRingId + |s.pending| < U64_MAX
    ensures Inv(Retry(s).0)
    ensures Retry(s).0.nextRingId + |Retry(s).0.pending| <= s.nextRingId + |s.pending|
    decreases |s.pending|
  {
    if s.pending != [] {
      HeadSettles(s);
      if RetryHead(s).1.Some? { RetrySettles(RetryHead(s).0); }
    }
  }

  lemma RemovalKeepsIds(live: seq<RingLease>, i: nat, bound: nat)
    requires IdsAscend(live, bound) && i < |live|
    ensures IdsAscend(live[..i] + live[i + 1..], bound)
  {
    var live' := live[..i] + live[i + 1..];
    assert forall k :: 0 <= k < |live'| ==> live'[k] == live[if k < i then k else k + 1];
  }

  lemma NothingLiveIsWhole(s: State)
    requires s.config.ceiling > 0 && Tiled(s) && Separated(s.free, s.config.ceiling) && s.live == []
    ensures s.free == [Range(0, s.config.ceiling)]
  {
    assert Extents(s.live) == [];
    assert forall x: nat :: x < s.config.ceiling ==> Covered(s.free, x);
    WholeWhenCovered(s.free, s.config.ceiling);
  }

  lemma ReturnedSettles(s: State, i: nat)
    requires Inv(s) && i < |s.live|
    ensures var s' := Returned(s, i);
            Tiled(s') && Indexed(s') && (s'.live == [] ==> s'.free == [Range(0, s.config.ceiling)])
  {
    RemoveKeepsTiling(s, i);
    RemovalKeepsIds(s.live, i, s.nextRingId);
    if Returned(s, i).live == [] { NothingLiveIsWhole(Returned(s, i)); }
  }

  lemma LeaseKeepsInv(s: State, request: LeaseRequest)
    requires Inv(s) && s.nextRingId + |s.pending| < U64_MAX
    ensures Inv(Lease(s, request).0)
    ensures var s' := Lease(s, request).0; s'.nextRingId + |s'.pending| <= s.nextRingId + |s.pending| + 1
  {
    if s.phase.Ready? && LayoutAt(s.config, request.spec, 0).Some? && s.pending == [] {
      if Fits(s, request.spec) {
        AllocateKeepsTiling(s, request);
        AllocateKeepsIndex(s, request);
        assert QueueJustified(Lease(s, request).0);
      } else if s.live == [] {
        NothingLiveFits(s, request.spec);
      }
    }
  }

  lemma ReleaseKeepsInv(s: State, ringId: nat, verified: bool)
    requires Inv(s) && s.nextRingId + |s.pending| < U64_MAX
    ensures Inv(Release(s, ringId, verified).0)
    ensures var s' := Release(s, ringId, verified).0; s'.nextRingId + |s'.pending| <= s.nextRingId + |s.pending|
  {
    if ringId in s.index && s.index[ringId] < |s.live| && verified {
      var i := s.index[ringId];
      ReturnedSettles(s, i);
      if s.phase.Ready? { RetrySettles(Returned(s, i)); }
    }
  }

  lemma CancelKeepsInv(s: State, id: nat)
    requires Inv(s)
    ensures Inv(s.(pending := MarkCancelled(s.pending, id)))
  {
  }

  /** Every request keeps the invariant, and uses up at most one ring id per lease ever asked for. */
  lemma HandleKeepsInv(s: State, request: Request)
    requires Inv(s) && s.nextRingId + |s.pending| < U64_MAX
    ensures Inv(Handle(s, request).0)
    ensures var s' := Handle(s, request).0;
            s'.nextRingId + |s'.pending| <= s.nextRingId + |s.pending| + if request.LeaseRing? then 1 else 0
  {
    match request
    case LeaseRing(lease) => LeaseKeepsInv(s, lease);
    case CancelLease(id) => CancelKeepsInv(s, id);
    case ReleaseRing(ringId, verified) => ReleaseKeepsInv(s, ringId, verified);
    case Shutdown =>
  }

  function LeaseCount(requests: seq<Request>): (n: nat) {
    if requests == [] then 0 else (if requests[0].LeaseRing? then 1 else 0) + LeaseCount(requests[1..])
  }

  lemma {:induction false} RunKeepsInv(s: State, requests: seq<Request>)
    requires Inv(s) && s.nextRingId + |s.pending| + LeaseCount(requests) < U64_MAX
    ensures Inv(Run(s, requests).0)
    decreases |requests|
  {
    if requests != [] {
      HandleKeepsInv(s, requests[0]);
      RunKeepsInv(Handle(s, requests[0]).0, requests[1..]);
    }
  }

  lemma BootIsSound(config: Config)
    requires config.ceiling > 0
    ensures Inv(Boot(config))
  {
    var s, r := Boot(config), Range(0, config.ceiling);
    assert Extents(s.live) == [] && s.free == [] + [r];
    Push([], r, config.ceiling, 0);
    forall x: nat | x < config.ceiling ensures Covered(s.free, x) && !Covered(Extents(s.live), x) {
      Push([], r, config.ceiling, x);
    }
  }

  // ─── what holds after any run of requests ──────────────────────────────────

  lemma ExtentsCover(live: seq<RingLease>, x: nat)
    ensures Covered(Extents(live), x) <==> exists l :: l in live && Contains(Extent(l), x)
  {
    var rs := Extents(live);
    CoveredMeans(rs, x);
    if l :| l in live && Contains(Extent(l), x) {
      var k :| 0 <= k < |live| && live[k] == l;
      assert rs[k] in rs;
    }
    if r :| r in rs && Contains(r, x) {
      var k :| 0 <= k < |rs| && rs[k] == r;
      assert live[k] in live;
    }
  }

  lemma LiveLeasesAreApart(live: seq<RingLease>)
    requires Apart(Extents(live))
    ensures forall i, j :: 0 <= i < j < |live| ==> Disjoint(Extent(live[i]), Extent(live[j]))
  {
    ApartMeans(Extents(live));
    assert forall i :: 0 <= i < |live| ==> Extent(live[i]) == Extents(live)[i];
  }

  /**
   After any run of requests the free list is sorted without empty ranges, and every byte of the
   arena lies in exactly one free range or exactly one live lease.
   */
  lemma RunTilesArena(config: Config, requests: seq<Request>, x: nat)
    requires config.ceiling > 0 && LeaseCount(requests) < U64_MAX - 1
    requires x < config.ceiling
    ensures var s := Run(Boot(config), requests).0;
            && (forall i :: 0 <= i < |s.free| ==> s.free[i].start < s.free[i].end <= config.ceiling)
            && (forall i, j :: 0 <= i < j < |s.free| ==> s.free[i].end <= s.free[j].start)
            && (forall i, j :: 0 <= i < j < |s.live| ==> Disjoint(Extent(s.live[i]), Extent(s.live[j])))
            && ((exists r :: r in s.free && Contains(r, x)) <==> !(exists l :: l in s.live && Contains(Extent(l), x)))
  {
    BootIsSound(config);
    RunKeepsInv(Boot(config), requests);
    RunKeepsConfig(Boot(config), requests);
    TiledMeans(Run(Boot(config), requests).0, x);
  }

  lemma TiledMeans(s: State, x: nat)
    requires Tiled(s) && x < s.config.ceiling
    ensures forall i :: 0 <= i < |s.free| ==> s.free[i].start < s.free[i].end <= s.config.ceiling
    ensures forall i, j :: 0 <= i < j < |s.free| ==> s.free[i].end <= s.free[j].start
    ensures forall i, j :: 0 <= i < j < |s.live| ==> Disjoint(Extent(s.live[i]), Extent(s.live[j]))
    ensures (exists r :: r in s.free && Contains(r, x)) <==> !(exists l :: l in s.live && Contains(Extent(l), x))
  {
    OrderedMeans(s.free, s.config.ceiling);
    LiveLeasesAreApart(s.live);
    CoveredMeans(s.free, x);
    ExtentsCover(s.live, x);
  }

  lemma {:induction false} RunKeepsConfig(s: State, requests: seq<Request>)
    ensures Run(s, requests).0.config == s.config
    decreases |requests|
  {
    if requests != [] {
      HandleKeepsConfig(s, requests[0]);
      RunKeepsConfig(Handle(s, requests[0]).0, requests[1..]);
    }
  }

  lemma HandleKeepsConfig(s: State, request: Request)
    ensures Handle(s, request).0.config == s.config
  {
    if request.ReleaseRing? && request.ringId in s.index && s.index[request.ringId] < |s.live| {
      RetryKeepsConfig(Returned(s, s.index[request.ringId]));
    }
  }

  lemma {:induction false} RetryKeepsConfig(s: State)
    ensures Retry(s).0.config == s.config
    decreases |s.pending|
  {
    if s.pending != [] && RetryHead(s).1.Some? { RetryKeepsConfig(RetryHead(s).0); }
  }

  /** Looking a ring up finds it exactly while it is live, and finds the lease that was granted. */
  lemma LookupAgreesWithLive(config: Config, requests: seq<Request>, ringId: nat)
    requires config.ceiling > 0 && LeaseCount(requests) < U64_MAX - 1
    ensures var s := Run(Boot(config), requests).0;
            && (Lookup(s, ringId).Some? <==> exists l :: l in s.live && l.ringId == ringId)
            && (Lookup(s, ringId).Some? ==>
                   Lookup(s, ringId).value in s.live && Lookup(s, ringId).value.ringId == ringId)
  {
    BootIsSound(config);
    RunKeepsInv(Boot(config), requests);
    IndexFinds(Run(Boot(config), requests).0.live);
  }

  /** The sampled live bytes, computed from the free list alone, are the bytes of the live leases. */
  lemma SampledBytesAreLiveBytes(config: Config, requests: seq<Request>)
    requires config.ceiling > 0 && LeaseCount(requests) < U64_MAX - 1
    ensures var s := Run(Boot(config), requests).0;
            config.ceiling - TotalSize(s.free) == TotalSize(Extents(s.live))
  {
    BootIsSound(config);
    RunKeepsInv(Boot(config), requests);
    RunKeepsConfig(Boot(config), requests);
  }

  /**
   Nobody waits on an idle arena: a non-empty queue means some lease is live, and its head, unless
   it has been cancelled, fits no free range.
   */
  lemma WaitingIsJustified(config: Config, requests: seq<Request>)
    requires config.ceiling > 0 && LeaseCount(requests) < U64_MAX - 1
    ensures var s := Run(Boot(config), requests).0;
            s.pending != [] ==>
              && s.phase.Ready? && s.live != []
              && (!s.pending[0].cancelled ==>
                    forall k :: 0 <= k < |s.free| ==> !FitsIn(s.config, s.pending[0].request.spec, s.free[k]))
  {
    BootIsSound(config);
    RunKeepsInv(Boot(config), requests);
  }

  /**
   First fit passes over a range only if that range holds no aligned placement at all, but for the
   overflow exception; a request that fails has passed over every range.
   */
  lemma FirstFitIsComplete(s: State, request: LeaseRequest, k: nat)
    requires Tiled(s) && s.nextRingId < U64_MAX
    requires k < FirstFit(s.config, request.spec, s.free, 0)
    ensures TryAllocate(s, request).1.None? <==> FirstFit(s.config, request.spec, s.free, 0) == |s.free|
    ensures Placeable(s.config, request.spec, s.free[k].start, s.free[k].end) <==>
              && LcmOverflows(s.config, request.spec)
              && s.free[k].start == 0 && request.spec.headerBytes == 0 && request.spec.dataBytes <= s.free[k].end
  {
    OrderedMeans(s.free, s.config.ceiling);
    LayoutIsComplete(s.config, request.spec, s.free[k].start, s.free[k].end);
  }

  /** A success is the lowest aligned placement of the first range that has one. */
  lemma FirstFitTakesLowest(s: State, request: LeaseRequest, a: nat, d: nat, e: nat)
    requires Tiled(s) && TryAllocate(s, request).1.Some?
    requires var f := FirstFit(s.config, request.spec, s.free, 0);
             f < |s.free| && s.free[f].start <= a && e <= s.free[f].end
    requires IsPlacement(s.config, request.spec, a, d, e)
    ensures var layout := TryAllocate(s, request).1.value.layout;
            && layout.startOffset <= a && layout.endOffset <= e
            && IsPlacement(s.config, request.spec, layout.startOffset, layout.dataOffset, layout.endOffset)
  {
    var f := FirstFit(s.config, request.spec, s.free, 0);
    OrderedMeans(s.free, s.config.ceiling);
    LayoutIsLowest(s.config, request.spec, s.free[f].start, a, d, e);
    LayoutIsPlacement(s.config, request.spec, s.free[f].start);
  }

  /** The layout first fit finds is not empty. */
  predicate TakesSpace(s: State, spec: RingSpec)
    requires Tiled(s) && Fits(s, spec)
  {
    var layout := LayoutAt(s.config, spec, s.free[FirstFit(s.config, spec, s.free, 0)].start).value;
    layout.startOffset < layout.endOffset
  }

  /** With the ring ids used up an allocation fails after it has taken the range out of the free list. */
  lemma ExhaustedIdsLoseTheRange(s: State, request: LeaseRequest)
    requires Tiled(s) && Fits(s, request.spec) && TakesSpace(s, request.spec)
    ensures TryAllocate(s, request).1.None? <==> s.nextRingId == U64_MAX
    ensures Tiled(TryAllocate(s, request).0) <==> s.nextRingId < U64_MAX
  {
    var f := FirstFit(s.config, request.spec, s.free, 0);
    var layout := LayoutAt(s.config, request.spec, s.free[f].start).value;
    LayoutIsPlacement(s.config, request.spec, s.free[f].start);
    if s.nextRingId < U64_MAX {
      AllocateKeepsTiling(s, request);
    } else {
      CarveTakesExactly(s.free, f, layout.startOffset, layout.endOffset, s.config.ceiling, 0);
    }
  }

  /** The smallest arena with its ring ids used up: a ring that fits takes all of it and is not granted. */
  lemma ExhaustedIdsLoseAnArena() returns (s: State, request: LeaseRequest)
    ensures s == Boot(Config(64, 1)).(nextRingId := U64_MAX) && request == LeaseRequest(1, RingSpec(8, 56, 1))
    ensures Tiled(s) && TryAllocate(s, request).1.None? && !Tiled(TryAllocate(s, request).0)
  {
    s, request := Boot(Config(64, 1)).(nextRingId := U64_MAX), LeaseRequest(1, RingSpec(8, 56, 1));
    BootIsSound(Config(64, 1));
    SmallestLayout();
    assert FirstFit(s.config, request.spec, s.free, 0) == 0;
    ExhaustedIdsLoseTheRange(s, request);
  }

  lemma SmallestLayout()
    ensures LayoutAt(Config(64, 1), RingSpec(8, 56, 1), 0) == Some(Layout(0, 8, 64, 56, 1))
  {
    assert Gcd(1, 1) == Gcd(1, 0) == 1;
  }

  // ─── the queue over a run ──────────────────────────────────────────────────

  function PendingIds(pending: seq<Queued>): (ids: seq<nat>)
    ensures |ids| == |pending|
  {
    seq(|pending|, i requires 0 <= i < |pending| => pending[i].request.requestId)
  }

  function QueuedIds(events: seq<Event>): (ids: seq<nat>) {
    if events == [] then []
    else (if events[0].RingLeaseQueued? then [events[0].requestId] else []) + QueuedIds(events[1..])
  }

  /** The request an event answers for good: with a lease, a refusal, or as the end of a cancelled one. */
  function AnswerOf(event: Event): (ids: seq<nat>) {
    match event
    case RingLeased(lease) => [lease.requestId]
    case RingLeaseRejected(id, _) => [id]
    case CancelledFreshLeaseReleased(id) => [id]
    case _ => []
  }

  function AnsweredIds(events: seq<Event>): (ids: seq<nat>) {
    if events == [] then [] else AnswerOf(events[0]) + AnsweredIds(events[1..])
  }

  lemma AnswersAfter(first: Event, events: seq<Event>)
    ensures AnsweredIds([first] + events) == AnswerOf(first) + AnsweredIds(events)
    ensures !first.RingLeaseQueued? ==> QueuedIds([first] + events) == QueuedIds(events)
  {
    assert ([first] + events)[1..] == events;
  }

  lemma PendingAfter(pending: seq<Queued>)
    requires pending != []
    ensures PendingIds(pending) == [pending[0].request.requestId] + PendingIds(pending[1..])
  {
  }

  /** Final answers to requests that had been queued; a lease request answers only itself. */
  function QueueAnswers(request: Request, events: seq<Event>): (ids: seq<nat>) {
    if request.LeaseRing? then [] else AnsweredIds(events)
  }

  function AllQueued(events: seq<seq<Event>>): (ids: seq<nat>) {
    if events == [] then [] else QueuedIds(events[0]) + AllQueued(events[1..])
  }

  function AllAnswers(requests: seq<Request>, events: seq<seq<Event>>): (ids: seq<nat>)
    requires |requests| == |events|
  {
    if requests == [] then [] else QueueAnswers(requests[0], events[0]) + AllAnswers(requests[1..], events[1..])
  }

  lemma {:induction false} RetryAnswersInOrder(s: State)
    ensures PendingIds(s.pending) == AnsweredIds(Retry(s).1) + PendingIds(Retry(s).0.pending)
    ensures QueuedIds(Retry(s).1) == []
    decreases |s.pending|
  {
    if s.pending != [] && RetryHead(s).1.Some? {
      var (s1, event) := RetryHead(s);
      RetryAnswersInOrder(s1);
      PendingAfter(s.pending);
      AnswersAfter(event.value, Retry(s1).1);
    }
  }

  lemma {:induction false} DrainAnswersInOrder(pending: seq<Queued>)
    ensures AnsweredIds(DrainPending(pending)) == PendingIds(pending)
    ensures QueuedIds(DrainPending(pending)) == []
    decreases |pending|
  {
    if pending != [] {
      DrainAnswersInOrder(pending[1..]);
      PendingAfter(pending);
      AnswersAfter(DrainPending(pending)[0], DrainPending(pending[1..]));
    }
  }

  lemma ReleaseIsFifo(s: State, ringId: nat, verified: bool)
    ensures var (s', events) := Release(s, ringId, verified);
            PendingIds(s.pending) == AnsweredIds(events) + PendingIds(s'.pending) && QueuedIds(events) == []
  {
    var (s', events) := Release(s, ringId, verified);
    if ringId in s.index && s.index[ringId] < |s.live| && verified && s.phase.Ready? {
      var s1 := Returned(s, s.index[ringId]);
      RetryAnswersInOrder(s1);
      AnswersAfter(events[0], Retry(s1).1);
    } else {
      AnswersAfter(events[0], []);
      assert s'.pending == s.pending && events == [events[0]] + [];
    }
  }

  /** One request appends what it queues to the back and answers from the front. */
  lemma HandleIsFifo(s: State, request: Request)
    ensures var (s', events) := Handle(s, request);
            PendingIds(s.pending) + QueuedIds(events) == QueueAnswers(request, events) + PendingIds(s'.pending)
  {
    match request
    case LeaseRing(lease) => LeaseAnswersItself(s, lease);
    case CancelLease(id) =>
      assert PendingIds(MarkCancelled(s.pending, id)) == PendingIds(s.pending);
    case ReleaseRing(ringId, verified) => ReleaseIsFifo(s, ringId, verified);
    case Shutdown => DrainAnswersInOrder(s.pending);
  }

  /** A lease request is answered or queued at once, itself alone, and never jumps a queue. */
  lemma LeaseAnswersItself(s: State, request: LeaseRequest)
    ensures var (s', events) := Lease(s, request);
            && |events| == 1 && QueuedIds(events) + AnsweredIds(events) == [request.requestId]
            && PendingIds(s'.pending) == PendingIds(s.pending) + QueuedIds(events)
            && (s.pending != [] ==> !events[0].RingLeased?)
  {
    var (s', events) := Lease(s, request);
    assert events[1..] == [];
  }

  lemma ChainFifo(p: seq<nat>, q: seq<nat>, a: seq<nat>, p1: seq<nat>, q2: seq<nat>, a2: seq<nat>, p2: seq<nat>)
    requires p + q == a + p1 && p1 + q2 == a2 + p2
    ensures p + (q + q2) == (a + a2) + p2
  {
    assert p + (q + q2) == (p + q) + q2;
    assert (a + p1) + q2 == a + (p1 + q2);
    assert a + (a2 + p2) == (a + a2) + p2;
  }

  /**
   Over a whole run, the queued requests in order of arrival are the requests answered from the queue,
   in order, followed by those still waiting: none is overtaken, lost, or answered twice.
   */
  lemma {:induction false} QueueIsFifo(s: State, requests: seq<Request>)
    ensures var (s', events) := Run(s, requests);
            && |events| == |requests|
            && PendingIds(s.pending) + AllQueued(events) == AllAnswers(requests, events) + PendingIds(s'.pending)
    decreases |requests|
  {
    if requests != [] {
      var (s1, events) := Handle(s, requests[0]);
      var (s', more) := Run(s1, requests[1..]);
      HandleIsFifo(s, requests[0]);
      QueueIsFifo(s1, requests[1..]);
      assert ([events] + more)[1..] == more;
      ChainFifo(PendingIds(s.pending), QueuedIds(events), QueueAnswers(requests[0], events), PendingIds(s1.pending),
                AllQueued(more), AllAnswers(requests[1..], more), PendingIds(s'.pending));
    }
  }

  // ─── cancellation over a run ───────────────────────────────────────────────

  predicate IsGrant(event: Event, id: nat) {
    event.RingLeased? && event.lease.requestId == id
  }

  /** The grants under one request id among these events. */
  function GrantCount(events: seq<Event>, id: nat): (n: nat) {
    if events == [] then 0 else (if IsGrant(events[0], id) then 1 else 0) + GrantCount(events[1..], id)
  }

  /** The grants under one request id in the first `k` answers. */
  function GrantsTo(answers: seq<seq<Event>>, k: nat, id: nat): (n: nat)
    requires k <= |answers|
  {
    if k == 0 then 0 else GrantCount(answers[0], id) + GrantsTo(answers[1..], k - 1, id)
  }

  predicate IsAsk(request: Request, id: nat) {
    request.LeaseRing? && request.lease.requestId == id
  }

  function AsksTo(requests: seq<Request>, k: nat, id: nat): (n: nat)
    requires k <= |requests|
  {
    if k == 0 then 0 else (if IsAsk(requests[0], id) then 1 else 0) + AsksTo(requests[1..], k - 1, id)
  }

  predicate Awaits(q: Queued, id: nat) {
    q.request.requestId == id && !q.cancelled
  }

  /** The queued entries of one request id that were not cancelled. */
  function AwaitCount(pending: seq<Queued>, id: nat): (n: nat) {
    if pending == [] then 0 else (if Awaits(pending[0], id) then 1 else 0) + AwaitCount(pending[1..], id)
  }

  lemma {:induction false} AwaitOneMore(pending: seq<Queued>, q: Queued, id: nat)
    ensures AwaitCount(pending + [q], id) == AwaitCount(pending, id) + if Awaits(q, id) then 1 else 0
    decreases |pending|
  {
    if pending == [] {
      assert [] + [q] == [q] && [q][1..] == [];
    } else {
      AwaitOneMore(pending[1..], q, id);
      assert (pending + [q])[1..] == pending[1..] + [q];
    }
  }

  lemma {:induction false} CancelCounts(pending: seq<Queued>, cancelled: nat, id: nat)
    ensures AwaitCount(MarkCancelled(pending, cancelled), id) ==
              if cancelled == id then 0 else AwaitCount(pending, id)
    decreases |pending|
  {
    if pending != [] {
      CancelCounts(pending[1..], cancelled, id);
      assert MarkCancelled(pending, cancelled)[1..] == MarkCancelled(pending[1..], cancelled);
    }
  }

  lemma GrantsAfterFirst(first: Event, events: seq<Event>, id: nat)
    ensures GrantCount([first] + events, id) == (if IsGrant(first, id) then 1 else 0) + GrantCount(events, id)
  {
    assert ([first] + events)[1..] == events;
  }

  /** Retrying the queue grants each entry at most once, and only if it was not cancelled. */
  lemma {:induction false} RetryCounts(s: State, id: nat)
    ensures GrantCount(Retry(s).1, id) + AwaitCount(Retry(s).0.pending, id) == AwaitCount(s.pending, id)
    decreases |s.pending|
  {
    if s.pending != [] {
      var (s1, event) := RetryHead(s);
      if event.Some? {
        RetryCounts(s1, id);
        GrantsAfterFirst(event.value, Retry(s1).1, id);
      }
    }
  }

  lemma {:induction false} DrainCounts(pending: seq<Queued>, id: nat)
    ensures GrantCount(DrainPending(pending), id) == 0
    decreases |pending|
  {
    if pending != [] {
      DrainCounts(pending[1..], id);
      GrantsAfterFirst(Dismissal(pending[0]), DrainPending(pending[1..]), id);
    }
  }

  lemma LeaseCounts(s: State, request: LeaseRequest, id: nat)
    ensures var (s', events) := Lease(s, request);
            GrantCount(events, id) + AwaitCount(s'.pending, id) <=
              AwaitCount(s.pending, id) + if request.requestId == id then 1 else 0
  {
    AwaitOneMore(s.pending, Queued(request, false), id);
  }

  lemma ReleaseCounts(s: State, ringId: nat, verified: bool, id: nat)
    ensures var (s', events) := Release(s, ringId, verified);
            GrantCount(events, id) + AwaitCount(s'.pending, id) <= AwaitCount(s.pending, id)
  {
    if ringId in s.index && s.index[ringId] < |s.live| && verified {
      var i := s.index[ringId];
      var released := RingReleased(ringId, s.live[i].layout.startOffset, s.live[i].layout.endOffset);
      RetryCounts(Returned(s, i), id);
      GrantsAfterFirst(released, Retry(Returned(s, i)).1, id);
      GrantsAfterFirst(released, [], id);
    }
  }

  /** A request is granted only what was asked for under its id and is not cancelled, and once each. */
  lemma HandleCounts(s: State, request: Request, id: nat)
    ensures var (s', events) := Handle(s, request);
            GrantCount(events, id) + AwaitCount(s'.pending, id) <=
              AwaitCount(s.pending, id) + if IsAsk(request, id) then 1 else 0
  {
    match request
    case LeaseRing(lease) => LeaseCounts(s, lease, id);
    case CancelLease(cancelled) => CancelCounts(s.pending, cancelled, id);
    case ReleaseRing(ringId, verified) => ReleaseCounts(s, ringId, verified, id);
    case Shutdown => DrainCounts(s.pending, id);
  }

  lemma {:induction false} RunAnswersEach(s: State, requests: seq<Request>)
    ensures |Run(s, requests).1| == |requests|
    decreases |requests|
  {
    if requests != [] { RunAnswersEach(Handle(s, requests[0]).0, requests[1..]); }
  }

  /** Over any run, the grants under an id so far are at most those that waited and those asked for so far. */
  lemma {:induction false} RunCounts(s: State, requests: seq<Request>, k: nat, id: nat)
    requires k <= |requests| == |Run(s, requests).1|
    ensures GrantsTo(Run(s, requests).1, k, id) <= AwaitCount(s.pending, id) + AsksTo(requests, k, id)
    decreases k
  {
    if k > 0 {
      var s1 := Handle(s, requests[0]).0;
      HandleCounts(s, requests[0], id);
      RunAnswersEach(s1, requests[1..]);
      RunCounts(s1, requests[1..], k - 1, id);
      var answers := Run(s, requests).1;
      assert answers[1..] == Run(s1, requests[1..]).1;
    }
  }

  /**
   A cancel reaches every queued entry of its request: whatever follows, there are never more grants under
   that id than the times it has been asked for again since.
   */
  lemma CancelIsFinal(s: State, id: nat, later: seq<Request>, k: nat)
    requires k <= |later|
    ensures var answers := Run(Handle(s, CancelLease(id)).0, later).1;
            k <= |answers| && GrantsTo(answers, k, id) <= AsksTo(later, k, id)
  {
    RunAnswersEach(Handle(s, CancelLease(id)).0, later);
    CancelCounts(s.pending, id, id);
    RunCounts(Handle(s, CancelLease(id)).0, later, k, id);
  }

  /** Giving back the last live ring grants the head of the queue in the same answer, unless it was cancelled. */
  lemma LastReleaseGrantsTheHead(s: State)
    requires Inv(s) && s.nextRingId < U64_MAX && |s.live| == 1 && s.pending != [] && !s.pending[0].cancelled
    ensures var events := Handle(s, ReleaseRing(s.live[0].ringId, true)).1;
            |events| >= 2 && events[1].RingLeased? && events[1].lease.requestId == s.pending[0].request.requestId
  {
    IndexFinds(s.live);
    ReturnedSettles(s, 0);
    var s1, head := Returned(s, 0), s.pending[0];
    assert s1.live == [] && s1.free == [Range(0, s.config.ceiling)];
    assert Waitable(s.config, head);
    LayoutIsPlacement(s.config, head.request.spec, 0);
    assert FirstFit(s.config, head.request.spec, s1.free, 0) == 0;
    assert RetryHead(s1).1.Some?;
  }

  // ─── where live leases come from ───────────────────────────────────────────

  /** The leases an event list grants, in order. */
  function GrantedBy(events: seq<Event>): (leases: seq<RingLease>) {
    if events == [] then []
    else (if events[0].RingLeased? then [events[0].lease] else []) + GrantedBy(events[1..])
  }

  /** The live leases a request leaves in the list. */
  function KeptBy(s: State, request: Request): (leases: seq<RingLease>) {
    if request.ReleaseRing? && request.verified && request.ringId in s.index && s.index[request.ringId] < |s.live|
    then s.live[..s.index[request.ringId]] + s.live[s.index[request.ringId] + 1..]
    else s.live
  }

  lemma {:induction false} RetryAppendsGrants(s: State)
    ensures Retry(s).0.live == s.live + GrantedBy(Retry(s).1)
    ensures Retry(s).0.nextRingId >= s.nextRingId
    ensures forall l :: l in GrantedBy(Retry(s).1) ==> s.nextRingId <= l.ringId
    decreases |s.pending|
  {
    if s.pending != [] && RetryHead(s).1.Some? {
      RetryAppendsGrants(RetryHead(s).0);
      assert Retry(s).1[1..] == Retry(RetryHead(s).0).1;
    }
  }

  lemma {:induction false} RetryServesThePending(s: State)
    ensures forall l :: l in GrantedBy(Retry(s).1) ==> l.requestId in PendingIds(s.pending)
    ensures forall q :: q in PendingIds(Retry(s).0.pending) ==> q in PendingIds(s.pending)
    decreases |s.pending|
  {
    if s.pending != [] && RetryHead(s).1.Some? {
      var (s1, event) := RetryHead(s);
      RetryServesThePending(s1);
      PendingAfter(s.pending);
      assert Retry(s).1[1..] == Retry(s1).1;
    }
  }

  lemma {:induction false} DrainGrantsNone(pending: seq<Queued>)
    ensures GrantedBy(DrainPending(pending)) == []
    decreases |pending|
  {
    if pending != [] {
      DrainGrantsNone(pending[1..]);
      assert DrainPending(pending)[1..] == DrainPending(pending[1..]);
    }
  }

  lemma GrantsAfter(first: Event, events: seq<Event>)
    requires !first.RingLeased?
    ensures GrantedBy([first] + events) == GrantedBy(events)
  {
    assert ([first] + events)[1..] == events;
  }

  lemma ReleaseAppendsGrants(s: State, ringId: nat, verified: bool)
    ensures var (s', events) := Release(s, ringId, verified);
            && s'.live == KeptBy(s, ReleaseRing(ringId, verified)) + GrantedBy(events)
            && s'.nextRingId >= s.nextRingId
            && (forall l :: l in GrantedBy(events) ==> s.nextRingId <= l.ringId)
  {
    var (s', events) := Release(s, ringId, verified);
    if ringId in s.index && s.index[ringId] < |s.live| && verified && s.phase.Ready? {
      RetryAppendsGrants(Returned(s, s.index[ringId]));
      GrantsAfter(events[0], Retry(Returned(s, s.index[ringId])).1);
    } else {
      GrantsAfter(events[0], []);
      assert events == [events[0]] + [];
    }
  }

  lemma ReleaseServesThePending(s: State, ringId: nat, verified: bool)
    ensures var (s', events) := Release(s, ringId, verified);
            && (forall l :: l in GrantedBy(events) ==> l.requestId in PendingIds(s.pending))
            && (forall q :: q in PendingIds(s'.pending) ==> q in PendingIds(s.pending))
  {
    var (s', events) := Release(s, ringId, verified);
    if ringId in s.index && s.index[ringId] < |s.live| && verified && s.phase.Ready? {
      RetryServesThePending(Returned(s, s.index[ringId]));
      GrantsAfter(events[0], Retry(Returned(s, s.index[ringId])).1);
    } else {
      GrantsAfter(events[0], []);
      assert events == [events[0]] + [];
    }
  }

  /** The live list changes only by the lease taken back and the leases announced, which answer known requests. */
  lemma LiveIsAccountedFor(s: State, request: Request)
    ensures var (s', events) := Handle(s, request);
            && s'.live == KeptBy(s, request) + GrantedBy(events)
            && s'.nextRingId >= s.nextRingId
            && (forall l :: l in GrantedBy(events) ==> s.nextRingId <= l.ringId)
            && (forall l :: l in GrantedBy(events) ==>
                  l.requestId in PendingIds(s.pending) ||
                      (request.LeaseRing? && l.requestId == request.lease.requestId))
            && (forall q :: q in PendingIds(s'.pending) ==>
                  q in PendingIds(s.pending) || (request.LeaseRing? && q == request.lease.requestId))
  {
    match request
    case LeaseRing(lease) =>
      var (s', events) := Lease(s, lease);
      assert events[1..] == [];
      LeaseAnswersItself(s, lease);
    case CancelLease(id) =>
      assert PendingIds(MarkCancelled(s.pending, id)) == PendingIds(s.pending);
    case ReleaseRing(ringId, verified) =>
      ReleaseAppendsGrants(s, ringId, verified);
      ReleaseServesThePending(s, ringId, verified);
    case Shutdown => DrainGrantsNone(s.pending);
  }

  /** Looking a ring up finds the live lease that carries its id, and nothing else. */
  lemma LookupFinds(s: State, lease: RingLease)
    requires Indexed(s)
    ensures lease in s.live <==> Lookup(s, lease.ringId) == Some(lease)
  {
    IndexFinds(s.live);
  }

  lemma LookupMeans(s: State, ringId: nat)
    requires Indexed(s) && Lookup(s, ringId).Some?
    ensures Lookup(s, ringId).value in s.live && Lookup(s, ringId).value.ringId == ringId
  {
    IndexFinds(s.live);
  }

  lemma {:induction false} GrantsAreAnnounced(events: seq<Event>, lease: RingLease)
    ensures multiset(events)[RingLeased(lease)] == multiset(GrantedBy(events))[lease]
    decreases |events|
  {
    if events != [] {
      GrantsAreAnnounced(events[1..], lease);
      assert events == [events[0]] + events[1..];
    }
  }

  lemma {:induction false} LiveIsDistinct(live: seq<RingLease>, bound: nat, lease: RingLease)
    requires IdsAscend(live, bound)
    ensures multiset(live)[lease] == if lease in live then 1 else 0
    decreases |live|
  {
    if live != [] {
      var front := live[..|live| - 1];
      assert live == front + [live[|live| - 1]];
      LiveIsDistinct(front, bound, lease);
    }
  }

  lemma WithoutMeans(live: seq<RingLease>, bound: nat, i: nat, lease: RingLease)
    requires IdsAscend(live, bound) && i < |live|
    ensures lease in live[..i] + live[i + 1..] <==> lease in live && lease.ringId != live[i].ringId
  {
    assert live == live[..i] + [live[i]] + live[i + 1..];
    if lease in live[..i] { assert lease.ringId < live[i].ringId; }
    if lease in live[i + 1..] { assert live[i].ringId < lease.ringId; }
  }

  lemma KeptMeans(s: State, request: Request, lease: RingLease)
    requires Indexed(s)
    ensures lease in KeptBy(s, request) <==> lease in s.live && request != ReleaseRing(lease.ringId, true)
  {
    IndexFinds(s.live);
    if request.ReleaseRing? && request.ringId in s.index {
      WithoutMeans(s.live, s.nextRingId, s.index[request.ringId], lease);
    }
  }

  /**
   A lease is live after a request exactly if it was and the request does not give it back, or it is
   announced now; what is announced is announced once, under an id never used before.
   */
  lemma LiveChangesAreAnnounced(s: State, request: Request, lease: RingLease)
    requires Inv(s) && Inv(Handle(s, request).0)
    ensures var (s', events) := Handle(s, request);
            && multiset(events)[RingLeased(lease)] <= 1
            && (RingLeased(lease) in events ==> s.nextRingId <= lease.ringId)
            && (lease in s'.live <==>
                  (lease in s.live && request != ReleaseRing(lease.ringId, true)) || RingLeased(lease) in events)
  {
    var (s', events) := Handle(s, request);
    LiveIsAccountedFor(s, request);
    KeptMeans(s, request, lease);
    GrantsAreAnnounced(events, lease);
    LiveIsDistinct(s'.live, s'.nextRingId, lease);
    assert multiset(s'.live) == multiset(KeptBy(s, request)) + multiset(GrantedBy(events));
  }

  /** An id already handed out is found or not as before, but for the one a request gives back. */
  lemma LookupCarriesOver(s: State, request: Request, ringId: nat)
    requires Inv(s) && Inv(Handle(s, request).0) && ringId < s.nextRingId
    ensures Lookup(Handle(s, request).0, ringId) == if request == ReleaseRing(ringId, true) then None
              else Lookup(s, ringId)
  {
    var s' := Handle(s, request).0;
    if Lookup(s, ringId).Some? {
      LookupMeans(s, ringId);
      LiveChangesAreAnnounced(s, request, Lookup(s, ringId).value);
      LookupFinds(s', Lookup(s, ringId).value);
    }
    if Lookup(s', ringId).Some? {
      LookupMeans(s', ringId);
      LiveChangesAreAnnounced(s, request, Lookup(s', ringId).value);
      LookupFinds(s, Lookup(s', ringId).value);
    }
  }
}
