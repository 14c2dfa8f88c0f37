/** What the arena answers, request by request, over any run: read off the requests alone wherever that is possible. */
module ArenaAnswers {
  import opened Alignment
  import opened Arena
  import opened Options
  import opened Placement
  import opened Ranges

  function StateAt(s: State, rs: seq<Request>, k: nat): (s': State)
    requires k <= |rs|
  {
    if k == 0 then s else Handle(StateAt(s, rs, k - 1), rs[k - 1]).0
  }

  function AnswerAt(s: State, rs: seq<Request>, k: nat): (events: seq<Event>)
    requires k < |rs|
  {
    Handle(StateAt(s, rs, k), rs[k]).1
  }

  lemma {:induction false} StateLater(s: State, rs: seq<Request>, k: nat)
    requires 0 < k <= |rs|
    ensures StateAt(s, rs, k) == StateAt(Handle(s, rs[0]).0, rs[1..], k - 1)
    decreases k
  {
    if k > 1 { StateLater(s, rs, k - 1); }
  }

  /** These are the states and answers of the arena's run. */
  lemma {:induction false} AnswersAreOfTheRun(s: State, rs: seq<Request>, k: nat)
    requires k < |rs|
    ensures Run(s, rs).0 == StateAt(s, rs, |rs|)
    ensures |Run(s, rs).1| == |rs| && Run(s, rs).1[k] == AnswerAt(s, rs, k)
    decreases |rs|
  {
    var s1 := Handle(s, rs[0]).0;
    StateLater(s, rs, |rs|);
    RunAnswersEach(s, rs);
    if k > 0 { StateLater(s, rs, k); }
    if |rs| > 1 {
      AnswersAreOfTheRun(s1, rs[1..], if k > 0 then k - 1 else 0);
    } else {
      assert Run(s1, rs[1..]) == (s1, []);
    }
  }

  // ─── before and after a shutdown ───────────────────────────────────────────

  /** A shutdown is among the first `k` requests. */
  predicate Closed(rs: seq<Request>, k: nat)
    requires k <= |rs|
  {
    exists j :: 0 <= j < k && rs[j].Shutdown?
  }

  lemma {:induction false} RetryKeepsRest(s: State)
    ensures var s' := Retry(s).0;
            && s'.phase == s.phase && s'.config == s.config
            && s'.allocationFailures == s.allocationFailures && s'.releaseFailures == s.releaseFailures
    decreases |s.pending|
  {
    if s.pending != [] && RetryHead(s).1.Some? { RetryKeepsRest(RetryHead(s).0); }
  }

  lemma HandleKeepsPhase(s: State, request: Request)
    ensures var s' := Handle(s, request).0;
            && s'.config == s.config
            && (s'.phase.ShuttingDown? <==> s.phase.ShuttingDown? || request.Shutdown?)
            && (s'.phase.ShuttingDown? && (s.phase.ShuttingDown? ==> s.pending == []) ==> s'.pending == [])
  {
    match request
    case ReleaseRing(ringId, verified) =>
      if ringId in s.index && s.index[ringId] < |s.live| { RetryKeepsRest(Returned(s, s.index[ringId])); }
    case _ =>
  }

  /** The arena is closed exactly from the first shutdown on, and nothing waits from then on. */
  lemma {:induction false} ClosedFromShutdownOn(config: Config, rs: seq<Request>, k: nat)
    requires k <= |rs|
    ensures var s := StateAt(Boot(config), rs, k);
            && s.config == config && (s.phase.ShuttingDown? <==> Closed(rs, k)) && (Closed(rs, k) ==> s.pending == [])
    decreases k
  {
    if k > 0 {
      ClosedFromShutdownOn(config, rs, k - 1);
      HandleKeepsPhase(StateAt(Boot(config), rs, k - 1), rs[k - 1]);
      if rs[k - 1].Shutdown? { assert Closed(rs, k); }
      if Closed(rs, k - 1) {
        var j :| 0 <= j < k - 1 && rs[j].Shutdown?;
        assert Closed(rs, k);
      }
    }
  }

  // ─── what a grant is ───────────────────────────────────────────────────────

  /** The event grants what was asked for: a placement of the ring inside the arena, under the request's id. */
  predicate GrantFits(config: Config, request: LeaseRequest, event: Event) {
    && event.RingLeased? && event.lease.requestId == request.requestId
    && event.lease.requestedAlignment == request.spec.alignment
    && event.lease.layout.dataBytes == request.spec.dataBytes
    && event.lease.layout.endOffset <= config.ceiling
    && IsPlacement(config, request.spec, event.lease.layout.startOffset, event.lease.layout.dataOffset,
                   event.lease.layout.endOffset)
  }

  lemma AllocatedFits(s: State, request: LeaseRequest)
    requires TryAllocate(s, request).1.Some?
    ensures GrantFits(s.config, request, RingLeased(TryAllocate(s, request).1.value))
    ensures TryAllocate(s, request).1.value.ringId == s.nextRingId
  {
    LayoutIsPlacement(s.config, request.spec, s.free[FirstFit(s.config, request.spec, s.free, 0)].start);
  }

  /** What a waiting request is told in the end. */
  predicate Ends(config: Config, q: Queued, closing: bool, event: Event) {
    if q.cancelled then event == CancelledFreshLeaseReleased(q.request.requestId)
    else if closing then event == RingLeaseRejected(q.request.requestId, ArenaShuttingDown)
    else GrantFits(config, q.request, event)
  }

  /** The first of those waiting were answered, in order, and are gone from the queue. */
  predicate EndsFirst(config: Config, pending: seq<Queued>, closing: bool, events: seq<Event>, left: seq<Queued>) {
    && |events| <= |pending| && left == pending[|events|..]
    && forall i :: 0 <= i < |events| ==> Ends(config, pending[i], closing, events[i])
  }

  lemma EndsOneMore(
    config: Config, pending: seq<Queued>, closing: bool, event: Event, events: seq<Event>, left: seq<Queued>)
    requires pending != [] && Ends(config, pending[0], closing, event)
    requires EndsFirst(config, pending[1..], closing, events, left)
    ensures EndsFirst(config, pending, closing, [event] + events, left)
  {
    forall i | 0 <= i < |[event] + events| ensures Ends(config, pending[i], closing, ([event] + events)[i]) {
      if i > 0 { assert pending[i] == pending[1..][i - 1]; }
    }
  }

  lemma {:induction false} RetryEnds(s: State)
    ensures EndsFirst(s.config, s.pending, false, Retry(s).1, Retry(s).0.pending)
    decreases |s.pending|
  {
    if s.pending != [] {
      var head, rest := s.pending[0], s.(pending := s.pending[1..]);
      var (s1, event) := RetryHead(s);
      if event.Some? {
        if !head.cancelled { AllocatedFits(rest, head.request); }
        RetryEnds(s1);
        EndsOneMore(s.config, s.pending, false, event.value, Retry(s1).1, Retry(s1).0.pending);
      }
    }
  }

  lemma {:induction false} DrainEnds(config: Config, pending: seq<Queued>)
    ensures EndsFirst(config, pending, true, DrainPending(pending), [])
    decreases |pending|
  {
    if pending != [] {
      DrainEnds(config, pending[1..]);
      EndsOneMore(config, pending, true, Dismissal(pending[0]), DrainPending(pending[1..]), []);
    }
  }

  // ─── the answers ───────────────────────────────────────────────────────────

  lemma EmptyArenaFits(config: Config, spec: RingSpec)
    ensures Fits(Boot(config), spec) <==> LayoutAt(config, spec, 0).Some?
  {
    var free := Boot(config).free;
    assert FitsIn(config, spec, free[0]) <==> LayoutAt(config, spec, 0).Some?;
    assert FirstFit(config, spec, free, 0) == 0 <==> FitsIn(config, spec, free[0]);
  }

  lemma LeaseAnswers(s: State, request: LeaseRequest)
    ensures var (s', e) := Lease(s, request);
            && |e| == 1
            && (s.phase.ShuttingDown? ==> e[0] == RingLeaseRejected(request.requestId, ArenaShuttingDown))
            && (s.phase.Ready? ==>
                  && (e[0] == RingLeaseRejected(request.requestId, CannotFitWithinCeiling) <==>
                        !Fits(Boot(s.config), request.spec))
                  && (Fits(Boot(s.config), request.spec) ==>
                        e[0] == RingLeaseQueued(request.requestId) || GrantFits(s.config, request, e[0])))
  {
    EmptyArenaFits(s.config, request.spec);
    if TryAllocate(s, request).1.Some? { AllocatedFits(s, request); }
  }

  /**
   In every run a lease request is told at once, and alone: after a shutdown that the arena is closing; before
   it that the ring cannot fit exactly if an empty arena has no place for it; otherwise that it waits, or
   which place it has.
   */
  lemma LeaseIsAnswered(config: Config, rs: seq<Request>, k: nat)
    requires k < |rs| && rs[k].LeaseRing?
    ensures var e, request := AnswerAt(Boot(config), rs, k), rs[k].lease;
            && |e| == 1
            && (Closed(rs, k) ==> e[0] == RingLeaseRejected(request.requestId, ArenaShuttingDown))
            && (!Closed(rs, k) ==>
                  && (e[0] == RingLeaseRejected(request.requestId, CannotFitWithinCeiling) <==>
                        !Fits(Boot(config), request.spec))
                  && (Fits(Boot(config), request.spec) ==>
                        e[0] == RingLeaseQueued(request.requestId) || GrantFits(config, request, e[0])))
  {
    ClosedFromShutdownOn(config, rs, k);
    LeaseAnswers(StateAt(Boot(config), rs, k), rs[k].lease);
  }

  /**
   A release is refused for a ring that is not live, and then for a missing proof; otherwise it announces the
   range of the lease and, unless the arena is closing, ends the first of those that wait.
   */
  lemma ReleaseIsAnswered(config: Config, rs: seq<Request>, k: nat)
    requires k < |rs| && rs[k].ReleaseRing?
    ensures var s, s' := StateAt(Boot(config), rs, k), StateAt(Boot(config), rs, k + 1);
            var e := AnswerAt(Boot(config), rs, k);
            var ring, found := rs[k].ringId, Lookup(s, rs[k].ringId);
            if found.None? then e == [RingReleaseRejected(ring, UnknownRingId)]
            else if !rs[k].verified then e == [RingReleaseRejected(ring, MissingQuiescenceProof)]
            else
              && e != [] && EndsFirst(config, s.pending, false, e[1..], s'.pending)
              && e[0] == RingReleased(ring, found.value.layout.startOffset, found.value.layout.endOffset)
              && (Closed(rs, k) ==> |e| == 1)
  {
    ClosedFromShutdownOn(config, rs, k);
    var s := StateAt(Boot(config), rs, k);
    if Lookup(s, rs[k].ringId).Some? && rs[k].verified {
      var back := Returned(s, s.index[rs[k].ringId]);
      RetryEnds(back);
      var e := AnswerAt(Boot(config), rs, k);
      assert s.phase.Ready? ==> e[1..] == Retry(back).1;
    }
  }

  /** A shutdown ends everyone who waits, in order. */
  lemma ShutdownIsAnswered(config: Config, rs: seq<Request>, k: nat)
    requires k < |rs| && rs[k].Shutdown?
    ensures EndsFirst(config, StateAt(Boot(config), rs, k).pending, true, AnswerAt(Boot(config), rs, k), [])
  {
    var s := StateAt(Boot(config), rs, k);
    assert Handle(s, rs[k]).1 == DrainPending(s.pending);
    DrainEnds(config, s.pending);
  }

  /** A release while the arena is closing gives every byte of the range back. */
  lemma ReleaseStillFrees(s: State, ring: nat, x: nat)
    requires Inv(s) && s.phase.ShuttingDown? && Lookup(s, ring).Some? && Contains(Extent(Lookup(s, ring).value), x)
    ensures exists r :: r in Handle(s, ReleaseRing(ring, true)).0.free && Contains(r, x)
  {
    var i := s.index[ring];
    var s', r := Returned(s, i), Extent(s.live[i]);
    ReturnedSettles(s, i);
    RemoveKeepsTiling(s, i);
    MemberCovers(Extents(s.live), i, x);
    ReturnedBytes(s, i, x);
    CoveredMeans(s'.free, x);
  }

  lemma ReturnedBytes(s: State, i: nat, x: nat)
    requires Inv(s) && i < |s.live| && Contains(Extent(s.live[i]), x)
    ensures Covered(Returned(s, i).free, x)
  {
    var taken := Extents(s.live);
    var r := taken[i];
    forall y: nat | Contains(r, y) ensures !Covered(s.free, y) { MemberCovers(taken, i, y); }
    ClearFromBytes(s.free, r);
    ReturnAddsExactly(s.free, r, s.config.ceiling, x);
  }

  /** Once a shutdown was handled no ring is granted and no request is queued, whatever follows. */
  lemma NothingAfterShutdown(config: Config, rs: seq<Request>, k: nat, event: Event)
    requires k < |rs| && Closed(rs, k) && event in AnswerAt(Boot(config), rs, k)
    ensures !event.RingLeased? && !event.RingLeaseQueued?
  {
    ClosedFromShutdownOn(config, rs, k);
    match rs[k]
    case LeaseRing(_) => LeaseIsAnswered(config, rs, k);
    case ReleaseRing(_, _) => ReleaseIsAnswered(config, rs, k);
    case _ =>
  }

  lemma RetriedIsNotRejected(config: Config, pending: seq<Queued>, events: seq<Event>, left: seq<Queued>, event: Event)
    requires EndsFirst(config, pending, false, events, left) && event in events
    ensures !event.RingLeaseRejected?
  {
    var i :| 0 <= i < |events| && events[i] == event;
    assert Ends(config, pending[i], false, events[i]);
  }

  /** Nobody is told that the arena is closing before it is. */
  lemma ClosingIsSaidWhenClosing(config: Config, rs: seq<Request>, k: nat, id: nat)
    requires k < |rs| && !Closed(rs, k + 1)
    ensures RingLeaseRejected(id, ArenaShuttingDown) !in AnswerAt(Boot(config), rs, k)
  {
    assert !rs[k].Shutdown? && !Closed(rs, k);
    match rs[k]
    case LeaseRing(_) => LeaseIsAnswered(config, rs, k);
    case ReleaseRing(_, _) =>
      ReleaseIsAnswered(config, rs, k);
      var s, s', e := StateAt(Boot(config), rs, k), StateAt(Boot(config), rs, k + 1), AnswerAt(Boot(config), rs, k);
      if Lookup(s, rs[k].ringId).Some? && rs[k].verified {
        assert e == [e[0]] + e[1..];
        forall event | event in e[1..] ensures !event.RingLeaseRejected? {
          RetriedIsNotRejected(config, s.pending, e[1..], s'.pending, event);
        }
      }
    case CancelLease(_) =>
  }

  // ─── how a waiting request ends ────────────────────────────────────────────

  /** Every request has an id of its own. */
  predicate OwnIds(rs: seq<Request>) {
    forall i, j :: 0 <= i < j < |rs| && rs[i].LeaseRing? && rs[j].LeaseRing? ==>
      rs[i].lease.requestId != rs[j].lease.requestId
  }

  predicate AskedBy(rs: seq<Request>, k: nat, request: LeaseRequest)
    requires k <= |rs|
  {
    exists i :: 0 <= i < k && rs[i] == LeaseRing(request)
  }

  /** Among the first `k` requests it was cancelled after it had been made. */
  predicate CalledOff(rs: seq<Request>, k: nat, id: nat)
    requires k <= |rs|
  {
    exists i, j :: 0 <= i < j < k && IsAsk(rs[i], id) && rs[j] == CancelLease(id)
  }

  lemma CalledOffOneMore(rs: seq<Request>, k: nat, request: LeaseRequest)
    requires k < |rs| && AskedBy(rs, k, request)
    ensures AskedBy(rs, k + 1, request)
    ensures CalledOff(rs, k + 1, request.requestId) <==>
              CalledOff(rs, k, request.requestId) || rs[k] == CancelLease(request.requestId)
  {
    var id := request.requestId;
    var n :| 0 <= n < k && rs[n] == LeaseRing(request);
    if CalledOff(rs, k, id) {
      var i, j :| 0 <= i < j < k && IsAsk(rs[i], id) && rs[j] == CancelLease(id);
      assert CalledOff(rs, k + 1, id);
    }
    if rs[k] == CancelLease(id) { assert IsAsk(rs[n], id); }
  }

  lemma JustAsked(rs: seq<Request>, k: nat)
    requires OwnIds(rs) && k < |rs| && rs[k].LeaseRing?
    ensures AskedBy(rs, k + 1, rs[k].lease) && !CalledOff(rs, k + 1, rs[k].lease.requestId)
  {
  }

  /** A waiting request was made, and is marked as cancelled exactly if it was called off. */
  predicate Marked(rs: seq<Request>, k: nat, q: Queued)
    requires k <= |rs|
  {
    AskedBy(rs, k, q.request) && (q.cancelled <==> CalledOff(rs, k, q.request.requestId))
  }

  lemma MarksCarryOver(rs: seq<Request>, k: nat, q: Queued)
    requires k < |rs| && Marked(rs, k, q)
    ensures Marked(rs, k + 1, if rs[k] == CancelLease(q.request.requestId) then q.(cancelled := true) else q)
  {
    CalledOffOneMore(rs, k, q.request);
  }

  lemma WaitingMarkedNext(config: Config, rs: seq<Request>, k: nat, q: Queued)
    requires OwnIds(rs) && k < |rs|
    requires forall p :: p in StateAt(Boot(config), rs, k).pending ==> Marked(rs, k, p)
    requires q in StateAt(Boot(config), rs, k + 1).pending
    ensures Marked(rs, k + 1, q)
  {
    var s := StateAt(Boot(config), rs, k);
    match rs[k]
    case LeaseRing(lease) =>
      JustAsked(rs, k);
      if q in s.pending { MarksCarryOver(rs, k, q); }
    case CancelLease(id) =>
      var i :| 0 <= i < |s.pending| && MarkCancelled(s.pending, id)[i] == q;
      assert s.pending[i] in s.pending;
      MarksCarryOver(rs, k, s.pending[i]);
    case ReleaseRing(ring, verified) =>
      ReleaseIsAnswered(config, rs, k);
      assert q in s.pending;
      MarksCarryOver(rs, k, q);
    case Shutdown =>
  }

  lemma {:induction false} WaitingIsMarked(config: Config, rs: seq<Request>, k: nat)
    requires OwnIds(rs) && k <= |rs|
    ensures forall q :: q in StateAt(Boot(config), rs, k).pending ==> Marked(rs, k, q)
    decreases k
  {
    if k > 0 {
      WaitingIsMarked(config, rs, k - 1);
      forall q | q in StateAt(Boot(config), rs, k).pending ensures Marked(rs, k, q) {
        WaitingMarkedNext(config, rs, k - 1, q);
      }
    }
  }

  lemma EndedIsMarked(config: Config, rs: seq<Request>, k: nat, pending: seq<Queued>, closing: bool,
      events: seq<Event>, left: seq<Queued>, event: Event)
    requires k <= |rs| && (forall q :: q in pending ==> Marked(rs, k, q))
    requires EndsFirst(config, pending, closing, events, left) && event in events
    ensures EndsRightly(config, rs, k, event)
  {
    var i :| 0 <= i < |events| && events[i] == event;
    assert pending[i] in pending && Ends(config, pending[i], closing, event);
  }

  /** The event ends a request that was made, and as it should be ended. */
  predicate EndsRightly(config: Config, rs: seq<Request>, k: nat, event: Event)
    requires k <= |rs|
  {
    match event
    case RingLeased(lease) =>
      !CalledOff(rs, k, lease.requestId)
      && exists i :: 0 <= i < k && rs[i].LeaseRing? && GrantFits(config, rs[i].lease, event)
    case CancelledFreshLeaseReleased(id) => CalledOff(rs, k, id)
    case RingLeaseRejected(id, _) => !CalledOff(rs, k, id)
    case _ => true
  }

  /**
   In every run of requests with ids of their own: only what was asked for and not called off is granted, with a
   place that fits it; only what was called off is told so; and a shutdown turns away only what was not.
   */
  lemma EndedAsAsked(config: Config, rs: seq<Request>, k: nat, event: Event)
    requires OwnIds(rs) && k < |rs| && event in AnswerAt(Boot(config), rs, k)
    ensures EndsRightly(config, rs, k + 1, event)
  {
    var s, s', e := StateAt(Boot(config), rs, k), StateAt(Boot(config), rs, k + 1), AnswerAt(Boot(config), rs, k);
    WaitingIsMarked(config, rs, k);
    match rs[k]
    case LeaseRing(_) =>
      JustAsked(rs, k);
      LeaseIsAnswered(config, rs, k);
    case CancelLease(_) =>
    case ReleaseRing(ring, verified) =>
      ReleaseIsAnswered(config, rs, k);
      if Lookup(s, ring).Some? && verified && event in e[1..] {
        EndedIsMarked(config, rs, k, s.pending, false, e[1..], s'.pending, event);
        RightlyOneMore(config, rs, k, event);
      }
    case Shutdown =>
      ShutdownIsAnswered(config, rs, k);
      EndedIsMarked(config, rs, k, s.pending, true, e, [], event);
      RightlyOneMore(config, rs, k, event);
  }

  lemma RightlyOneMore(config: Config, rs: seq<Request>, k: nat, event: Event)
    requires k < |rs| && EndsRightly(config, rs, k, event) && !rs[k].CancelLease?
    ensures EndsRightly(config, rs, k + 1, event)
  {
  }

  // ─── what the counters count ───────────────────────────────────────────────

  predicate LeaseFails(s: State, rs: seq<Request>, i: nat)
    requires i < |rs|
  {
    rs[i].LeaseRing? && exists reason :: RingLeaseRejected(rs[i].lease.requestId, reason) in AnswerAt(s, rs, i)
  }

  predicate ReleaseFails(s: State, rs: seq<Request>, i: nat)
    requires i < |rs|
  {
    rs[i].ReleaseRing? && exists why :: RingReleaseRejected(rs[i].ringId, why) in AnswerAt(s, rs, i)
  }

  function LeaseFailures(s: State, rs: seq<Request>, k: nat): (n: nat)
    requires k <= |rs|
  {
    if k == 0 then 0 else LeaseFailures(s, rs, k - 1) + if LeaseFails(s, rs, k - 1) then 1 else 0
  }

  function ReleaseFailures(s: State, rs: seq<Request>, k: nat): (n: nat)
    requires k <= |rs|
  {
    if k == 0 then 0 else ReleaseFailures(s, rs, k - 1) + if ReleaseFails(s, rs, k - 1) then 1 else 0
  }

  function Capped(n: nat): (m: nat) {
    if n <= U64_MAX then n else U64_MAX
  }

  // A request fails exactly if its answer is one refusal.
  lemma LeaseCounted(s: State, request: LeaseRequest)
    ensures var (s', e) := Lease(s, request);
            && s'.releaseFailures == s.releaseFailures
            && s'.allocationFailures ==
                 if exists reason :: RingLeaseRejected(request.requestId, reason) in e
                 then SaturatingIncrement(s.allocationFailures) else s.allocationFailures
  {
    var (s', e) := Lease(s, request);
    assert |e| == 1 && e == [e[0]];
    if e[0].RingLeaseRejected? { assert RingLeaseRejected(request.requestId, e[0].reason) in e; }
  }

  lemma ReleaseCounted(s: State, ring: nat, verified: bool)
    ensures var (s', e) := Release(s, ring, verified);
            && s'.allocationFailures == s.allocationFailures
            && s'.releaseFailures ==
                 if exists why :: RingReleaseRejected(ring, why) in e
                 then SaturatingIncrement(s.releaseFailures) else s.releaseFailures
  {
    var (s', e) := Release(s, ring, verified);
    if Lookup(s, ring).None? {
      assert RingReleaseRejected(ring, UnknownRingId) in e;
    } else if !verified {
      assert RingReleaseRejected(ring, MissingQuiescenceProof) in e;
    } else {
      var back := Returned(s, s.index[ring]);
      RetryKeepsRest(back);
      forall event | event in Retry(back).1 ensures !event.RingReleaseRejected? { RetryRefusesNoRelease(back, event); }
    }
  }

  lemma RetryRefusesNoRelease(s: State, event: Event)
    requires event in Retry(s).1
    ensures !event.RingReleaseRejected?
  {
    RetryEnds(s);
    var i :| 0 <= i < |Retry(s).1| && Retry(s).1[i] == event;
    assert Ends(s.config, s.pending[i], false, Retry(s).1[i]);
  }

  /** The counters of the health sample count the refused requests, up to the largest 64-bit number. */
  lemma {:induction false} FailuresAreCounted(config: Config, rs: seq<Request>, k: nat)
    requires k <= |rs|
    ensures var s := StateAt(Boot(config), rs, k);
            && s.allocationFailures == Capped(LeaseFailures(Boot(config), rs, k))
            && s.releaseFailures == Capped(ReleaseFailures(Boot(config), rs, k))
    decreases k
  {
    if k > 0 {
      FailuresAreCounted(config, rs, k - 1);
      var s := StateAt(Boot(config), rs, k - 1);
      match rs[k - 1]
      case LeaseRing(lease) => LeaseCounted(s, lease);
      case ReleaseRing(ring, verified) => ReleaseCounted(s, ring, verified);
      case _ =>
    }
  }
}
