/** The arena manager itself: the fields it updates in place and the loops that update them. */
module ArenaManagers {
  import opened Alignment
  import opened Options
  import opened Placement
  import opened Ranges
  import A = Arena

  datatype Fault = InvalidReservationCeiling | InvalidBaseAlignment

  datatype Sample = Sample(
    capacityBytes: nat, liveBytes: nat, freeBytes: nat, activeLeases: nat, pendingLeases: nat, largestFreeRange: nat)

  /** The checks made before the backing memory is created. */
  function BootFault(config: Config): (f: Option<Fault>) {
    if config.ceiling == 0 then Some(InvalidReservationCeiling)
    else if config.baseAlignment == 0 then Some(InvalidBaseAlignment)
    else None
  }

  class ArenaManager {
    const config: Config
    var phase: A.Phase
    var nextRingId: U64
    var freeRanges: seq<Range>
    var pending: seq<A.Queued>
    var liveOrder: seq<A.RingLease>
    var liveIndex: map<nat, nat>
    var allocationFailures: U64
    var releaseFailures: U64

    ghost function Abs(): A.State
      reads this
    {
      A.State(config, phase, nextRingId, freeRanges, pending, liveOrder, liveIndex, allocationFailures, releaseFailures)
    }

    constructor Boot(config: Config)
      requires BootFault(config).None?
      ensures Abs() == A.Boot(config) && A.Inv(Abs())
    {
      this.config := config;
      phase, nextRingId := A.Ready, 1;
      freeRanges := [Range(0, config.ceiling)];
      pending, liveOrder, liveIndex := [], [], map[];
      allocationFailures, releaseFailures := 0, 0;
      A.BootIsSound(config);
    }

    /** Every request does what the state machine says, and keeps the arena tiled. */
    method Request(request: A.Request) returns (events: seq<A.Event>)
      requires A.Inv(Abs()) && nextRingId + |pending| < U64_MAX
      modifies this
      ensures (Abs(), events) == A.Handle(old(Abs()), request)
      ensures A.Inv(Abs())
    {
      A.HandleKeepsInv(Abs(), request);
      match request
      case LeaseRing(lease) => events := LeaseRing(lease);
      case CancelLease(id) =>
        CancelLease(id);
        events := [];
      case ReleaseRing(ringId, verified) => events := ReleaseRing(ringId, verified);
      case Shutdown => events := Shutdown();
    }

    method LookupLease(ringId: nat) returns (r: Option<A.RingLease>)
      ensures r == A.Lookup(Abs(), ringId)
    {
      if ringId in liveIndex && liveIndex[ringId] < |liveOrder| { return Some(liveOrder[liveIndex[ringId]]); }
      return None;
    }

    method LeaseRing(request: A.LeaseRequest) returns (events: seq<A.Event>)
      modifies this
      ensures (Abs(), events) == A.Lease(old(Abs()), request)
    {
      if phase.ShuttingDown? {
        allocationFailures := A.SaturatingIncrement(allocationFailures);
        return [A.RingLeaseRejected(request.requestId, A.ArenaShuttingDown)];
      }
      if LayoutAt(config, request.spec, 0).None? {
        allocationFailures := A.SaturatingIncrement(allocationFailures);
        return [A.RingLeaseRejected(request.requestId, A.CannotFitWithinCeiling)];
      }
      if pending == [] {
        var lease := TryAllocate(request);
        if lease.Some? { return [A.RingLeased(lease.value)]; }
      }
      pending := pending + [A.Queued(request, false)];
      return [A.RingLeaseQueued(request.requestId)];
    }

    method CancelLease(requestId: nat)
      modifies this`pending
      ensures pending == A.MarkCancelled(old(pending), requestId)
    {
      ghost var marked := A.MarkCancelled(pending, requestId);
      for i := 0 to |pending|
        invariant |pending| == |old(pending)|
        invariant forall j :: 0 <= j < |pending| ==> pending[j] == if j < i then marked[j] else old(pending)[j]
      {
        if pending[i].request.requestId == requestId {
          pending := pending[i := pending[i].(cancelled := true)];
        }
      }
    }

    /** Takes the `i`-th lease out of the live list and returns its range. */
    method TakeBack(i: nat)
      requires i < |liveOrder|
      modifies this
      ensures Abs() == A.Returned(old(Abs()), i)
    {
      var lease := liveOrder[i];
      liveOrder := liveOrder[..i] + liveOrder[i + 1..];
      RebuildLiveIndex();
      InsertFreeRange(A.Extent(lease));
    }

    method ReleaseRing(ringId: nat, verified: bool) returns (events: seq<A.Event>)
      requires A.Indexed(Abs())
      modifies this
      ensures (Abs(), events) == A.Release(old(Abs()), ringId, verified)
    {
      if ringId !in liveIndex {
        releaseFailures := A.SaturatingIncrement(releaseFailures);
        return [A.RingReleaseRejected(ringId, A.UnknownRingId)];
      }
      A.IndexFinds(liveOrder);
      if !verified {
        releaseFailures := A.SaturatingIncrement(releaseFailures);
        return [A.RingReleaseRejected(ringId, A.MissingQuiescenceProof)];
      }
      var i := liveIndex[ringId];
      var lease := liveOrder[i];
      TakeBack(i);
      events := [A.RingReleased(ringId, lease.layout.startOffset, lease.layout.endOffset)];
      if phase.Ready? {
        var more := RetryPendingLeases();
        events := events + more;
      }
    }

    method Shutdown() returns (events: seq<A.Event>)
      modifies this
      ensures (Abs(), events) == A.Handle(old(Abs()), A.Shutdown)
    {
      phase := A.ShuttingDown;
      events := [];
      while pending != []
        invariant Abs() == old(Abs()).(phase := A.ShuttingDown, pending := pending)
        invariant events + A.DrainPending(pending) == A.DrainPending(old(pending))
        decreases |pending|
      {
        var head := pending[0];
        A.DrainFirst(events, pending);
        pending := pending[1..];
        if head.cancelled {
          events := events + [A.CancelledFreshLeaseReleased(head.request.requestId)];
        } else {
          events := events + [A.RingLeaseRejected(head.request.requestId, A.ArenaShuttingDown)];
        }
      }
      assert events + [] == events;
    }

    method RetryHead() returns (event: Option<A.Event>)
      requires pending != []
      modifies this
      ensures (Abs(), event) == A.RetryHead(old(Abs()))
    {
      var head := pending[0];
      pending := pending[1..];
      if head.cancelled { return Some(A.CancelledFreshLeaseReleased(head.request.requestId)); }
      var lease := TryAllocate(head.request);
      if lease.Some? { return Some(A.RingLeased(lease.value)); }
      pending := [head] + pending;
      return None;
    }

    method RetryPendingLeases() returns (events: seq<A.Event>)
      modifies this
      ensures (Abs(), events) == A.Retry(old(Abs()))
    {
      events := [];
      ghost var s := Abs();
      while pending != []
        invariant s == Abs()
        invariant A.Retry(old(Abs())).0 == A.Retry(s).0
        invariant A.Retry(old(Abs())).1 == events + A.Retry(s).1
        decreases |pending|
      {
        var event := RetryHead();
        if event.None? {
          assert A.Retry(s) == (Abs(), []) && events + [] == events;
          return;
        }
        assert A.Retry(s).1 == [event.value] + A.Retry(Abs()).1;
        events := events + [event.value];
        s := Abs();
      }
      assert A.Retry(s).1 == [] && events + [] == events;
    }

    method TryAllocate(request: A.LeaseRequest) returns (lease: Option<A.RingLease>)
      modifies this
      ensures (Abs(), lease) == A.TryAllocate(old(Abs()), request)
      ensures pending == old(pending)
    {
      var n := |freeRanges|;
      for i := 0 to n
        invariant Abs() == old(Abs())
        invariant A.FirstFit(config, request.spec, freeRanges, 0) == A.FirstFit(config, request.spec, freeRanges, i)
      {
        var range := freeRanges[i];
        if range.start > U64_MAX { continue; }
        var layout := LayoutAt(config, request.spec, range.start);
        if layout.None? || layout.value.endOffset > range.end { continue; }
        lease := TakeFrom(i, layout.value, request);
        return;
      }
      return None;
    }

    /** Takes a layout out of a free range; with the ring ids used up, nothing is granted for it. */
    method TakeFrom(i: nat, l: Layout, request: A.LeaseRequest) returns (lease: Option<A.RingLease>)
      requires i < |freeRanges|
      modifies this
      ensures freeRanges == Carve(old(freeRanges), i, l.startOffset, l.endOffset)
      ensures old(nextRingId) == U64_MAX ==>
                lease.None? && Abs() == old(Abs()).(free := Carve(old(freeRanges), i, l.startOffset, l.endOffset))
      ensures old(nextRingId) < U64_MAX ==>
                var granted := A.RingLease(request.requestId, old(nextRingId), l, request.spec.alignment);
                && lease == Some(granted)
                && Abs() == old(Abs()).(free := Carve(old(freeRanges), i, l.startOffset, l.endOffset),
                                        nextRingId := old(nextRingId) + 1,
                                        live := old(liveOrder) + [granted],
                                        index := old(liveIndex)[old(nextRingId) as nat := old(|liveOrder|)])
    {
      var range := freeRanges[i];
      var before, after := freeRanges[..i], freeRanges[i + 1..];
      var kept := before;
      if range.start < l.startOffset { kept := kept + [Range(range.start, l.startOffset)]; }
      if l.endOffset < range.end { kept := kept + [Range(l.endOffset, range.end)]; }
      freeRanges := kept + after;
      assert freeRanges == Carve(old(freeRanges), i, l.startOffset, l.endOffset);
      if nextRingId == U64_MAX { return None; }
      var ringId := nextRingId;
      nextRingId := nextRingId + 1;
      var granted := A.RingLease(request.requestId, ringId, l, request.spec.alignment);
      liveIndex := liveIndex[ringId as nat := |liveOrder|];
      liveOrder := liveOrder + [granted];
      return Some(granted);
    }

    /** Exactly the bytes of the range become free, and no two free ranges touch any more. */
    method InsertFreeRange(range: Range)
      modifies this`freeRanges
      ensures freeRanges == ReturnRange(old(freeRanges), range)
      ensures old(Ordered(freeRanges, config.ceiling)) && range.start <= range.end <= config.ceiling &&
                old(Clear(freeRanges, range)) ==>
                && Separated(freeRanges, config.ceiling)
                && forall x: nat :: Covered(freeRanges, x) <==> old(Covered(freeRanges, x)) || Contains(range, x)
    {
      ghost var free := freeRanges;
      freeRanges := CoalesceAll(SortByStart(freeRanges + [range]));
      if Ordered(free, config.ceiling) && range.start <= range.end <= config.ceiling && Clear(free, range) {
        ReturnAddsExactly(free, range, config.ceiling, 0);
        forall x: nat ensures Covered(freeRanges, x) <==> Covered(free, x) || Contains(range, x) {
          ReturnAddsExactly(free, range, config.ceiling, x);
        }
      }
    }

    method RebuildLiveIndex()
      modifies this`liveIndex
      ensures liveIndex == A.BuildIndex(liveOrder)
    {
      liveIndex := map[];
      for i := 0 to |liveOrder|
        invariant liveIndex == A.IndexTo(liveOrder, i)
      {
        liveIndex := liveIndex[liveOrder[i].ringId as nat := i];
      }
    }

    method FreeBytes() returns (bytes: nat)
      ensures bytes == TotalSize(freeRanges)
    {
      bytes := 0;
      for i := 0 to |freeRanges|
        invariant bytes == TotalSize(freeRanges[..i])
      {
        assert Front(freeRanges[..i + 1]) == freeRanges[..i];
        bytes := bytes + Size(freeRanges[i]);
      }
      assert freeRanges[..|freeRanges|] == freeRanges;
    }

    method LargestFreeRange() returns (largest: nat)
      ensures forall r :: r in freeRanges ==> Size(r) <= largest
      ensures if freeRanges == [] then largest == 0 else exists r :: r in freeRanges && Size(r) == largest
    {
      largest := 0;
      for i := 0 to |freeRanges|
        invariant forall r :: r in freeRanges[..i] ==> Size(r) <= largest
        invariant if i == 0 then largest == 0 else exists r :: r in freeRanges[..i] && Size(r) == largest
      {
        assert freeRanges[..i + 1] == freeRanges[..i] + [freeRanges[i]];
        if i == 0 || Size(freeRanges[i]) > largest {
          largest := Size(freeRanges[i]);
          assert freeRanges[i] in freeRanges[..i + 1];
        }
      }
    }

    method WaitingLeases() returns (waiting: nat)
      ensures waiting == |PendingAlive(pending)|
    {
      waiting := 0;
      for i := 0 to |pending|
        invariant waiting == |PendingAlive(pending[..i])|
      {
        assert pending[..i + 1][..i] == pending[..i];
        if !pending[i].cancelled { waiting := waiting + 1; }
      }
      assert pending[..|pending|] == pending;
    }

    /**
     The health sample: live bytes come out as the bytes of the live leases, the largest free range is the
     largest there is, and only requests that were not cancelled count as waiting.
     */
    method TakeSample() returns (sample: Sample)
      requires A.Inv(Abs())
      ensures sample.capacityBytes == config.ceiling && sample.activeLeases == |liveOrder|
      ensures sample.liveBytes == TotalSize(A.Extents(liveOrder))
      ensures sample.liveBytes + sample.freeBytes == sample.capacityBytes && sample.freeBytes == TotalSize(freeRanges)
      ensures sample.pendingLeases == |PendingAlive(pending)|
      ensures forall r :: r in freeRanges ==> Size(r) <= sample.largestFreeRange
      ensures if freeRanges == [] then sample.largestFreeRange == 0
              else exists r :: r in freeRanges && Size(r) == sample.largestFreeRange
      ensures sample.largestFreeRange <= sample.freeBytes
    {
      var freeBytes := FreeBytes();
      var largest := LargestFreeRange();
      var waiting := WaitingLeases();
      if freeRanges != [] {
        ghost var r :| r in freeRanges && Size(r) == largest;
        MemberFits(freeRanges, r);
      }
      var live := if freeBytes <= config.ceiling then config.ceiling - freeBytes else 0;
      return Sample(config.ceiling, live, freeBytes, |liveOrder|, waiting, largest);
    }
  }

  lemma {:induction false} MemberFits(rs: seq<Range>, r: Range)
    requires r in rs
    ensures Size(r) <= TotalSize(rs)
    decreases |rs|
  {
    assert rs == Front(rs) + [Last(rs)];
    if r != Last(rs) { MemberFits(Front(rs), r); }
  }

  function PendingAlive(pending: seq<A.Queued>): (alive: seq<A.Queued>) {
    if pending == [] then []
    else
      var last := pending[|pending| - 1];
      PendingAlive(pending[..|pending| - 1]) + if last.cancelled then [] else [last]
  }
}
