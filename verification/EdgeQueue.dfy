/**
 The edges that wait for a lease and the requests that wait in the arena. While commands are unexecuted and
 answers on their way the two may differ; in the end they are the same.
 */
module EdgeQueue {
  import opened Alignment
  import opened ArenaAnswers
  import opened EdgeArena
  import opened EdgeLaws
  import opened EdgeRings
  import opened EdgeRuns
  import opened Options
  import opened Placement
  import A = Arena
  import E = EdgeLifecycle

  // ─── where one request stands ──────────────────────────────────────────────

  predicate LeaseAt(commands: seq<E.Command>, i: nat, q: nat) {
    i < |commands| && commands[i].LeaseRing? && commands[i].request == q
  }

  predicate CancelAt(commands: seq<E.Command>, i: nat, q: nat) {
    i < |commands| && commands[i].CancelQueuedLease? && commands[i].request == q
  }

  /** The arena's final word on a request. */
  predicate Settles(answer: A.Event, q: nat) {
    match answer
    case RingLeased(lease) => lease.requestId == q
    case RingLeaseRejected(id, _) => id == q
    case _ => false
  }

  ghost predicate Mailed(mail: multiset<A.Event>, q: nat) {
    exists answer :: answer in mail && Settles(answer, q)
  }

  ghost predicate SettledBy(events: seq<A.Event>, q: nat) {
    exists i :: 0 <= i < |events| && Settles(events[i], q)
  }

  /**
   A request is in one place: not yet asked for, waiting in the arena, or answered. Its edge waits exactly until
   it learns the answer or stops; and if it stops first, a cancel follows the request.
   */
  ghost predicate InPlace(commands: seq<E.Command>, cursor: nat, waiting: bool, awaits: nat, mailed: bool, q: nat) {
    && awaits <= 1 && (mailed ==> awaits == 0)
    && (forall i: nat, j: nat :: LeaseAt(commands, i, q) && LeaseAt(commands, j, q) ==> i == j)
    && (forall i: nat :: cursor <= i && LeaseAt(commands, i, q) ==>
          awaits == 0 && !mailed && (waiting || exists j: nat :: i < j && CancelAt(commands, j, q)))
    && (waiting ==>
          && (forall j: nat :: !CancelAt(commands, j, q))
          && (awaits == 1 || mailed || exists i: nat :: cursor <= i && LeaseAt(commands, i, q)))
    && (awaits == 1 && !waiting ==> exists j: nat :: cursor <= j && CancelAt(commands, j, q))
  }

  /** The arena leaves the request where it is, or answers it if it waits. */
  predicate Passed(awaits: nat, awaits': nat, settled: bool) {
    (awaits' == awaits && !settled) || (awaits == 1 && awaits' == 0 && settled)
  }

  lemma LeaseExecuted(commands: seq<E.Command>, cursor: nat, waiting: bool, awaits: nat, mailed: bool, q: nat,
      awaits': nat, settled: bool)
    requires InPlace(commands, cursor, waiting, awaits, mailed, q) && LeaseAt(commands, cursor, q)
    requires (awaits' == 1 && !settled) || (awaits' == 0 && settled)
    ensures InPlace(commands, cursor + 1, waiting, awaits', mailed || settled, q)
  {
  }

  lemma CancelExecuted(commands: seq<E.Command>, cursor: nat, waiting: bool, awaits: nat, mailed: bool, q: nat)
    requires InPlace(commands, cursor, waiting, awaits, mailed, q) && CancelAt(commands, cursor, q)
    ensures InPlace(commands, cursor + 1, waiting, 0, mailed, q)
  {
  }

  lemma OtherExecuted(commands: seq<E.Command>, cursor: nat, waiting: bool, awaits: nat, mailed: bool, q: nat,
      awaits': nat, settled: bool)
    requires InPlace(commands, cursor, waiting, awaits, mailed, q) && cursor < |commands|
    requires !LeaseAt(commands, cursor, q) && !CancelAt(commands, cursor, q) && Passed(awaits, awaits', settled)
    ensures InPlace(commands, cursor + 1, waiting, awaits', mailed || settled, q)
  {
  }

  lemma NothingExecuted(commands: seq<E.Command>, cursor: nat, waiting: bool, awaits: nat, mailed: bool, q: nat,
      awaits': nat, settled: bool)
    requires InPlace(commands, cursor, waiting, awaits, mailed, q) && Passed(awaits, awaits', settled)
    ensures InPlace(commands, cursor, waiting, awaits', mailed || settled, q)
  {
  }

  /** The commands an event adds: no second request, and a cancel only and always if the edge stops waiting for good. */
  ghost predicate AddsFor(commands: seq<E.Command>, commands': seq<E.Command>, stops: bool, q: nat) {
    && commands <= commands'
    && (forall i: nat :: |commands| <= i ==> !LeaseAt(commands', i, q))
    && (forall i: nat :: |commands| <= i && CancelAt(commands', i, q) ==> stops)
    && (stops ==> exists i: nat :: |commands| <= i && CancelAt(commands', i, q))
  }

  lemma EventObserved(commands: seq<E.Command>, commands': seq<E.Command>, cursor: nat, waiting: bool, awaits: nat,
      mailed: bool, q: nat, stops: bool)
    requires InPlace(commands, cursor, waiting, awaits, mailed, q) && AddsFor(commands, commands', stops, q)
    requires cursor <= |commands|
    ensures InPlace(commands', cursor, waiting && !stops, awaits, mailed, q)
  {
    forall i: nat | i < |commands| ensures LeaseAt(commands', i, q) <==> LeaseAt(commands, i, q) {}
    forall i: nat | i < |commands| ensures CancelAt(commands', i, q) <==> CancelAt(commands, i, q) {}
    if stops {
      var k: nat :| |commands| <= k && CancelAt(commands', k, q);
    }
  }

  lemma AnswerObserved(commands: seq<E.Command>, commands': seq<E.Command>, cursor: nat, waiting: bool, awaits: nat,
      q: nat, mailed': bool)
    requires InPlace(commands, cursor, waiting, awaits, true, q) && AddsFor(commands, commands', false, q)
    requires cursor <= |commands|
    ensures InPlace(commands', cursor, false, awaits, mailed', q)
  {
    forall i: nat | i < |commands| ensures LeaseAt(commands', i, q) <==> LeaseAt(commands, i, q) {}
  }

  // ─── what the establisher does for a request ───────────────────────────────

  lemma AddedIsCounted(before: seq<E.Command>, after: seq<E.Command>, i: nat)
    requires before <= after && |before| <= i < |after|
    ensures Count(before, after, after[i]) > 0
  {
    assert after[|before|..][i - |before|] == after[i];
  }

  lemma CountedIsAdded(before: seq<E.Command>, after: seq<E.Command>, c: E.Command) returns (i: nat)
    requires before <= after && Count(before, after, c) > 0
    ensures |before| <= i < |after| && after[i] == c
  {
    var added := after[|before|..];
    assert c in added;
    var k :| 0 <= k < |added| && added[k] == c;
    i := |before| + k;
  }

  lemma AddedIsDue(s: E.State, event: E.Event, i: nat)
    requires Apart(s) && PeersOk(s)
    ensures s.commands <= E.Observe(s, event).commands
    ensures |s.commands| <= i < |E.Observe(s, event).commands| ==> Due(s, event, E.Observe(s, event).commands[i])
  {
    ObserveDoesWhatIsDue(s, event);
    var cs, cs' := s.commands, E.Observe(s, event).commands;
    if |cs| <= i < |cs'| { AddedIsCounted(cs, cs', i); }
  }

  lemma DueIsAdded(s: E.State, event: E.Event, c: E.Command) returns (i: nat)
    requires Apart(s) && PeersOk(s) && Due(s, event, c)
    ensures |s.commands| <= i < |E.Observe(s, event).commands| && E.Observe(s, event).commands[i] == c
  {
    ObserveDoesWhatIsDue(s, event);
    var cs, cs' := s.commands, E.Observe(s, event).commands;
    i := CountedIsAdded(cs, cs', c);
  }

  lemma AddsForEdge(s: E.State, event: E.Event, e: nat)
    requires Apart(s) && PeersOk(s) && e in s.records && s.records[e].request < s.nextRequest
    ensures AddsFor(s.commands, E.Observe(s, event).commands, StopBegins(s, event, e), s.records[e].request)
  {
    var s', q, stops := E.Observe(s, event), s.records[e].request, StopBegins(s, event, e);
    AddedIsDue(s, event, 0);
    forall i: nat | |s.commands| <= i
      ensures !LeaseAt(s'.commands, i, q) && (CancelAt(s'.commands, i, q) ==> stops)
    {
      AddedIsDue(s, event, i);
    }
    if stops {
      var i := DueIsAdded(s, event, E.CancelQueuedLease(q, e));
      assert CancelAt(s'.commands, i, q);
    }
  }

  predicate Waiting(s: E.State, e: nat)
    requires e in s.records
  {
    s.records[e].state.WaitingForLease?
  }

  /** An edge waits on exactly if the event neither answers its request nor stops it. */
  lemma WaitsOnIff(s: E.State, event: E.Event, e: nat)
    requires Apart(s) && e in s.records && !event.StoppedExternally?
    requires E.ProvisionedEdge(event).Some? ==> E.ProvisionedEdge(event).value !in s.records
    ensures var s' := E.Observe(s, event);
            && e in s'.records && s'.records[e].request == s.records[e].request
            && (Waiting(s', e) <==>
                  Waiting(s, e) && !StopBegins(s, event, e) && !GetsRing(s, event, e) && !LosesLease(s, event, e))
  {
    RecordsMove(s, event, e);
  }

  // ─── what the arena does with a request ────────────────────────────────────

  lemma {:induction false} GrantSettles(events: seq<A.Event>, q: nat)
    requires forall i :: 0 <= i < |events| ==> !events[i].RingLeaseRejected?
    ensures SettledBy(events, q) <==> A.GrantCount(events, q) > 0
    decreases |events|
  {
    if events != [] {
      GrantSettles(events[1..], q);
      if i :| 0 <= i < |events| && Settles(events[i], q) && i > 0 { assert Settles(events[1..][i - 1], q); }
      if i :| 0 <= i < |events[1..]| && Settles(events[1..][i], q) { assert Settles(events[i + 1], q); }
      if A.IsGrant(events[0], q) { assert Settles(events[0], q); }
    }
  }

  lemma RetryPasses(s: A.State, q: nat)
    requires A.AwaitCount(s.pending, q) <= 1
    ensures Passed(A.AwaitCount(s.pending, q), A.AwaitCount(A.Retry(s).0.pending, q), SettledBy(A.Retry(s).1, q))
  {
    A.RetryCounts(s, q);
    RetryEnds(s);
    var events := A.Retry(s).1;
    forall i | 0 <= i < |events| ensures !events[i].RingLeaseRejected? {
      assert Ends(s.config, s.pending[i], false, events[i]);
    }
    GrantSettles(events, q);
  }

  lemma ReleasePasses(s: A.State, ring: nat, verified: bool, q: nat)
    requires A.AwaitCount(s.pending, q) <= 1
    ensures var (s', events) := A.Release(s, ring, verified);
            Passed(A.AwaitCount(s.pending, q), A.AwaitCount(s'.pending, q), SettledBy(events, q))
  {
    var (s', events) := A.Release(s, ring, verified);
    if ring in s.index && s.index[ring] < |s.live| && verified && s.phase.Ready? {
      var back := A.Returned(s, s.index[ring]);
      RetryPasses(back, q);
      assert events == [events[0]] + A.Retry(back).1;
      if i :| 0 <= i < |A.Retry(back).1| && Settles(A.Retry(back).1[i], q) { assert Settles(events[i + 1], q); }
      if i :| 0 <= i < |events| && Settles(events[i], q) { assert Settles(A.Retry(back).1[i - 1], q); }
    }
  }

  lemma {:induction false} DrainSettles(pending: seq<A.Queued>, q: nat)
    ensures SettledBy(A.DrainPending(pending), q) <==> A.AwaitCount(pending, q) > 0
    decreases |pending|
  {
    if pending != [] {
      var events, rest := A.DrainPending(pending), A.DrainPending(pending[1..]);
      DrainSettles(pending[1..], q);
      assert events == [A.Dismissal(pending[0])] + rest;
      if i :| 0 <= i < |rest| && Settles(rest[i], q) { assert Settles(events[i + 1], q); }
      if i :| 0 <= i < |events| && Settles(events[i], q) && i > 0 { assert Settles(rest[i - 1], q); }
      if A.Awaits(pending[0], q) { assert Settles(events[0], q); }
    }
  }

  lemma LeaseLands(s: A.State, request: A.LeaseRequest, q: nat)
    ensures var (s', events) := A.Lease(s, request);
            var awaits, awaits', settled :=
              A.AwaitCount(s.pending, q), A.AwaitCount(s'.pending, q), SettledBy(events, q);
            if request.requestId == q then (awaits' == awaits + 1 && !settled) || (awaits' == awaits && settled)
            else awaits' == awaits && !settled
  {
    var (s', events) := A.Lease(s, request);
    A.AwaitOneMore(s.pending, A.Queued(request, false), q);
    LeaseAnswers(s, request);
    assert Settles(events[0], q) || !SettledBy(events, q);
  }

  // ─── the world ─────────────────────────────────────────────────────────────

  ghost predicate Placed(w: World, e: nat)
    requires e in w.est.records
  {
    var q := w.est.records[e].request;
    InPlace(w.est.commands, w.cursor, Waiting(w.est, e), A.AwaitCount(w.arena.pending, q), Mailed(w.mail, q), q)
  }

  /** What is answered or cancelled was asked. */
  ghost predicate OnlyAsked(w: World) {
    && (forall answer, q: nat :: answer in w.mail && Settles(answer, q) ==> q < w.est.nextRequest)
    && (forall c :: c in w.est.commands && c.CancelQueuedLease? ==> c.request < w.est.nextRequest)
  }

  ghost predicate AllInPlace(w: World) {
    && Kept(w.est) && OnlyAsked(w)
    && forall e :: e in w.est.records ==> Placed(w, e)
  }

  lemma InitInPlace(config: Config, node: nat)
    ensures AllInPlace(Init(config, node))
  {
  }

  lemma MailedAfter(mail: multiset<A.Event>, events: seq<A.Event>, q: nat)
    ensures Mailed(mail + multiset(events), q) <==> Mailed(mail, q) || SettledBy(events, q)
  {
    if i :| 0 <= i < |events| && Settles(events[i], q) { assert events[i] in mail + multiset(events); }
    if answer :| answer in mail && Settles(answer, q) { assert answer in mail + multiset(events); }
    if answer :| answer in mail + multiset(events) && Settles(answer, q) && answer !in mail {
      assert answer in events;
    }
  }

  // ─── a command executed ────────────────────────────────────────────────────

  /** What the executed command may do to a request: its own lease lands, its cancel ends it, others pass it by. */
  predicate Does(lease: bool, cancel: bool, awaits: nat, awaits': nat, settled: bool) {
    if lease then (awaits' == 1 && !settled) || (awaits' == 0 && settled)
    else if cancel then awaits' == 0 && !settled
    else Passed(awaits, awaits', settled)
  }

  lemma HandledOn(s: A.State, c: E.Command, q: nat)
    requires Asked(c).Some? && A.AwaitCount(s.pending, q) <= 1
    requires c.LeaseRing? && c.request == q ==> A.AwaitCount(s.pending, q) == 0
    ensures var (s', events) := A.Handle(s, Asked(c).value);
            Does(c.LeaseRing? && c.request == q, c.CancelQueuedLease? && c.request == q, A.AwaitCount(s.pending, q),
                 A.AwaitCount(s'.pending, q), SettledBy(events, q))
  {
    match c
    case LeaseRing(id, _, _, spec) => LeaseLands(s, A.LeaseRequest(id, spec), q);
    case CancelQueuedLease(id, _) => A.CancelCounts(s.pending, id, q);
    case ReleaseArenaLease(ring) => ReleasePasses(s, ring, true, q);
    case _ =>
  }

  lemma ExecutedOn(w: World, q: nat) returns (settled: bool)
    requires w.cursor < |w.est.commands| && A.AwaitCount(w.arena.pending, q) <= 1
    requires LeaseAt(w.est.commands, w.cursor, q) ==> A.AwaitCount(w.arena.pending, q) == 0
    ensures Mailed(Next(w, Execute).mail, q) <==> Mailed(w.mail, q) || settled
    ensures Does(LeaseAt(w.est.commands, w.cursor, q), CancelAt(w.est.commands, w.cursor, q),
                 A.AwaitCount(w.arena.pending, q), A.AwaitCount(Next(w, Execute).arena.pending, q), settled)
  {
    var c := w.est.commands[w.cursor];
    if Asked(c).Some? {
      var (arena', events) := A.Handle(w.arena, Asked(c).value);
      MailedAfter(w.mail, events, q);
      HandledOn(w.arena, c, q);
      settled := SettledBy(events, q);
    } else {
      settled := false;
    }
  }

  lemma ExecutedStaysPlaced(w: World, e: nat)
    requires w.cursor < |w.est.commands| && e in w.est.records && Placed(w, e)
    ensures Placed(Next(w, Execute), e)
  {
    var q, w', cs := w.est.records[e].request, Next(w, Execute), w.est.commands;
    var waiting, awaits, mailed := Waiting(w.est, e), A.AwaitCount(w.arena.pending, q), Mailed(w.mail, q);
    var awaits' := A.AwaitCount(w'.arena.pending, q);
    var settled := ExecutedOn(w, q);
    if LeaseAt(cs, w.cursor, q) {
      LeaseExecuted(cs, w.cursor, waiting, awaits, mailed, q, awaits', settled);
    } else if CancelAt(cs, w.cursor, q) {
      CancelExecuted(cs, w.cursor, waiting, awaits, mailed, q);
    } else {
      OtherExecuted(cs, w.cursor, waiting, awaits, mailed, q, awaits', settled);
    }
  }

  lemma {:induction false} UnaskedDoesNotWait(pending: seq<A.Queued>, q: nat)
    requires q !in A.PendingIds(pending)
    ensures A.AwaitCount(pending, q) == 0
    decreases |pending|
  {
    if pending != [] {
      assert A.PendingIds(pending)[0] == pending[0].request.requestId;
      forall i | 0 <= i < |pending[1..]| ensures A.PendingIds(pending[1..])[i] != q {
        assert A.PendingIds(pending)[i + 1] != q;
      }
      UnaskedDoesNotWait(pending[1..], q);
    }
  }

  lemma UnaskedIsNotMailed(w: World, q: nat)
    requires w.cursor < |w.est.commands| && RequestsKnown(w) && OnlyAsked(w) && q >= w.est.nextRequest
    ensures !Mailed(Next(w, Execute).mail, q)
  {
    UnaskedDoesNotWait(w.arena.pending, q);
    assert w.est.commands[w.cursor] in w.est.commands;
    var settled := ExecutedOn(w, q);
  }

  lemma ExecutedInPlace(w: World)
    requires w.cursor < |w.est.commands| && RequestsKnown(w) && AllInPlace(w)
    ensures AllInPlace(Next(w, Execute))
  {
    var w' := Next(w, Execute);
    forall e | e in w'.est.records ensures Placed(w', e) {
      assert Placed(w, e);
      ExecutedStaysPlaced(w, e);
    }
    forall answer, q: nat | answer in w'.mail && Settles(answer, q) ensures q < w'.est.nextRequest {
      assert Mailed(w'.mail, q);
      if q >= w.est.nextRequest { UnaskedIsNotMailed(w, q); }
    }
  }

  lemma ShutdownPasses(w: World, q: nat)
    requires A.AwaitCount(w.arena.pending, q) <= 1
    ensures var w' := Next(w, Shutdown);
            var awaits := A.AwaitCount(w.arena.pending, q);
            && A.AwaitCount(w'.arena.pending, q) == 0 && Passed(awaits, 0, awaits == 1)
            && (Mailed(w'.mail, q) <==> Mailed(w.mail, q) || awaits == 1)
  {
    DrainSettles(w.arena.pending, q);
    MailedAfter(w.mail, A.DrainPending(w.arena.pending), q);
  }

  lemma UnaskedIsNotDismissed(w: World, q: nat)
    requires RequestsKnown(w) && OnlyAsked(w) && q >= w.est.nextRequest
    ensures !Mailed(Next(w, Shutdown).mail, q)
  {
    UnaskedDoesNotWait(w.arena.pending, q);
    ShutdownPasses(w, q);
  }

  lemma ShutdownInPlace(w: World)
    requires AllInPlace(w) && RequestsKnown(w)
    ensures AllInPlace(Next(w, Shutdown))
  {
    var w' := Next(w, Shutdown);
    forall e | e in w'.est.records ensures Placed(w', e) {
      var q := w.est.records[e].request;
      assert Placed(w, e);
      ShutdownPasses(w, q);
      var awaits := A.AwaitCount(w.arena.pending, q);
      NothingExecuted(w.est.commands, w.cursor, Waiting(w.est, e), awaits, Mailed(w.mail, q), q, 0, awaits == 1);
    }
    forall answer, q: nat | answer in w'.mail && Settles(answer, q) ensures q < w'.est.nextRequest {
      assert Mailed(w'.mail, q);
      if q >= w.est.nextRequest { UnaskedIsNotDismissed(w, q); }
    }
  }

  // ─── an event observed ─────────────────────────────────────────────────────

  lemma ObservedKeepsBooks(w: World, w': World, event: E.Event)
    requires Accounted(w.est, w.ledger) && Kept(w.est) && OnlyAsked(w) && w'.est == E.Observe(w.est, event)
    requires E.ProvisionedEdge(event).Some? ==> E.ProvisionedEdge(event).value !in w.est.records
    requires w'.mail <= w.mail
    ensures Kept(w'.est) && OnlyAsked(w') && w.est.nextRequest <= w'.est.nextRequest
  {
    AccountedIsApart(w.est, w.ledger);
    NextKept(w.est, event);
    RecordsMove(w.est, event, 0);
    if event.ProvisionTx? || event.ProvisionRx? { ProvisionMoves(w.est, event, 0); }
    AddedIsDue(w.est, event, 0);
    forall c | c in w'.est.commands && c.CancelQueuedLease? ensures c.request < w'.est.nextRequest {
      var i :| 0 <= i < |w'.est.commands| && w'.est.commands[i] == c;
      if i < |w.est.commands| { assert c == w.est.commands[i]; } else { AddedIsDue(w.est, event, i); }
    }
  }

  // A new edge waits for a request nobody has heard of yet.
  lemma NewcomerIsPlaced(w: World, w': World, event: E.Event, e: nat)
    requires Accounted(w.est, w.ledger) && Kept(w.est) && OnlyAsked(w) && RequestsKnown(w)
    requires w.cursor <= |w.est.commands| && w'.est == E.Observe(w.est, event) && w'.cursor == w.cursor
    requires w'.mail == w.mail && w'.arena == w.arena
    requires e !in w.est.records && ProvisionsHere(w.est, event, e)
    ensures e in w'.est.records && Placed(w', e)
  {
    var q, cs, cs' := w.est.nextRequest, w.est.commands, w'.est.commands;
    ProvisionMoves(w.est, event, e);
    assert w'.est.records[e].request == q && Waiting(w'.est, e);
    assert |cs'| == |cs| + 1 && cs' == cs + [cs'[|cs|]] && LeaseAt(cs', |cs|, q);
    forall i: nat | i < |cs| ensures !LeaseAt(cs', i, q) && !CancelAt(cs', i, q) { assert cs[i] in cs; }
    UnaskedDoesNotWait(w.arena.pending, q);
    assert !Mailed(w.mail, q);
  }

  lemma ObservedStaysPlaced(w: World, w': World, event: E.Event, e: nat)
    requires Accounted(w.est, w.ledger) && Kept(w.est) && w.cursor <= |w.est.commands|
    requires E.ProvisionedEdge(event).Some? ==> E.ProvisionedEdge(event).value !in w.est.records
    requires !event.StoppedExternally?
    requires w'.est == E.Observe(w.est, event) && w'.cursor == w.cursor && w'.arena == w.arena
    requires e in w.est.records && Placed(w, e) && !GetsRing(w.est, event, e) && !LosesLease(w.est, event, e)
    requires Mailed(w'.mail, w.est.records[e].request) <==> Mailed(w.mail, w.est.records[e].request)
    ensures e in w'.est.records && Placed(w', e)
  {
    var q, stops := w.est.records[e].request, StopBegins(w.est, event, e);
    AccountedIsApart(w.est, w.ledger);
    AddsForEdge(w.est, event, e);
    WaitsOnIff(w.est, event, e);
    EventObserved(w.est.commands, w'.est.commands, w.cursor, Waiting(w.est, e), A.AwaitCount(w.arena.pending, q),
      Mailed(w.mail, q), q, stops);
  }

  lemma AnsweredStaysPlaced(w: World, w': World, answer: A.Event, e: nat)
    requires Accounted(w.est, w.ledger) && Kept(w.est) && w.cursor <= |w.est.commands|
    requires answer in w.mail && Told(answer).Some? && w'.est == E.Observe(w.est, Told(answer).value)
    requires w'.cursor == w.cursor && w'.arena == w.arena
    requires e in w.est.records && Placed(w, e) && Settles(answer, w.est.records[e].request)
    ensures e in w'.est.records && Placed(w', e)
  {
    var q, event := w.est.records[e].request, Told(answer).value;
    AccountedIsApart(w.est, w.ledger);
    AddsForEdge(w.est, event, e);
    WaitsOnIff(w.est, event, e);
    assert Mailed(w.mail, q);
    AnswerObserved(w.est.commands, w'.est.commands, w.cursor, Waiting(w.est, e), A.AwaitCount(w.arena.pending, q), q,
      Mailed(w'.mail, q));
  }

  /** The establisher hears of leases and rejections from the arena alone. */
  predicate FromArena(step: Step) {
    step.Edge? ==> !step.event.RingLeaseRejected?
  }

  lemma EdgeInPlace(w: World, event: E.Event)
    requires Inv(w) && AllInPlace(w) && Enabled(w, Edge(event)) && FromArena(Edge(event))
    ensures AllInPlace(Next(w, Edge(event)))
  {
    var w' := Next(w, Edge(event));
    ObservedKeepsBooks(w, w', event);
    AccountedIsApart(w.est, w.ledger);
    forall e | e in w'.est.records ensures Placed(w', e) {
      RecordsMove(w.est, event, e);
      if e in w.est.records {
        assert Placed(w, e);
        ObservedStaysPlaced(w, w', event, e);
      } else {
        NewcomerIsPlaced(w, w', event, e);
      }
    }
  }

  lemma TakenOut(mail: multiset<A.Event>, answer: A.Event, q: nat)
    requires !Settles(answer, q)
    ensures Mailed(mail - multiset{answer}, q) <==> Mailed(mail, q)
  {
    if other :| other in mail && Settles(other, q) { assert other in mail - multiset{answer}; }
    if other :| other in mail - multiset{answer} && Settles(other, q) { assert other in mail; }
  }

  lemma DeliverInPlace(w: World, answer: A.Event)
    requires Inv(w) && AllInPlace(w) && Enabled(w, Deliver(answer))
    ensures AllInPlace(Next(w, Deliver(answer)))
  {
    var w' := Next(w, Deliver(answer));
    if Told(answer).Some? {
      var event := Told(answer).value;
      ObservedKeepsBooks(w, w', event);
      AccountedIsApart(w.est, w.ledger);
      forall e | e in w'.est.records ensures Placed(w', e) {
        RecordsMove(w.est, event, e);
        assert e in w.est.records && Placed(w, e);
        var q := w.est.records[e].request;
        if Settles(answer, q) {
          AnsweredStaysPlaced(w, w', answer, e);
        } else {
          TakenOut(w.mail, answer, q);
          ObservedStaysPlaced(w, w', event, e);
        }
      }
    } else {
      forall e | e in w'.est.records ensures Placed(w', e) {
        assert Placed(w, e);
        TakenOut(w.mail, answer, w.est.records[e].request);
      }
    }
  }

  // ─── whole runs ────────────────────────────────────────────────────────────

  lemma NextInPlace(w: World, step: Step)
    requires Inv(w) && AllInPlace(w) && Enabled(w, step) && FromArena(step)
    ensures AllInPlace(Next(w, step))
  {
    match step
    case Edge(event) => EdgeInPlace(w, event);
    case Execute => ExecutedInPlace(w);
    case Deliver(answer) => DeliverInPlace(w, answer);
    case Shutdown => ShutdownInPlace(w);
  }

  lemma {:induction false} RunInPlace(w: World, steps: seq<Step>)
    requires Inv(w) && AllInPlace(w) && Runs(w, steps) && w.arena.nextRingId + |w.arena.pending| + |steps| < U64_MAX
    requires forall i :: 0 <= i < |steps| ==> FromArena(steps[i])
    ensures Inv(Run(w, steps)) && AllInPlace(Run(w, steps))
    decreases |steps|
  {
    if steps != [] {
      NextKeepsInv(w, steps[0]);
      NextInPlace(w, steps[0]);
      RunInPlace(Next(w, steps[0]), steps[1..]);
    }
  }

  /** Every command issued has been executed and every answer delivered. */
  predicate AtRest(w: World) {
    w.cursor == |w.est.commands| && w.mail == multiset{}
  }

  lemma {:induction false} AwaitedIsCounted(pending: seq<A.Queued>, i: nat)
    requires i < |pending| && !pending[i].cancelled
    ensures A.AwaitCount(pending, pending[i].request.requestId) > 0
    decreases i
  {
    if i > 0 { AwaitedIsCounted(pending[1..], i - 1); }
  }

  ghost predicate WaitsAsMany(w: World, e: nat)
    requires e in w.est.records
  {
    A.AwaitCount(w.arena.pending, w.est.records[e].request) == if Waiting(w.est, e) then 1 else 0
  }

  ghost predicate WaitsForEdge(w: World, p: A.Queued) {
    exists e :: e in w.est.records && Waiting(w.est, e) && w.est.records[e].request == p.request.requestId
  }

  lemma RestedEdge(w: World, e: nat)
    requires AtRest(w) && e in w.est.records && Placed(w, e)
    ensures WaitsAsMany(w, e)
  {
  }

  lemma RequestHasEdge(w: World, q: nat) returns (e: nat)
    requires Inv(w) && q in A.PendingIds(w.arena.pending)
    ensures e in w.est.records && w.est.records[e].request == q
  {
    e := w.ledger.asked[q];
  }

  lemma RestedRequest(w: World, p: A.Queued)
    requires Inv(w) && AtRest(w) && AllInPlace(w) && p in w.arena.pending && !p.cancelled
    ensures WaitsForEdge(w, p)
  {
    var i :| 0 <= i < |w.arena.pending| && w.arena.pending[i] == p;
    assert A.PendingIds(w.arena.pending)[i] == p.request.requestId;
    var e := RequestHasEdge(w, p.request.requestId);
    AwaitedIsCounted(w.arena.pending, i);
    RestedEdge(w, e);
  }

  /**
   Once every command has been executed and every answer delivered, the edges that wait for a lease are those
   whose request waits in the arena: each once, and no request waits for an edge that does not.
   */
  lemma WaitingEdgesAreTheQueue(config: Config, node: nat, steps: seq<Step>)
    requires config.ceiling > 0 && |steps| < U64_MAX - 1 && Runs(Init(config, node), steps)
    requires forall i :: 0 <= i < |steps| ==> FromArena(steps[i])
    requires AtRest(Run(Init(config, node), steps))
    ensures var w := Run(Init(config, node), steps);
            && (forall e :: e in w.est.records ==> WaitsAsMany(w, e))
            && (forall p :: p in w.arena.pending && !p.cancelled ==> WaitsForEdge(w, p))
  {
    InitInv(config, node);
    InitInPlace(config, node);
    RunInPlace(Init(config, node), steps);
    var w := Run(Init(config, node), steps);
    forall e | e in w.est.records ensures WaitsAsMany(w, e) {
      assert Placed(w, e);
      RestedEdge(w, e);
    }
    forall p | p in w.arena.pending && !p.cancelled ensures WaitsForEdge(w, p) { RestedRequest(w, p); }
  }

  predicate Closed(w: World) {
    w.arena.phase.ShuttingDown? && w.arena.pending == []
  }

  lemma ClosedStays(w: World, step: Step)
    requires Enabled(w, step) && (Closed(w) || (step.Shutdown? && !w.arena.phase.ShuttingDown?))
    ensures Closed(Next(w, step))
  {
    match step
    case Execute =>
      if Asked(w.est.commands[w.cursor]).Some? {
        HandleKeepsPhase(w.arena, Asked(w.est.commands[w.cursor]).value);
      }
    case Shutdown => HandleKeepsPhase(w.arena, A.Shutdown);
    case _ =>
  }

  // An arena that is closing holds no requests.
  predicate ClosingIsClosed(w: World) {
    w.arena.phase.ShuttingDown? ==> w.arena.pending == []
  }

  lemma ClosingStaysClosed(w: World, step: Step)
    requires Enabled(w, step) && ClosingIsClosed(w)
    ensures ClosingIsClosed(Next(w, step)) && (step.Shutdown? ==> Closed(Next(w, step)))
  {
    if Closed(w) || (step.Shutdown? && !w.arena.phase.ShuttingDown?) {
      ClosedStays(w, step);
    } else if step.Execute? && Asked(w.est.commands[w.cursor]).Some? {
      HandleKeepsPhase(w.arena, Asked(w.est.commands[w.cursor]).value);
    }
  }

  lemma {:induction false} ClosedInTheEnd(w: World, steps: seq<Step>)
    requires Runs(w, steps) && ClosingIsClosed(w) && (Closed(w) || Shutdown in steps)
    ensures Closed(Run(w, steps))
    decreases |steps|
  {
    if steps != [] {
      ClosingStaysClosed(w, steps[0]);
      if Closed(w) { ClosedStays(w, steps[0]); }
      ClosedInTheEnd(Next(w, steps[0]), steps[1..]);
    }
  }

  /** After a shutdown nobody is left waiting, once every command has been executed and every answer delivered. */
  lemma NobodyWaitsForAClosedArena(config: Config, node: nat, steps: seq<Step>, e: nat)
    requires config.ceiling > 0 && |steps| < U64_MAX - 1 && Runs(Init(config, node), steps)
    requires forall i :: 0 <= i < |steps| ==> FromArena(steps[i])
    requires Shutdown in steps && AtRest(Run(Init(config, node), steps))
    requires e in Run(Init(config, node), steps).est.records
    ensures !Waiting(Run(Init(config, node), steps).est, e)
  {
    WaitingEdgesAreTheQueue(config, node, steps);
    ClosedInTheEnd(Init(config, node), steps);
    assert WaitsAsMany(Run(Init(config, node), steps), e);
  }

  // ─── answers as they reach the edge ────────────────────────────────────────

  /** A rejection fails the edge that waits, and is announced with the arena's reason. */
  lemma RejectionReachesItsEdge(w: World, e: nat, why: A.LeaseRejection)
    requires Inv(w) && Kept(w.est) && e in w.est.records && Waiting(w.est, e)
    requires A.RingLeaseRejected(w.est.records[e].request, why) in w.mail
    ensures var w' := Next(w, Deliver(A.RingLeaseRejected(w.est.records[e].request, why)));
            && e in w'.est.records && w'.est.records[e].state.Failed?
            && Count(w.est.events, w'.est.events,
                     E.EdgeFaulted(e, E.LeaseRejected(if why.ArenaShuttingDown? then E.ArenaShuttingDown
                         else E.CannotFit)))
               == 1
  {
    var answer := A.RingLeaseRejected(w.est.records[e].request, why);
    AccountedIsApart(w.est, w.ledger);
    ObserveDoesWhatIsDue(w.est, Told(answer).value);
    RecordsMove(w.est, Told(answer).value, e);
  }

  /** A grant gives the edge that waits the ring and the place of the lease, and asks for it to be installed. */
  lemma GrantReachesItsEdge(w: World, e: nat, lease: A.RingLease)
    requires Inv(w) && Kept(w.est) && e in w.est.records && Waiting(w.est, e)
    requires lease.requestId == w.est.records[e].request && A.RingLeased(lease) in w.mail
    ensures var w', r := Next(w, Deliver(A.RingLeased(lease))), w.est.records[e];
            && e in w'.est.records && w'.est.records[e].ring == Some(lease.ringId)
            && w'.est.records[e].layout == Some(lease.layout)
            && Count(w.est.commands, w'.est.commands,
                     E.InstallWorkerRing(e, lease.ringId, r.direction, lease.layout, r.spec)) == 1
  {
    AccountedIsApart(w.est, w.ledger);
    ObserveDoesWhatIsDue(w.est, Told(A.RingLeased(lease)).value);
    RecordsMove(w.est, Told(A.RingLeased(lease)).value, e);
  }
}
