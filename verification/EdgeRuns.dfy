/** What the establisher does over whole runs: each edge gets what its own history calls for, once, and in time. */
module EdgeRuns {
  import opened EdgeLaws
  import opened EdgeLifecycle
  import opened EdgeRings
  import opened Options
  import opened Placement

  /** A run of the establisher: the events, and the states and books before and after each. */
  datatype Course = Course(events: seq<Event>, states: seq<State>, ledgers: seq<Ledger>) {
    predicate Shaped() {
      |states| == |ledgers| == |events| + 1
    }
  }

  /** The event comes as the arena and the callers send it, and is observed. */
  predicate Stepped(c: Course, k: nat)
    requires c.Shaped() && k < |c.events|
  {
    && Lawful(c.states[k], c.ledgers[k], c.events[k])
    && c.states[k + 1] == Observe(c.states[k], c.events[k])
    && c.ledgers[k + 1] == Enter(c.states[k], c.ledgers[k], c.events[k])
  }

  ghost predicate IsCourse(node: nat, c: Course) {
    && c.Shaped() && c.states[0] == New(node) && c.ledgers[0] == Open()
    && forall k :: 0 <= k < |c.events| ==> Stepped(c, k)
  }

  lemma CourseOneMore(node: nat, c: Course, event: Event) returns (c': Course)
    requires IsCourse(node, c) && Lawful(c.states[|c.events|], c.ledgers[|c.events|], event)
    ensures IsCourse(node, c') && c'.events == c.events + [event]
    ensures c'.states[|c'.events|] == Observe(c.states[|c.events|], event)
    ensures c'.ledgers[|c'.events|] == Enter(c.states[|c.events|], c.ledgers[|c.events|], event)
  {
    var n := |c.events|;
    c' := Course(c.events + [event], c.states + [Observe(c.states[n], event)],
                 c.ledgers + [Enter(c.states[n], c.ledgers[n], event)]);
    forall k | 0 <= k < |c'.events| ensures Stepped(c', k) {
      if k < n { assert Stepped(c, k); }
    }
  }

  lemma {:induction false} CourseOn(node: nat, c: Course, more: seq<Event>) returns (c': Course)
    requires IsCourse(node, c) && LawfulRun(c.states[|c.events|], c.ledgers[|c.events|], more)
    ensures IsCourse(node, c') && c'.events == c.events + more
    ensures c'.states[|c'.events|] == Run(c.states[|c.events|], more)
    decreases |more|
  {
    if more == [] {
      c' := c;
      assert c.events + [] == c.events;
    } else {
      var c1 := CourseOneMore(node, c, more[0]);
      c' := CourseOn(node, c1, more[1..]);
      assert c.events + more == c.events + [more[0]] + more[1..];
    }
  }

  /** Every lawful run is a course, and ends in its last state. */
  lemma LawfulRunIsCourse(node: nat, events: seq<Event>) returns (c: Course)
    requires LawfulRun(New(node), Open(), events)
    ensures IsCourse(node, c) && c.events == events && c.states[|events|] == Run(New(node), events)
  {
    c := CourseOn(node, Course([], [New(node)], [Open()]), events);
    assert [] + events == events;
  }

  // ─── what every state keeps ────────────────────────────────────────────────

  /** A proof counts only while its edge stops, and an edge that stops still lacks one. */
  predicate FlagsOk(r: Record) {
    && (!r.state.Stopping? && !r.state.Stopped? ==> !r.pumpStopped && !r.workerRingQuiesced && !r.quiescenceProven)
    && (r.state.Stopping? ==> r.ring.Some? && !TeardownQuiesced(r))
    && (r.direction.Egress? <==> r.peer.Some?)
  }

  ghost predicate Kept(s: State) {
    && (forall e :: e in s.records ==> FlagsOk(s.records[e]) && s.records[e].actor < s.nextActor)
    && (forall d, e :: d in s.records && e in s.records && s.records[d].actor == s.records[e].actor ==> d == e)
  }

  lemma MovedKeepsFlags(s: State, event: Event, e: nat)
    requires e in s.records && FlagsOk(s.records[e])
    ensures FlagsOk(Moved(s, event, e)) && Moved(s, event, e).actor == s.records[e].actor
  {
  }

  lemma OneKept(s: State, event: Event, e: nat)
    requires Apart(s) && Kept(s) && (ProvisionedEdge(event).Some? ==> ProvisionedEdge(event).value !in s.records)
    requires e in Observe(s, event).records
    ensures var s', r := Observe(s, event), Observe(s, event).records[e];
            && FlagsOk(r) && s.nextActor <= s'.nextActor && r.actor < s'.nextActor
            && (if e in s.records then r.actor == s.records[e].actor
                else r.actor == s.nextActor && ProvisionsHere(s, event, e))
  {
    RecordsMove(s, event, e);
    if e in s.records { MovedKeepsFlags(s, event, e); }
    if event.ProvisionTx? || event.ProvisionRx? { ProvisionMoves(s, event, e); }
  }

  lemma NextKept(s: State, event: Event)
    requires Apart(s) && Kept(s) && (ProvisionedEdge(event).Some? ==> ProvisionedEdge(event).value !in s.records)
    ensures Kept(Observe(s, event))
  {
    var s' := Observe(s, event);
    forall e | e in s'.records ensures FlagsOk(s'.records[e]) && s'.records[e].actor < s'.nextActor {
      OneKept(s, event, e);
    }
    forall d, e | d in s'.records && e in s'.records && s'.records[d].actor == s'.records[e].actor ensures d == e {
      OneKept(s, event, d);
      OneKept(s, event, e);
    }
  }

  ghost predicate Sound(s: State, l: Ledger, node: nat) {
    Accounted(s, l) && Kept(s) && s.node == node
  }

  lemma SoundNext(s: State, l: Ledger, node: nat, event: Event, s': State, l': Ledger)
    requires Sound(s, l, node) && Lawful(s, l, event) && s' == Observe(s, event) && l' == Enter(s, l, event)
    ensures Sound(s', l', node)
  {
    AccountedIsApart(s, l);
    ObserveKeepsAccounts(s, l, event);
    NextKept(s, event);
    NodeStays(s, event);
  }

  lemma {:induction false} SoundAt(node: nat, c: Course, k: nat)
    requires IsCourse(node, c) && k <= |c.events|
    ensures Sound(c.states[k], c.ledgers[k], node)
    decreases k
  {
    if k > 0 {
      SoundAt(node, c, k - 1);
      assert Stepped(c, k - 1);
      SoundNext(c.states[k - 1], c.ledgers[k - 1], node, c.events[k - 1], c.states[k], c.ledgers[k]);
    }
  }

  /** What holds before each event of a run. */
  lemma StepOf(node: nat, c: Course, k: nat)
    requires IsCourse(node, c) && k < |c.events|
    ensures var s, event := c.states[k], c.events[k];
            && c.states[k + 1] == Observe(s, event) && Apart(s) && PeersOk(s) && Kept(s) && s.node == node
            && !event.StoppedExternally?
            && (ProvisionedEdge(event).Some? ==> ProvisionedEdge(event).value !in s.records)
  {
    SoundAt(node, c, k);
    assert Stepped(c, k);
    AccountedIsApart(c.states[k], c.ledgers[k]);
  }

  // ─── commands and announcements over a run ─────────────────────────────────

  /** How often the first `k` events have called for this command. */
  ghost function TimesDue(c: Course, k: nat, command: Command): (n: nat)
    requires c.Shaped() && k <= |c.events|
  {
    if k == 0 then 0
    else TimesDue(c, k - 1, command) + if Due(c.states[k - 1], c.events[k - 1], command) then 1 else 0
  }

  ghost function TimesWorth(c: Course, k: nat, notice: Notice): (n: nat)
    requires c.Shaped() && k <= |c.events|
  {
    if k == 0 then 0
    else TimesWorth(c, k - 1, notice) + if Worth(c.states[k - 1], c.events[k - 1], notice) then 1 else 0
  }

  lemma CountOn<T>(before: seq<T>, after: seq<T>, x: T)
    requires before <= after
    ensures multiset(after)[x] == multiset(before)[x] + Count(before, after, x)
  {
    assert after == before + after[|before|..];
    assert multiset(before + after[|before|..]) == multiset(before) + multiset(after[|before|..]);
  }

  lemma StepCounts(s: State, event: Event, s': State, command: Command, notice: Notice)
    requires Apart(s) && PeersOk(s) && s' == Observe(s, event)
    ensures multiset(s'.commands)[command] == multiset(s.commands)[command] + if Due(s, event, command) then 1 else 0
    ensures multiset(s'.events)[notice] == multiset(s.events)[notice] + if Worth(s, event, notice) then 1 else 0
  {
    ObserveDoesWhatIsDue(s, event);
    CountOn(s.commands, s'.commands, command);
    CountOn(s.events, s'.events, notice);
  }

  /** Over any lawful run every command was issued, and everything announced, exactly as often as it was called for. */
  lemma {:induction false} IssuedAsDue(node: nat, c: Course, k: nat, command: Command, notice: Notice)
    requires IsCourse(node, c) && k <= |c.events|
    ensures multiset(c.states[k].commands)[command] == TimesDue(c, k, command)
    ensures multiset(c.states[k].events)[notice] == TimesWorth(c, k, notice)
    decreases k
  {
    if k > 0 {
      IssuedAsDue(node, c, k - 1, command, notice);
      StepOf(node, c, k - 1);
      StepCounts(c.states[k - 1], c.events[k - 1], c.states[k], command, notice);
    }
  }

  // ─── one edge over a run ───────────────────────────────────────────────────

  /** An edge keeps what it was provisioned with, and only moves forward. */
  predicate SameEdge(r: Record, r': Record) {
    && r'.direction == r.direction && r'.peer == r.peer && r'.actor == r.actor && r'.request == r.request
    && r'.spec == r.spec && Rank(r.state) <= Rank(r'.state)
  }

  lemma StopIsForward(s: State, event: Event, e: nat)
    requires e in s.records
    ensures SameEdge(s.records[e], BegunToStop(s, event, e))
  {
  }

  lemma MovedIsForward(s: State, event: Event, e: nat)
    requires e in s.records && !event.StoppedExternally?
    ensures SameEdge(s.records[e], Moved(s, event, e))
  {
    match event
    case StopEdge(_) => StopIsForward(s, event, e);
    case StreamFault(_, _) => StopIsForward(s, event, e);
    case RingFault(_, _, _) => StopIsForward(s, event, e);
    case _ =>
  }

  lemma StepMoves(s: State, event: Event, s': State, e: nat)
    requires Apart(s) && s' == Observe(s, event) && !event.StoppedExternally? && e in s.records
    requires ProvisionedEdge(event).Some? ==> ProvisionedEdge(event).value !in s.records
    ensures e in s'.records && s'.records[e] == Moved(s, event, e) && SameEdge(s.records[e], s'.records[e])
  {
    RecordsMove(s, event, e);
    MovedIsForward(s, event, e);
  }

  lemma StepKeeps(node: nat, c: Course, k: nat, e: nat)
    requires IsCourse(node, c) && k < |c.events| && e in c.states[k].records
    ensures e in c.states[k + 1].records && SameEdge(c.states[k].records[e], c.states[k + 1].records[e])
    ensures c.states[k + 1].records[e] == Moved(c.states[k], c.events[k], e)
  {
    StepOf(node, c, k);
    StepMoves(c.states[k], c.events[k], c.states[k + 1], e);
  }

  lemma SameEdgeOn(a: Record, b: Record, c: Record)
    requires SameEdge(a, b) && SameEdge(b, c)
    ensures SameEdge(a, c)
  {
  }

  /** An edge that is there stays, with all it was provisioned with, and never moves back. */
  lemma {:induction false} EdgeStays(node: nat, c: Course, j: nat, k: nat, e: nat)
    requires IsCourse(node, c) && j <= k <= |c.events| && e in c.states[j].records
    ensures e in c.states[k].records && SameEdge(c.states[j].records[e], c.states[k].records[e])
    decreases k - j
  {
    if j < k {
      EdgeStays(node, c, j, k - 1, e);
      StepKeeps(node, c, k - 1, e);
      SameEdgeOn(c.states[j].records[e], c.states[k - 1].records[e], c.states[k].records[e]);
    }
  }

  lemma NewcomerAt(node: nat, c: Course, k: nat, e: nat)
    requires IsCourse(node, c) && k < |c.events| && e !in c.states[k].records
    ensures e in c.states[k + 1].records <==> ProvisionsHere(c.states[k], c.events[k], e)
    ensures ProvisionsHere(c.states[k], c.events[k], e) ==>
              c.states[k + 1].records[e] == Newcomer(c.states[k], c.events[k])
  {
    StepOf(node, c, k);
    RecordsMove(c.states[k], c.events[k], e);
  }

  /** Every edge there is was provisioned, and still is what it was provisioned as. */
  lemma {:induction false} EdgeWasProvisioned(node: nat, c: Course, k: nat, e: nat) returns (i: nat)
    requires IsCourse(node, c) && k <= |c.events| && e in c.states[k].records
    ensures i < k && ProvisionsHere(c.states[i], c.events[i], e) && c.states[i].node == node
    ensures SameEdge(Newcomer(c.states[i], c.events[i]), c.states[k].records[e])
    decreases k
  {
    if e in c.states[k - 1].records {
      i := EdgeWasProvisioned(node, c, k - 1, e);
      StepKeeps(node, c, k - 1, e);
      SameEdgeOn(Newcomer(c.states[i], c.events[i]), c.states[k - 1].records[e], c.states[k].records[e]);
    } else {
      i := k - 1;
      NewcomerAt(node, c, i, e);
      StepOf(node, c, i);
    }
  }

  /** A ring an edge has was brought to it while it waited for one. */
  lemma {:induction false} RingWasBrought(node: nat, c: Course, k: nat, e: nat) returns (i: nat)
    requires IsCourse(node, c) && k <= |c.events| && e in c.states[k].records && c.states[k].records[e].ring.Some?
    ensures i < k && GetsRing(c.states[i], c.events[i], e)
    ensures c.states[k].records[e].ring == Some(c.events[i].ring)
    ensures c.states[k].records[e].layout == Some(c.events[i].layout)
    decreases k
  {
    if e in c.states[k - 1].records {
      StepKeeps(node, c, k - 1, e);
      if GetsRing(c.states[k - 1], c.events[k - 1], e) {
        i := k - 1;
      } else {
        RingStays(c.states[k - 1], c.events[k - 1], e);
        i := RingWasBrought(node, c, k - 1, e);
      }
    } else {
      NewcomerAt(node, c, k - 1, e);
      assert false;
    }
  }

  lemma StopKeepsRing(s: State, event: Event, e: nat)
    requires e in s.records
    ensures BegunToStop(s, event, e).ring == s.records[e].ring && BegunToStop(s, event, e).layout == s.records[e].layout
  {
  }

  lemma RingStays(s: State, event: Event, e: nat)
    requires e in s.records && !GetsRing(s, event, e)
    ensures Moved(s, event, e).ring == s.records[e].ring && Moved(s, event, e).layout == s.records[e].layout
  {
    match event
    case StopEdge(_) => StopKeepsRing(s, event, e);
    case StreamFault(_, _) => StopKeepsRing(s, event, e);
    case RingFault(_, _, _) => StopKeepsRing(s, event, e);
    case _ =>
  }

  /** An edge that no longer waits for a lease keeps the ring it has. */
  lemma {:induction false} RingIsKept(node: nat, c: Course, j: nat, k: nat, e: nat)
    requires IsCourse(node, c) && j <= k <= |c.events| && e in c.states[j].records
    requires !c.states[j].records[e].state.WaitingForLease?
    ensures e in c.states[k].records && !c.states[k].records[e].state.WaitingForLease?
    ensures c.states[k].records[e].ring == c.states[j].records[e].ring
    ensures c.states[k].records[e].layout == c.states[j].records[e].layout
    decreases k - j
  {
    if j < k {
      RingIsKept(node, c, j, k - 1, e);
      StepKeeps(node, c, k - 1, e);
      RingStays(c.states[k - 1], c.events[k - 1], e);
    }
  }

  // ─── once ──────────────────────────────────────────────────────────────────

  lemma {:induction false} TimesDueIs(c: Course, k: nat, command: Command, j: nat)
    requires c.Shaped() && k <= |c.events|
    requires forall i :: 0 <= i < k && Due(c.states[i], c.events[i], command) ==> i == j
    ensures TimesDue(c, k, command) == if j < k && Due(c.states[j], c.events[j], command) then 1 else 0
    decreases k
  {
    if k > 0 { TimesDueIs(c, k - 1, command, j); }
  }

  lemma {:induction false} TimesWorthIs(c: Course, k: nat, notice: Notice, j: nat)
    requires c.Shaped() && k <= |c.events|
    requires forall i :: 0 <= i < k && Worth(c.states[i], c.events[i], notice) ==> i == j
    ensures TimesWorth(c, k, notice) == if j < k && Worth(c.states[j], c.events[j], notice) then 1 else 0
    decreases k
  {
    if k > 0 { TimesWorthIs(c, k - 1, notice, j); }
  }

  // An edge leaves each of its waiting states once.
  lemma InstalledOnce(node: nat, c: Course, i: nat, j: nat, e: nat)
    requires IsCourse(node, c) && i < j < |c.events| && GetsInstalled(c.states[i], c.events[i], e)
    ensures !GetsInstalled(c.states[j], c.events[j], e)
  {
    StepKeeps(node, c, i, e);
    EdgeStays(node, c, i + 1, j, e);
  }

  lemma ReadyOnce(node: nat, c: Course, i: nat, j: nat, e: nat)
    requires IsCourse(node, c) && i < j < |c.events| && GetsReady(c.states[i], c.events[i], e)
    ensures !GetsReady(c.states[j], c.events[j], e)
  {
    StepKeeps(node, c, i, e);
    EdgeStays(node, c, i + 1, j, e);
  }

  // ─── what an edge gets ─────────────────────────────────────────────────────

  /** The edge was provisioned here, to send to this peer or to receive. */
  predicate ProvisionedTo(node: nat, events: seq<Event>, j: nat, e: nat, peer: Option<nat>)
    requires j <= |events|
  {
    exists i :: 0 <= i < j &&
      if peer.Some? then events[i].ProvisionTx? && events[i].edge == e && events[i].node == node
                         && events[i].consumer == peer.value
      else events[i].ProvisionRx? && events[i].edge == e && events[i].node == node
  }

  /** The edge was brought a ring at this layout while it waited for one. */
  predicate BroughtAt(c: Course, j: nat, e: nat, layout: Layout)
    requires c.Shaped() && j <= |c.events|
  {
    exists i :: 0 <= i < j && GetsRing(c.states[i], c.events[i], e) && c.events[i].layout == layout
  }

  lemma ProvisionedMeans(node: nat, c: Course, j: nat, e: nat, peer: Option<nat>)
    requires IsCourse(node, c) && j <= |c.events| && e in c.states[j].records
    ensures ProvisionedTo(node, c.events, j, e, peer) <==> c.states[j].records[e].peer == peer
  {
    var i := EdgeWasProvisioned(node, c, j, e);
    if ProvisionedTo(node, c.events, j, e, peer) {
      var h :| 0 <= h < j &&
        if peer.Some? then c.events[h].ProvisionTx? && c.events[h].edge == e && c.events[h].node == node
                           && c.events[h].consumer == peer.value
        else c.events[h].ProvisionRx? && c.events[h].edge == e && c.events[h].node == node;
      StepOf(node, c, h);
      NewcomerAt(node, c, h, e);
      EdgeStays(node, c, h + 1, j, e);
    }
  }

  lemma BroughtMeans(node: nat, c: Course, j: nat, e: nat, layout: Layout)
    requires IsCourse(node, c) && j <= |c.events| && e in c.states[j].records && c.states[j].records[e].ring.Some?
    ensures BroughtAt(c, j, e, layout) <==> c.states[j].records[e].layout == Some(layout)
  {
    var i := RingWasBrought(node, c, j, e);
    if BroughtAt(c, j, e, layout) {
      var h :| 0 <= h < j && GetsRing(c.states[h], c.events[h], e) && c.events[h].layout == layout;
      StepKeeps(node, c, h, e);
      RingIsKept(node, c, h + 1, j, e);
    }
  }

  /** The command that connects an edge with this peer, or with none, at this layout. */
  function Connects(e: nat, peer: Option<nat>, layout: Layout): (command: Command) {
    if peer.Some? then EstablishSend(e, peer.value, layout) else EstablishRecv(e, layout)
  }

  ghost predicate Connected(node: nat, c: Course, j: nat, e: nat, peer: Option<nat>, layout: Layout)
    requires c.Shaped() && j < |c.events|
  {
    && GetsInstalled(c.states[j], c.events[j], e)
    && ProvisionedTo(node, c.events, j, e, peer) && BroughtAt(c, j, e, layout)
  }

  lemma ConnectedIsDue(node: nat, c: Course, j: nat, e: nat, peer: Option<nat>, layout: Layout)
    requires IsCourse(node, c) && j < |c.events|
    ensures Due(c.states[j], c.events[j], Connects(e, peer, layout)) <==> Connected(node, c, j, e, peer, layout)
  {
    if GetsInstalled(c.states[j], c.events[j], e) {
      StepOf(node, c, j);
      ProvisionedMeans(node, c, j, e, peer);
      BroughtMeans(node, c, j, e, layout);
      assert FlagsOk(c.states[j].records[e]);
    }
  }

  /**
   Over every lawful run: an edge is connected with a peer, at a layout, once if it was provisioned to send to that
   peer, the ring brought to it at that layout was installed while it waited for that, and never otherwise; and
   so is an edge provisioned to receive.
   */
  lemma ConnectedOnceIff(node: nat, c: Course, e: nat, peer: Option<nat>, layout: Layout)
    requires IsCourse(node, c)
    ensures multiset(c.states[|c.events|].commands)[Connects(e, peer, layout)] ==
              if exists j :: 0 <= j < |c.events| && Connected(node, c, j, e, peer, layout) then 1 else 0
  {
    var n, command := |c.events|, Connects(e, peer, layout);
    IssuedAsDue(node, c, n, command, EdgeStopped(e));
    forall i | 0 <= i < n
      ensures Due(c.states[i], c.events[i], command) <==> Connected(node, c, i, e, peer, layout)
    {
      ConnectedIsDue(node, c, i, e, peer, layout);
    }
    if j :| 0 <= j < n && Connected(node, c, j, e, peer, layout) {
      forall i | 0 <= i < n && Due(c.states[i], c.events[i], command) ensures i == j {
        if i < j { InstalledOnce(node, c, i, j, e); }
        if j < i { InstalledOnce(node, c, j, i, e); }
      }
      TimesDueIs(c, n, command, j);
    } else {
      TimesDueIs(c, n, command, n);
    }
  }

  /**
   An edge is announced ready, once and with its own actor, if its driver's event came while it waited for it, and
   never otherwise.
   */
  lemma ReadyOnceIff(node: nat, c: Course, e: nat, actor: nat)
    requires IsCourse(node, c)
    ensures multiset(c.states[|c.events|].events)[EdgeReady(e, actor)] ==
              if exists j :: 0 <= j < |c.events| && GetsReady(c.states[j], c.events[j], e)
                             && c.states[j].records[e].actor == actor then 1 else 0
  {
    var n, notice := |c.events|, EdgeReady(e, actor);
    IssuedAsDue(node, c, n, ReleaseArenaLease(0), notice);
    if j :| 0 <= j < n && GetsReady(c.states[j], c.events[j], e) && c.states[j].records[e].actor == actor {
      forall i | 0 <= i < n && Worth(c.states[i], c.events[i], notice) ensures i == j {
        if i < j { ReadyOnce(node, c, i, j, e); }
        if j < i { ReadyOnce(node, c, j, i, e); }
      }
      TimesWorthIs(c, n, notice, j);
    } else {
      TimesWorthIs(c, n, notice, n);
    }
  }

  /** No two edges share an actor, in any state of any lawful run. */
  lemma ActorsAreOwn(node: nat, c: Course, k: nat, d: nat, e: nat)
    requires IsCourse(node, c) && k <= |c.events| && d in c.states[k].records && e in c.states[k].records && d != e
    ensures c.states[k].records[d].actor != c.states[k].records[e].actor
  {
    SoundAt(node, c, k);
  }

  // ─── stopping ends with the last proof ─────────────────────────────────────

  /** The edge is stopping and holds this ring. */
  predicate StoppingWith(s: State, e: nat, ring: nat) {
    e in s.records && s.records[e].state.Stopping? && s.records[e].ring == Some(ring)
  }

  /** While it stops, an edge needs the same proofs, and forgets none it has. */
  predicate Gathers(r: Record, r': Record) {
    && r'.driverEstablished == r.driverEstablished && CleanupRequired(r') == CleanupRequired(r)
    && (r.pumpStopped ==> r'.pumpStopped) && (r.workerRingQuiesced ==> r'.workerRingQuiesced)
    && (r.quiescenceProven ==> r'.quiescenceProven)
  }

  lemma StepGathers(s: State, event: Event, e: nat, ring: nat)
    requires StoppingWith(s, e, ring) && Moved(s, event, e).state.Stopping?
    ensures Gathers(s.records[e], Moved(s, event, e)) && Moved(s, event, e).ring == Some(ring)
    ensures event == PumpStopped(e, ring) ==> Moved(s, event, e).pumpStopped
    ensures event == RingQuiesced(ring) ==> Moved(s, event, e).workerRingQuiesced
    ensures event == QuiescenceProven(ring) ==> Moved(s, event, e).quiescenceProven
  {
  }

  lemma {:induction false} StillGathers(node: nat, c: Course, j: nat, k: nat, e: nat, ring: nat)
    requires IsCourse(node, c) && j <= k <= |c.events| && StoppingWith(c.states[j], e, ring)
    requires e in c.states[k].records && c.states[k].records[e].state.Stopping?
    ensures StoppingWith(c.states[k], e, ring) && Gathers(c.states[j].records[e], c.states[k].records[e])
    decreases k - j
  {
    if j < k {
      EdgeStays(node, c, j, k - 1, e);
      StepKeeps(node, c, k - 1, e);
      StillGathers(node, c, j, k - 1, e, ring);
      StepGathers(c.states[k - 1], c.events[k - 1], e, ring);
    }
  }

  // A proof observed while the edge stops is on its record as long as it does.
  lemma ProofStays(node: nat, c: Course, j: nat, i: nat, k: nat, e: nat, ring: nat)
    requires IsCourse(node, c) && j <= i < k <= |c.events| && StoppingWith(c.states[j], e, ring)
    requires e in c.states[k].records && c.states[k].records[e].state.Stopping?
    ensures c.events[i] == PumpStopped(e, ring) ==> c.states[k].records[e].pumpStopped
    ensures c.events[i] == RingQuiesced(ring) ==> c.states[k].records[e].workerRingQuiesced
    ensures c.events[i] == QuiescenceProven(ring) ==> c.states[k].records[e].quiescenceProven
  {
    EdgeStays(node, c, j, i, e);
    EdgeStays(node, c, i, i + 1, e);
    EdgeStays(node, c, i + 1, k, e);
    StillGathers(node, c, j, i, e, ring);
    StepKeeps(node, c, i, e);
    StepGathers(c.states[i], c.events[i], e, ring);
    StillGathers(node, c, i + 1, k, e, ring);
  }

  predicate Observed(events: seq<Event>, j: nat, k: nat, event: Event)
    requires j <= k <= |events|
  {
    exists i :: j <= i < k && events[i] == event
  }

  /** All the proofs this record needs were observed in this stretch. */
  predicate AllProven(events: seq<Event>, j: nat, k: nat, e: nat, r: Record, ring: nat)
    requires j <= k <= |events|
  {
    && (r.driverEstablished ==> Observed(events, j, k, PumpStopped(e, ring)))
    && (CleanupRequired(r) ==> Observed(events, j, k, RingQuiesced(ring)))
    && Observed(events, j, k, QuiescenceProven(ring))
  }

  lemma AllOnRecord(node: nat, c: Course, j: nat, k: nat, e: nat, ring: nat)
    requires IsCourse(node, c) && j <= k <= |c.events| && StoppingWith(c.states[j], e, ring)
    requires e in c.states[k].records && c.states[k].records[e].state.Stopping?
    requires AllProven(c.events, j, k, e, c.states[j].records[e], ring)
    ensures TeardownQuiesced(c.states[k].records[e])
  {
    StillGathers(node, c, j, k, e, ring);
    if c.states[j].records[e].driverEstablished {
      var i :| j <= i < k && c.events[i] == PumpStopped(e, ring);
      ProofStays(node, c, j, i, k, e, ring);
    }
    if CleanupRequired(c.states[j].records[e]) {
      var i :| j <= i < k && c.events[i] == RingQuiesced(ring);
      ProofStays(node, c, j, i, k, e, ring);
    }
    var i :| j <= i < k && c.events[i] == QuiescenceProven(ring);
    ProofStays(node, c, j, i, k, e, ring);
  }

  lemma StoppedIsReleased(s: State, l: Ledger, node: nat, e: nat, ring: nat)
    requires Sound(s, l, node) && e in s.records && s.records[e].state.Stopped? && s.records[e].ring == Some(ring)
    ensures ReleaseArenaLease(ring) in s.commands
  {
    assert ReleaseOk(s, l, ring);
  }

  /**
   Over every lawful run, an edge that is stopping has stopped, and its ring is given back, by the time the last
   proof it needs has been observed, that of its driver included.
   */
  lemma ReleasedWithLastProof(node: nat, c: Course, j: nat, k: nat, e: nat, ring: nat)
    requires IsCourse(node, c) && j <= k <= |c.events| && StoppingWith(c.states[j], e, ring)
    requires AllProven(c.events, j, k, e, c.states[j].records[e], ring)
    ensures e in c.states[k].records && c.states[k].records[e].state.Stopped?
    ensures ReleaseArenaLease(ring) in c.states[k].commands
  {
    EdgeStays(node, c, j, k, e);
    RingIsKept(node, c, j, k, e);
    SoundAt(node, c, k);
    assert FlagsOk(c.states[k].records[e]);
    if c.states[k].records[e].state.Stopping? {
      AllOnRecord(node, c, j, k, e, ring);
      assert false;
    }
    StoppedIsReleased(c.states[k], c.ledgers[k], node, e, ring);
  }
}
