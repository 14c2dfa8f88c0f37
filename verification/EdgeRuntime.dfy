/** The edge runtime: executes the establisher's commands and drains its announcements until neither is left. */
module EdgeRuntimes {
  import opened Alignment
  import opened ArenaManagers
  import opened EdgeEstablishers
  import opened EdgeGrowth
  import opened Options
  import opened Placement
  import A = Arena
  import E = EdgeLifecycle
  import W = EdgeArena

  datatype Observation =
    | ReadyObserved(edge: nat, direction: E.Direction)
    | FaultObserved(edge: nat, reason: E.FaultReason)
    | StopObserved(edge: nat)

  datatype Fault = LeaseMissing | WorkerFailed | RingMissing | OutboundMissing | WriterFailed | EdgeFault

  datatype Inbound = Inbound(edge: nat, ring: Option<nat>)

  datatype Outbound = Outbound(edge: nat, ring: Option<nat>, writerOpen: bool)

  /** The observation made of an announcement, given the records of the moment. */
  function Report(records: map<nat, E.Record>, n: E.Notice): (o: Observation) {
    match n
    case EdgeReady(edge, _) => ReadyObserved(edge, if edge in records then records[edge].direction else E.Ingress)
    case EdgeFaulted(edge, reason) => FaultObserved(edge, reason)
    case EdgeStopped(edge) => StopObserved(edge)
  }

  /** The observation is of this announcement, and a ready edge is observed with its own direction. */
  predicate Reports(records: map<nat, E.Record>, o: Observation, n: E.Notice) {
    match n
    case EdgeReady(edge, _) => edge in records && o == ReadyObserved(edge, records[edge].direction)
    case EdgeFaulted(edge, reason) => o == FaultObserved(edge, reason)
    case EdgeStopped(edge) => o == StopObserved(edge)
  }

  /** The observations made so far are of the announcements drained so far, one for one, in order. */
  ghost predicate AllReported(records: map<nat, E.Record>, os: seq<Observation>, ns: seq<E.Notice>) {
    |os| <= |ns| && forall i :: 0 <= i < |os| ==> Reports(records, os[i], ns[i])
  }

  /** Whoever is announced ready is there. */
  ghost predicate ReadyKnown(s: E.State) {
    forall n :: n in s.events && n.EdgeReady? ==> n.edge in s.records
  }

  predicate SameDirections(rs: map<nat, E.Record>, rs': map<nat, E.Record>) {
    forall e :: e in rs ==> e in rs' && rs'[e].direction == rs[e].direction
  }

  /** Nothing issued or announced is taken back, and no edge goes away or changes its direction. */
  ghost predicate Carries(s: E.State, s': E.State) {
    && s.commands <= s'.commands && s.events <= s'.events
    && SameDirections(s.records, s'.records)
    && (ReadyKnown(s) ==> ReadyKnown(s'))
  }

  /** What has been observed stays true. */
  lemma ReportsCarryOver(s: E.State, s': E.State, os: seq<Observation>)
    requires AllReported(s.records, os, s.events) && Carries(s, s')
    ensures AllReported(s'.records, os, s'.events)
  {
  }

  lemma ObserveCarries(s: E.State, event: E.Event)
    requires AllPlaced(s)
    requires E.ProvisionedEdge(event).Some? ==> E.ProvisionedEdge(event).value !in s.records
    ensures Carries(s, E.Observe(s, event))
  {
    var s' := E.Observe(s, event);
    ObserveGrows(s, event);
    ObserveAnnounces(s, event);
    forall n | ReadyKnown(s) && n in s'.events && n.EdgeReady? ensures n.edge in s'.records {
      ReadyIsKnown(s, event, n);
    }
  }

  lemma ReadyIsKnown(s: E.State, event: E.Event, n: E.Notice)
    requires n in E.Observe(s, event).events && n.EdgeReady?
    ensures n in s.events || n.edge in s.records
  {
    match event
    case StreamFault(edge, reason) =>
        StopSaysNoReady(E.Notify(s, E.EdgeFaulted(edge, E.StreamFailed(reason))), edge, n);
    case RingFault(edge, _, reason) => StopSaysNoReady(E.Notify(s, E.EdgeFaulted(edge, E.RingFailed(reason))), edge, n);
    case StopEdge(edge) => StopSaysNoReady(s, edge, n);
    case _ =>
  }

  lemma StopSaysNoReady(s: E.State, edge: nat, n: E.Notice)
    requires n.EdgeReady?
    ensures n in E.StartStopping(s, edge).events ==> n in s.events
  {
  }

  predicate NoFaults(ns: seq<E.Notice>, from: nat, to: nat)
    requires to <= |ns|
  {
    forall i :: from <= i < to ==> !ns[i].EdgeFaulted?
  }

  /** The commands executed from one place to another all went through. */
  predicate AllWentThrough(outcomes: seq<Option<Fault>>, from: nat, to: nat)
    requires to <= |outcomes|
  {
    forall i :: from <= i < to ==> outcomes[i].None?
  }

  /** Of the commands executed since `before`, only the last can have failed, and it did if a failure is reported. */
  ghost predicate Noted(before: seq<Option<Fault>>, outcomes: seq<Option<Fault>>, fault: Option<Fault>) {
    && before <= outcomes
    && if fault.None? then AllWentThrough(outcomes, |before|, |outcomes|)
       else
         && |before| < |outcomes| && outcomes[|outcomes| - 1] == fault
         && AllWentThrough(outcomes, |before|, |outcomes| - 1)
  }

  /** Of the announcements drained between two places, only the last can be a fault, and it is if one is reported. */
  ghost predicate Drained(events: seq<E.Notice>, from: nat, to: nat, faulted: bool) {
    && from <= to <= |events|
    && if !faulted then NoFaults(events, from, to)
       else from < to && events[to - 1].EdgeFaulted? && NoFaults(events, from, to - 1)
  }

  /** What is reported: nothing if all went well; otherwise the last command's failure, or the last edge fault. */
  ghost predicate Justified(events: seq<E.Notice>, from: nat, to: nat,
      before: seq<Option<Fault>>, outcomes: seq<Option<Fault>>, fault: Option<Fault>)
  {
    && Drained(events, from, to, fault == Some(EdgeFault))
    && Noted(before, outcomes, if fault == Some(EdgeFault) then None else fault)
  }

  lemma JustifiedOn(events: seq<E.Notice>, events': seq<E.Notice>, from: nat, mid: nat, to: nat,
      before: seq<Option<Fault>>, between: seq<Option<Fault>>, outcomes: seq<Option<Fault>>, fault: Option<Fault>)
    requires events <= events' && Justified(events, from, mid, before, between, None)
    requires Justified(events', mid, to, between, outcomes, fault)
    ensures Justified(events', from, to, before, outcomes, fault)
  {
    assert forall i :: from <= i < mid ==> events'[i] == events[i];
    assert forall i :: |before| <= i < |between| ==> outcomes[i] == between[i];
  }

  function Requests(c: E.Command): (requests: seq<A.Request>) {
    if W.Asked(c).Some? then [W.Asked(c).value] else []
  }

  /** What the first `n` commands of a run ask of the arena, in order. */
  function AskedTo(commands: seq<E.Command>, n: nat): (requests: seq<A.Request>)
    requires n <= |commands|
  {
    if n == 0 then [] else AskedTo(commands, n - 1) + Requests(commands[n - 1])
  }

  lemma {:induction false} AskedIsLocal(commands: seq<E.Command>, c: E.Command, n: nat)
    requires n <= |commands|
    ensures AskedTo(commands + [c], n) == AskedTo(commands, n)
  {
    if n > 0 { AskedIsLocal(commands, c, n - 1); }
  }

  predicate LinkedAt(states: seq<A.State>, asked: seq<A.Request>, answers: seq<seq<A.Event>>, i: nat)
    requires |states| == |asked| + 1 == |answers| + 1 && i < |asked|
  {
    (states[i + 1], answers[i]) == A.Handle(states[i], asked[i])
  }

  /** The states an arena went through and the answers it gave, one per request. */
  ghost predicate Linked(states: seq<A.State>, asked: seq<A.Request>, answers: seq<seq<A.Event>>) {
    && |states| == |asked| + 1 == |answers| + 1
    && forall i :: 0 <= i < |asked| ==> LinkedAt(states, asked, answers, i)
  }

  /** Every state the arena went through kept its invariant. */
  ghost predicate Sound(states: seq<A.State>) {
    forall i {:trigger A.Inv(states[i])} :: 0 <= i < |states| ==> A.Inv(states[i])
  }

  lemma SoundOneMore(states: seq<A.State>, s: A.State)
    requires Sound(states) && A.Inv(s)
    ensures Sound(states + [s])
  {
    forall i | 0 <= i < |states + [s]| ensures A.Inv((states + [s])[i]) {
      if i < |states| { assert A.Inv(states[i]); }
    }
  }

  lemma LinkOneMore(states: seq<A.State>, asked: seq<A.Request>, answers: seq<seq<A.Event>>, request: A.Request)
    requires Linked(states, asked, answers)
    ensures var (s, events) := A.Handle(states[|asked|], request);
            Linked(states + [s], asked + [request], answers + [events])
  {
    var (s, events) := A.Handle(states[|asked|], request);
    var states', asked', answers' := states + [s], asked + [request], answers + [events];
    forall i | 0 <= i < |asked'| ensures LinkedAt(states', asked', answers', i) {
      if i < |asked| { assert LinkedAt(states, asked, answers, i); }
    }
  }

  lemma LinkedTail(states: seq<A.State>, asked: seq<A.Request>, answers: seq<seq<A.Event>>)
    requires Linked(states, asked, answers) && asked != []
    ensures Linked(states[1..], asked[1..], answers[1..])
  {
    forall i | 0 <= i < |asked[1..]| ensures LinkedAt(states[1..], asked[1..], answers[1..], i) {
      assert LinkedAt(states, asked, answers, i + 1);
    }
  }

  /** Linked states and answers are those of the arena's own run. */
  lemma {:induction false} LinkedIsRun(states: seq<A.State>, asked: seq<A.Request>, answers: seq<seq<A.Event>>)
    requires Linked(states, asked, answers)
    ensures A.Run(states[0], asked) == (states[|asked|], answers)
    decreases |asked|
  {
    if asked != [] {
      LinkedTail(states, asked, answers);
      LinkedIsRun(states[1..], asked[1..], answers[1..]);
      assert LinkedAt(states, asked, answers, 0);
      assert answers == [answers[0]] + answers[1..];
    }
  }

  /** The establisher once it has been told of the first `n` of these arena events. */
  function ToldTo(s: E.State, events: seq<A.Event>, n: nat): (s': E.State)
    requires n <= |events|
  {
    if n == 0 then s
    else
      var before, event := ToldTo(s, events, n - 1), W.Told(events[n - 1]);
      if event.Some? then E.Observe(before, event.value) else before
  }

  /** What the runtime tells the establisher of the arena's answer to a command. */
  function ToldOfAnswer(s: E.State, command: E.Command, events: seq<A.Event>): (s': E.State) {
    if command.LeaseRing? then ToldTo(s, events, |events|) else s
  }

  /** No edge has a ring the arena has yet to hand out. */
  predicate RingsBelow(s: E.State, bound: nat) {
    forall e :: e in s.records && s.records[e].ring.Some? ==> s.records[e].ring.value < bound
  }

  /**
   A lease the arena grants is live, but the establisher is told of it if and only if it answers the
   lease command itself: one granted from the queue, by a release, is live and no edge is given its ring.
   */
  lemma OnlyDirectGrantsAreTold(s: E.State, a: A.State, command: E.Command, lease: A.RingLease)
    requires W.Asked(command).Some? && RingsBelow(s, a.nextRingId)
    requires A.Inv(a) && A.Inv(A.Handle(a, W.Asked(command).value).0)
    requires A.RingLeased(lease) in A.Handle(a, W.Asked(command).value).1
    ensures var (a', events) := A.Handle(a, W.Asked(command).value);
            var told := ToldOfAnswer(s, command, events);
            && lease in a'.live
            && (command.LeaseRing? ==> told == E.Observe(s, E.RingLeased(lease.requestId, lease.ringId, lease.layout)))
            && (!command.LeaseRing? ==>
                  command.ReleaseArenaLease? && told == s
                  && forall e :: e in told.records ==> told.records[e].ring != Some(lease.ringId))
  {
    var events := A.Handle(a, W.Asked(command).value).1;
    A.LiveChangesAreAnnounced(a, W.Asked(command).value, lease);
    if command.LeaseRing? {
      A.LeaseAnswersItself(a, W.Asked(command).value.lease);
      assert events == [A.RingLeased(lease)];
      assert ToldTo(s, events, 0) == s;
    }
  }

  /** The arena was asked what the executed commands ask, and they were executed once each, as issued. */
  ghost predicate Followed(asked: seq<A.Request>, executed: seq<E.Command>, commands: seq<E.Command>, cursor: nat) {
    && asked == AskedTo(executed, |executed|)
    && |executed| <= cursor <= |commands|
    && executed == commands[cursor - |executed|..cursor]
  }

  lemma FollowOneMore(asked: seq<A.Request>, executed: seq<E.Command>, commands: seq<E.Command>,
      commands': seq<E.Command>, k: nat)
    requires Followed(asked, executed, commands, k) && k < |commands| && commands <= commands'
    ensures Followed(asked + Requests(commands[k]), executed + [commands[k]], commands', k + 1)
  {
    AskedIsLocal(executed, commands[k], |executed|);
    assert executed + [commands[k]] == commands'[k - |executed|..k + 1];
  }

  lemma WeightExecuted(commands: seq<E.Command>, commands': seq<E.Command>, k: nat)
    requires commands <= commands' && k < |commands|
    ensures WeightTo(commands, k) + Weight(commands[k]) == WeightTo(commands', k + 1) <= TotalWeight(commands')
  {
    WeightIsLocal(commands, commands', k + 1);
    WeightGrows(commands', k + 1, |commands'|);
  }

  /** The work left once `k` commands are executed and `read` announcements drained. */
  function Left(s: E.State, k: nat, read: nat): (n: int)
    requires k <= |s.commands|
  {
    Load(s) - WeightTo(s.commands, k) - read
  }

  /** Executing the `k`th command leaves less work than there was, whatever it made the establisher issue. */
  lemma WorkShrinks(s: E.State, s': E.State, k: nat, read: nat)
    requires s.commands <= s'.commands && k < |s.commands| && read <= |s'.events|
    requires Load(s') < Load(s) + Weight(s.commands[k])
    ensures 0 <= Left(s', k + 1, read) < Left(s, k, read)
  {
    WeightExecuted(s.commands, s'.commands, k);
  }

  /** The wires a runtime keeps, each naming the ring its edge was given. */
  ghost predicate WiresOk(wires: map<nat, nat>, records: map<nat, E.Record>) {
    forall e :: e in wires ==> e in records && records[e].ring == Some(wires[e])
  }

  lemma WiresCarryOver(wires: map<nat, nat>, s: E.State, s': E.State)
    requires WiresOk(wires, s.records) && Grows(s, s')
    ensures WiresOk(wires, s'.records)
  {
  }

  predicate HasRing(records: map<nat, E.Record>, edge: nat) {
    edge in records && records[edge].ring.Some?
  }

  /**
   Why a command fails, if it does: its lease or ring or outbound edge is missing, or the worker or the
   transport, when asked, does not do its part.
   */
  function Failure(command: E.Command, works: bool, leased: bool, ringed: bool, outgoing: bool)
    : (fault: Option<Fault>)
    ensures fault != Some(EdgeFault)
  {
    match command
    case InstallWorkerRing(_, _, _, _, _) =>
      if !leased then Some(LeaseMissing) else if works then None else Some(WorkerFailed)
    case EstablishSend(_, _, _) =>
      if !ringed then Some(RingMissing) else if !outgoing then Some(OutboundMissing)
      else if works then None else Some(WriterFailed)
    case EstablishRecv(_, _) => if ringed then None else Some(RingMissing)
    case UninstallWorkerRing(_, _) => if works then None else Some(WorkerFailed)
    case _ => None
  }

  class EdgeRuntime {
    const establisher: Establisher
    var commandCursor: nat
    var lifecycleCursor: nat
    var sendRings: map<nat, nat>
    var recvSpecs: map<nat, nat>
    var pendingStreams: map<nat, nat>
    var recvRings: map<nat, nat>
    var inbound: Option<Inbound>
    var outbound: Option<Outbound>
    var observations: seq<Observation>
    ghost var states: seq<A.State>
    ghost var asked: seq<A.Request>
    ghost var answers: seq<seq<A.Event>>
    ghost var executed: seq<E.Command>
    ghost var outcomes: seq<Option<Fault>>

    /** The arena is where the requests made of it since it was attached have taken it, sound all along. */
    ghost predicate Traced(arena: ArenaManager)
      reads this, arena
    {
      Linked(states, asked, answers) && Sound(states) && states[|asked|] == arena.Abs()
    }

    ghost method Attach(arena: ArenaManager)
      requires A.Inv(arena.Abs())
      modifies this`states, this`asked, this`answers, this`executed, this`outcomes
      ensures Traced(arena) && states == [arena.Abs()] && asked == [] && answers == []
      ensures executed == [] && outcomes == []
    {
      states, asked, answers, executed, outcomes := [arena.Abs()], [], [], [], [];
    }

    ghost predicate Heard()
      reads this, establisher
    {
      && lifecycleCursor == |observations|
      && ReadyKnown(establisher.Abs()) && AllReported(establisher.records, observations, establisher.events)
    }

    ghost predicate Faithful()
      reads this, establisher
    {
      Followed(asked, executed, establisher.commands, commandCursor)
    }

    ghost predicate Valid()
      reads this, establisher
    {
      && commandCursor <= |establisher.commands|
      && lifecycleCursor <= |establisher.events|
      && AllPlaced(establisher.Abs())
      && WiresOk(sendRings, establisher.records)
      && WiresOk(recvSpecs, establisher.records)
      && WiresOk(recvRings, establisher.records)
    }

    /** The work left: unexecuted commands by weight, and unread announcements. */
    ghost function Remaining(): int
      requires commandCursor <= |establisher.commands|
      reads this, establisher
    {
      Left(establisher.Abs(), commandCursor, lifecycleCursor)
    }

    constructor Create(node: nat)
      ensures Valid() && Heard() && fresh(establisher) && establisher.Abs() == E.New(node)
      ensures Remaining() == 0
    {
      establisher := new Establisher.Create(node);
      commandCursor, lifecycleCursor := 0, 0;
      sendRings, recvSpecs, pendingStreams, recvRings := map[], map[], map[], map[];
      inbound, outbound, observations := None, None, [];
    }

    twostate predicate Onward()
      reads this, establisher
    {
      Carries(old(establisher.Abs()), establisher.Abs())
    }

    /** Tells the establisher of an event; every wire still names its edge's ring. */
    method Tell(event: E.Event)
      requires Valid()
      requires E.ProvisionedEdge(event).Some? ==> E.ProvisionedEdge(event).value !in establisher.records
      modifies establisher
      ensures Valid()
      ensures establisher.Abs() == E.Observe(old(establisher.Abs()), event)
      ensures Onward()
      ensures Cost(event) < 8 ==> Load(establisher.Abs()) <= Load(old(establisher.Abs())) + Cost(event)
    {
      ghost var s := establisher.Abs();
      establisher.Observe(event);
      ObserveGrows(s, event);
      ObserveCarries(s, event);
      ObserveKeepsPlaced(s, event);
      if Cost(event) < 8 { ObserveCost(s, event); }
      WiresCarryOver(sendRings, s, establisher.Abs());
      WiresCarryOver(recvSpecs, s, establisher.Abs());
      WiresCarryOver(recvRings, s, establisher.Abs());
    }

    /** The edge waits for the one lease that is now asked for, if it is this node's own; otherwise nothing is asked. */
    twostate predicate Provisioned(edge: nat, node: nat, direction: E.Direction, spec: RingSpec)
      reads establisher
    {
      && (node != establisher.node ==> establisher.Abs() == old(establisher.Abs()))
      && (node == establisher.node ==>
            && edge in establisher.records && establisher.records[edge].state.WaitingForLease?
            && establisher.records[edge].direction == direction && establisher.records[edge].ring.None?
            && establisher.records - {edge} == old(establisher.records) - {edge}
            && establisher.commands ==
                 old(establisher.commands) + [E.LeaseRing(establisher.records[edge].request, edge, direction, spec)]
            && establisher.records[edge].request == old(establisher.nextRequest) < establisher.nextRequest
            && establisher.events == old(establisher.events))
    }

    method EstablishInbound(edge: nat, node: nat, spec: RingSpec)
      requires Valid() && edge !in establisher.records
      modifies this`inbound, establisher
      ensures Valid() && inbound == Some(Inbound(edge, None)) && Onward()
      ensures Provisioned(edge, node, E.Ingress, spec)
    {
      inbound := Some(Inbound(edge, None));
      Tell(E.ProvisionRx(edge, node, spec));
    }

    method EstablishOutbound(edge: nat, node: nat, consumer: nat, spec: RingSpec)
      requires Valid() && edge !in establisher.records
      modifies this`outbound, establisher
      ensures Valid() && outbound == Some(Outbound(edge, None, false)) && Onward()
      ensures Provisioned(edge, node, E.Egress, spec)
      ensures node == establisher.node ==> establisher.records[edge].peer == Some(consumer)
    {
      outbound := Some(Outbound(edge, None, false));
      Tell(E.ProvisionTx(edge, node, consumer, spec));
    }

    // ─── wires ───────────────────────────────────────────────────────────────

    method EstablishSendWire(edge: nat, ring: nat)
      requires Valid() && edge in establisher.records && establisher.records[edge].ring == Some(ring)
      modifies this`sendRings, establisher
      ensures Valid() && sendRings == old(sendRings)[edge := ring]
      ensures establisher.Abs() == E.Observe(old(establisher.Abs()), E.DriverEdgeReady(edge))
      ensures Onward()
      ensures Load(establisher.Abs()) <= Load(old(establisher.Abs())) + 1
    {
      sendRings := sendRings[edge := ring];
      Tell(E.DriverEdgeReady(edge));
    }

    method SpawnRecv(edge: nat, stream: nat)
      requires Valid()
      modifies this`pendingStreams, this`recvRings, establisher
      ensures Valid()
      ensures edge in recvSpecs ==>
                && pendingStreams == old(pendingStreams) && recvRings == old(recvRings)[edge := recvSpecs[edge]]
                && establisher.Abs() == E.Observe(old(establisher.Abs()), E.DriverEdgeReady(edge))
      ensures edge !in recvSpecs ==>
                && pendingStreams == old(pendingStreams)[edge := stream] && recvRings == old(recvRings)
                && establisher.Abs() == old(establisher.Abs())
      ensures Onward()
      ensures Load(establisher.Abs()) <= Load(old(establisher.Abs())) + 1
    {
      if edge !in recvSpecs {
        pendingStreams := pendingStreams[edge := stream];
        return;
      }
      recvRings := recvRings[edge := recvSpecs[edge]];
      Tell(E.DriverEdgeReady(edge));
    }

    method EstablishRecvWire(edge: nat, ring: nat)
      requires Valid() && edge in establisher.records && establisher.records[edge].ring == Some(ring)
      modifies this`recvSpecs, this`pendingStreams, this`recvRings, establisher
      ensures Valid() && edge !in pendingStreams && recvSpecs == old(recvSpecs)[edge := ring]
      ensures edge in old(pendingStreams) ==>
                recvRings == old(recvRings)[edge := ring] &&
                    establisher.Abs() == E.Observe(old(establisher.Abs()), E.DriverEdgeReady(edge))
      ensures edge !in old(pendingStreams) ==>
                recvRings == old(recvRings) && establisher.Abs() == old(establisher.Abs())
      ensures Onward()
      ensures Load(establisher.Abs()) <= Load(old(establisher.Abs())) + 1
    {
      recvSpecs := recvSpecs[edge := ring];
      if edge in pendingStreams {
        var stream := pendingStreams[edge];
        pendingStreams := pendingStreams - {edge};
        SpawnRecv(edge, stream);
      }
    }

    method IncomingStream(edge: nat, stream: nat)
      requires Valid()
      modifies this`pendingStreams, this`recvRings, establisher
      ensures Valid()
      ensures edge in recvSpecs ==>
                && recvRings == old(recvRings)[edge := recvSpecs[edge]] && pendingStreams == old(pendingStreams)
                && establisher.Abs() == E.Observe(old(establisher.Abs()), E.DriverEdgeReady(edge))
      ensures edge !in recvSpecs ==>
                pendingStreams == old(pendingStreams)[edge := stream] && establisher.Abs() == old(establisher.Abs())
      ensures Onward()
      ensures Load(establisher.Abs()) <= Load(old(establisher.Abs())) + 1
    {
      if edge in recvSpecs { SpawnRecv(edge, stream); }
      else { pendingStreams := pendingStreams[edge := stream]; }
    }

    /** Stopping a wire reports the ring its edge was given, if the wire was ever established. */
    method StopWire(edge: nat)
      requires Valid()
      modifies this`sendRings, this`recvRings, this`recvSpecs, this`pendingStreams, establisher
      ensures Valid()
      ensures edge !in sendRings && edge !in recvRings && edge !in recvSpecs && edge !in pendingStreams
      ensures edge in old(sendRings.Keys + recvRings.Keys + recvSpecs.Keys) ==>
                && HasRing(old(establisher.records), edge)
                && establisher.Abs() ==
                   E.Observe(old(establisher.Abs()), E.PumpStopped(edge, old(establisher.records)[edge].ring.value))
      ensures edge !in old(sendRings.Keys + recvRings.Keys + recvSpecs.Keys) ==>
                establisher.Abs() == E.Observe(old(establisher.Abs()), E.PumpStopped(edge, 0))
      ensures Onward()
      ensures Load(establisher.Abs()) <= Load(old(establisher.Abs())) + 2
    {
      var ring := if edge in sendRings then sendRings[edge]
                  else if edge in recvRings then recvRings[edge]
                  else if edge in recvSpecs then recvSpecs[edge]
                  else 0;
      sendRings, recvRings := sendRings - {edge}, recvRings - {edge};
      recvSpecs, pendingStreams := recvSpecs - {edge}, pendingStreams - {edge};
      Tell(E.PumpStopped(edge, ring));
    }

    // ─── the workflow fixpoint ───────────────────────────────────────────────

    ghost predicate ArenaReady(arena: ArenaManager)
      requires commandCursor <= |establisher.commands|
      reads this, establisher, arena
    {
      Traced(arena) && arena.nextRingId + |arena.pending| + Remaining() < U64_MAX
    }

    /** What executing one command leaves behind: less work than the command stood for. */
    twostate predicate Advanced(command: E.Command)
      reads this, establisher
    {
      && Valid()
      && Onward()
      && Load(establisher.Abs()) < Load(old(establisher.Abs())) + Weight(command)
    }

    method AskArena(request: A.Request, arena: ArenaManager) returns (events: seq<A.Event>)
      requires Traced(arena) && arena.nextRingId + |arena.pending| < U64_MAX
      modifies this`states, this`asked, this`answers, arena
      ensures Traced(arena) && old(states) <= states && asked == old(asked) + [request] &&
                answers == old(answers) + [events]
      ensures request.LeaseRing? ==> |events| == 1
      ensures arena.nextRingId + |arena.pending| <= old(arena.nextRingId + |arena.pending|) + 1
    {
      assert A.Inv(states[|asked|]);
      A.HandleKeepsInv(arena.Abs(), request);
      if request.LeaseRing? { A.LeaseAnswersItself(arena.Abs(), request.lease); }
      events := arena.Request(request);
      LinkOneMore(states, asked, answers, request);
      SoundOneMore(states, arena.Abs());
      states, asked, answers := states + [arena.Abs()], asked + [request], answers + [events];
    }

    method TellAll(events: seq<A.Event>)
      requires Valid()
      modifies establisher
      ensures Valid() && establisher.Abs() == ToldTo(old(establisher.Abs()), events, |events|)
      ensures Onward()
      ensures Load(establisher.Abs()) <= Load(old(establisher.Abs())) + 3 * |events|
    {
      for i := 0 to |events|
        invariant Valid() && establisher.Abs() == ToldTo(old(establisher.Abs()), events, i)
        invariant Onward()
        invariant Load(establisher.Abs()) <= Load(old(establisher.Abs())) + 3 * i
      {
        var event := W.Told(events[i]);
        if event.Some? { Tell(event.value); }
      }
    }

    /** Passes a command on to the arena; only what answers a lease is told to the establisher. */
    method ServeFromArena(command: E.Command, arena: ArenaManager)
      requires Valid() && W.Asked(command).Some?
      requires Traced(arena) && arena.nextRingId + |arena.pending| < U64_MAX
      modifies this`states, this`asked, this`answers, establisher, arena
      ensures Advanced(command)
      ensures Traced(arena) && old(states) <= states && asked == old(asked) + Requests(command)
      ensures |answers| == old(|answers|) + 1 && ToldAnswer(command, answers[|answers| - 1])
      ensures arena.nextRingId + |arena.pending| <= old(arena.nextRingId + |arena.pending|) + 1
    {
      var events := AskArena(W.Asked(command).value, arena);
      if command.LeaseRing? { TellAll(events); }
    }

    twostate predicate ToldAnswer(command: E.Command, events: seq<A.Event>)
      reads establisher
    {
      establisher.Abs() == ToldOfAnswer(old(establisher.Abs()), command, events)
    }

    /** What the establisher is told of a command the ports carried out; nothing if they failed. */
    twostate predicate Answered(command: E.Command, new fault: Option<Fault>)
      reads this, establisher
    {
      && (fault.Some? ==> establisher.Abs() == old(establisher.Abs()))
      && (fault.None? ==>
            match command
            case InstallWorkerRing(edge, ring, _, _, _) => ToldOf(E.RingInstalled(edge, ring))
            case EstablishSend(edge, _, _) => ToldOf(E.DriverEdgeReady(edge)) && edge in sendRings
            case EstablishRecv(edge, _) =>
              edge in recvSpecs &&
              if edge in old(pendingStreams) then ToldOf(E.DriverEdgeReady(edge))
                  else establisher.Abs() == old(establisher.Abs())
            case StopPump(edge, _) =>
              if edge in old(sendRings.Keys + recvRings.Keys + recvSpecs.Keys) then
                && HasRing(old(establisher.records), edge)
                && ToldOf(E.PumpStopped(edge, old(establisher.records)[edge].ring.value))
              else ToldOf(E.PumpStopped(edge, 0))
            case UninstallWorkerRing(_, ring) => ToldOf(E.RingQuiesced(ring))
            case _ => true)
    }

    twostate predicate ToldOf(event: E.Event)
      reads establisher
    {
      establisher.Abs() == E.Observe(old(establisher.Abs()), event)
    }

    method InstallForEdge(edge: nat, ring: nat, direction: E.Direction, works: bool, arena: ArenaManager)
      returns (fault: Option<Fault>)
      requires Valid()
      modifies this`inbound, this`outbound, establisher
      ensures Valid()
      ensures fault == if A.Lookup(arena.Abs(), ring).None? then Some(LeaseMissing)
                       else if works then None else Some(WorkerFailed)
      ensures inbound == if fault.None? && direction.Ingress? && old(inbound).Some? && old(inbound).value.edge == edge
                         then Some(Inbound(edge, Some(ring))) else old(inbound)
      ensures outbound == if fault.None? && direction.Egress? && old(outbound).Some? && old(outbound).value.edge == edge
                          then Some(Outbound(edge, Some(ring), old(outbound).value.writerOpen)) else old(outbound)
      ensures fault.None? ==> establisher.Abs() == E.Observe(old(establisher.Abs()), E.RingInstalled(edge, ring))
      ensures fault.Some? ==> establisher.Abs() == old(establisher.Abs())
      ensures Onward()
      ensures Load(establisher.Abs()) <= Load(old(establisher.Abs())) + 2
    {
      var lease := arena.LookupLease(ring);
      if lease.None? { return Some(LeaseMissing); }
      if !works { return Some(WorkerFailed); }
      if direction.Ingress? {
        if inbound.Some? && inbound.value.edge == edge { inbound := Some(inbound.value.(ring := Some(ring))); }
      } else {
        if outbound.Some? && outbound.value.edge == edge { outbound := Some(outbound.value.(ring := Some(ring))); }
      }
      Tell(E.RingInstalled(edge, ring));
      return None;
    }

    method EdgeRing(edge: nat) returns (ring: Option<nat>)
      ensures ring.Some? ==> edge in establisher.records && establisher.records[edge].ring == ring
      ensures ring.None? ==> edge !in establisher.records || establisher.records[edge].ring.None?
    {
      if edge in establisher.records { return establisher.records[edge].ring; }
      return None;
    }

    predicate Outgoing(edge: nat)
      reads this`outbound
    {
      outbound.Some? && outbound.value.edge == edge
    }

    method SendForEdge(edge: nat, works: bool) returns (fault: Option<Fault>)
      requires Valid()
      modifies this`outbound, this`sendRings, establisher
      ensures Valid()
      ensures fault == if !HasRing(old(establisher.records), edge) then Some(RingMissing)
                       else if !old(Outgoing(edge)) then Some(OutboundMissing)
                       else if works then None else Some(WriterFailed)
      ensures fault.None? ==>
                && sendRings == old(sendRings)[edge := old(establisher.records)[edge].ring.value]
                && outbound == Some(old(outbound).value.(writerOpen := true))
                && establisher.Abs() == E.Observe(old(establisher.Abs()), E.DriverEdgeReady(edge))
      ensures fault.Some? ==>
                establisher.Abs() == old(establisher.Abs()) && sendRings == old(sendRings) && outbound == old(outbound)
      ensures Onward()
      ensures Load(establisher.Abs()) <= Load(old(establisher.Abs())) + 1
    {
      var ring := EdgeRing(edge);
      if ring.None? { return Some(RingMissing); }
      if !Outgoing(edge) { return Some(OutboundMissing); }
      if !works { return Some(WriterFailed); }
      outbound := Some(outbound.value.(writerOpen := true));
      EstablishSendWire(edge, ring.value);
      return None;
    }

    ghost function FailureOf(command: E.Command, works: bool, arena: ArenaManager): (fault: Option<Fault>)
      reads this, establisher, arena
    {
      var leased := command.InstallWorkerRing? && A.Lookup(arena.Abs(), command.ring).Some?;
      var ringed := (command.EstablishSend? || command.EstablishRecv?) && HasRing(establisher.records, command.edge);
      Failure(command, works, leased, ringed, command.EstablishSend? && Outgoing(command.edge))
    }

    /** Executes a command on the worker, the transport or the wires; `works` says whether these do their part. */
    method ExecuteOnPorts(command: E.Command, works: bool, arena: ArenaManager) returns (fault: Option<Fault>)
      requires Valid() && W.Asked(command).None?
      modifies this`inbound, this`outbound, this`sendRings, this`recvSpecs, this`pendingStreams, this`recvRings,
        establisher
      ensures Advanced(command) && Answered(command, fault)
      ensures fault == old(FailureOf(command, works, arena))
    {
      fault := None;
      match command
      case InstallWorkerRing(edge, ring, direction, _, _) =>
        fault := InstallForEdge(edge, ring, direction, works, arena);
      case EstablishSend(edge, _, _) =>
        fault := SendForEdge(edge, works);
      case EstablishRecv(edge, _) =>
        var ring := EdgeRing(edge);
        if ring.None? { return Some(RingMissing); }
        EstablishRecvWire(edge, ring.value);
      case StopPump(edge, _) =>
        StopWire(edge);
      case UninstallWorkerRing(_, ring) =>
        if !works { return Some(WorkerFailed); }
        Tell(E.RingQuiesced(ring));
    }

    /**
     Executes one command: the arena is asked exactly what the command asks, and the work that follows
     weighs less than the command did.
     */
    method ExecuteCommand(command: E.Command, works: bool, arena: ArenaManager) returns (fault: Option<Fault>)
      requires Valid() && Traced(arena) && arena.nextRingId + |arena.pending| < U64_MAX
      modifies this`inbound, this`outbound, this`sendRings, this`recvSpecs, this`pendingStreams, this`recvRings
      modifies this`states, this`asked, this`answers, establisher, arena
      ensures Advanced(command)
      ensures Traced(arena) && old(states) <= states && asked == old(asked) + Requests(command)
      ensures W.Asked(command).None? ==> Answered(command, fault) && fault == old(FailureOf(command, works, arena))
      ensures W.Asked(command).Some? ==>
                fault.None? && |answers| == old(|answers|) + 1 && ToldAnswer(command, answers[|answers| - 1])
      ensures arena.nextRingId + |arena.pending| <= old(arena.nextRingId + |arena.pending|) + 1
    {
      fault := None;
      if W.Asked(command).Some? { ServeFromArena(command, arena); }
      else { fault := ExecuteOnPorts(command, works, arena); }
    }

    /**
     Executes every command issued, those issued meanwhile included. Whether or not a fault cuts it
     short, the arena has been asked exactly what the executed commands ask, each once, in issue order.
     */
    method ExecuteCommands(works: nat -> bool, arena: ArenaManager) returns (progressed: bool, fault: Option<Fault>)
      requires Valid() && ArenaReady(arena) && Faithful()
      modifies this`commandCursor, this`inbound, this`outbound, this`sendRings, this`recvSpecs, this`pendingStreams,
        this`recvRings
      modifies this`states, this`asked, this`answers, this`executed, this`outcomes, establisher, arena
      ensures Valid() && ArenaReady(arena) && Faithful() && Onward()
      ensures |executed| - old(|executed|) == commandCursor - old(commandCursor) >= 0
      ensures states[0] == old(states)[0]
      ensures Noted(old(outcomes), outcomes, fault) && fault != Some(EdgeFault)
      ensures |outcomes| - old(|outcomes|) == |executed| - old(|executed|)
      ensures fault.None? ==> commandCursor == |establisher.commands|
      ensures progressed <==> commandCursor > old(commandCursor)
      ensures if progressed then Remaining() < old(Remaining()) else Remaining() == old(Remaining())
    {
      progressed, fault := false, None;
      while commandCursor < |establisher.commands|
        invariant Valid() && ArenaReady(arena) && Faithful() && Onward()
        invariant |executed| - old(|executed|) == commandCursor - old(commandCursor) >= 0
        invariant states[0] == old(states)[0]
        invariant fault.None? && Noted(old(outcomes), outcomes, None)
        invariant |outcomes| - old(|outcomes|) == |executed| - old(|executed|)
        invariant progressed <==> commandCursor > old(commandCursor)
        invariant if progressed then Remaining() < old(Remaining()) else Remaining() == old(Remaining())
        decreases Remaining()
      {
        fault := ExecuteNext(works, arena);
        progressed := true;
        if fault.Some? { return; }
      }
    }

    /** Moves past the next command and executes it. */
    method TakeNext(works: nat -> bool, arena: ArenaManager) returns (fault: Option<Fault>)
      requires Valid() && commandCursor < |establisher.commands|
      requires Traced(arena) && arena.nextRingId + |arena.pending| < U64_MAX
      modifies this`commandCursor, this`inbound, this`outbound, this`sendRings, this`recvSpecs, this`pendingStreams,
        this`recvRings
      modifies this`states, this`asked, this`answers, this`executed, this`outcomes, establisher, arena
      ensures var command := old(establisher.commands[commandCursor]);
              Advanced(command) && asked == old(asked) + Requests(command) && executed == old(executed) + [command]
      ensures commandCursor == old(commandCursor) + 1
      ensures fault == old(FailureOf(establisher.commands[commandCursor], works(commandCursor), arena))
      ensures outcomes == old(outcomes) + [fault]
      ensures Traced(arena) && states[0] == old(states)[0]
      ensures arena.nextRingId + |arena.pending| <= old(arena.nextRingId + |arena.pending|) + 1
    {
      var command := establisher.commands[commandCursor];
      commandCursor := commandCursor + 1;
      fault := ExecuteCommand(command, works(commandCursor - 1), arena);
      executed, outcomes := executed + [command], outcomes + [fault];
    }

    method ExecuteNext(works: nat -> bool, arena: ArenaManager) returns (fault: Option<Fault>)
      requires Valid() && ArenaReady(arena) && Faithful() && commandCursor < |establisher.commands|
      modifies this`commandCursor, this`inbound, this`outbound, this`sendRings, this`recvSpecs, this`pendingStreams,
        this`recvRings
      modifies this`states, this`asked, this`answers, this`executed, this`outcomes, establisher, arena
      ensures Valid() && ArenaReady(arena) && Faithful() && Onward()
      ensures commandCursor == old(commandCursor) + 1 && |executed| == old(|executed|) + 1
      ensures outcomes == old(outcomes) + [fault] && fault != Some(EdgeFault)
      ensures states[0] == old(states)[0]
      ensures 0 <= Remaining() < old(Remaining())
    {
      ghost var s := establisher.Abs();
      RemainingIsCount();
      fault := TakeNext(works, arena);
      FollowOneMore(old(asked), old(executed), s.commands, establisher.commands, old(commandCursor));
      WorkShrinks(s, establisher.Abs(), old(commandCursor), lifecycleCursor);
    }

    /** Turns announcements into observations, up to and including the first fault. */
    method DrainLifecycle() returns (progressed: bool, fault: Option<Fault>)
      requires Valid() && Heard()
      modifies this`lifecycleCursor, this`observations
      ensures Valid() && Heard() && old(lifecycleCursor) <= lifecycleCursor
      ensures Drained(establisher.events, old(lifecycleCursor), lifecycleCursor, fault.Some?)
      ensures if fault.None? then lifecycleCursor == |establisher.events| else fault == Some(EdgeFault)
      ensures progressed <==> lifecycleCursor > old(lifecycleCursor)
    {
      progressed, fault := false, None;
      while lifecycleCursor < |establisher.events|
        invariant Valid() && Heard() && old(lifecycleCursor) <= lifecycleCursor
        invariant NoFaults(establisher.events, old(lifecycleCursor), lifecycleCursor)
        invariant progressed <==> lifecycleCursor > old(lifecycleCursor)
      {
        var notice := establisher.events[lifecycleCursor];
        lifecycleCursor := lifecycleCursor + 1;
        progressed := true;
        observations := observations + [Report(establisher.records, notice)];
        if notice.EdgeFaulted? { return progressed, Some(EdgeFault); }
      }
    }

    ghost predicate Ready(arena: ArenaManager)
      reads this, establisher, arena
    {
      Valid() && Heard() && Faithful() && ArenaReady(arena)
    }

    /** Both cursors have moved on, and the logs with them. */
    twostate predicate Progressed()
      reads this, establisher
    {
      && Onward()
      && |outcomes| - old(|outcomes|) == |executed| - old(|executed|) == commandCursor - old(commandCursor) >= 0
      && old(lifecycleCursor) <= lifecycleCursor
      && |states| > 0 && old(|states|) > 0 && states[0] == old(states[0])
    }

    /** One pass: commands if there are any, announcements otherwise. */
    method DriveOnce(works: nat -> bool, arena: ArenaManager) returns (progressed: bool, fault: Option<Fault>)
      requires Ready(arena)
      modifies this, establisher, arena
      ensures Ready(arena) && Progressed()
      ensures 0 <= Remaining() <= old(Remaining()) && (progressed ==> Remaining() < old(Remaining()))
      ensures Justified(establisher.events, old(lifecycleCursor), lifecycleCursor, old(outcomes), outcomes, fault)
      ensures fault.None? && !progressed ==>
                commandCursor == |establisher.commands| && lifecycleCursor == |establisher.events|
    {
      RemainingIsCount();
      ghost var s := establisher.Abs();
      progressed, fault := ExecuteCommands(works, arena);
      ReportsCarryOver(s, establisher.Abs(), observations);
      RemainingIsCount();
      if fault.None? && !progressed { progressed, fault := DrainLifecycle(); }
      RemainingIsCount();
    }

    /**
     Runs commands and drains announcements until neither is left. It always ends; and if no fault
     cuts it short, every command issued was executed once, in issue order, every announcement was
     observed once, in order, and none of them was a fault.
     */
    method Drive(works: nat -> bool, arena: ArenaManager) returns (fault: Option<Fault>)
      requires Ready(arena)
      modifies this, establisher, arena
      ensures Ready(arena) && Progressed() && Remaining() <= old(Remaining())
      ensures fault.None? ==> commandCursor == |establisher.commands| && lifecycleCursor == |establisher.events|
      ensures Justified(establisher.events, old(lifecycleCursor), lifecycleCursor, old(outcomes), outcomes, fault)
    {
      RemainingIsCount();
      var progressed := true;
      while progressed
        invariant Ready(arena) && Progressed() && 0 <= Remaining() <= old(Remaining())
        invariant Justified(establisher.events, old(lifecycleCursor), lifecycleCursor, old(outcomes), outcomes, None)
        invariant !progressed ==> commandCursor == |establisher.commands| && lifecycleCursor == |establisher.events|
        decreases progressed, Remaining()
      {
        ghost var events, read, between := establisher.events, lifecycleCursor, outcomes;
        progressed, fault := DriveOnce(works, arena);
        JustifiedOn(events, establisher.events, old(lifecycleCursor), read, lifecycleCursor, old(outcomes), between,
          outcomes, fault);
        if fault.Some? { return; }
      }
      return None;
    }

    lemma RemainingIsCount()
      requires Valid()
      ensures Remaining() >= 0
    {
      WeightGrows(establisher.commands, commandCursor, |establisher.commands|);
    }
  }
}
