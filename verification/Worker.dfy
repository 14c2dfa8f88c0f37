/** A worker: its pool of actor slots, its queues, and one full pass over them. */
module Workers {
  import opened ActorSlots
  import opened ActorTurns
  import opened Callbacks
  import opened Commands
  import opened Conservation
  import opened Options
  import opened Passes
  import opened Queues
  import opened Routing
  import opened Scripts

  class Worker {
    const id: nat
    const ingressBudget: nat
    const messageBudget: nat
    var pool: Pool
    var spawns: seq<Address>
    var transfers: seq<Envelope>
    var admin: seq<AdminCommand>
    var deferred: seq<Envelope>
    var deferredAdmin: seq<AdminCommand>
    var addressMap: map<Address, nat>
    var pendingLocal: seq<Envelope>
    var extensionBusy: bool
    var hasBacklog: bool

    /** The idle path is safe: without backlog, no actor in the pool has anything left to do. */
    ghost predicate Valid()
      reads this
    {
      pendingLocal == [] && (!hasBacklog ==> Quiet(pool))
    }

    function Now(): (s: State)
      reads this`pool, this`addressMap, this`spawns, this`transfers, this`deferred, this`pendingLocal
      reads this`admin, this`deferredAdmin
    {
      State(pool, addressMap, spawns, transfers, deferred, pendingLocal, admin, deferredAdmin)
    }

    function Seen(): (view: View)
      reads this`pool, this`addressMap
    {
      View(pool.Keys, addressMap, id)
    }

    function Made(): (setup: Setup) {
      Setup(id, ingressBudget, messageBudget)
    }

    constructor Create(id: nat, ingressBudget: nat, messageBudget: nat)
      ensures Valid() && Now() == State(map[], map[], [], [], [], [], [], []) && !HasWork()
      ensures Made() == Setup(id, ingressBudget, messageBudget)
    {
      this.id, this.ingressBudget, this.messageBudget := id, ingressBudget, messageBudget;
      pool := map[];
      spawns, transfers, admin, deferred, deferredAdmin, pendingLocal := [], [], [], [], [], [];
      addressMap := map[];
      extensionBusy, hasBacklog := false, false;
    }

    predicate HasWork()
      reads this
    {
      hasBacklog || spawns != [] || transfers != [] || deferred != [] || admin != [] || deferredAdmin != []
      || extensionBusy
    }

    // ─── the pool ────────────────────────────────────────────────────────────

    method Install(a: Address)
      modifies this`pool
      ensures pool == old(pool)[a := Spawned()]
    {
      pool := pool[a := Spawned()];
    }

    method Deliver(e: Envelope) returns (known: bool)
      modifies this`pool
      ensures known == (e.dest in pool) && pool == DeliverTo(old(pool), e)
    {
      if e.dest !in pool { return false; }
      pool := pool[e.dest := Delivered(pool[e.dest], e.msg)];
      return true;
    }

    // ─── spawn requests ──────────────────────────────────────────────────────

    method InstallFront(ghost before: Pool, ghost all: seq<Address>, ghost n: nat)
      requires n < |all| && spawns == all[n..] && pool == InstallAll(before, all[..n])
      modifies this`pool, this`spawns
      ensures spawns == all[n + 1..] && pool == InstallAll(before, all[..n + 1])
    {
      var a := spawns[0];
      InstallOneMore(before, all[..n], a);
      assert all[..n + 1] == all[..n] + [a];
      spawns := spawns[1..];
      Install(a);
    }

    /** Installs actors from the front of the spawn queue, up to the budget. */
    method DrainSpawns() returns (didWork: bool)
      modifies this`pool, this`spawns
      ensures Now() == Installed(old(Now()), ingressBudget)
      ensures didWork <==> old(spawns) != []
    {
      didWork := false;
      var count := 0;
      while spawns != []
        invariant count <= |old(spawns)| && spawns == old(spawns)[count..]
        invariant pool == InstallAll(old(pool), old(spawns)[..count])
        invariant (didWork <==> count > 0) && (ingressBudget > 0 ==> count < ingressBudget)
        decreases |spawns|
      {
        InstallFront(old(pool), old(spawns), count);
        didWork, count := true, count + 1;
        if ingressBudget != 0 && count >= ingressBudget { break; }
      }
    }

    // ─── transfers ───────────────────────────────────────────────────────────

    method DeliverOrDefer(e: Envelope) returns (done: bool)
      modifies this`pool, this`deferred
      ensures done == (FateOf(old(Seen()), e.dest) != Waiting)
      ensures pool == DeliverTo(old(pool), e)
      ensures deferred == old(deferred) + if done then [] else [e]
    {
      if e.dest in pool {
        var _ := Deliver(e);
        return true;
      } else if MappedHere(addressMap, id, e.dest) {
        deferred := deferred + [e];
        return false;
      }
      return true;
    }

    /** Delivers, retains or drops one envelope that was just taken from a queue. */
    method Settle(e: Envelope, ghost before: Pool, ghost landed: seq<Envelope>, ghost dropped: seq<Envelope>)
      returns (done: bool, ghost landed': seq<Envelope>, ghost dropped': seq<Envelope>)
      requires pool == DeliverAll(before, landed)
      modifies this`pool, this`deferred
      ensures Seen() == old(Seen()) && pool == DeliverAll(before, landed')
      ensures done == (FateOf(Seen(), e.dest) != Waiting)
      ensures landed' == landed + if FateOf(Seen(), e.dest) == Landing then [e] else []
      ensures dropped' == dropped + if FateOf(Seen(), e.dest) == Dropping then [e] else []
      ensures deferred == old(deferred) + if FateOf(Seen(), e.dest) == Waiting then [e] else []
    {
      ghost var fate := FateOf(Seen(), e.dest);
      landed', dropped' := landed, dropped + if fate == Dropping then [e] else [];
      if fate == Landing {
        DeliverOneMore(before, landed, e);
        landed' := landed + [e];
      }
      done := DeliverOrDefer(e);
    }

    /** The state of the loop over the retained envelopes after `n` turns. */
    ghost predicate Turned(before: Pool, view: View, q: seq<Envelope>, n: nat, landed: seq<Envelope>,
        dropped: seq<Envelope>)
      reads this
    {
      && Seen() == view && pool == DeliverAll(before, landed)
      && landed == Settled(view, q, n, Landing) && dropped == Settled(view, q, n, Dropping)
      && deferred == Rotated(q, StuckEnvelopes(view, q), n)
    }

    method TakeDeferred(ghost before: Pool, ghost view: View, ghost q: seq<Envelope>, ghost n: nat,
        ghost landed: seq<Envelope>, ghost dropped: seq<Envelope>)
      returns (done: bool, ghost landed': seq<Envelope>, ghost dropped': seq<Envelope>)
      requires deferred != [] && Turned(before, view, q, n, landed, dropped)
      modifies this`pool, this`deferred
      ensures Turned(before, view, q, n + 1, landed', dropped')
      ensures if done then landed' != [] || dropped' != [] else landed' == landed && dropped' == dropped
    {
      RetainedTurn(view, q, n);
      SettledOneMore(view, q, n, Landing);
      SettledOneMore(view, q, n, Dropping);
      var e := deferred[0];
      deferred := deferred[1..];
      done, landed', dropped' := Settle(e, before, landed, dropped);
    }

    /**
     The loop over the retained envelopes: each is taken in turn, and put back if its actor is still to
     be installed. Without a budget it ends only because each can be settled.
     */
    method DrainRetained()
      returns (didWork: bool, count: nat, ghost landed: seq<Envelope>, ghost dropped: seq<Envelope>)
      requires ingressBudget == 0 ==> AllCanSettle(Seen(), deferred)
      modifies this`pool, this`deferred
      ensures count == Turns(AllCanSettle(old(Seen()), old(deferred)), |old(deferred)|, ingressBudget)
      ensures Turned(old(pool), old(Seen()), old(deferred), count, landed, dropped)
      ensures didWork <==> landed != [] || dropped != []
    {
      ghost var view, q := Seen(), deferred;
      ghost var free := AllCanSettle(view, q);
      didWork, count, landed, dropped := false, 0, [], [];
      while (ingressBudget == 0 || count < ingressBudget) && deferred != []
        invariant Turned(old(pool), view, q, count, landed, dropped)
        invariant (free ==> count <= |q| && deferred == q[count..]) && (!free ==> deferred != [])
        invariant ingressBudget > 0 ==> count <= ingressBudget
        invariant didWork <==> landed != [] || dropped != []
        decreases if ingressBudget == 0 then |deferred| else ingressBudget - count
      {
        var done: bool;
        done, landed, dropped := TakeDeferred(old(pool), view, q, count, landed, dropped);
        if done { didWork := true; }
        count := count + 1;
        if free { FreeTurns(view, q, count); } else { StuckNeverEnds(view, q, count); }
      }
    }

    /** The state of a loop that has taken `n` envelopes off the front of a queue. */
    ghost predicate TakenUp(before: Pool, view: View, q: seq<Envelope>, n: nat, landed: seq<Envelope>,
        dropped: seq<Envelope>, kept: seq<Envelope>, landed': seq<Envelope>, dropped': seq<Envelope>)
      reads this
    {
      && n <= |q| && Seen() == view && pool == DeliverAll(before, landed')
      && landed' == landed + Fated(view, q[..n], Landing)
      && dropped' == dropped + Fated(view, q[..n], Dropping)
      && deferred == kept + Fated(view, q[..n], Waiting)
    }

    method TakeUp(e: Envelope, ghost before: Pool, ghost view: View, ghost q: seq<Envelope>, ghost n: nat,
        ghost landed: seq<Envelope>, ghost dropped: seq<Envelope>, ghost kept: seq<Envelope>,
        ghost landed1: seq<Envelope>, ghost dropped1: seq<Envelope>)
      returns (ghost landed2: seq<Envelope>, ghost dropped2: seq<Envelope>)
      requires n < |q| && e == q[n] && TakenUp(before, view, q, n, landed, dropped, kept, landed1, dropped1)
      modifies this`pool, this`deferred
      ensures TakenUp(before, view, q, n + 1, landed, dropped, kept, landed2, dropped2)
    {
      assert q[..n + 1] == q[..n] + [e];
      FatedOneMore(view, q[..n], e, Landing);
      FatedOneMore(view, q[..n], e, Dropping);
      FatedOneMore(view, q[..n], e, Waiting);
      var done: bool;
      done, landed2, dropped2 := Settle(e, before, landed1, dropped1);
    }

    /** The loop over the transfer queue, for what the budget has left. */
    method DrainQueue(count: nat, ghost before: Pool, ghost landed: seq<Envelope>, ghost dropped: seq<Envelope>)
      returns (didWork: bool, ghost landed': seq<Envelope>, ghost dropped': seq<Envelope>)
      requires pool == DeliverAll(before, landed)
      modifies this`pool, this`deferred, this`transfers
      ensures var n := Onward(|old(transfers)|, count, ingressBudget);
              && TakenUp(before, old(Seen()), old(transfers), n, landed, dropped, old(deferred), landed', dropped')
              && transfers == old(transfers)[n..] && (didWork <==> n > 0)
    {
      ghost var view, q := Seen(), transfers;
      didWork, landed', dropped' := false, landed, dropped;
      var total, taken := count, 0;
      while (ingressBudget == 0 || total < ingressBudget) && transfers != []
        invariant TakenUp(before, view, q, taken, landed, dropped, old(deferred), landed', dropped')
        invariant transfers == q[taken..] && (didWork <==> taken > 0) && total == count + taken
        invariant ingressBudget > 0 && taken > 0 ==> total <= ingressBudget
        decreases |transfers|
      {
        didWork := true;
        var e := transfers[0];
        transfers := transfers[1..];
        landed', dropped' := TakeUp(e, before, view, q, taken, landed, dropped, old(deferred), landed', dropped');
        total, taken := total + 1, taken + 1;
      }
    }

    /**
     Retained envelopes first, then the transfer queue, up to the budget, each settled in the order it is
     taken. One retained envelope that cannot be settled uses up the whole budget, and the queue gets none
     of it.
     */
    method DrainTransfers() returns (didWork: bool)
      requires ingressBudget == 0 ==> AllCanSettle(Seen(), deferred)
      modifies this`pool, this`deferred, this`transfers
      ensures Now() == Transferred(old(Now()), id, ingressBudget)
      ensures didWork <==> TransfersMove(old(Now()), id, ingressBudget)
    {
      var retained, count, landed, dropped := DrainRetained();
      var queued: bool;
      queued, landed, dropped := DrainQueue(count, old(pool), landed, dropped);
      TransferredIs(old(Now()), id, ingressBudget, count, Onward(|old(transfers)|, count, ingressBudget), landed,
          Now());
      didWork := retained || queued;
    }

    // ─── commands ────────────────────────────────────────────────────────────

    method Apply(c: AdminCommand)
      modifies this`pool
      ensures pool == ApplyTo(old(pool), c)
    {
      match c
      case StopActor(a) => if a in pool { pool := pool[a := Stopped(pool[a], None)]; }
      case SuspendActor(a) => if a in pool { pool := pool[a := pool[a].(suspended := true)]; }
      case ResumeActor(a) => if a in pool { pool := pool[a := pool[a].(suspended := false)]; }
      case _ =>
    }

    /** Applies a command, or keeps it until its actor is installed. */
    method ApplyOrDefer(c: AdminCommand, ghost before: Pool, ghost applied: seq<AdminCommand>)
      returns (done: bool, ghost applied': seq<AdminCommand>)
      requires pool == ApplyAll(before, applied)
      modifies this`pool, this`deferredAdmin
      ensures Seen() == old(Seen()) && pool == ApplyAll(before, applied') && done == !Waits(Seen(), c)
      ensures applied' == applied + if done then [c] else []
      ensures deferredAdmin == old(deferredAdmin) + if done then [] else [c]
    {
      if Waits(Seen(), c) {
        deferredAdmin := deferredAdmin + [c];
        return false, applied;
      }
      Apply(c);
      ApplyOneMore(before, applied, c);
      return true, applied + [c];
    }

    /** The state of the loop over the retained commands after `n` turns. */
    ghost predicate TurnedAdmin(before: Pool, view: View, q: seq<AdminCommand>, stuck: set<AdminCommand>, n: nat,
        applied: seq<AdminCommand>)
      reads this
    {
      && Seen() == view && pool == ApplyAll(before, applied)
      && applied == Apart(q[..Min(n, |q|)], stuck) && deferredAdmin == Rotated(q, stuck, n)
    }

    method TakeDeferredAdmin(ghost before: Pool, ghost view: View, ghost q: seq<AdminCommand>,
        ghost stuck: set<AdminCommand>, ghost n: nat, ghost applied: seq<AdminCommand>)
      returns (done: bool, ghost applied': seq<AdminCommand>)
      requires deferredAdmin != [] && TurnedAdmin(before, view, q, stuck, n, applied)
      requires deferredAdmin[0] in stuck <==> Waits(view, deferredAdmin[0])
      modifies this`pool, this`deferredAdmin
      ensures TurnedAdmin(before, view, q, stuck, n + 1, applied')
      ensures if done then applied' != [] else applied' == applied
    {
      OneTurn(q, stuck, n);
      SettledInTurn(q, stuck, n);
      var c := deferredAdmin[0];
      deferredAdmin := deferredAdmin[1..];
      done, applied' := ApplyOrDefer(c, before, applied);
    }

    /** The loop over the retained commands; without a budget it ends only because none has to wait. */
    method DrainRetainedAdmin(ghost stuck: set<AdminCommand>)
      returns (didWork: bool, count: nat, ghost applied: seq<AdminCommand>)
      requires ingressBudget == 0 ==> NoneWaits(Seen(), deferredAdmin)
      requires forall c :: c in deferredAdmin ==> (c in stuck <==> Waits(Seen(), c))
      modifies this`pool, this`deferredAdmin
      ensures count == Turns(NoneWaits(old(Seen()), old(deferredAdmin)), |old(deferredAdmin)|, ingressBudget)
      ensures TurnedAdmin(old(pool), old(Seen()), old(deferredAdmin), stuck, count, applied)
      ensures didWork <==> applied != []
    {
      ghost var view, q := Seen(), deferredAdmin;
      ghost var free := NoneWaits(view, q);
      didWork, count, applied := false, 0, [];
      while (ingressBudget == 0 || count < ingressBudget) && deferredAdmin != []
        invariant TurnedAdmin(old(pool), view, q, stuck, count, applied)
        invariant (free ==> count <= |q| && deferredAdmin == q[count..]) && (!free ==> deferredAdmin != [])
        invariant ingressBudget > 0 ==> count <= ingressBudget
        invariant didWork <==> applied != []
        decreases if ingressBudget == 0 then |deferredAdmin| else ingressBudget - count
      {
        var done: bool;
        FrontFromQueue(q, stuck, count);
        done, applied := TakeDeferredAdmin(old(pool), view, q, stuck, count, applied);
        if done { didWork := true; }
        count := count + 1;
        if free { FreeTurn(q, stuck, count); } else { WaitingStays(view, q, stuck, count); }
      }
    }

    /** The state of a loop that has taken `n` commands off the front of the admin queue. */
    ghost predicate TakenAdmin(before: Pool, view: View, q: seq<AdminCommand>, stuck: set<AdminCommand>, n: nat,
        applied: seq<AdminCommand>, kept: seq<AdminCommand>, applied': seq<AdminCommand>)
      reads this
    {
      && n <= |q| && Seen() == view && pool == ApplyAll(before, applied')
      && applied' == applied + Apart(q[..n], stuck) && deferredAdmin == kept + Among(q[..n], stuck)
      && admin == q[n..]
    }

    method TakeAdmin(ghost before: Pool, ghost view: View, ghost q: seq<AdminCommand>, ghost stuck: set<AdminCommand>,
        ghost n: nat, ghost applied: seq<AdminCommand>, ghost kept: seq<AdminCommand>,
        ghost applied1: seq<AdminCommand>)
      returns (ghost applied2: seq<AdminCommand>)
      requires admin != [] && TakenAdmin(before, view, q, stuck, n, applied, kept, applied1)
      requires q[n] in stuck <==> Waits(view, q[n])
      modifies this`pool, this`deferredAdmin, this`admin
      ensures TakenAdmin(before, view, q, stuck, n + 1, applied, kept, applied2)
    {
      var c := admin[0];
      OneMoreTaken(applied, kept, q, stuck, n);
      admin := admin[1..];
      var done: bool;
      done, applied2 := ApplyOrDefer(c, before, applied1);
    }

    /** The loop over the admin queue, for what the budget has left. */
    method DrainAdminQueue(count: nat, ghost stuck: set<AdminCommand>, ghost before: Pool,
        ghost applied: seq<AdminCommand>)
      returns (didWork: bool, ghost applied': seq<AdminCommand>)
      requires pool == ApplyAll(before, applied)
      requires forall c :: c in admin ==> (c in stuck <==> Waits(Seen(), c))
      modifies this`pool, this`deferredAdmin, this`admin
      ensures var n := Onward(|old(admin)|, count, ingressBudget);
              && TakenAdmin(before, old(Seen()), old(admin), stuck, n, applied, old(deferredAdmin), applied')
              && (didWork <==> n > 0)
    {
      ghost var view, q, kept := Seen(), admin, deferredAdmin;
      didWork, applied' := false, applied;
      var total, taken := count, 0;
      while (ingressBudget == 0 || total < ingressBudget) && admin != []
        invariant TakenAdmin(before, view, q, stuck, taken, applied, kept, applied')
        invariant (didWork <==> taken > 0) && total == count + taken
        invariant ingressBudget > 0 && taken > 0 ==> total <= ingressBudget
        decreases |admin|
      {
        didWork := true;
        assert q[taken] in q;
        applied' := TakeAdmin(before, view, q, stuck, taken, applied, kept, applied');
        total, taken := total + 1, taken + 1;
      }
    }

    /** Retained commands first, then the admin queue, up to the budget: each is applied in its turn, or kept. */
    method DrainAdmin() returns (didWork: bool)
      requires ingressBudget == 0 ==> NoneWaits(Seen(), deferredAdmin)
      modifies this`pool, this`deferredAdmin, this`admin
      ensures Now() == Managed(old(Now()), id, ingressBudget)
      ensures didWork <==> CommandsMove(old(Now()), id, ingressBudget)
    {
      ghost var stuck := StuckCommands(Seen(), deferredAdmin + admin);
      FreeMeansNoneWaits(Seen(), deferredAdmin, admin);
      var retained, count, applied := DrainRetainedAdmin(stuck);
      var queued: bool;
      queued, applied := DrainAdminQueue(count, stuck, old(pool), applied);
      ManagedIs(old(Now()), id, ingressBudget, stuck, count, Onward(|old(admin)|, count, ingressBudget), applied,
          Now());
      didWork := retained || queued;
    }

    // ─── one actor's turn ────────────────────────────────────────────────────

    ghost function Touched(): (touch: Touch)
      reads this
    {
      Touch(addressMap, pendingLocal, spawns)
    }

    method Perform(effects: seq<Effect>)
      modifies this`pendingLocal, this`spawns, this`addressMap
      ensures Touched() == Performed(id, old(Touched()), effects)
    {
      for i := 0 to |effects|
        invariant pendingLocal == old(pendingLocal) + StagedBy(old(addressMap), id, effects, i)
        invariant spawns == old(spawns) + SpawnedBy(effects, i)
        invariant addressMap == MapAfter(old(addressMap), id, effects, i)
      {
        match effects[i]
        case Send(e) => if MappedHere(addressMap, id, e.dest) { pendingLocal := pendingLocal + [e]; }
        case Spawn(child) =>
          addressMap := addressMap[child := id];
          spawns := spawns + [child];
        case Wake(a) => pendingLocal := pendingLocal + [Envelope(a, Resume)];
      }
    }

    /** The callbacks from one to another have led from `origin` to here. */
    ghost predicate Led(script: seq<Answer>, from: nat, n: nat, origin: Touch)
      reads this
    {
      from <= n && Touched() == After(id, origin, script, from, n)
    }

    /** One callback: what it sends to this worker waits for the end of the pass. */
    method Effects(script: seq<Answer>, n: nat, ghost from: nat, ghost origin: Touch)
      requires Led(script, from, n, origin)
      modifies this`pendingLocal, this`spawns, this`addressMap
      ensures Led(script, from, n + 1, origin)
    {
      Perform(Call(script, n).effects);
    }

    /** The message loop of one turn, before its next message. */
    ghost predicate Looping(s: Slot, slot: Slot, processed: nat, outcomes: seq<Outcome>) {
      && Looped(s, outcomes, messageBudget) && slot == Processed(s, outcomes) && processed == Calls(s, outcomes)
      && !Skipped(slot) && slot.started == s.started && (messageBudget > 0 ==> processed < messageBudget)
    }

    /** The same loop once it has ended. */
    ghost predicate LoopEnded(s: Slot, slot: Slot, processed: nat, outcomes: seq<Outcome>) {
      && Looped(s, outcomes, messageBudget) && slot == Processed(s, outcomes) && processed == Calls(s, outcomes)
      && (slot.mailbox == [] || Skipped(slot) || (messageBudget > 0 && processed == messageBudget))
      && (messageBudget > 0 ==> processed <= messageBudget) && (processed == 0 ==> slot.mailbox == [])
      && slot.started == s.started
    }

    /** One message: handled, mismatched, a stop, or a panic; and whether the loop goes on. */
    method NextMessage(outcome: Outcome, ghost s: Slot, slot: Slot, processed: nat, ghost outcomes: seq<Outcome>)
      returns (slot': Slot, processed': nat, more: bool)
      requires slot.mailbox != [] && Looping(s, slot, processed, outcomes)
      ensures |slot'.mailbox| < |slot.mailbox|
      ensures if more then Looping(s, slot', processed', outcomes + [outcome])
              else LoopEnded(s, slot', processed', outcomes + [outcome])
    {
      LoopOneMore(s, outcomes, outcome, messageBudget);
      slot', processed', more := AfterMessage(slot, outcome), processed, false;
      if IsControl(slot.mailbox[0]) || outcome.HandlerPanicked? { return; }
      processed' := processed + 1;
      if slot'.stopping || slot'.suspended { return; }
      more := messageBudget == 0 || processed' < messageBudget;
    }

    /** The message loop of one turn, for an actor that is neither stopped, poisoned nor suspended. */
    method MessageLoop(script: seq<Answer>, n: nat, ghost from: nat, ghost origin: Touch, s: Slot)
      returns (slot: Slot, processed: nat, n': nat, ghost outcomes: seq<Outcome>)
      requires !Skipped(s) && Led(script, from, n, origin)
      modifies this`pendingLocal, this`spawns, this`addressMap
      ensures LoopEnded(s, slot, processed, outcomes) && Led(script, from, n', origin)
      ensures Scripted(script, n, s, outcomes) && n' == n + Handed(s, outcomes)
    {
      slot, processed, n', outcomes := s, 0, n, [];
      while slot.mailbox != []
        invariant Looping(s, slot, processed, outcomes) && Led(script, from, n', origin)
        invariant Scripted(script, n, s, outcomes) && n' == n + Handed(s, outcomes)
        decreases |slot.mailbox|
      {
        var outcome := Call(script, n').outcome;
        HandedOneMore(s, outcomes, outcome);
        ScriptedOneMore(script, n, s, outcomes, outcome);
        if !IsControl(slot.mailbox[0]) {
          Effects(script, n', from, origin);
          n' := n' + 1;
        }
        var more: bool;
        slot, processed, more := NextMessage(outcome, s, slot, processed, outcomes);
        outcomes := outcomes + [outcome];
        if !more { return; }
      }
    }

    /**
     One actor's turn: its callbacks do what the script says, from the `n`th call on. It handles at most the
     budget of messages, and if it handled none then nothing is left to do for this actor.
     */
    method TickActor(script: seq<Answer>, n: nat, ghost from: nat, ghost origin: Touch, a: Address)
      returns (processed: nat, n': nat, ghost start: StartOutcome, ghost outcomes: seq<Outcome>)
      requires a in pool && Led(script, from, n, origin)
      modifies this`pool, this`pendingLocal, this`spawns, this`addressMap
      ensures a in pool && pool == old(pool)[a := pool[a]]
      ensures IsTurn(old(pool[a]), start, outcomes, messageBudget, pool[a])
      ensures InTurn(script, n, old(pool[a]), start, outcomes)
      ensures n' == n + CallbacksIn(old(pool[a]), start, outcomes) && Led(script, from, n', origin)
      ensures processed == CallsIn(old(pool[a]), start, outcomes)
      ensures processed == 0 ==> AtRest(pool[a])
      ensures messageBudget > 0 ==> processed <= messageBudget
    {
      var slot := pool[a];
      processed, n', start, outcomes := 0, n, StartPanicked, [];
      if Skipped(slot) {
        if Dead(slot) { slot := slot.(mailbox := []); }
      } else {
        if !slot.started {
          Effects(script, n, from, origin);
          start, n' := Call(script, n).start, n + 1;
          slot := AfterStart(slot, Call(script, n).start);
        }
        if !Skipped(slot) { slot, processed, n', outcomes := MessageLoop(script, n', from, origin, slot); }
      }
      pool := pool[a := slot];
    }

    /** The state of the loop over the actors when some are still to have their turn. */
    ghost predicate Midway(script: seq<Answer>, n: nat, before: Pool, origin: Touch, todo: set<Address>,
        processed: nat, ticks: Ticks, turns: map<Address, nat>)
      reads this
    {
      && TickedBut(before, pool, todo, ticks.starts, ticks.outcomes, messageBudget)
      && (processed > 0 <==> AnyCall(before, ticks.starts, ticks.outcomes))
      && (processed == 0 ==> forall a :: a in pool && a !in todo ==> AtRest(pool[a]))
      && Led(script, 0, n, origin) && TurnsPlayed(script, 0, n, before, ticks.starts, ticks.outcomes, turns)
    }

    method TickNext(script: seq<Answer>, n: nat, a: Address, processed: nat, ghost before: Pool, ghost origin: Touch,
        ghost todo: set<Address>, ghost ticks: Ticks, ghost turns: map<Address, nat>)
      returns (processed': nat, n': nat, ghost ticks': Ticks, ghost turns': map<Address, nat>)
      requires a in todo && Midway(script, n, before, origin, todo, processed, ticks, turns)
      modifies this`pool, this`pendingLocal, this`spawns, this`addressMap
      ensures Midway(script, n', before, origin, todo - {a}, processed', ticks', turns')
    {
      ghost var turned := pool;
      var calls, reached, start, handled := TickActor(script, n, 0, origin, a);
      TickedOneMore(before, turned, todo, ticks.starts, ticks.outcomes, messageBudget, a, start, handled, pool[a]);
      CallOneMore(before, ticks.starts, ticks.outcomes, a, start, handled);
      OneMoreTurn(script, 0, n, reached, before, ticks.starts, ticks.outcomes, turns, a, start, handled);
      processed', n' := processed + calls, reached;
      ticks' := Ticks(ticks.starts[a := start], ticks.outcomes[a := handled], ticks.effects, ticks.ticked);
      turns' := turns[a := n];
    }

    /** The loop over the actors, in any order. */
    method TickEach(script: seq<Answer>)
      returns (processed: nat, n: nat, ghost ticks: Ticks, ghost turns: map<Address, nat>)
      modifies this`pool, this`pendingLocal, this`spawns, this`addressMap
      ensures Midway(script, n, old(pool), old(Touched()), {}, processed, ticks, turns)
    {
      processed, n, ticks, turns := 0, 0, Ticks(map[], map[], [], Now()), map[];
      var todo := pool.Keys;
      while todo != {}
        invariant Midway(script, n, old(pool), old(Touched()), todo, processed, ticks, turns)
        decreases |todo|
      {
        var a :| a in todo;
        processed, n, ticks, turns :=
          TickNext(script, n, a, processed, old(pool), old(Touched()), todo, ticks, turns);
        todo := todo - {a};
      }
    }

    /** Every actor's turn, in any order, and no actor twice; `n` callbacks are made in them. */
    method TickAll(script: seq<Answer>)
      returns (processed: nat, n: nat, ghost ticks: Ticks, ghost turns: map<Address, nat>)
      modifies this`pool, this`pendingLocal, this`spawns, this`addressMap
      ensures Ticked(Made(), old(Now()), ticks) && ticks.ticked == Now()
      ensures processed > 0 <==> AnyCall(old(pool), ticks.starts, ticks.outcomes)
      ensures processed == 0 ==> forall a :: a in pool ==> AtRest(pool[a])
      ensures Led(script, 0, n, old(Touched())) && turns.Keys == old(pool).Keys
      ensures TurnsPlayed(script, 0, n, old(pool), ticks.starts, ticks.outcomes, turns)
    {
      processed, n, ticks, turns := TickEach(script);
      ghost var effects := AfterLeads(id, old(Touched()), script, 0, n);
      ticks := TickedAll(Made(), old(Now()), ticks.starts, ticks.outcomes, effects, Now());
    }

    // ─── the end of a pass ───────────────────────────────────────────────────

    /** Delivers, retains or drops what was staged for this worker, in the order it was staged. */
    method FlushPending()
      modifies this`pool, this`deferred, this`pendingLocal
      ensures Now() == Flushed(old(Now()), id)
    {
      ghost var view, q, landed, dropped := Seen(), pendingLocal, [], [];
      ghost var count := 0;
      while pendingLocal != []
        invariant TakenUp(old(pool), view, q, count, [], [], old(deferred), landed, dropped)
        invariant pendingLocal == q[count..]
        decreases |pendingLocal|
      {
        var e := pendingLocal[0];
        pendingLocal := pendingLocal[1..];
        landed, dropped := TakeUp(e, old(pool), view, q, count, [], [], old(deferred), landed, dropped);
        count := count + 1;
      }
      assert q[..count] == q;
      assert landed == Fated(view, q, Landing);
    }

    /** Routes messages of the runtime's own; those for other workers leave this one. */
    method RouteAll(es: seq<Envelope>)
      modifies this`pool
      ensures pool == DeliverAll(old(pool), es)
    {
      for i := 0 to |es|
        invariant pool == DeliverAll(old(pool), es[..i])
      {
        DeliverOneMore(old(pool), es[..i], es[i]);
        assert es[..i + 1] == es[..i] + [es[i]];
        var _ := Deliver(es[i]);
      }
      assert es[..|es|] == es;
    }

    /** Removes one dead actor, after its last callback if it has one. */
    method RemoveOne(script: seq<Answer>, n: nat, ghost from: nat, ghost origin: Touch, a: Address,
        dead: map<Address, Obituary>, ghost before: Pool, ghost gone: set<Address>)
      returns (dead': map<Address, Obituary>, n': nat)
      requires a in pool && TakenAway(before, gone, pool, dead) && Led(script, from, n, origin)
      modifies this`pool, this`pendingLocal, this`spawns, this`addressMap
      ensures TakenAway(before, gone + {a}, pool, dead') && Led(script, from, n', origin)
      ensures n' == n + if OnStopEligible(before[a]) then 1 else 0
    {
      var slot := pool[a];
      n' := n;
      TakeAwayOneMore(before, gone, pool, dead, a);
      pool := pool - {a};
      if OnStopEligible(slot) {
        Effects(script, n, from, origin);
        n' := n + 1;
      }
      dead' := dead[a := Obituary(ReasonFor(slot), slot.exitValue)];
    }

    /** Removes every stopping or poisoned actor, each once and for the reason its flags give. */
    method CleanupDead(script: seq<Answer>, n: nat) returns (dead: map<Address, Obituary>, n': nat)
      modifies this`pool, this`pendingLocal, this`spawns, this`addressMap
      ensures TakenAway(old(pool), DeadIn(old(pool)), pool, dead)
      ensures n' == n + |LastCalls(old(pool))| && Led(script, n, n', old(Touched()))
    {
      var todo := DeadIn(pool);
      ghost var gone, before, origin := {}, pool, Touched();
      dead, n' := map[], n;
      while todo != {}
        invariant gone !! todo && gone + todo == DeadIn(before) && TakenAway(before, gone, pool, dead)
        invariant n' == n + LastAmong(before, gone) && Led(script, n, n', origin)
        decreases |todo|
      {
        var a :| a in todo;
        OneMoreLast(before, gone, a);
        dead, n' := RemoveOne(script, n', n, origin, a, dead, before, gone);
        todo, gone := todo - {a}, gone + {a};
      }
      AllLastCalls(before, gone);
    }

    /** Removes and unmaps the dead and routes the notices of their deaths; the runtime is told of all of them. */
    method BuryDead(host: Host, n: nat)
      returns (told: map<Address, Obituary>, ghost effects: seq<Effect>, ghost notices: seq<Envelope>)
      modifies this`pool, this`pendingLocal, this`spawns, this`addressMap
      ensures Now() == Buried(old(Now()), id, effects, notices)
      ensures told == Obituaries(old(pool)) && notices == if told.Keys != {} then host.notices else []
      ensures Leads(id, effects, old(Touched()), LastTouch(host.script, n, id, old(Now())))
      ensures told.Keys == {} ==> effects == []
    {
      ghost var s := Now();
      var n';
      told, n' := CleanupDead(host.script, n);
      ghost var s' := Now();
      effects := AfterLeads(id, s.Touched(), host.script, n, n');
      NoLastCalls(s.pool);
      notices := if told.Keys != {} then host.notices else [];
      BuriedIs(s, id, effects, notices, s', told);
      addressMap := addressMap - told.Keys;
      if told.Keys != {} { RouteAll(host.notices); }
    }

    /**
     Removes and unmaps the dead. What the others get is the notices of the deaths, then those of the last
     callbacks' own sends that are for actors here; the rest of these is retained or dropped.
     */
    method CleanupDeadActors(host: Host, n: nat)
      returns (told: map<Address, Obituary>, ghost effects: seq<Effect>, ghost notices: seq<Envelope>)
      modifies this`pool, this`deferred, this`pendingLocal, this`spawns, this`addressMap
      ensures Now() == Flushed(Buried(old(Now()), id, effects, notices), id)
      ensures told == Obituaries(old(pool)) && notices == if told.Keys != {} then host.notices else []
      ensures Leads(id, effects, old(Touched()), LastTouch(host.script, n, id, old(Now())))
      ensures told.Keys == {} ==> effects == []
    {
      told, effects, notices := BuryDead(host, n);
      FlushPending();
    }

    // ─── one pass ────────────────────────────────────────────────────────────

    /** Other threads push to the queues, map new actors and unmap their own. */
    method Arrivals()
      modifies this`spawns, this`transfers, this`admin, this`addressMap, this`extensionBusy
      ensures Arrived(id, old(Now()), Now())
    {
      var moreSpawns: seq<Address>, moreTransfers: seq<Envelope>, moreAdmin: seq<AdminCommand> := *, *, *;
      spawns, transfers, admin := spawns + moreSpawns, transfers + moreTransfers, admin + moreAdmin;
      var mapped: map<Address, nat>, unmapped: set<Address> := *, *;
      var waited := (set e | e in deferred :: e.dest)
        + (set c | c in deferredAdmin && Target(c).Some? :: Target(c).value);
      addressMap := (addressMap - (unmapped - waited)) + (mapped - waited);
      extensionBusy := *;
    }

    /** Phase 1: the front of the spawn queue is installed, up to the budget. */
    method NewActors() returns (didWork: bool)
      modifies this`pool, this`spawns, this`transfers, this`admin, this`addressMap, this`extensionBusy
      ensures Arrived(id, Installed(old(Now()), ingressBudget), Now()) && (didWork <==> old(spawns) != [])
      ensures ingressBudget == 0 && Announced(old(Now()), id) ==> Unblocked(Now(), id)
    {
      didWork := DrainSpawns();
      ghost var mid := Now();
      Arrivals();
      if ingressBudget == 0 && Announced(old(Now()), id) {
        AnnouncedUnblocks(old(Now()), id);
        ArrivalsUnblocked(id, mid, Now());
      }
    }

    /** Phase 2: transfers are delivered, retained or dropped, up to the budget. */
    method Deliveries() returns (didWork: bool)
      requires ingressBudget == 0 ==> Unblocked(Now(), id)
      modifies this`pool, this`spawns, this`transfers, this`deferred, this`admin, this`addressMap, this`extensionBusy
      ensures Arrived(id, Transferred(old(Now()), id, ingressBudget), Now())
      ensures didWork <==> TransfersMove(old(Now()), id, ingressBudget)
      ensures ingressBudget == 0 ==> NoneWaits(Seen(), deferredAdmin)
    {
      didWork := DrainTransfers();
      ghost var mid := Now();
      Arrivals();
      if ingressBudget == 0 { ArrivalsUnblocked(id, mid, Now()); }
    }

    /** Phases 3 and 4: commands are applied or retained, up to the budget, and the extension's messages routed. */
    method Administration(messages: seq<Envelope>) returns (didWork: bool)
      requires ingressBudget == 0 ==> NoneWaits(Seen(), deferredAdmin)
      modifies this`pool, this`spawns, this`transfers, this`admin, this`deferredAdmin, this`addressMap,
        this`extensionBusy
      ensures Arrived(id, Routed(Managed(old(Now()), id, ingressBudget), messages), Now())
      ensures didWork <==> CommandsMove(old(Now()), id, ingressBudget) || messages != []
    {
      var managed := DrainAdmin();
      RouteAll(messages);
      didWork := managed || messages != [];
      Arrivals();
    }

    /**
     Phases 6 and 7: actors spawned meanwhile are installed, then what was sent locally is delivered,
     retained or dropped, in order.
     */
    method LocalDelivery() returns (didWork: bool)
      modifies this`pool, this`spawns, this`deferred, this`pendingLocal
      ensures Now() == Flushed(Installed(old(Now()), ingressBudget), id)
      ensures didWork <==> old(spawns) != [] || old(pendingLocal) != []
    {
      var installed := DrainSpawns();
      didWork := installed || pendingLocal != [];
      FlushPending();
    }

    /** Phases 1 to 4, in order. */
    method Ingress(messages: seq<Envelope>) returns (didWork: bool, ghost inlet: Inlet)
      requires ingressBudget == 0 ==> Announced(Now(), id)
      modifies this`pool, this`spawns, this`transfers, this`deferred, this`admin, this`deferredAdmin
      modifies this`addressMap, this`extensionBusy
      ensures Ingests(Made(), old(Now()), inlet) && inlet.managed == Now() && inlet.messages == messages
      ensures didWork <==> IngestWorks(Made(), old(Now()), inlet)
    {
      var created := NewActors();
      ghost var installed := Now();
      var moved := Deliveries();
      ghost var delivered := Now();
      var managed := Administration(messages);
      inlet := Inlet(installed, delivered, Now(), messages);
      didWork := created || moved || managed;
    }

    /** Phase 9: the dead are removed, and what their deaths sent is delivered. */
    method Burial(host: Host, n: nat)
      returns (told: map<Address, Obituary>, ghost last: seq<Effect>, ghost notices: seq<Envelope>)
      modifies this`pool, this`spawns, this`transfers, this`deferred, this`admin
      modifies this`addressMap, this`extensionBusy, this`pendingLocal
      ensures Arrived(id, Flushed(Buried(old(Now()), id, last, notices), id), Now()) && pendingLocal == []
      ensures told == Obituaries(old(pool)) && notices == if told.Keys != {} then host.notices else []
      ensures Leads(id, last, old(Touched()), LastTouch(host.script, n, id, old(Now())))
      ensures told.Keys == {} ==> last == []
    {
      told, last, notices := CleanupDeadActors(host, n);
      Arrivals();
    }

    /**
     Phases 6 to 9: the state after local delivery and what arrives behind it, then without its dead and
     with what their deaths sent to the others. The worker notes whether anything was done in the pass.
     */
    method Egress(host: Host, n: nat, worked: bool)
      returns (didWork: bool, told: map<Address, Obituary>, ghost outlet: Outlet)
      modifies this`pool, this`spawns, this`transfers, this`deferred, this`admin
      modifies this`addressMap, this`extensionBusy, this`pendingLocal, this`hasBacklog
      ensures Settles(Made(), old(Now()), outlet, Now())
      ensures pendingLocal == [] && (didWork <==> SettleWorks(old(Now()), outlet))
      ensures hasBacklog <==> worked || didWork
      ensures told == Obituaries(outlet.settled.pool)
      ensures outlet.notices == if DeadIn(outlet.settled.pool) == {} then [] else host.notices
      ensures Leads(id, outlet.last, outlet.settled.Touched(), LastTouch(host.script, n, id, outlet.settled))
    {
      var delivered := LocalDelivery();
      Arrivals();
      ghost var settled := Now();
      ghost var last, notices;
      told, last, notices := Burial(host, n);
      outlet := Outlet(settled, last, notices);
      didWork := delivered || told.Keys != {};
      hasBacklog := worked || didWork;
    }

    /** The phases of a pass, whatever arrives meanwhile and whatever the callbacks do. */
    method AllPhases(host: Host) returns (didWork: bool, told: map<Address, Obituary>, ghost pass: Pass)
      requires ingressBudget == 0 ==> Announced(Now(), id)
      modifies this`pool, this`spawns, this`transfers, this`deferred, this`admin, this`deferredAdmin
      modifies this`addressMap, this`extensionBusy, this`pendingLocal, this`hasBacklog
      ensures pass.before == old(Now()) && pass.after == Now() && IsPass(Made(), pass) && Played(Made(), host, pass)
      ensures didWork <==> Worked(Made(), pass)
      ensures told == Obituaries(pass.outlet.settled.pool)
      ensures Valid() && hasBacklog == didWork
    {
      ghost var before := Now();
      var taken, inlet := Ingress(host.fired);
      var processed, n, ticks, turns := TickAll(host.script);
      var settled;
      ghost var outlet;
      settled, told, outlet := Egress(host, n, taken || processed > 0);
      ghost var after := Now();
      didWork := taken || processed > 0 || settled;
      pass := PassOf(Made(), before, inlet, ticks, outlet, after);
      PlayedBy(Made(), host, pass, n);
      if !didWork { IdlePassIsQuiet(Made(), ticks.ticked, outlet, after); }
    }

    /**
     One pass over everything, if there is anything to do: the front of each queue is served up to the
     budget, and nothing is lost or made up. If the worker then sees no work, no actor awaits cleanup, every
     actor that is not suspended is started with an empty mailbox, and every queue is empty: the idle path
     strands nothing.
     */
    method TryTick(host: Host) returns (didWork: bool, told: map<Address, Obituary>, ghost pass: Pass)
      requires Valid() && (ingressBudget == 0 ==> Announced(Now(), id))
      modifies this
      ensures Valid() && hasBacklog == didWork
      ensures old(HasWork()) ==>
                && pass.before == old(Now()) && pass.after == Now() && IsPass(Made(), pass) &&
                   Played(Made(), host, pass)
                && told == Obituaries(pass.outlet.settled.pool)
                && (didWork <==> Worked(Made(), pass)) && Served(pass.before, pass.after, ingressBudget)
                && Conserved(pass.before, PassFlow(Made(), pass), pass.after)
      ensures !old(HasWork()) ==> !didWork && Now() == old(Now())
      ensures !HasWork() ==>
                && Quiet(pool) && spawns == [] && transfers == [] && deferred == [] && admin == []
                && deferredAdmin == []
    {
      if !HasWork() {
        pass := *;
        return false, map[], pass;
      }
      didWork, told, pass := AllPhases(host);
      PassServes(Made(), pass);
      PassConserves(Made(), pass);
    }
  }

  /** A single message for an actor that is mapped here but not installed is retained. */
  method DrainOne(w: Worker, e: Envelope)
    requires w.deferred == [] && w.transfers == [e] && w.ingressBudget == 0 && FateOf(w.Seen(), e.dest) == Waiting
    modifies w
    ensures w.deferred == [e] && w.Seen() == old(w.Seen())
  {
    ghost var view := w.Seen();
    ghost var q, t := w.deferred, w.transfers;
    FatedOneMore(view, [], e, Waiting);
    assert [] + [e] == [e] == t[..1];
    var _ := w.DrainTransfers();
  }

  /**
   The spinning state is reached by a fresh worker without a budget in one pass: an actor is mapped to
   it, a message for the actor arrives before its spawn request does, and the message is retained.
   */
  method SpinFromFresh() returns (w: Worker)
    ensures fresh(w) && w.ingressBudget == 0 && w.deferred == [Envelope(7, Resume)]
    ensures !AllCanSettle(w.Seen(), w.deferred)
  {
    w := new Worker.Create(0, 0, 0);
    w.addressMap, w.transfers := map[7 := 0], [Envelope(7, Resume)];
    DrainOne(w, Envelope(7, Resume));
    assert w.deferred[0] in w.deferred;
  }
}
