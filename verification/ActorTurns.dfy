/** One actor's turn in the pool, as a function of what its callbacks did. */
module ActorTurns {
  import opened ActorSlots

  /** A slot after a stretch of its message loop, one outcome per message. */
  function Processed(slot: Slot, outcomes: seq<Outcome>): (slot': Slot) {
    if outcomes == [] then slot
    else
      var before := Processed(slot, outcomes[..|outcomes| - 1]);
      if before.mailbox == [] then before else AfterMessage(before, outcomes[|outcomes| - 1])
  }

  /** How many of these messages reached the handler without a panic. */
  function Calls(slot: Slot, outcomes: seq<Outcome>): (n: nat) {
    if outcomes == [] then 0
    else
      var front, last := outcomes[..|outcomes| - 1], outcomes[|outcomes| - 1];
      var before := Processed(slot, front);
      var skipped := before.mailbox == [] || IsControl(before.mailbox[0]) || last.HandlerPanicked?;
      Calls(slot, front) + if skipped then 0 else 1
  }

  /** The loop had reason to go on before each of these outcomes. */
  predicate Looped(slot: Slot, outcomes: seq<Outcome>, budget: nat) {
    outcomes == [] ||
    (var front := outcomes[..|outcomes| - 1];
     var before := Processed(slot, front);
     && Looped(slot, front, budget)
     && before.mailbox != [] && !Skipped(before) && (budget > 0 ==> Calls(slot, front) < budget))
  }

  lemma LoopOneMore(slot: Slot, outcomes: seq<Outcome>, outcome: Outcome, budget: nat)
    requires var before := Processed(slot, outcomes);
             && Looped(slot, outcomes, budget)
             && before.mailbox != [] && !Skipped(before) && (budget > 0 ==> Calls(slot, outcomes) < budget)
    ensures var before := Processed(slot, outcomes);
            && Looped(slot, outcomes + [outcome], budget)
            && Processed(slot, outcomes + [outcome]) == AfterMessage(before, outcome)
            && Calls(slot, outcomes + [outcome]) ==
                 Calls(slot, outcomes) + (if IsControl(before.mailbox[0]) || outcome.HandlerPanicked? then 0 else 1)
            && AfterMessage(before, outcome).started == before.started
            && |AfterMessage(before, outcome).mailbox| < |before.mailbox|
            && (!outcome.HandlerPanicked? ==> !AfterMessage(before, outcome).poisoned)
            && (outcome.HandlerPanicked? || IsControl(before.mailbox[0]) ==>
                   AfterMessage(before, outcome).mailbox == [])
  {
    assert (outcomes + [outcome])[..|outcomes|] == outcomes;
  }

  predicate IsTurn(slot: Slot, start: StartOutcome, outcomes: seq<Outcome>, budget: nat, slot': Slot) {
    if Skipped(slot) then outcomes == [] && slot' == (if Dead(slot) then slot.(mailbox := []) else slot)
    else
      var ready := if slot.started then slot else AfterStart(slot, start);
      && Looped(ready, outcomes, budget) && slot' == Processed(ready, outcomes)
      && (Skipped(ready) ==> outcomes == [])
      && (slot'.mailbox == [] || Skipped(slot') || (budget > 0 && Calls(ready, outcomes) == budget))
  }

  // ─── a turn is a stretch of a life ─────────────────────────────────────────

  lemma {:induction false} RunOneMore(l: Life, steps: seq<Step>, step: Step, budget: nat)
    requires Runs(l, steps, budget) && ActorSlots.Enabled(Run(l, steps, budget), step)
    ensures Runs(l, steps + [step], budget)
    ensures Run(l, steps + [step], budget) == ActorSlots.Next(Run(l, steps, budget), step, budget)
    decreases |steps|
  {
    if steps == [] {
      assert [] + [step] == [step] && [step][1..] == [];
    } else {
      RunOneMore(ActorSlots.Next(l, steps[0], budget), steps[1..], step, budget);
      assert (steps + [step])[1..] == steps[1..] + [step];
    }
  }

  /** The life after a stretch of the loop, as the loop itself sees it. */
  predicate InLoop(l: Life, slot: Slot, calls: nat, budget: nat) {
    && l.slot == slot && l.present && (!slot.poisoned ==> l.calls == calls)
    && (l.ticking <==> !Skipped(slot) && (budget == 0 || l.calls < budget))
  }

  lemma {:induction false} LoopIsRun(l: Life, outcomes: seq<Outcome>, budget: nat) returns (steps: seq<Step>)
    requires InLoop(l, l.slot, 0, budget) && Looped(l.slot, outcomes, budget)
    ensures Runs(l, steps, budget)
    ensures InLoop(Run(l, steps, budget), Processed(l.slot, outcomes), Calls(l.slot, outcomes), budget)
    decreases |outcomes|
  {
    steps := [];
    if outcomes != [] {
      var front, last := outcomes[..|outcomes| - 1], outcomes[|outcomes| - 1];
      steps := LoopIsRun(l, front, budget);
      RunOneMore(l, steps, NextMessage(last), budget);
      steps := steps + [NextMessage(last)];
    }
  }

  /** Whatever the callbacks do, an actor's turn in the pool is a run of its life: the laws of a life hold for it. */
  lemma TurnIsRun(l: Life, start: StartOutcome, outcomes: seq<Outcome>, budget: nat, slot: Slot)
    returns (steps: seq<Step>)
    requires l.present && !l.ticking && IsTurn(l.slot, start, outcomes, budget, slot)
    ensures Runs(l, steps, budget)
    ensures var l' := Run(l, steps, budget); l'.slot == slot && l'.present && !l'.ticking
  {
    var begun := ActorSlots.Next(l, BeginTick(start), budget);
    steps := [BeginTick(start)];
    if Skipped(begun.slot) {
      assert steps[1..] == [];
    } else {
      var more := LoopIsRun(begun, outcomes, budget);
      if Run(begun, more, budget).ticking {
        RunOneMore(begun, more, EndTick, budget);
        more := more + [EndTick];
      }
      steps := [BeginTick(start)] + more;
      assert steps[1..] == more;
    }
  }
}
