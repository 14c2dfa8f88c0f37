/** What the world around a pass does in it: what each callback does, call by call, and what the extensions send. */
module Scripts {
  import opened ActorSlots
  import opened ActorTurns
  import opened Callbacks
  import opened Options
  import opened Passes
  import opened Routing

  /** What one callback does, whichever callback it turns out to be. */
  datatype Answer = Answer(start: StartOutcome, outcome: Outcome, effects: seq<Effect>)

  /** What each callback of a pass does, what the worker's extension fires, and what deaths make the runtime send. */
  datatype Host = Host(script: seq<Answer>, fired: seq<Envelope>, notices: seq<Envelope>)

  /** The `n`th callback; those beyond the script do nothing. */
  function Call(script: seq<Answer>, n: nat): (answer: Answer) {
    if n < |script| then script[n]
        else Answer(StartReturned(Asks(false, None, false)), Handled(Asks(false, None, false)), [])
  }

  /** The worker's side after a callback did this. */
  function Performed(id: nat, t: Touch, effects: seq<Effect>): (t': Touch) {
    Touch(MapAfter(t.addressMap, id, effects, |effects|),
          t.pendingLocal + StagedBy(t.addressMap, id, effects, |effects|),
          t.spawns + SpawnedBy(effects, |effects|))
  }

  /** The same after each of the callbacks from one to another. */
  function After(id: nat, origin: Touch, script: seq<Answer>, from: nat, end: nat): (t: Touch)
    requires from <= end
    decreases end
  {
    if from == end then origin
    else Performed(id, After(id, origin, script, from, end - 1), Call(script, end - 1).effects)
  }

  lemma {:induction false} AfterLeads(id: nat, origin: Touch, script: seq<Answer>, from: nat, end: nat)
    returns (effects: seq<Effect>)
    requires from <= end
    ensures Leads(id, effects, origin, After(id, origin, script, from, end))
    ensures from == end ==> effects == []
    decreases end
  {
    if from == end {
      effects := [];
    } else {
      var t, more := After(id, origin, script, from, end - 1), Call(script, end - 1).effects;
      var before := AfterLeads(id, origin, script, from, end - 1);
      LeadsOn(id, before, more, origin, t, Performed(id, t, more));
      effects := before + more;
    }
  }

  // ─── a turn ────────────────────────────────────────────────────────────────

  /** How many of these messages were handed to the handler. */
  function Handed(slot: Slot, outcomes: seq<Outcome>): (n: nat) {
    if outcomes == [] then 0
    else
      var front := outcomes[..|outcomes| - 1];
      var before := Processed(slot, front);
      Handed(slot, front) + if before.mailbox == [] || IsControl(before.mailbox[0]) then 0 else 1
  }

  /** The handler did with each message what its call says. */
  predicate Scripted(script: seq<Answer>, from: nat, slot: Slot, outcomes: seq<Outcome>) {
    outcomes == [] ||
    (var front := outcomes[..|outcomes| - 1];
     Scripted(script, from, slot, front) &&
         outcomes[|outcomes| - 1] == Call(script, from + Handed(slot, front)).outcome)
  }

  lemma {:induction false} HandedOneMore(slot: Slot, outcomes: seq<Outcome>, outcome: Outcome)
    ensures var before := Processed(slot, outcomes);
            Handed(slot, outcomes + [outcome]) ==
              Handed(slot, outcomes) + if before.mailbox == [] || IsControl(before.mailbox[0]) then 0 else 1
  {
    assert (outcomes + [outcome])[..|outcomes|] == outcomes;
  }

  lemma {:induction false} ScriptedOneMore(script: seq<Answer>, from: nat, slot: Slot, outcomes: seq<Outcome>,
      outcome: Outcome)
    requires Scripted(script, from, slot, outcomes) && outcome == Call(script, from + Handed(slot, outcomes)).outcome
    ensures Scripted(script, from, slot, outcomes + [outcome])
  {
    assert (outcomes + [outcome])[..|outcomes|] == outcomes;
  }

  /** How many callbacks a turn makes: the first turn of an actor begins with its start. */
  function CallbacksIn(slot: Slot, start: StartOutcome, outcomes: seq<Outcome>): (n: nat) {
    if Skipped(slot) then 0
    else if slot.started then Handed(slot, outcomes)
    else 1 + Handed(AfterStart(slot, start), outcomes)
  }

  /** The turn is the one its callbacks make it, from the given call on. */
  predicate InTurn(script: seq<Answer>, from: nat, slot: Slot, start: StartOutcome, outcomes: seq<Outcome>) {
    if Skipped(slot) then outcomes == []
    else if slot.started then Scripted(script, from, slot, outcomes)
    else start == Call(script, from).start && Scripted(script, from + 1, AfterStart(slot, start), outcomes)
  }

  // ─── all turns ─────────────────────────────────────────────────────────────

  /** The turn's calls are these, among those made up to `end`. */
  predicate TurnAt(script: seq<Answer>, from: nat, end: nat, slot: Slot, start: StartOutcome, outcomes: seq<Outcome>,
      at: nat)
  {
    from <= at && at + CallbacksIn(slot, start, outcomes) <= end && InTurn(script, at, slot, start, outcomes)
  }

  /** Every turn so far has calls of its own, and does what they say. */
  ghost predicate TurnsPlayed(script: seq<Answer>, from: nat, end: nat, pool: Pool, starts: map<Address, StartOutcome>,
      outcomes: map<Address, seq<Outcome>>, turns: map<Address, nat>)
  {
    && starts.Keys == outcomes.Keys == turns.Keys <= pool.Keys
    && (forall a :: a in turns ==> TurnAt(script, from, end, pool[a], starts[a], outcomes[a], turns[a]))
    && (forall a, b :: a in turns && b in turns && a != b ==>
          || turns[a] + CallbacksIn(pool[a], starts[a], outcomes[a]) <= turns[b]
          || turns[b] + CallbacksIn(pool[b], starts[b], outcomes[b]) <= turns[a])
  }

  lemma OneMoreTurn(script: seq<Answer>, from: nat, mid: nat, end: nat, pool: Pool, starts: map<Address, StartOutcome>,
      outcomes: map<Address, seq<Outcome>>, turns: map<Address, nat>, a: Address, start: StartOutcome,
      handled: seq<Outcome>)
    requires TurnsPlayed(script, from, mid, pool, starts, outcomes, turns) && a in pool && a !in turns && from <= mid
    requires end == mid + CallbacksIn(pool[a], start, handled) && InTurn(script, mid, pool[a], start, handled)
    ensures TurnsPlayed(script, from, end, pool, starts[a := start], outcomes[a := handled], turns[a := mid])
  {
    var starts', outcomes', turns' := starts[a := start], outcomes[a := handled], turns[a := mid];
    forall b | b in turns' ensures TurnAt(script, from, end, pool[b], starts'[b], outcomes'[b], turns'[b]) {
      if b != a { assert TurnAt(script, from, mid, pool[b], starts[b], outcomes[b], turns[b]); }
    }
    forall b | b in turns ensures turns'[b] + CallbacksIn(pool[b], starts'[b], outcomes'[b]) <= mid {
      assert TurnAt(script, from, mid, pool[b], starts[b], outcomes[b], turns[b]);
    }
  }

  // ─── a pass ────────────────────────────────────────────────────────────────

  /** What the runtime is told of these deaths. */
  function Obituaries(pool: Pool): (dead: map<Address, Obituary>) {
    map a | a in DeadIn(pool) :: ObituaryOf(pool[a])
  }

  /** The actors that are asked a last time before they go. */
  function LastCalls(pool: Pool): (some: set<Address>) {
    set a | a in pool && OnStopEligible(pool[a])
  }

  function LastAmong(pool: Pool, gone: set<Address>): (n: nat) {
    |gone * LastCalls(pool)|
  }

  lemma OneMoreLast(pool: Pool, gone: set<Address>, a: Address)
    requires a in pool && a !in gone
    ensures LastAmong(pool, gone + {a}) == LastAmong(pool, gone) + if OnStopEligible(pool[a]) then 1 else 0
  {
    var last := LastCalls(pool);
    assert (gone + {a}) * last == gone * last + if a in last then {a} else {};
  }

  lemma AllLastCalls(pool: Pool, gone: set<Address>)
    requires gone == DeadIn(pool)
    ensures LastAmong(pool, gone) == |LastCalls(pool)|
  {
    assert gone * LastCalls(pool) == LastCalls(pool);
  }

  // Without a death there is no last call.
  lemma NoLastCalls(pool: Pool)
    ensures DeadIn(pool) == {} ==> |LastCalls(pool)| == 0
  {
    if DeadIn(pool) == {} { assert LastCalls(pool) == {}; }
  }

  /** The worker's side after the last callbacks of the dead, from the `n`th call on. */
  function LastTouch(script: seq<Answer>, n: nat, id: nat, s: State): (t: Touch) {
    After(id, s.Touched(), script, n, n + |LastCalls(s.pool)|)
  }

  /**
   The pass is the one its surroundings make it: its turns make the first `mid` calls and its last callbacks the
   next, each does what its call says, and the extensions' messages are the ones they sent.
   */
  ghost predicate PlayedWith(setup: Setup, host: Host, p: Pass, mid: nat) {
    && p.inlet.messages == host.fired
    && p.ticks.ticked.Touched() == After(setup.id, p.inlet.managed.Touched(), host.script, 0, mid)
    && Leads(setup.id, p.outlet.last, p.outlet.settled.Touched(),
             LastTouch(host.script, mid, setup.id, p.outlet.settled))
    && p.outlet.notices == if DeadIn(p.outlet.settled.pool) == {} then [] else host.notices
  }

  ghost predicate Played(setup: Setup, host: Host, p: Pass) {
    exists mid: nat :: PlayedWith(setup, host, p, mid)
  }

  lemma PlayedBy(setup: Setup, host: Host, p: Pass, mid: nat)
    requires PlayedWith(setup, host, p, mid)
    ensures Played(setup, host, p)
  {
  }
}
