/** The census of all workers' actors: one shared accumulator, sampled by each worker under its lock. */
module Census {
  import opened Options

  /** What one worker contributes: itself, and the actors it has at that moment. */
  datatype Sample = Sample(worker: nat, actors: seq<nat>)

  datatype Collecting = Collecting(remaining: int, samples: seq<Sample>)

  /**
   `queued`: the workers whose command is still in their queue; `cancelledEarly`: a cancel came before
   the census was complete.
   */
  datatype State = State(
    workers: nat,
    collecting: Option<Collecting>,
    queued: set<nat>,
    replies: seq<seq<Sample>>,
    cancelledEarly: bool)

  datatype Step = Work(sample: Sample) | Cancel

  function Workers(n: nat): (ids: set<nat>) {
    if n == 0 then {} else Workers(n - 1) + {n - 1}
  }

  function Start(workers: nat): (s: State) {
    State(workers, Some(Collecting(workers, [])), Workers(workers), [], false)
  }

  /** One command was sent to each worker, and each worker takes it once. */
  predicate Enabled(s: State, step: Step) {
    step.Work? ==> step.sample.worker in s.queued
  }

  /** The accumulator after one sample, and the reply if that was the last one. */
  function Sampled(c: Option<Collecting>, sample: Sample): (r: (Option<Collecting>, Option<seq<Sample>>)) {
    if c.None? then (None, None)
    else
      var samples := c.value.samples + [sample];
      if c.value.remaining == 1 then (None, Some(samples)) else (Some(Collecting(c.value.remaining - 1, samples)), None)
  }

  function Next(s: State, step: Step): (s': State)
    requires Enabled(s, step)
  {
    match step
    case Work(sample) =>
      var (collecting, reply) := Sampled(s.collecting, sample);
      s.(queued := s.queued - {sample.worker},
         collecting := collecting,
         replies := if reply.Some? then s.replies + [reply.value] else s.replies)
    case Cancel => s.(collecting := None, cancelledEarly := s.cancelledEarly || s.collecting.Some?)
  }

  // ─── invariants ────────────────────────────────────────────────────────────

  function WorkersOf(samples: seq<Sample>): (ids: seq<nat>)
    ensures |ids| == |samples|
  {
    seq(|samples|, i requires 0 <= i < |samples| => samples[i].worker)
  }

  /** The samples come from exactly these workers, one from each. */
  predicate OneFromEach(samples: seq<Sample>, from: set<nat>) {
    multiset(WorkersOf(samples)) == multiset(from)
  }

  /** `remaining` is the number of workers that have not sampled, so it never underflows. */
  predicate Inv(s: State) {
    && s.queued <= Workers(s.workers)
    && (s.collecting.Some? ==>
          && s.collecting.value.remaining == |s.queued| && (s.workers > 0 ==> s.queued != {})
          && OneFromEach(s.collecting.value.samples, Workers(s.workers) - s.queued)
          && s.replies == [] && !s.cancelledEarly)
    && |s.replies| <= 1
    && (s.replies != [] ==> OneFromEach(s.replies[0], Workers(s.workers)) && !s.cancelledEarly)
    && (s.collecting.None? && !s.cancelledEarly ==> |s.replies| == 1)
  }

  lemma {:induction false} WorkersMeans(n: nat)
    ensures |Workers(n)| == n && forall i: nat :: i in Workers(n) <==> i < n
    decreases n
  {
    if n > 0 { WorkersMeans(n - 1); }
  }

  lemma StartInv(workers: nat)
    ensures Inv(Start(workers))
  {
    WorkersMeans(workers);
    assert Workers(workers) - Workers(workers) == {};
    assert WorkersOf([]) == [];
  }

  lemma OneMoreSample(samples: seq<Sample>, sample: Sample, from: set<nat>)
    requires OneFromEach(samples, from) && sample.worker !in from
    ensures OneFromEach(samples + [sample], from + {sample.worker})
  {
    assert WorkersOf(samples + [sample]) == WorkersOf(samples) + [sample.worker];
    assert multiset(from + {sample.worker}) == multiset(from) + multiset{sample.worker};
  }

  lemma WorkKeepsInv(s: State, sample: Sample)
    requires Inv(s) && Enabled(s, Work(sample))
    ensures Inv(Next(s, Work(sample)))
  {
    var w := sample.worker;
    assert |s.queued - {w}| == |s.queued| - 1;
    if s.collecting.Some? {
      OneMoreSample(s.collecting.value.samples, sample, Workers(s.workers) - s.queued);
      assert Workers(s.workers) - s.queued + {w} == Workers(s.workers) - (s.queued - {w});
      if s.collecting.value.remaining == 1 {
        assert s.queued - {w} == {};
        assert Workers(s.workers) - {} == Workers(s.workers);
      }
    }
  }

  lemma NextKeepsInv(s: State, step: Step)
    requires Inv(s) && Enabled(s, step)
    ensures Inv(Next(s, step))
  {
    if step.Work? { WorkKeepsInv(s, step.sample); }
  }

  predicate Runs(s: State, steps: seq<Step>)
    decreases |steps|
  {
    steps == [] || (Enabled(s, steps[0]) && Runs(Next(s, steps[0]), steps[1..]))
  }

  function Run(s: State, steps: seq<Step>): (s': State)
    requires Runs(s, steps)
    decreases |steps|
  {
    if steps == [] then s else Run(Next(s, steps[0]), steps[1..])
  }

  lemma {:induction false} RunKeepsInv(s: State, steps: seq<Step>)
    requires Inv(s) && Runs(s, steps)
    ensures Inv(Run(s, steps)) && Run(s, steps).workers == s.workers
    decreases |steps|
  {
    if steps != [] {
      NextKeepsInv(s, steps[0]);
      RunKeepsInv(Next(s, steps[0]), steps[1..]);
    }
  }

  /**
   For any number of workers and any interleaving with cancels: the reply is built at most once, and
   then holds one sample from every worker; it is built if and only if all have sampled and no cancel
   came before that; until then the count of outstanding samples is exact, so it never underflows.
   */
  lemma CensusRepliesOnce(workers: nat, steps: seq<Step>)
    requires Runs(Start(workers), steps)
    ensures var s := Run(Start(workers), steps);
            && |s.replies| <= 1
            && (s.replies != [] ==> OneFromEach(s.replies[0], Workers(workers)))
            && (s.replies != [] <==> s.collecting.None? && !s.cancelledEarly)
            && (s.collecting.Some? ==> s.collecting.value.remaining == |s.queued|)
            && (workers > 0 && s.queued == {} && !s.cancelledEarly ==> s.replies != [])
  {
    StartInv(workers);
    RunKeepsInv(Start(workers), steps);
  }

  function TakenBy(step: Step): (samples: seq<Sample>) {
    if step.Work? then [step.sample] else []
  }

  /** The samples the workers took along a run, each as it was taken, in the order they were taken. */
  function Taken(steps: seq<Step>): (samples: seq<Sample>) {
    if steps == [] then [] else TakenBy(steps[0]) + Taken(steps[1..])
  }

  /** What has been collected, or replied, is what has been taken. */
  predicate Holds(s: State, taken: seq<Sample>) {
    && (s.collecting.Some? ==>
          s.replies == [] && s.collecting.value.samples == taken && s.collecting.value.remaining == |s.queued|)
    && (s.replies != [] ==> s.replies == [taken] && s.queued == {})
  }

  lemma NextHolds(s: State, step: Step, taken: seq<Sample>)
    requires Enabled(s, step) && Holds(s, taken)
    ensures Holds(Next(s, step), taken + TakenBy(step))
  {
    if step.Work? {
      assert |s.queued - {step.sample.worker}| == |s.queued| - 1;
    } else {
      assert taken + TakenBy(step) == taken;
    }
  }

  lemma {:induction false} RunHolds(s: State, steps: seq<Step>, taken: seq<Sample>)
    requires Runs(s, steps) && Holds(s, taken)
    ensures Holds(Run(s, steps), taken + Taken(steps))
    decreases |steps|
  {
    if steps == [] {
      assert taken + Taken(steps) == taken;
    } else {
      var s', taken' := Next(s, steps[0]), taken + TakenBy(steps[0]);
      NextHolds(s, steps[0], taken);
      RunHolds(s', steps[1..], taken');
      assert taken' + Taken(steps[1..]) == taken + Taken(steps);
    }
  }

  /** The reply holds every sample the workers took, as it was taken and in the order they took them, and no other. */
  lemma ReplyHoldsWhatWasTaken(workers: nat, steps: seq<Step>)
    requires Runs(Start(workers), steps)
    ensures var s := Run(Start(workers), steps);
            && (s.replies != [] ==> s.replies == [Taken(steps)])
            && (s.collecting.Some? ==> s.collecting.value.samples == Taken(steps))
  {
    StartInv(workers);
    RunHolds(Start(workers), steps, []);
    assert [] + Taken(steps) == Taken(steps);
  }

  /** Once cancelled before it was complete, a census never replies, whatever the workers still do. */
  lemma {:induction false} CancelledNeverReplies(s: State, steps: seq<Step>)
    requires Inv(s) && Runs(s, steps) && s.cancelledEarly
    ensures Run(s, steps).replies == []
    decreases |steps|
  {
    if steps != [] {
      NextKeepsInv(s, steps[0]);
      CancelledNeverReplies(Next(s, steps[0]), steps[1..]);
    }
  }

  // ─── the shared accumulator ────────────────────────────────────────────────

  class Accumulator {
    var state: Option<Collecting>

    constructor Create(workers: nat)
      ensures state == Start(workers).collecting
    {
      state := Some(Collecting(workers, []));
    }

    /** While it collects, it still expects someone. */
    predicate Expecting()
      reads this
    {
      state.Some? ==> state.value.remaining > 0
    }

    /**
     Takes one worker's sample, under the lock. The reply comes exactly with the last sample expected, and
     holds all the samples taken; nothing is expected after it, and the count never falls below one before.
     */
    method Apply(sample: Sample) returns (reply: Option<seq<Sample>>)
      modifies this
      ensures (state, reply) == Sampled(old(state), sample)
      ensures reply.Some? <==> old(state).Some? && old(state).value.remaining == 1
      ensures reply.Some? ==> state.None? && reply.value == old(state).value.samples + [sample]
      ensures old(state).None? ==> state.None?
      ensures old(Expecting()) ==> Expecting()
    {
      if state.None? { return None; }
      var pending := state.value;
      pending := pending.(samples := pending.samples + [sample]);
      pending := pending.(remaining := pending.remaining - 1);
      if pending.remaining == 0 {
        state := None;
        return Some(pending.samples);
      }
      state := Some(pending);
      return None;
    }

    method Cancel()
      modifies this
      ensures state.None?
    {
      state := None;
    }
  }
}
