/** Commands of the administration, and what the loops over them come to. */
module Commands {
  import opened ActorSlots
  import opened Options
  import opened Queues
  import opened Routing

  datatype AdminCommand =
    | ListActors
    | ReadActor(actor: Address)
    | StopActor(actor: Address)
    | SuspendActor(actor: Address)
    | ResumeActor(actor: Address)

  function Target(c: AdminCommand): (a: Option<Address>) {
    match c
    case ListActors => None
    case ReadActor(a) => Some(a)
    case StopActor(a) => Some(a)
    case SuspendActor(a) => Some(a)
    case ResumeActor(a) => Some(a)
  }

  /** The command is for an actor that is mapped here but not installed yet. */
  predicate Waits(view: View, c: AdminCommand) {
    Target(c).Some? && FateOf(view, Target(c).value) == Waiting
  }

  predicate NoneWaits(view: View, cs: seq<AdminCommand>) {
    forall c :: c in cs ==> !Waits(view, c)
  }

  function StuckCommands(view: View, cs: seq<AdminCommand>): (stuck: set<AdminCommand>) {
    set c | c in cs && Waits(view, c)
  }

  /**
   Without a budget, the loop over the retained commands ends if and only if none of them is for an
   actor that is mapped to this worker but not installed.
   */
  lemma UnbudgetedAdminEndsIff(view: View, deferred: seq<AdminCommand>)
    ensures RunsEmpty(deferred, StuckCommands(view, deferred)) <==> NoneWaits(view, deferred)
  {
    RunsEmptyIff(deferred, StuckCommands(view, deferred));
  }

  /** One command to stop an actor that is mapped here but not installed keeps the loop going for ever. */
  lemma UnbudgetedAdminCanSpin(n: nat)
    ensures var view, queue := View({}, map[7 := 0], 0), [StopActor(7)];
            Rotated(queue, StuckCommands(view, queue), n) != []
  {
    var view, queue := View({}, map[7 := 0], 0), [StopActor(7)];
    StuckStays(queue, StuckCommands(view, queue), StopActor(7), n);
  }

  // ─── what commands do to a pool ────────────────────────────────────────────

  function ApplyTo(pool: Pool, c: AdminCommand): (pool': Pool)
    ensures pool'.Keys == pool.Keys
  {
    if Target(c).None? || Target(c).value !in pool then pool
    else
      match c
      case StopActor(a) => pool[a := Stopped(pool[a], None)]
      case SuspendActor(a) => pool[a := pool[a].(suspended := true)]
      case ResumeActor(a) => pool[a := pool[a].(suspended := false)]
      case _ => pool
  }

  function ApplyAll(pool: Pool, cs: seq<AdminCommand>): (pool': Pool)
    ensures pool'.Keys == pool.Keys
  {
    if cs == [] then pool else ApplyTo(ApplyAll(pool, cs[..|cs| - 1]), cs[|cs| - 1])
  }

  lemma ApplyOneMore(pool: Pool, cs: seq<AdminCommand>, c: AdminCommand)
    ensures ApplyAll(pool, cs + [c]) == ApplyTo(ApplyAll(pool, cs), c)
  {
    assert (cs + [c])[..|cs|] == cs;
  }

  /** Retained commands first, then the queue, as far as the budget reaches: applied in the order taken, or kept. */
  function Manage(view: View, q: seq<AdminCommand>, t: seq<AdminCommand>, budget: nat): (o: Yield<AdminCommand>) {
    var free := NoneWaits(view, q);
    var k := Reach(free, |q|, |t|, budget);
    WorkedOff(q, Turns(free, |q|, budget), t[..k], t[k..], StuckCommands(view, q + t))
  }

  /** No command is lost, made up, or applied twice. */
  lemma ManageAddsUp(view: View, q: seq<AdminCommand>, t: seq<AdminCommand>, budget: nat)
    ensures var o := Manage(view, q, t, budget);
            multiset(q) + multiset(t) == multiset(o.done) + multiset(o.kept) + multiset(o.rest)
  {
    var free := NoneWaits(view, q);
    var k := Reach(free, |q|, |t|, budget);
    assert t[..k] + t[k..] == t;
    WorkedOffAddsUp(q, Turns(free, |q|, budget), t[..k], t[k..], StuckCommands(view, q + t));
  }

  lemma FreeMeansNoneWaits(view: View, q: seq<AdminCommand>, t: seq<AdminCommand>)
    ensures Free(q, StuckCommands(view, q + t)) <==> NoneWaits(view, q)
    ensures forall c :: c in q || c in t ==> (c in StuckCommands(view, q + t) <==> Waits(view, c))
  {
  }

  lemma WaitingStays(view: View, q: seq<AdminCommand>, stuck: set<AdminCommand>, n: nat)
    requires !NoneWaits(view, q) && forall c :: c in q && Waits(view, c) ==> c in stuck
    ensures Rotated(q, stuck, n) != []
  {
    var c :| c in q && Waits(view, c);
    StuckStays(q, stuck, c, n);
  }
}
