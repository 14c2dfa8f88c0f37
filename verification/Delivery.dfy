/** Message delivery across any number of workers: where every accepted message is, in every interleaving. */
module Delivery {
  type Address = nat

  datatype Msg = Msg(id: nat, dest: Address)

  /**
   Where a message can be: held by a sender on its way to a worker's transfer queue, in that queue,
   in a worker's buffer of local sends, in its retained transfers, in an actor's mailbox, or gone.
   */
  datatype Place =
    | Flight(worker: nat)
    | Transfer(worker: nat)
    | Pending(worker: nat)
    | Deferred(worker: nat)
    | Mailbox(actor: Address)
    | Consumed
    | Discarded
    | Dropped

  /** An actor's way through the runtime; its address stays mapped until it is removed. */
  datatype Stage = Mapped | Requested | Installed | Dying | Removed

  datatype State = State(
    addressMap: map<Address, nat>,
    home: map<Address, nat>,
    stage: map<Address, Stage>,
    queues: map<Place, seq<Msg>>,
    place: map<Msg, Place>,
    nextId: nat)

  datatype Step =
    | Map(actor: Address, worker: nat)
    | RequestSpawn(actor: Address)
    | Install(actor: Address)
    | SendTo(actor: Address)
    | SendFrom(worker: nat, actor: Address)
    | Push(worker: nat, index: nat)
    | Take(source: Place)
    | Consume(actor: Address)
    | Kill(actor: Address)
    | Clear(actor: Address)
    | Remove(actor: Address)

  function Init(): (s: State) {
    State(map[], map[], map[], map[], map[], 0)
  }

  function At(s: State, p: Place): (ms: seq<Msg>) {
    if p in s.queues then s.queues[p] else []
  }

  predicate InPool(s: State, a: Address) {
    a in s.stage && (s.stage[a].Installed? || s.stage[a].Dying?)
  }

  predicate IsQueue(p: Place) {
    p.Transfer? || p.Pending? || p.Deferred?
  }

  // ─── moves ─────────────────────────────────────────────────────────────────

  function Accept(s: State, a: Address, p: Place): (s': State) {
    var m := Msg(s.nextId, a);
    s.(queues := s.queues[p := At(s, p) + [m]], place := s.place[m := p], nextId := s.nextId + 1)
  }

  function Without(ms: seq<Msg>, i: nat): (rest: seq<Msg>)
    requires i < |ms|
  {
    ms[..i] + ms[i + 1..]
  }

  function Move(s: State, from: Place, i: nat, to: Place): (s': State)
    requires i < |At(s, from)|
  {
    var m := At(s, from)[i];
    var taken := s.(queues := s.queues[from := Without(At(s, from), i)]);
    taken.(queues := taken.queues[to := At(taken, to) + [m]], place := s.place[m := to])
  }

  function MoveAll(s: State, from: Place, to: Place): (s': State) {
    s.(queues := s.queues[to := At(s, to) + At(s, from)][from := []],
       place := map m | m in s.place :: if s.place[m] == from then to else s.place[m])
  }

  /** Where worker `w` puts a message it has just taken from one of its queues. */
  function Settling(s: State, w: nat, m: Msg): (p: Place) {
    if InPool(s, m.dest) && m.dest in s.home && s.home[m.dest] == w then Mailbox(m.dest)
    else if m.dest in s.addressMap && s.addressMap[m.dest] == w then Deferred(w)
    else Dropped
  }

  /** An address is drawn afresh for every actor. */
  predicate Enabled(s: State, step: Step) {
    match step
    case Map(a, _) => a !in s.stage
    case RequestSpawn(a) => a in s.stage && s.stage[a].Mapped?
    case Install(a) => a in s.stage && s.stage[a].Requested?
    case SendTo(_) => true
    case SendFrom(_, _) => true
    case Push(w, i) => i < |At(s, Flight(w))|
    case Take(source) => IsQueue(source) && At(s, source) != []
    case Consume(a) => a in s.stage && s.stage[a].Installed? && At(s, Mailbox(a)) != []
    case Kill(a) => a in s.stage && s.stage[a].Installed?
    case Clear(a) => a in s.stage && s.stage[a].Dying?
    case Remove(a) => a in s.stage && s.stage[a].Dying?
  }

  function Next(s: State, step: Step): (s': State)
    requires Enabled(s, step)
  {
    match step
    case Map(a, w) => s.(addressMap := s.addressMap[a := w], home := s.home[a := w], stage := s.stage[a := Mapped])
    case RequestSpawn(a) => s.(stage := s.stage[a := Requested])
    case Install(a) => s.(stage := s.stage[a := Installed])
    case SendTo(a) => if a in s.addressMap then Accept(s, a, Flight(s.addressMap[a])) else s
    case SendFrom(w, a) =>
      if a !in s.addressMap then s
      else if s.addressMap[a] == w then Accept(s, a, Pending(w))
      else Accept(s, a, Flight(s.addressMap[a]))
    case Push(w, i) => Move(s, Flight(w), i, Transfer(w))
    case Take(source) => Move(s, source, 0, Settling(s, source.worker, At(s, source)[0]))
    case Consume(a) => Move(s, Mailbox(a), 0, Consumed)
    case Kill(a) => MoveAll(s, Mailbox(a), Discarded).(stage := s.stage[a := Dying])
    case Clear(a) => MoveAll(s, Mailbox(a), Discarded)
    case Remove(a) =>
      MoveAll(s, Mailbox(a), Discarded).(stage := s.stage[a := Removed], addressMap := s.addressMap - {a})
  }

  predicate Runs(s: State, steps: seq<Step>)
    decreases |steps|
  {
    steps == [] || (Enabled(s, steps[0]) && Runs(Next(s, steps[0]), steps[1..]))
  }

  function Run(s: State, steps: seq<Step>): (s': State)
    requires Runs(s, steps)
    decreases |steps|
  {
    if steps == [] then s else Run(Next(s, steps[0]), steps[1..])
  }

  // ─── invariants ────────────────────────────────────────────────────────────

  predicate TrackedAt(s: State, p: Place, m: Msg) {
    multiset(At(s, p))[m] == if m in s.place && s.place[m] == p then 1 else 0
  }

  /** Every accepted message is in one place, once, and nothing else is anywhere. */
  ghost predicate Tracked(s: State) {
    forall p, m :: TrackedAt(s, p, m)
  }

  /** The address map agrees with each actor's stage, and never changes its mind about its worker. */
  ghost predicate MapOk(s: State) {
    && s.home.Keys == s.stage.Keys
    && (forall a :: a in s.addressMap <==> a in s.stage && !s.stage[a].Removed?)
    && (forall a :: a in s.addressMap ==> s.addressMap[a] == s.home[a])
  }

  /** A message is on its way through its own actor's worker, and goes missing only with its actor. */
  predicate PlaceOk(s: State, m: Msg, p: Place)
    requires s.home.Keys == s.stage.Keys
  {
    && m.dest in s.stage && m.id < s.nextId
    && match p
       case Flight(w) => s.home[m.dest] == w
       case Transfer(w) => s.home[m.dest] == w
       case Pending(w) => s.home[m.dest] == w
       case Deferred(w) => s.home[m.dest] == w
       case Mailbox(a) => a == m.dest && InPool(s, a)
       case Consumed => true
       case Discarded => s.stage[m.dest].Dying? || s.stage[m.dest].Removed?
       case Dropped => s.stage[m.dest].Removed?
  }

  ghost predicate Placed(s: State)
    requires s.home.Keys == s.stage.Keys
  {
    forall m :: m in s.place ==> PlaceOk(s, m, s.place[m])
  }

  ghost predicate Inv(s: State) {
    MapOk(s) && Tracked(s) && Placed(s)
  }

  lemma TakenOut(ms: seq<Msg>, i: nat)
    requires i < |ms|
    ensures multiset(Without(ms, i)) == multiset(ms) - multiset{ms[i]}
  {
    assert ms == ms[..i] + [ms[i]] + ms[i + 1..];
  }

  lemma FoundWhereItIs(s: State, p: Place, i: nat)
    requires Tracked(s) && i < |At(s, p)|
    ensures At(s, p)[i] in s.place && s.place[At(s, p)[i]] == p
  {
    var m := At(s, p)[i];
    assert m in multiset(At(s, p));
    assert TrackedAt(s, p, m);
  }

  lemma AcceptTracks(s: State, a: Address, to: Place)
    requires Tracked(s) && Msg(s.nextId, a) !in s.place
    ensures Tracked(Accept(s, a, to))
  {
    var s', added := Accept(s, a, to), Msg(s.nextId, a);
    forall p, m ensures TrackedAt(s', p, m) {
      assert TrackedAt(s, p, m) && TrackedAt(s, to, m);
      assert multiset(At(s, to) + [added]) == multiset(At(s, to)) + multiset{added};
    }
  }

  lemma MovedQueue(s: State, from: Place, i: nat, to: Place, p: Place)
    requires i < |At(s, from)| && from != to
    ensures At(Move(s, from, i, to), p) ==
              if p == from then Without(At(s, from), i) else if p == to then At(s, to) + [At(s, from)[i]] else At(s, p)
  {
  }

  lemma CountAfter(ms: seq<Msg>, x: Msg, m: Msg)
    ensures multiset(ms + [x])[m] == multiset(ms)[m] + if m == x then 1 else 0
  {
    assert multiset(ms + [x]) == multiset(ms) + multiset{x};
  }

  lemma CountWithout(ms: seq<Msg>, i: nat, m: Msg)
    requires i < |ms|
    ensures multiset(Without(ms, i))[m] == multiset(ms)[m] - if m == ms[i] then 1 else 0
  {
    TakenOut(ms, i);
    assert ms[i] in multiset(ms);
  }

  lemma MoveTracksAt(s: State, from: Place, i: nat, to: Place, p: Place, m: Msg)
    requires i < |At(s, from)| && from != to && TrackedAt(s, p, m)
    requires At(s, from)[i] in s.place && s.place[At(s, from)[i]] == from
    ensures TrackedAt(Move(s, from, i, to), p, m)
  {
    MovedQueue(s, from, i, to, p);
    CountWithout(At(s, from), i, m);
    CountAfter(At(s, to), At(s, from)[i], m);
  }

  lemma MoveTracks(s: State, from: Place, i: nat, to: Place)
    requires Tracked(s) && i < |At(s, from)| && from != to
    ensures Tracked(Move(s, from, i, to))
  {
    FoundWhereItIs(s, from, i);
    forall p, m ensures TrackedAt(Move(s, from, i, to), p, m) {
      assert TrackedAt(s, p, m);
      MoveTracksAt(s, from, i, to, p, m);
    }
  }

  // A retained message that is retained again goes to the back of the same queue.
  lemma RotateTracks(s: State, from: Place)
    requires Tracked(s) && At(s, from) != []
    ensures Tracked(Move(s, from, 0, from))
  {
    var s', moved := Move(s, from, 0, from), At(s, from)[0];
    FoundWhereItIs(s, from, 0);
    TakenOut(At(s, from), 0);
    forall p, m ensures TrackedAt(s', p, m) {
      assert TrackedAt(s, p, m);
      assert multiset(Without(At(s, from), 0) + [moved]) == multiset(At(s, from));
    }
  }

  lemma MoveAllTracks(s: State, from: Place, to: Place)
    requires Tracked(s) && from != to
    ensures Tracked(MoveAll(s, from, to))
  {
    var s' := MoveAll(s, from, to);
    forall p, m ensures TrackedAt(s', p, m) {
      assert TrackedAt(s, p, m) && TrackedAt(s, to, m) && TrackedAt(s, from, m);
      assert multiset(At(s, to) + At(s, from)) == multiset(At(s, to)) + multiset(At(s, from));
    }
  }

  lemma TakeKeepsInv(s: State, source: Place)
    requires Inv(s) && Enabled(s, Take(source))
    ensures Inv(Next(s, Take(source)))
  {
    var m := At(s, source)[0];
    FoundWhereItIs(s, source, 0);
    assert PlaceOk(s, m, source);
    var to := Settling(s, source.worker, m);
    if to == source { RotateTracks(s, source); } else { MoveTracks(s, source, 0, to); }
  }

  lemma AcceptKeepsInv(s: State, a: Address, to: Place)
    requires Inv(s) && a in s.addressMap && (to == Flight(s.addressMap[a]) || to == Pending(s.addressMap[a]))
    ensures Inv(Accept(s, a, to))
  {
    forall m | m in s.place ensures m.id < s.nextId { assert PlaceOk(s, m, s.place[m]); }
    AcceptTracks(s, a, to);
  }

  lemma PushKeepsInv(s: State, w: nat, i: nat)
    requires Inv(s) && Enabled(s, Push(w, i))
    ensures Inv(Next(s, Push(w, i)))
  {
    FoundWhereItIs(s, Flight(w), i);
    assert PlaceOk(s, At(s, Flight(w))[i], Flight(w));
    MoveTracks(s, Flight(w), i, Transfer(w));
  }

  lemma ConsumeKeepsInv(s: State, a: Address)
    requires Inv(s) && Enabled(s, Consume(a))
    ensures Inv(Next(s, Consume(a)))
  {
    FoundWhereItIs(s, Mailbox(a), 0);
    assert PlaceOk(s, At(s, Mailbox(a))[0], Mailbox(a));
    MoveTracks(s, Mailbox(a), 0, Consumed);
  }

  // Only the messages in the emptied mailbox change place.
  lemma DiscardKeepsInv(s: State, s': State, a: Address)
    requires Inv(s) && InPool(s, a) && a in s'.stage && (s'.stage[a].Dying? || s'.stage[a].Removed?)
    requires s' == MoveAll(s, Mailbox(a), Discarded).(stage := s.stage[a := s'.stage[a]], addressMap := s'.addressMap)
    requires s'.addressMap == if s'.stage[a].Removed? then s.addressMap - {a} else s.addressMap
    ensures Inv(s')
  {
    MoveAllTracks(s, Mailbox(a), Discarded);
    forall p, m ensures TrackedAt(s', p, m) {
      assert TrackedAt(MoveAll(s, Mailbox(a), Discarded), p, m);
    }
    forall m | m in s'.place ensures PlaceOk(s', m, s'.place[m]) {
      assert PlaceOk(s, m, s.place[m]);
    }
  }

  lemma StageKeepsInv(s: State, a: Address, stage: Stage)
    requires Inv(s) && a in s.stage &&
               ((s.stage[a].Mapped? && stage.Requested?) || (s.stage[a].Requested? && stage.Installed?))
    ensures Inv(s.(stage := s.stage[a := stage]))
  {
    var s' := s.(stage := s.stage[a := stage]);
    forall p, m ensures TrackedAt(s', p, m) { assert TrackedAt(s, p, m); }
    forall m | m in s'.place ensures PlaceOk(s', m, s'.place[m]) { assert PlaceOk(s, m, s.place[m]); }
  }

  lemma MapKeepsInv(s: State, a: Address, w: nat)
    requires Inv(s) && a !in s.stage
    ensures Inv(Next(s, Map(a, w)))
  {
    var s' := Next(s, Map(a, w));
    forall p, m ensures TrackedAt(s', p, m) { assert TrackedAt(s, p, m); }
    forall m | m in s'.place ensures PlaceOk(s', m, s'.place[m]) { assert PlaceOk(s, m, s.place[m]); }
  }

  lemma NextKeepsInv(s: State, step: Step)
    requires Inv(s) && Enabled(s, step)
    ensures Inv(Next(s, step))
  {
    match step
    case Map(a, w) => MapKeepsInv(s, a, w);
    case RequestSpawn(a) => StageKeepsInv(s, a, Requested);
    case Install(a) => StageKeepsInv(s, a, Installed);
    case SendTo(a) => if a in s.addressMap { AcceptKeepsInv(s, a, Flight(s.addressMap[a])); }
    case SendFrom(w, a) =>
      if a in s.addressMap {
        AcceptKeepsInv(s, a, if s.addressMap[a] == w then Pending(w) else Flight(s.addressMap[a]));
      }
    case Push(w, i) => PushKeepsInv(s, w, i);
    case Take(source) => TakeKeepsInv(s, source);
    case Consume(a) => ConsumeKeepsInv(s, a);
    case Kill(a) => DiscardKeepsInv(s, Next(s, step), a);
    case Clear(a) =>
      assert s.stage[a := Dying] == s.stage;
      DiscardKeepsInv(s, Next(s, step), a);
    case Remove(a) => DiscardKeepsInv(s, Next(s, step), a);
  }

  lemma {:induction false} RunKeepsInv(s: State, steps: seq<Step>)
    requires Inv(s) && Runs(s, steps)
    ensures Inv(Run(s, steps))
    decreases |steps|
  {
    if steps != [] {
      NextKeepsInv(s, steps[0]);
      RunKeepsInv(Next(s, steps[0]), steps[1..]);
    }
  }

  // ─── what every run shows ──────────────────────────────────────────────────

  /** An address is mapped to one worker for its whole life, and once removed is never mapped again. */
  lemma {:induction false} AddressHasOneHome(s: State, steps: seq<Step>, a: Address)
    requires Inv(s) && Runs(s, steps) && a in s.stage
    ensures var s' := Run(s, steps);
            && a in s'.home && s'.home[a] == s.home[a]
            && (a in s'.addressMap ==> a in s.addressMap && s'.addressMap[a] == s.addressMap[a] == s.home[a])
    decreases |steps|
  {
    if steps != [] {
      NextKeepsInv(s, steps[0]);
      AddressHasOneHome(Next(s, steps[0]), steps[1..], a);
    }
  }

  /**
   In every interleaving, a message accepted for an actor is in exactly one place; while its actor is
   mapped that place belongs to the actor's own worker, or the message was consumed, or it went when
   the actor began to stop; and routing drops it only after the actor was removed.
   */
  lemma AcceptedMessageIsInOnePlace(steps: seq<Step>, m: Msg, p: Place)
    requires Runs(Init(), steps) && m in Run(Init(), steps).place
    ensures var s := Run(Init(), steps);
            && multiset(At(s, p))[m] == (if p == s.place[m] then 1 else 0)
            && m.dest in s.home && m.dest in s.stage
            && (m.dest in s.addressMap ==>
                  match s.place[m]
                  case Flight(w) => w == s.addressMap[m.dest]
                  case Transfer(w) => w == s.addressMap[m.dest]
                  case Pending(w) => w == s.addressMap[m.dest]
                  case Deferred(w) => w == s.addressMap[m.dest]
                  case Mailbox(a) => a == m.dest
                  case Consumed => true
                  case Discarded => s.stage[m.dest].Dying?
                  case Dropped => false)
            && (s.place[m].Dropped? ==> m.dest !in s.addressMap && s.stage[m.dest].Removed?)
  {
    InitInv();
    RunKeepsInv(Init(), steps);
    var s := Run(Init(), steps);
    assert TrackedAt(s, p, m) && PlaceOk(s, m, s.place[m]);
  }

  lemma InitInv()
    ensures Inv(Init())
  {
    assert forall p, m :: TrackedAt(Init(), p, m);
  }

  /** A message once consumed, discarded or dropped stays so: it is never delivered or consumed again. */
  lemma {:induction false} GoneForGood(s: State, steps: seq<Step>, m: Msg)
    requires Inv(s) && Runs(s, steps) && m in s.place
    requires s.place[m].Consumed? || s.place[m].Discarded? || s.place[m].Dropped?
    ensures m in Run(s, steps).place && Run(s, steps).place[m] == s.place[m]
    decreases |steps|
  {
    if steps != [] {
      NextKeepsInv(s, steps[0]);
      GoneStaysGone(s, steps[0], m);
      GoneForGood(Next(s, steps[0]), steps[1..], m);
    }
  }

  lemma GoneStaysGone(s: State, step: Step, m: Msg)
    requires Inv(s) && Enabled(s, step) && m in s.place
    requires s.place[m].Consumed? || s.place[m].Discarded? || s.place[m].Dropped?
    ensures m in Next(s, step).place && Next(s, step).place[m] == s.place[m]
  {
    assert PlaceOk(s, m, s.place[m]);
    match step
    case Push(w, i) => FoundWhereItIs(s, Flight(w), i);
    case Take(source) => FoundWhereItIs(s, source, 0);
    case Consume(a) => FoundWhereItIs(s, Mailbox(a), 0);
    case _ =>
  }
}
