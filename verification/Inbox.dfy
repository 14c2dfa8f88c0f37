/** The two-stage channel behind every queue, taken one operation at a time. */
module Channels {
  import opened Options

  class HybridChannel<T> {
    const capacity: nat
    var ring: seq<T>
    var overflow: seq<T>

    /** What the channel holds, oldest first. */
    ghost function Contents(): seq<T>
      reads this
    {
      ring + overflow
    }

    ghost predicate Valid()
      reads this
    {
      |ring| <= capacity
    }

    constructor Create(capacity: nat)
      ensures Valid() && Contents() == []
    {
      this.capacity := capacity;
      ring, overflow := [], [];
    }

    method PushRing(value: T) returns (full: bool)
      requires Valid()
      modifies this`ring
      ensures Valid() && full == (|old(ring)| == capacity)
      ensures ring == if full then old(ring) else old(ring) + [value]
    {
      if |ring| == capacity { return true; }
      ring := ring + [value];
      return false;
    }

    /** A value pushed comes out after every value already there. */
    method Push(value: T)
      requires Valid()
      modifies this
      ensures Valid() && Contents() == old(Contents()) + [value]
    {
      if overflow != [] {
        overflow := overflow + [value];
        assert Contents() == old(Contents()) + [value];
        return;
      }
      var full := PushRing(value);
      if full { overflow := overflow + [value]; }
      assert Contents() == old(Contents()) + [value];
    }

    /** The oldest value comes out first. */
    method Pop() returns (r: Option<T>)
      requires Valid()
      modifies this
      ensures Valid()
      ensures old(Contents()) == [] ==> r == None && Contents() == []
      ensures old(Contents()) != [] ==> r == Some(old(Contents())[0]) && Contents() == old(Contents())[1..]
    {
      if ring != [] {
        r := Some(ring[0]);
        ring := ring[1..];
      } else if overflow != [] {
        r := Some(overflow[0]);
        overflow := overflow[1..];
        assert ring + overflow == overflow;
      } else {
        r := None;
      }
    }

    predicate IsEmpty()
      reads this
      ensures IsEmpty() <==> Contents() == []
    {
      ring == [] && overflow == []
    }
  }
}

/** The awaitable inbox: many producers, one poller, every shared access a step of its own. */
module Inboxes {
  type Value = nat

  /** Where a push is: before its look at the overflow, before each queue, or before its wake. */
  datatype Push = Looking(value: Value) | ToRing(value: Value) | ToOverflow(value: Value) | OwesWake

  /** Where the poller is: away, before each of its four queue accesses, before registering, or parked. */
  datatype Poller = Away | FirstRing | FirstOverflow | Registering | SecondRing | SecondOverflow | Parked

  /**
   `registered`: the cell holds the poller's waker; `notified`: the waker has been fired since the last
   poll began.
   */
  datatype State = State(
    capacity: nat,
    ring: seq<Value>,
    overflow: seq<Value>,
    pushes: map<nat, Push>,
    poller: Poller,
    registered: bool,
    notified: bool,
    received: seq<Value>)

  datatype Step = BeginPush(producer: nat, value: Value) | Produce(producer: nat) | BeginPoll | Poll

  function Init(capacity: nat): (s: State) {
    State(capacity, [], [], map[], Away, false, false, [])
  }

  predicate Enabled(s: State, step: Step) {
    match step
    case BeginPush(p, _) => p !in s.pushes
    case Produce(p) => p in s.pushes
    case BeginPoll => s.poller.Away? || s.poller.Parked?
    case Poll => !s.poller.Away? && !s.poller.Parked?
  }

  function PushRing(s: State, p: nat, v: Value): (s': State) {
    s.(ring := s.ring + [v], pushes := s.pushes[p := OwesWake])
  }

  function PushOverflow(s: State, p: nat, v: Value): (s': State) {
    s.(overflow := s.overflow + [v], pushes := s.pushes[p := OwesWake])
  }

  function Produced(s: State, p: nat): (s': State)
    requires p in s.pushes
  {
    match s.pushes[p]
    case Looking(v) => s.(pushes := s.pushes[p := if s.overflow != [] then ToOverflow(v) else ToRing(v)])
    case ToRing(v) =>
      if |s.ring| < s.capacity then PushRing(s, p, v)
      else s.(pushes := s.pushes[p := ToOverflow(v)])
    case ToOverflow(v) => PushOverflow(s, p, v)
    case OwesWake => s.(pushes := s.pushes - {p}, notified := s.notified || s.registered, registered := false)
  }

  function TakeRing(s: State): (s': State)
    requires s.ring != []
  {
    s.(received := s.received + [s.ring[0]], ring := s.ring[1..], poller := Away)
  }

  function TakeOverflow(s: State): (s': State)
    requires s.overflow != []
  {
    s.(received := s.received + [s.overflow[0]], overflow := s.overflow[1..], poller := Away)
  }

  /** A value found ends the poll; a second look that finds nothing parks it. */
  function Polled(s: State): (s': State)
    requires !s.poller.Away? && !s.poller.Parked?
  {
    match s.poller
    case FirstRing => if s.ring != [] then TakeRing(s) else s.(poller := FirstOverflow)
    case FirstOverflow => if s.overflow != [] then TakeOverflow(s) else s.(poller := Registering)
    case Registering => s.(registered := true, poller := SecondRing)
    case SecondRing => if s.ring != [] then TakeRing(s) else s.(poller := SecondOverflow)
    case SecondOverflow => if s.overflow != [] then TakeOverflow(s) else s.(poller := Parked)
  }

  function Next(s: State, step: Step): (s': State)
    requires Enabled(s, step)
  {
    match step
    case BeginPush(p, v) => s.(pushes := s.pushes[p := Looking(v)])
    case Produce(p) => Produced(s, p)
    case BeginPoll => s.(poller := FirstRing, notified := false)
    case Poll => Polled(s)
  }

  predicate Runs(s: State, steps: seq<Step>)
    decreases |steps|
  {
    steps == [] || (Enabled(s, steps[0]) && Runs(Next(s, steps[0]), steps[1..]))
  }

  function Run(s: State, steps: seq<Step>): (s': State)
    requires Runs(s, steps)
    decreases |steps|
  {
    if steps == [] then s else Run(Next(s, steps[0]), steps[1..])
  }

  /** Some push that has delivered its value has not fired the waker yet. */
  predicate WakeOwed(s: State) {
    exists p :: p in s.pushes && s.pushes[p].OwesWake?
  }

  /** What the poller has seen empty since it registered can only have been refilled by a push that wakes it. */
  ghost predicate Inv(s: State) {
    && (s.poller.SecondRing? || s.poller.SecondOverflow? || s.poller.Parked? ==> s.registered || s.notified)
    && ((s.poller.SecondOverflow? || s.poller.Parked?) && s.ring != [] ==> s.notified || WakeOwed(s))
    && (s.poller.Parked? && s.overflow != [] ==> s.notified || WakeOwed(s))
  }

  lemma OtherPushesStay(s: State, p: nat, push: Push)
    requires WakeOwed(s) && (p in s.pushes ==> !s.pushes[p].OwesWake?)
    ensures WakeOwed(s.(pushes := s.pushes[p := push]))
  {
    var q :| q in s.pushes && s.pushes[q].OwesWake?;
    assert q in s.pushes[p := push] && s.pushes[p := push][q].OwesWake?;
  }

  lemma NewWakeIsOwed(s: State, p: nat)
    ensures WakeOwed(s.(pushes := s.pushes[p := OwesWake]))
  {
    assert p in s.pushes[p := OwesWake] && s.pushes[p := OwesWake][p].OwesWake?;
  }

  lemma ProduceKeepsInv(s: State, p: nat)
    requires Inv(s) && p in s.pushes
    ensures Inv(Produced(s, p))
  {
    match s.pushes[p]
    case Looking(v) => if WakeOwed(s) { OtherPushesStay(s, p, if s.overflow != [] then ToOverflow(v) else ToRing(v)); }
    case ToRing(v) =>
      NewWakeIsOwed(s.(ring := s.ring + [v]), p);
      if WakeOwed(s) { OtherPushesStay(s, p, ToOverflow(v)); }
    case ToOverflow(v) => NewWakeIsOwed(s.(overflow := s.overflow + [v]), p);
    case OwesWake =>
  }

  lemma NextKeepsInv(s: State, step: Step)
    requires Inv(s) && Enabled(s, step)
    ensures Inv(Next(s, step))
  {
    match step
    case BeginPush(p, v) => if WakeOwed(s) { OtherPushesStay(s, p, Looking(v)); }
    case Produce(p) => ProduceKeepsInv(s, p);
    case BeginPoll =>
    case Poll =>
  }

  lemma {:induction false} RunKeepsInv(s: State, steps: seq<Step>)
    requires Inv(s) && Runs(s, steps)
    ensures Inv(Run(s, steps))
    decreases |steps|
  {
    if steps != [] {
      NextKeepsInv(s, steps[0]);
      RunKeepsInv(Next(s, steps[0]), steps[1..]);
    }
  }

  /**
   No wake-up is lost: in every interleaving, a parked poller with a value in either queue has been
   notified, or some push still owes a wake, and that wake will notify it.
   */
  lemma NoLostWakeup(capacity: nat, steps: seq<Step>, p: nat)
    requires Runs(Init(capacity), steps)
    requires var s := Run(Init(capacity), steps); s.poller.Parked? && (s.ring != [] || s.overflow != [])
    ensures var s := Run(Init(capacity), steps);
            && (s.notified || WakeOwed(s))
            && (p in s.pushes && s.pushes[p].OwesWake? ==> Next(s, Produce(p)).notified)
  {
    RunKeepsInv(Init(capacity), steps);
  }

  /** The step wakes the poller that is registered. */
  predicate WakesNow(s: State, step: Step) {
    step.Produce? && step.producer in s.pushes && s.pushes[step.producer].OwesWake? && s.registered
  }

  predicate RegistersNow(s: State, step: Step) {
    step.Poll? && s.poller.Registering?
  }

  function Wakes(s: State, steps: seq<Step>): (n: nat)
    requires Runs(s, steps)
    decreases |steps|
  {
    if steps == [] then 0 else (if WakesNow(s, steps[0]) then 1 else 0) + Wakes(Next(s, steps[0]), steps[1..])
  }

  function Registrations(s: State, steps: seq<Step>): (n: nat)
    requires Runs(s, steps)
    decreases |steps|
  {
    if steps == [] then 0
    else (if RegistersNow(s, steps[0]) then 1 else 0) + Registrations(Next(s, steps[0]), steps[1..])
  }

  /** Each registration is woken at most once, however many pushes follow. */
  lemma {:induction false} OneWakePerRegistration(s: State, steps: seq<Step>)
    requires Runs(s, steps)
    ensures Wakes(s, steps) + (if Run(s, steps).registered then 1 else 0) <=
              Registrations(s, steps) + if s.registered then 1 else 0
    decreases |steps|
  {
    if steps != [] { OneWakePerRegistration(Next(s, steps[0]), steps[1..]); }
  }

  // ─── nothing is lost or delivered twice ────────────────────────────────────

  /** The value is in the hands of this producer. */
  predicate Holds(s: State, p: nat, v: Value) {
    p in s.pushes && !s.pushes[p].OwesWake? && s.pushes[p].value == v
  }

  datatype Spot = Unsent | Hand(producer: nat) | Ring | Overflow | Received

  /** How often the value is among the first `n` of a queue. */
  function CountTo(q: seq<Value>, n: nat, v: Value): (c: nat)
    requires n <= |q|
  {
    if n == 0 then 0 else CountTo(q, n - 1, v) + if q[n - 1] == v then 1 else 0
  }

  function Count(q: seq<Value>, v: Value): (c: nat) {
    CountTo(q, |q|, v)
  }

  /** The three queues, and how often the value is in each. */
  predicate CountedIn(ring: seq<Value>, overflow: seq<Value>, received: seq<Value>, v: Value, spot: Spot) {
    && Count(ring, v) == (if spot == Ring then 1 else 0)
    && Count(overflow, v) == (if spot == Overflow then 1 else 0)
    && Count(received, v) == (if spot == Received then 1 else 0)
  }

  predicate Counted(s: State, v: Value, spot: Spot) {
    CountedIn(s.ring, s.overflow, s.received, v, spot)
  }

  ghost predicate InHand(s: State, v: Value, spot: Spot) {
    forall p :: Holds(s, p, v) <==> spot == Hand(p)
  }

  /** A value is in this spot and no other, once. */
  ghost predicate At(s: State, v: Value, spot: Spot) {
    Counted(s, v, spot) && InHand(s, v, spot)
  }

  function Order(spot: Spot): (n: nat) {
    match spot
    case Unsent => 0
    case Hand(_) => 1
    case Ring => 2
    case Overflow => 2
    case Received => 3
  }

  lemma {:induction false} CountIsLocal(q: seq<Value>, x: Value, n: nat, v: Value)
    requires n <= |q|
    ensures CountTo(q + [x], n, v) == CountTo(q, n, v)
    decreases n
  {
    if n > 0 { CountIsLocal(q, x, n - 1, v); }
  }

  lemma Appended(q: seq<Value>, x: Value, v: Value)
    ensures Count(q + [x], v) == Count(q, v) + if x == v then 1 else 0
  {
    CountIsLocal(q, x, |q|, v);
  }

  lemma {:induction false} CountShifts(q: seq<Value>, n: nat, v: Value)
    requires 0 < n <= |q|
    ensures CountTo(q, n, v) == CountTo(q[1..], n - 1, v) + if q[0] == v then 1 else 0
    decreases n
  {
    if n > 1 { CountShifts(q, n - 1, v); }
  }

  lemma Popped(q: seq<Value>, v: Value)
    requires q != []
    ensures Count(q, v) == Count(q[1..], v) + if q[0] == v then 1 else 0
  {
    CountShifts(q, |q|, v);
  }

  /** Where a producer's next step leaves the value. */
  function SpotProduced(s: State, p: nat, v: Value, spot: Spot): (spot': Spot)
    requires p in s.pushes
  {
    if s.pushes[p].OwesWake? || s.pushes[p].value != v then spot
    else if s.pushes[p].ToRing? && |s.ring| < s.capacity then Ring
    else if s.pushes[p].ToOverflow? then Overflow
    else spot
  }

  lemma CountsAfterPush(s: State, p: nat, x: Value, v: Value, spot: Spot)
    requires Counted(s, v, spot) && (x == v ==> spot.Hand?)
    ensures Counted(PushRing(s, p, x), v, if x == v then Ring else spot)
    ensures Counted(PushOverflow(s, p, x), v, if x == v then Overflow else spot)
  {
    Appended(s.ring, x, v);
    Appended(s.overflow, x, v);
  }

  lemma ProduceCounts(s: State, p: nat, v: Value, spot: Spot)
    requires p in s.pushes && Counted(s, v, spot) && (Holds(s, p, v) ==> spot == Hand(p))
    ensures Counted(Produced(s, p), v, SpotProduced(s, p, v, spot))
  {
    match s.pushes[p]
    case ToRing(x) => CountsAfterPush(s, p, x, v, spot);
    case ToOverflow(x) => CountsAfterPush(s, p, x, v, spot);
    case _ => assert CountedIn(s.ring, s.overflow, s.received, v, spot);
  }

  lemma ProduceHands(s: State, p: nat, v: Value, spot: Spot, q: nat)
    requires p in s.pushes && (Holds(s, q, v) <==> spot == Hand(q)) && (Holds(s, p, v) <==> spot == Hand(p))
    ensures Holds(Produced(s, p), q, v) <==> SpotProduced(s, p, v, spot) == Hand(q)
  {
  }

  lemma ProduceMoves(s: State, p: nat, v: Value, spot: Spot)
    requires p in s.pushes && At(s, v, spot)
    ensures At(Produced(s, p), v, SpotProduced(s, p, v, spot)) && Order(spot) <= Order(SpotProduced(s, p, v, spot))
  {
    assert Holds(s, p, v) <==> spot == Hand(p);
    ProduceCounts(s, p, v, spot);
    forall q ensures Holds(Produced(s, p), q, v) <==> SpotProduced(s, p, v, spot) == Hand(q) {
      assert Holds(s, q, v) <==> spot == Hand(q);
      ProduceHands(s, p, v, spot, q);
    }
  }

  function SpotPolled(s: State, v: Value, spot: Spot): (spot': Spot) {
    match s.poller
    case FirstRing => if s.ring != [] && s.ring[0] == v then Received else spot
    case SecondRing => if s.ring != [] && s.ring[0] == v then Received else spot
    case FirstOverflow => if s.overflow != [] && s.overflow[0] == v then Received else spot
    case SecondOverflow => if s.overflow != [] && s.overflow[0] == v then Received else spot
    case _ => spot
  }

  lemma RingTaken(s: State, v: Value, spot: Spot)
    requires Counted(s, v, spot) && s.ring != []
    ensures Counted(TakeRing(s), v, if s.ring[0] == v then Received else spot) && (s.ring[0] == v ==> spot == Ring)
  {
    Taken(s.ring, s.received, v);
  }

  lemma OverflowTaken(s: State, v: Value, spot: Spot)
    requires Counted(s, v, spot) && s.overflow != []
    ensures Counted(TakeOverflow(s), v, if s.overflow[0] == v then Received else spot) &&
              (s.overflow[0] == v ==> spot == Overflow)
  {
    Taken(s.overflow, s.received, v);
  }

  lemma PollCounts(s: State, v: Value, spot: Spot)
    requires Enabled(s, Poll) && Counted(s, v, spot)
    ensures Counted(Polled(s), v, SpotPolled(s, v, spot))
    ensures SpotPolled(s, v, spot) == spot || (spot.Ring? || spot.Overflow?)
  {
    match s.poller
    case FirstRing => if s.ring != [] { RingTaken(s, v, spot); }
    case SecondRing => if s.ring != [] { RingTaken(s, v, spot); }
    case FirstOverflow => if s.overflow != [] { OverflowTaken(s, v, spot); }
    case SecondOverflow => if s.overflow != [] { OverflowTaken(s, v, spot); }
    case Registering =>
  }

  lemma PollHands(s: State, v: Value, spot: Spot, q: nat)
    requires Enabled(s, Poll) && (SpotPolled(s, v, spot) == spot || spot.Ring? || spot.Overflow?)
    requires Holds(s, q, v) <==> spot == Hand(q)
    ensures Holds(Polled(s), q, v) <==> SpotPolled(s, v, spot) == Hand(q)
  {
  }

  lemma PollMoves(s: State, v: Value, spot: Spot)
    requires Enabled(s, Poll) && At(s, v, spot)
    ensures At(Polled(s), v, SpotPolled(s, v, spot)) && Order(spot) <= Order(SpotPolled(s, v, spot))
  {
    PollCounts(s, v, spot);
    forall q ensures Holds(Polled(s), q, v) <==> SpotPolled(s, v, spot) == Hand(q) {
      assert Holds(s, q, v) <==> spot == Hand(q);
      PollHands(s, v, spot, q);
    }
  }

  lemma Taken(q: seq<Value>, received: seq<Value>, v: Value)
    requires q != []
    ensures Count(q, v) == Count(q[1..], v) + if q[0] == v then 1 else 0
    ensures Count(received + [q[0]], v) == Count(received, v) + if q[0] == v then 1 else 0
  {
    Popped(q, v);
    Appended(received, q[0], v);
  }

  lemma OthersStay(s: State, s': State, v: Value, spot: Spot)
    requires At(s, v, spot) && s'.ring == s.ring && s'.overflow == s.overflow && s'.received == s.received
    requires forall p :: Holds(s', p, v) <==> Holds(s, p, v)
    ensures At(s', v, spot)
  {
  }

  /** A value not seen before is in its producer's hands as soon as its push begins. */
  lemma PushedIsInHand(s: State, p: nat, v: Value)
    requires At(s, v, Unsent) && Enabled(s, BeginPush(p, v))
    ensures At(Next(s, BeginPush(p, v)), v, Hand(p))
  {
    var s' := Next(s, BeginPush(p, v));
    forall q ensures Holds(s', q, v) <==> Hand(p) == Hand(q) {
      assert Holds(s, q, v) <==> Unsent == Hand(q);
    }
  }

  /** The value is never pushed again along this run. */
  predicate NotPushed(steps: seq<Step>, v: Value) {
    forall i :: 0 <= i < |steps| && steps[i].BeginPush? ==> steps[i].value != v
  }

  /**
   From the moment a value is pushed it is in exactly one spot: its producer's hands, the ring, the
   overflow, or received; it only moves forward, whatever the interleaving, so it is received at most once.
   */
  lemma {:induction false} ValueMovesForward(s: State, steps: seq<Step>, v: Value, spot: Spot) returns (spot': Spot)
    requires Runs(s, steps) && At(s, v, spot) && NotPushed(steps, v)
    ensures At(Run(s, steps), v, spot') && Order(spot) <= Order(spot')
    decreases |steps|
  {
    spot' := spot;
    if steps != [] {
      match steps[0] {
        case Produce(p) =>
          ProduceMoves(s, p, v, spot);
          spot' := SpotProduced(s, p, v, spot);
        case Poll =>
          PollMoves(s, v, spot);
          spot' := SpotPolled(s, v, spot);
        case _ => OthersStay(s, Next(s, steps[0]), v, spot);
      }
      spot' := ValueMovesForward(Next(s, steps[0]), steps[1..], v, spot');
    }
  }
}
