/** Envelopes and the pool of slots they are for: what becomes of each, and in which order. */
module Routing {
  import opened ActorSlots
  import opened Options
  import opened Queues

  type Address = nat

  datatype Envelope = Envelope(dest: Address, msg: Message)

  type Pool = map<Address, Slot>

  // ─── delivery to a pool ────────────────────────────────────────────────────

  function DeliverTo(pool: Pool, e: Envelope): (pool': Pool)
    ensures pool'.Keys == pool.Keys
  {
    if e.dest in pool then pool[e.dest := Delivered(pool[e.dest], e.msg)] else pool
  }

  function DeliverAll(pool: Pool, es: seq<Envelope>): (pool': Pool)
    ensures pool'.Keys == pool.Keys
  {
    if es == [] then pool else DeliverTo(DeliverAll(pool, es[..|es| - 1]), es[|es| - 1])
  }

  lemma DeliverOneMore(pool: Pool, es: seq<Envelope>, e: Envelope)
    ensures DeliverAll(pool, es + [e]) == DeliverTo(DeliverAll(pool, es), e)
  {
    assert (es + [e])[..|es|] == es;
  }

  lemma {:induction false} DeliverBoth(pool: Pool, first: seq<Envelope>, second: seq<Envelope>)
    ensures DeliverAll(DeliverAll(pool, first), second) == DeliverAll(pool, first + second)
    decreases |second|
  {
    if second == [] {
      assert first + [] == first;
    } else {
      var front, last := second[..|second| - 1], second[|second| - 1];
      DeliverBoth(pool, first, front);
      DeliverOneMore(pool, first + front, last);
      assert first + second == first + front + [last];
    }
  }

  function InstallAll(pool: Pool, addrs: seq<Address>): (pool': Pool) {
    if addrs == [] then pool else InstallAll(pool, addrs[..|addrs| - 1])[addrs[|addrs| - 1] := Spawned()]
  }

  lemma InstallOneMore(pool: Pool, addrs: seq<Address>, a: Address)
    ensures InstallAll(pool, addrs + [a]) == InstallAll(pool, addrs)[a := Spawned()]
  {
    assert (addrs + [a])[..|addrs|] == addrs;
  }

  lemma {:induction false} InstalledAll(pool: Pool, addrs: seq<Address>, a: Address)
    ensures a in InstallAll(pool, addrs) <==> a in pool || a in addrs
    ensures a in pool && a !in addrs ==> InstallAll(pool, addrs)[a] == pool[a]
    decreases |addrs|
  {
    if addrs != [] {
      InstalledAll(pool, addrs[..|addrs| - 1], a);
      assert addrs == addrs[..|addrs| - 1] + [addrs[|addrs| - 1]];
    }
  }

  /** The messages among some envelopes that are meant for one actor, in order. */
  function MessagesFor(es: seq<Envelope>, a: Address): (msgs: seq<Message>) {
    if es == [] then []
    else MessagesFor(es[..|es| - 1], a) + if es[|es| - 1].dest == a then [es[|es| - 1].msg] else []
  }

  /** An actor that is not suspended finds exactly its own messages at the back of its mailbox, in order. */
  lemma {:induction false} DeliveredInOrder(pool: Pool, es: seq<Envelope>, a: Address)
    requires a in pool && !pool[a].suspended
    ensures DeliverAll(pool, es)[a] == pool[a].(mailbox := pool[a].mailbox + MessagesFor(es, a))
    decreases |es|
  {
    if es == [] {
      assert pool[a].mailbox + [] == pool[a].mailbox;
    } else {
      DeliveredInOrder(pool, es[..|es| - 1], a);
    }
  }

  // ─── what becomes of an envelope ───────────────────────────────────────────

  predicate MappedHere(addressMap: map<Address, nat>, id: nat, a: Address) {
    a in addressMap && addressMap[a] == id
  }

  /** What a worker goes by: who is installed here, and the address map. */
  datatype View = View(keys: set<Address>, addressMap: map<Address, nat>, id: nat)

  datatype Fate = Landing | Waiting | Dropping

  function FateOf(view: View, a: Address): (fate: Fate) {
    if a in view.keys then Landing else if MappedHere(view.addressMap, view.id, a) then Waiting else Dropping
  }

  /** Those envelopes that share a fate, in order. */
  function Fated(view: View, es: seq<Envelope>, fate: Fate): (some: seq<Envelope>) {
    if es == [] then []
    else
      var last := es[|es| - 1];
      Fated(view, es[..|es| - 1], fate) + if FateOf(view, last.dest) == fate then [last] else []
  }

  lemma FatedOneMore(view: View, es: seq<Envelope>, e: Envelope, fate: Fate)
    ensures Fated(view, es + [e], fate) == Fated(view, es, fate) + if FateOf(view, e.dest) == fate then [e] else []
  {
    assert (es + [e])[..|es|] == es;
  }

  lemma {:induction false} FatedMeans(view: View, es: seq<Envelope>, fate: Fate, e: Envelope)
    ensures e in Fated(view, es, fate) <==> e in es && FateOf(view, e.dest) == fate
    decreases |es|
  {
    if es != [] {
      FatedMeans(view, es[..|es| - 1], fate, e);
      assert es == es[..|es| - 1] + [es[|es| - 1]];
    }
  }

  lemma {:induction false} FatedBoth(view: View, a: seq<Envelope>, b: seq<Envelope>, fate: Fate)
    ensures Fated(view, a + b, fate) == Fated(view, a, fate) + Fated(view, b, fate)
    decreases |b|
  {
    if b == [] {
      assert a + b == a;
    } else {
      var front, last := b[..|b| - 1], b[|b| - 1];
      FatedBoth(view, a, front, fate);
      assert a + b == (a + front) + [last];
      FatedOneMore(view, a + front, last, fate);
    }
  }

  lemma {:induction false} FatedCount(view: View, es: seq<Envelope>, fate: Fate, x: Envelope)
    ensures multiset(Fated(view, es, fate))[x] == if FateOf(view, x.dest) == fate then multiset(es)[x] else 0
    decreases |es|
  {
    if es != [] {
      var front, last := es[..|es| - 1], es[|es| - 1];
      FatedCount(view, front, fate, x);
      assert es == front + [last];
    }
  }

  /** Every envelope has exactly one fate. */
  lemma FatesAddUp(view: View, es: seq<Envelope>)
    ensures multiset(es) == multiset(Fated(view, es, Landing)) + multiset(Fated(view, es, Dropping))
                            + multiset(Fated(view, es, Waiting))
  {
    var sum := multiset(Fated(view, es, Landing)) + multiset(Fated(view, es, Dropping))
               + multiset(Fated(view, es, Waiting));
    forall x ensures multiset(es)[x] == sum[x] {
      FatedCount(view, es, Landing, x);
      FatedCount(view, es, Dropping, x);
      FatedCount(view, es, Waiting, x);
    }
  }

  // ─── the retained envelopes ────────────────────────────────────────────────

  predicate AllCanSettle(view: View, es: seq<Envelope>) {
    forall e :: e in es ==> FateOf(view, e.dest) != Waiting
  }

  /** The retained envelopes the loop puts back; delivery changes mailboxes but not who is installed. */
  function StuckEnvelopes(view: View, es: seq<Envelope>): (stuck: set<Envelope>) {
    set e | e in es && FateOf(view, e.dest) == Waiting
  }

  lemma {:induction false} StuckAreFated(view: View, es: seq<Envelope>, all: seq<Envelope>)
    requires forall e :: e in es ==> e in all
    ensures Among(es, StuckEnvelopes(view, all)) == Fated(view, es, Waiting)
    decreases |es|
  {
    if es != [] {
      assert es[|es| - 1] in es;
      StuckAreFated(view, es[..|es| - 1], all);
    }
  }

  lemma FreeMeans(view: View, es: seq<Envelope>)
    ensures AllCanSettle(view, es) <==> Fated(view, es, Waiting) == []
    ensures AllCanSettle(view, es) <==> StuckEnvelopes(view, es) == {}
  {
    if e :| e in es && FateOf(view, e.dest) == Waiting {
      FatedMeans(view, es, Waiting, e);
      assert e in StuckEnvelopes(view, es);
    }
    if Fated(view, es, Waiting) != [] {
      FatedMeans(view, es, Waiting, Fated(view, es, Waiting)[0]);
    }
  }

  /**
   Without a budget, the loop over the retained envelopes ends if and only if each of them is for an
   installed actor or for one that is not mapped to this worker.
   */
  lemma UnbudgetedDrainEndsIff(view: View, deferred: seq<Envelope>)
    ensures RunsEmpty(deferred, StuckEnvelopes(view, deferred)) <==> AllCanSettle(view, deferred)
  {
    RunsEmptyIff(deferred, StuckEnvelopes(view, deferred));
  }

  /** One envelope for an actor that is mapped here but not installed keeps the loop going for ever. */
  lemma UnbudgetedDrainCanSpin(n: nat)
    ensures var view, queue := View({}, map[7 := 0], 0), [Envelope(7, Resume)];
            Rotated(queue, StuckEnvelopes(view, queue), n) != []
  {
    var view, queue := View({}, map[7 := 0], 0), [Envelope(7, Resume)];
    StuckStays(queue, StuckEnvelopes(view, queue), Envelope(7, Resume), n);
  }

  /** What the loop takes on its turn after `n` turns, and what that turn comes to. */
  lemma RetainedTurn(view: View, q: seq<Envelope>, n: nat)
    requires Rotated(q, StuckEnvelopes(view, q), n) != []
    ensures var r := Rotated(q, StuckEnvelopes(view, q), n);
            && (n < |q| ==> r[0] == q[n])
            && (n >= |q| ==> FateOf(view, r[0].dest) == Waiting)
            && Rotated(q, StuckEnvelopes(view, q), n + 1) ==
                 r[1..] + if FateOf(view, r[0].dest) == Waiting then [r[0]] else []
  {
    var stuck := StuckEnvelopes(view, q);
    var r := Rotated(q, stuck, n);
    if n < |q| {
      FirstRound(q, stuck, n);
    } else {
      LateAreStuck(q, stuck, n, n - |q|);
      assert r[0] in r;
    }
  }

  /** Of the retained envelopes, those settled in `n` turns with this fate, in order. */
  function Settled(view: View, q: seq<Envelope>, n: nat, fate: Fate): (es: seq<Envelope>) {
    Fated(view, q[..Min(n, |q|)], fate)
  }

  lemma SettledOneMore(view: View, q: seq<Envelope>, n: nat, fate: Fate)
    requires Rotated(q, StuckEnvelopes(view, q), n) != [] && fate != Waiting
    ensures var e := Rotated(q, StuckEnvelopes(view, q), n)[0];
            Settled(view, q, n + 1, fate) ==
              Settled(view, q, n, fate) + if FateOf(view, e.dest) == fate then [e] else []
  {
    RetainedTurn(view, q, n);
    if n < |q| {
      assert q[..n + 1] == q[..n] + [q[n]];
      FatedOneMore(view, q[..n], q[n], fate);
    }
  }

  /** If nothing is stuck, each turn takes one off the front. */
  lemma FreeTurns(view: View, q: seq<Envelope>, n: nat)
    requires AllCanSettle(view, q) && n <= |q|
    ensures Rotated(q, StuckEnvelopes(view, q), n) == q[n..]
  {
    FirstRound(q, StuckEnvelopes(view, q), n);
    StuckAreFated(view, q[..n], q);
    FreeMeans(view, q[..n]);
  }

  lemma StuckNeverEnds(view: View, q: seq<Envelope>, n: nat)
    requires !AllCanSettle(view, q)
    ensures Rotated(q, StuckEnvelopes(view, q), n) != []
  {
    var e :| e in q && FateOf(view, e.dest) == Waiting;
    StuckStays(q, StuckEnvelopes(view, q), e, n);
  }

  // ─── a whole drain ─────────────────────────────────────────────────────────

  datatype Drainage = Drainage(
    landed: seq<Envelope>, dropped: seq<Envelope>, deferred: seq<Envelope>, transfers: seq<Envelope>)

  /** After `n` turns over the retained envelopes and what was reached of the queue, each in the order it is taken. */
  function DrainTo(view: View, q: seq<Envelope>, n: nat, reached: seq<Envelope>, rest: seq<Envelope>): (d: Drainage) {
    Drainage(
      Settled(view, q, n, Landing) + Fated(view, reached, Landing),
      Settled(view, q, n, Dropping) + Fated(view, reached, Dropping),
      Rotated(q, StuckEnvelopes(view, q), n) + Fated(view, reached, Waiting),
      rest)
  }

  /** Retained envelopes first, then the queue, as far as the budget reaches. */
  function Drain(view: View, q: seq<Envelope>, t: seq<Envelope>, budget: nat): (d: Drainage) {
    var free := AllCanSettle(view, q);
    var k := Reach(free, |q|, |t|, budget);
    DrainTo(view, q, Turns(free, |q|, budget), t[..k], t[k..])
  }

  lemma PutBehind(front: seq<Envelope>, rest: seq<Envelope>, l: multiset<Envelope>, d: multiset<Envelope>,
      w: seq<Envelope>)
    requires multiset(front) == l + d + multiset(w)
    ensures multiset(front + rest) == l + d + multiset(rest + w)
  {
    PutTogether(front, rest);
    PutTogether(rest, w);
  }

  lemma RotatedAddsUp(view: View, q: seq<Envelope>, n: nat)
    ensures multiset(q) ==
              multiset(Settled(view, q, n, Landing)) + multiset(Settled(view, q, n, Dropping))
              + multiset(Rotated(q, StuckEnvelopes(view, q), n))
  {
    var stuck, m := StuckEnvelopes(view, q), Min(n, |q|);
    var front, rest := q[..m], q[m..];
    FatesAddUp(view, front);
    StuckAreFated(view, front, q);
    assert q == front + rest;
    if n <= |q| {
      FirstRound(q, stuck, n);
      PutBehind(front, rest, multiset(Fated(view, front, Landing)), multiset(Fated(view, front, Dropping)),
                Fated(view, front, Waiting));
    } else {
      assert front == q;
      LateAreStuck(q, stuck, n, n - |q|);
    }
  }

  lemma FourWays(
    q: seq<Envelope>, l: seq<Envelope>, d: seq<Envelope>, r: seq<Envelope>,
    t: seq<Envelope>, l': seq<Envelope>, d': seq<Envelope>, w: seq<Envelope>, rest: seq<Envelope>)
    requires multiset(q) == multiset(l) + multiset(d) + multiset(r)
    requires multiset(t) == multiset(l') + multiset(d') + multiset(w)
    ensures multiset(q) + multiset(t + rest) ==
              multiset(l + l') + multiset(d + d') + multiset(r + w) + multiset(rest)
  {
    PutTogether(t, rest);
    PutTogether(l, l');
    PutTogether(d, d');
    PutTogether(r, w);
  }

  lemma DrainToAddsUp(view: View, q: seq<Envelope>, n: nat, reached: seq<Envelope>, rest: seq<Envelope>)
    ensures var d := DrainTo(view, q, n, reached, rest);
            multiset(q) + multiset(reached + rest) ==
              multiset(d.landed) + multiset(d.dropped) + multiset(d.deferred) + multiset(d.transfers)
  {
    RotatedAddsUp(view, q, n);
    FatesAddUp(view, reached);
    FourWays(q, Settled(view, q, n, Landing), Settled(view, q, n, Dropping), Rotated(q, StuckEnvelopes(view, q), n),
             reached, Fated(view, reached, Landing), Fated(view, reached, Dropping), Fated(view, reached, Waiting),
                 rest);
  }

  /** Nothing is lost or made up by a drain. */
  lemma DrainAddsUp(view: View, q: seq<Envelope>, t: seq<Envelope>, budget: nat)
    ensures var d := Drain(view, q, t, budget);
            multiset(q) + multiset(t) ==
              multiset(d.landed) + multiset(d.dropped) + multiset(d.deferred) + multiset(d.transfers)
  {
    var free := AllCanSettle(view, q);
    var k := Reach(free, |q|, |t|, budget);
    assert t[..k] + t[k..] == t;
    DrainToAddsUp(view, q, Turns(free, |q|, budget), t[..k], t[k..]);
  }

  /** What lands is for an actor installed here, and what is dropped is neither installed nor mapped here. */
  lemma DrainSifts(view: View, q: seq<Envelope>, t: seq<Envelope>, budget: nat, e: Envelope)
    ensures e in Drain(view, q, t, budget).landed ==> FateOf(view, e.dest) == Landing
    ensures e in Drain(view, q, t, budget).dropped ==> FateOf(view, e.dest) == Dropping
  {
    var free := AllCanSettle(view, q);
    var n, k := Turns(free, |q|, budget), Reach(free, |q|, |t|, budget);
    FatedMeans(view, q[..Min(n, |q|)], Landing, e);
    FatedMeans(view, q[..Min(n, |q|)], Dropping, e);
    FatedMeans(view, t[..k], Landing, e);
    FatedMeans(view, t[..k], Dropping, e);
  }

  // ─── the order of one actor's envelopes ────────────────────────────────────

  /** The envelopes for one address, in order. */
  function Own(es: seq<Envelope>, a: Address): (own: seq<Envelope>) {
    if es == [] then []
    else Own(es[..|es| - 1], a) + if es[|es| - 1].dest == a then [es[|es| - 1]] else []
  }

  lemma {:induction false} OwnBoth(x: seq<Envelope>, y: seq<Envelope>, a: Address)
    ensures Own(x + y, a) == Own(x, a) + Own(y, a)
    decreases |y|
  {
    if y == [] {
      assert x + y == x;
    } else {
      var front, last := y[..|y| - 1], y[|y| - 1];
      OwnBoth(x, front, a);
      assert (x + y)[..|x + y| - 1] == x + front;
    }
  }

  lemma {:induction false} OwnFated(view: View, es: seq<Envelope>, fate: Fate, a: Address)
    ensures Own(Fated(view, es, fate), a) == if FateOf(view, a) == fate then Own(es, a) else []
    decreases |es|
  {
    if es != [] {
      var front, last := es[..|es| - 1], es[|es| - 1];
      OwnFated(view, front, fate, a);
      OwnBoth(Fated(view, front, fate), if FateOf(view, last.dest) == fate then [last] else [], a);
      assert Own([last], a) == if last.dest == a then [last] else [] by { assert [last][..0] == []; }
    }
  }

  /** The parts of a drain, put in line, for one address. */
  function InLine(d: Drainage, a: Address): (es: seq<Envelope>) {
    Own(d.landed, a) + Own(d.dropped, a) + Own(d.deferred, a) + Own(d.transfers, a)
  }

  /**
   An address's envelopes that were delivered or dropped, are retained, and are queued, in this order,
   are as before.
   */
  predicate OrderKept(view: View, q: seq<Envelope>, t: seq<Envelope>, budget: nat, a: Address) {
    InLine(Drain(view, q, t, budget), a) == Own(q, a) + Own(t, a)
  }

  predicate NoRepeats(es: seq<Envelope>) {
    forall i, j :: 0 <= i < j < |es| ==> es[i] != es[j]
  }

  lemma OwnDone(view: View, q: seq<Envelope>, n: nat, reached: seq<Envelope>, rest: seq<Envelope>, a: Address)
    ensures var d, fate := DrainTo(view, q, n, reached, rest), FateOf(view, a);
            var done := Own(q[..Min(n, |q|)], a) + Own(reached, a);
            && Own(d.landed, a) == (if fate == Landing then done else [])
            && Own(d.dropped, a) == (if fate == Dropping then done else [])
  {
    OwnOfSome(view, q[..Min(n, |q|)], reached, Landing, a);
    OwnOfSome(view, q[..Min(n, |q|)], reached, Dropping, a);
  }

  lemma OwnKept(view: View, q: seq<Envelope>, n: nat, reached: seq<Envelope>, rest: seq<Envelope>, a: Address)
    ensures Own(DrainTo(view, q, n, reached, rest).deferred, a) ==
              Own(Rotated(q, StuckEnvelopes(view, q), n), a)
                  + (if FateOf(view, a) == Waiting then Own(reached, a) else [])
  {
    OwnFated(view, reached, Waiting, a);
    OwnBoth(Rotated(q, StuckEnvelopes(view, q), n), Fated(view, reached, Waiting), a);
  }

  lemma OwnCut(t: seq<Envelope>, k: nat, a: Address)
    requires k <= |t|
    ensures Own(t, a) == Own(t[..k], a) + Own(t[k..], a)
  {
    OwnBoth(t[..k], t[k..], a);
    assert t == t[..k] + t[k..];
  }

  lemma OwnOfSome(view: View, x: seq<Envelope>, y: seq<Envelope>, fate: Fate, a: Address)
    ensures Own(Fated(view, x, fate) + Fated(view, y, fate), a) ==
              if FateOf(view, a) == fate then Own(x, a) + Own(y, a) else []
  {
    OwnFated(view, x, fate, a);
    OwnFated(view, y, fate, a);
    OwnBoth(Fated(view, x, fate), Fated(view, y, fate), a);
  }

  // What is left of an address that is not stuck is what the turns have not reached.
  lemma OwnLeftOver(view: View, q: seq<Envelope>, n: nat, a: Address)
    requires FateOf(view, a) != Waiting
    ensures Own(Rotated(q, StuckEnvelopes(view, q), n), a) == Own(q[Min(n, |q|)..], a)
  {
    var stuck := StuckEnvelopes(view, q);
    if n <= |q| {
      FirstRound(q, stuck, n);
      StuckAreFated(view, q[..n], q);
      OwnFated(view, q[..n], Waiting, a);
      OwnBoth(q[n..], Among(q[..n], stuck), a);
    } else {
      LateAreStuck(q, stuck, n, n - |q|);
      NoneOwn(Rotated(q, stuck, n), a);
    }
  }

  lemma {:induction false} NoneOwn(es: seq<Envelope>, a: Address)
    requires forall e :: e in es ==> e.dest != a
    ensures Own(es, a) == []
    decreases |es|
  {
    if es != [] {
      assert es[|es| - 1] in es;
      NoneOwn(es[..|es| - 1], a);
    }
  }

  // The envelopes of a stuck address are among the stuck ones.
  lemma OwnOfRotated(view: View, q: seq<Envelope>, n: nat, a: Address)
    requires FateOf(view, a) == Waiting
    ensures Own(Rotated(q, StuckEnvelopes(view, q), n), a) ==
              Own(Among(Rotated(q, StuckEnvelopes(view, q), n), StuckEnvelopes(view, q)), a)
  {
    var stuck := StuckEnvelopes(view, q);
    var r := Rotated(q, stuck, n);
    FromQueue(q, stuck, n);
    StuckAreFated(view, r, q);
    OwnFated(view, r, Waiting, a);
  }

  lemma Cancel(x: seq<Envelope>, y: seq<Envelope>, z: seq<Envelope>)
    ensures x + z == y + z <==> x == y
  {
    if x + z == y + z {
      assert x == (x + z)[..|x|] && y == (y + z)[..|y|];
    }
  }

  /** Exchanging two parts of a list without repetitions changes it, unless one of them is empty. */
  lemma ExchangeChanges(x: seq<Envelope>, y: seq<Envelope>)
    ensures x == [] || y == [] ==> y + x == x + y
    ensures NoRepeats(x + y) && y + x == x + y ==> x == [] || y == []
  {
    if x != [] && y != [] {
      assert (x + y)[0] == x[0] && (x + y)[|x|] == y[0] && (y + x)[0] == y[0];
    } else {
      assert x + [] == x && [] + x == x && y + [] == y && [] + y == y;
    }
  }

  /** The retained envelopes of the address all lie on one side of the point where the loop stops. */
  predicate OneSided(view: View, q: seq<Envelope>, budget: nat, a: Address) {
    var stuck := StuckEnvelopes(view, q);
    var u := Among(q, stuck);
    u == [] || (var p := TurningPoint(q, stuck, budget);
                p <= |u| && (Own(u[..p], a) == [] || Own(u[p..], a) == []))
  }

  lemma OwnOfTurned(u: seq<Envelope>, p: nat, a: Address)
    requires p <= |u|
    ensures Own(u, a) == Own(u[..p], a) + Own(u[p..], a)
    ensures Own(Turned(u, p), a) == Own(u[p..], a) + Own(u[..p], a)
  {
    OwnCut(u, p, a);
    OwnBoth(u[p..], u[..p], a);
  }

  lemma OwnIsTurned(view: View, q: seq<Envelope>, n: nat, a: Address)
    requires FateOf(view, a) == Waiting && !AllCanSettle(view, q)
    ensures var stuck := StuckEnvelopes(view, q);
            var u := Among(q, stuck);
            && u != [] && TurningPoint(q, stuck, n) <= |u|
            && var p := TurningPoint(q, stuck, n);
            && Own(q, a) == Own(u[..p], a) + Own(u[p..], a)
            && Own(Rotated(q, stuck, n), a) == Own(u[p..], a) + Own(u[..p], a)
  {
    var stuck := StuckEnvelopes(view, q);
    var u := Among(q, stuck);
    StuckAreFated(view, q, q);
    FreeMeans(view, q);
    StuckAreTurned(q, stuck, n);
    OwnFated(view, q, Waiting, a);
    OwnOfRotated(view, q, n, a);
    OwnOfTurned(u, TurningPoint(q, stuck, n), a);
  }

  // How the parts of a drain line up for an address that waits, lands or is dropped.
  lemma WaitingEnds(left: seq<Envelope>, reached: seq<Envelope>, rest: seq<Envelope>)
    ensures [] + [] + (left + reached) + rest == left + (reached + rest)
  {
  }

  lemma SettledEnds(done: seq<Envelope>, left: seq<Envelope>, reached: seq<Envelope>, rest: seq<Envelope>)
    requires left == [] || reached == []
    ensures (done + reached) + [] + (left + []) + rest == (done + left) + (reached + rest)
    ensures [] + (done + reached) + (left + []) + rest == (done + left) + (reached + rest)
  {
  }

  lemma StuckOrderIff(view: View, q: seq<Envelope>, t: seq<Envelope>, budget: nat, a: Address)
    requires FateOf(view, a) == Waiting && !AllCanSettle(view, q)
    ensures OneSided(view, q, budget, a) ==> OrderKept(view, q, t, budget, a)
    ensures NoRepeats(Own(q, a)) && OrderKept(view, q, t, budget, a) ==> OneSided(view, q, budget, a)
  {
    var stuck := StuckEnvelopes(view, q);
    OwnDone(view, q, budget, t[..0], t[0..], a);
    OwnKept(view, q, budget, t[..0], t[0..], a);
    OwnCut(t, 0, a);
    OwnIsTurned(view, q, budget, a);
    var u, p := Among(q, stuck), TurningPoint(q, stuck, budget);
    var x, y := Own(u[..p], a), Own(u[p..], a);
    ExchangeChanges(x, y);
    Cancel(y + x, x + y, Own(t, a));
    WaitingEnds(y + x, Own(t[..0], a), Own(t[0..], a));
  }

  lemma SettledLine(d: Drainage, a: Address, landing: bool,
      done: seq<Envelope>, left: seq<Envelope>, more: seq<Envelope>, behind: seq<Envelope>)
    requires Own(d.landed, a) == if landing then done + more else []
    requires Own(d.dropped, a) == if landing then [] else done + more
    requires Own(d.deferred, a) == left + [] && Own(d.transfers, a) == behind && (left == [] || more == [])
    ensures InLine(d, a) == (done + left) + (more + behind)
  {
    SettledEnds(done, left, more, behind);
  }

  // What an address that is not stuck has done, left, reached and behind.
  lemma OwnParts(view: View, q: seq<Envelope>, n: nat, reached: seq<Envelope>, rest: seq<Envelope>, a: Address)
    requires FateOf(view, a) != Waiting
    ensures var d, m := DrainTo(view, q, n, reached, rest), Min(n, |q|);
            && Own(d.deferred, a) == Own(q[m..], a) + [] && Own(d.transfers, a) == Own(rest, a)
            && Own(q, a) == Own(q[..m], a) + Own(q[m..], a)
  {
    OwnKept(view, q, n, reached, rest, a);
    OwnLeftOver(view, q, n, a);
    OwnCut(q, Min(n, |q|), a);
  }

  lemma FreeOrderKept(view: View, q: seq<Envelope>, n: nat, reached: seq<Envelope>, rest: seq<Envelope>, a: Address)
    requires FateOf(view, a) != Waiting && (n < |q| ==> reached == [])
    ensures InLine(DrainTo(view, q, n, reached, rest), a) == Own(q, a) + (Own(reached, a) + Own(rest, a))
  {
    var m := Min(n, |q|);
    OwnDone(view, q, n, reached, rest, a);
    OwnParts(view, q, n, reached, rest, a);
    if n >= |q| { assert q[m..] == []; }
    SettledLine(DrainTo(view, q, n, reached, rest), a, FateOf(view, a) == Landing,
                Own(q[..m], a), Own(q[m..], a), Own(reached, a), Own(rest, a));
  }

  lemma AbsentOrderKept(view: View, q: seq<Envelope>, n: nat, reached: seq<Envelope>, rest: seq<Envelope>, a: Address)
    requires n <= |q| && FateOf(view, a) == Waiting && AllCanSettle(view, q)
    ensures InLine(DrainTo(view, q, n, reached, rest), a) == Own(q, a) + (Own(reached, a) + Own(rest, a))
  {
    OwnDone(view, q, n, reached, rest, a);
    OwnKept(view, q, n, reached, rest, a);
    FreeTurns(view, q, n);
    NoneOwn(q, a);
    NoneOwn(q[n..], a);
    WaitingEnds([], Own(reached, a), Own(rest, a));
  }

  /**
   A pass keeps the order of an address's envelopes if and only if the address is not stuck, or its
   retained envelopes all lie on one side of the point where the loop over them stops. Only for the one
   direction do they have to differ: equal ones may be exchanged unnoticed.
   */
  lemma OrderKeptIff(view: View, q: seq<Envelope>, t: seq<Envelope>, budget: nat, a: Address)
    ensures var safe := FateOf(view, a) != Waiting || OneSided(view, q, budget, a);
            && (safe ==> OrderKept(view, q, t, budget, a))
            && (NoRepeats(Own(q, a)) ==> (OrderKept(view, q, t, budget, a) <==> safe))
  {
    var free := AllCanSettle(view, q);
    var n, k := Turns(free, |q|, budget), Reach(free, |q|, |t|, budget);
    OwnCut(t, k, a);
    if FateOf(view, a) != Waiting {
      FreeOrderKept(view, q, n, t[..k], t[k..], a);
    } else if free {
      AbsentOrderKept(view, q, n, t[..k], t[k..], a);
      FreeMeans(view, q);
      StuckAreFated(view, q, q);
    } else {
      StuckOrderIff(view, q, t, budget, a);
    }
  }

  lemma {:induction false} AllOwn(es: seq<Envelope>, a: Address)
    requires forall e :: e in es ==> e.dest == a
    ensures Own(es, a) == es
    decreases |es|
  {
    if es != [] {
      assert es[|es| - 1] in es;
      AllOwn(es[..|es| - 1], a);
    }
  }

  /** A pass with a budget of one over two messages for one actor that is not yet installed. */
  lemma OneTurnOfTwo(view: View, q: seq<Envelope>, r: seq<Envelope>, a: Address)
    requires |q| == 2 && r == [q[1], q[0]] && q[0].dest == q[1].dest == a && FateOf(view, a) == Waiting
    ensures Drain(view, q, [], 1) == Drainage([], [], r, [])
  {
    assert q[0] in q && !AllCanSettle(view, q);
    RetainedTurn(view, q, 0);
    SettledOneMore(view, q, 0, Landing);
    SettledOneMore(view, q, 0, Dropping);
    var none: seq<Envelope> := [];
    var d := DrainTo(view, q, 1, none, none);
    assert d.landed == [];
    assert d.dropped == [];
    assert d.deferred == r;
    assert none[..0] == none && none[0..] == none;
  }

  lemma KeptInLine(es: seq<Envelope>, a: Address)
    requires forall e :: e in es ==> e.dest == a
    ensures InLine(Drainage([], [], es, []), a) == es
    ensures Own(es, a) + Own([], a) == es
  {
    AllOwn(es, a);
  }

  lemma ReorderedIsNotKept(view: View, q: seq<Envelope>, r: seq<Envelope>, budget: nat, a: Address)
    requires Drain(view, q, [], budget) == Drainage([], [], r, []) && |q| == |r| > 0 && q[0] != r[0]
    requires (forall e :: e in q ==> e.dest == a) && (forall e :: e in r ==> e.dest == a)
    ensures !OrderKept(view, q, [], budget, a)
  {
    KeptInLine(q, a);
    KeptInLine(r, a);
  }

  lemma BothOwn(q: seq<Envelope>, a: Address)
    requires |q| == 2 && q[0].dest == q[1].dest == a
    ensures forall e :: e in q ==> e.dest == a
  {
  }

  lemma TwoAreReordered(view: View, q: seq<Envelope>, r: seq<Envelope>, a: Address)
    requires |q| == 2 && r == [q[1], q[0]] && q[0].dest == q[1].dest == a && q[0] != q[1] && FateOf(view, a) == Waiting
    ensures Drain(view, q, [], 1).deferred == r && !OrderKept(view, q, [], 1, a)
  {
    BothOwn(q, a);
    BothOwn(r, a);
    OneTurnOfTwo(view, q, r, a);
    ReorderedIsNotKept(view, q, r, 1, a);
  }

  /**
   Two messages retained for actor 7, mapped here and not yet installed, come out of such a pass the
   other way round.
   */
  lemma RetainedAreReordered() returns (view: View, q: seq<Envelope>, r: seq<Envelope>)
    ensures view == View({}, map[7 := 0], 0) && q == [Envelope(7, User(1)), Envelope(7, User(2))] && r == [q[1], q[0]]
    ensures Drain(view, q, [], 1).deferred == r && !OrderKept(view, q, [], 1, 7)
  {
    view, q := View({}, map[7 := 0], 0), [Envelope(7, User(1)), Envelope(7, User(2))];
    r := [q[1], q[0]];
    TwoAreReordered(view, q, r, 7);
  }
}
