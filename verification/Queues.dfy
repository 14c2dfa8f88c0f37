/** Queues: what has left the front, and what a loop does that puts back what it cannot settle. */
module Queues {
  import Arithmetic

  function Min(a: nat, b: nat): (m: nat) {
    if a <= b then a else b
  }

  // ─── leaving the front ─────────────────────────────────────────────────────

  /** At least so many have left the front of a queue; what is left of it comes before what has arrived since. */
  ghost predicate Drained<T>(before: seq<T>, after: seq<T>, least: nat) {
    exists n :: least <= n <= |before| && before[n..] <= after
  }

  lemma DrainedBy<T>(before: seq<T>, after: seq<T>, n: nat, least: nat)
    requires least <= n <= |before| && before[n..] <= after
    ensures Drained(before, after, least)
  {
  }

  lemma PrefixAfter<T>(a: seq<T>, b: seq<T>, m: nat)
    requires a <= b && m <= |a|
    ensures a[m..] <= b[m..]
  {
  }

  lemma DrainedOn<T>(before: seq<T>, middle: seq<T>, after: seq<T>, least: nat, more: nat)
    requires Drained(before, middle, least) && Drained(middle, after, more)
    ensures Drained(before, after, least)
  {
    var n :| least <= n <= |before| && before[n..] <= middle;
    var m :| more <= m <= |middle| && middle[m..] <= after;
    if n + m <= |before| {
      PrefixAfter(before[n..], middle, m);
      assert before[n + m..] == before[n..][m..];
      DrainedBy(before, after, n + m, least);
    } else {
      assert before[|before|..] == [];
      DrainedBy(before, after, |before|, least);
    }
  }

  lemma DrainedSince<T>(before: seq<T>, grown: seq<T>, after: seq<T>, least: nat, more: nat)
    requires before <= grown && Drained(grown, after, more) && least <= more && least <= |before|
    ensures Drained(before, after, least)
  {
    var n :| more <= n <= |grown| && grown[n..] <= after;
    if n <= |before| {
      assert before[n..] <= grown[n..];
      DrainedBy(before, after, n, least);
    } else {
      assert before[|before|..] == [];
      DrainedBy(before, after, |before|, least);
    }
  }

  lemma DrainedNone<T>(before: seq<T>, after: seq<T>)
    requires before <= after
    ensures Drained(before, after, 0)
  {
    assert before[0..] == before;
    DrainedBy(before, after, 0, 0);
  }

  lemma Grouped<T>(a: seq<T>, b: seq<T>, c: seq<T>)
    ensures a + b + c == a + (b + c)
  {
  }

  lemma PutTogether<T>(a: seq<T>, b: seq<T>)
    ensures multiset(a + b) == multiset(a) + multiset(b)
  {
  }

  // ─── how far a budget reaches ──────────────────────────────────────────────

  /** How many turns a loop over `n` retained entries makes; one that is stuck uses up the whole budget. */
  function Turns(free: bool, n: nat, budget: nat): (turns: nat) {
    if !free then budget else if budget == 0 then n else Min(n, budget)
  }

  /** How many of `m` queued entries are reached after that. */
  function Reach(free: bool, n: nat, m: nat, budget: nat): (reach: nat)
    ensures reach <= m
  {
    if !free then 0 else if budget == 0 then m else Min(m, budget - Min(n, budget))
  }

  // ─── taking the front and putting it back ──────────────────────────────────

  /** One turn of a loop that takes the front, and puts it back at the end if it is stuck. */
  function Turn<T(==)>(queue: seq<T>, stuck: set<T>): (queue': seq<T>) {
    if queue == [] then [] else if queue[0] in stuck then queue[1..] + [queue[0]] else queue[1..]
  }

  function Rotated<T(==)>(queue: seq<T>, stuck: set<T>, n: nat): (queue': seq<T>) {
    if n == 0 then queue else Turn(Rotated(queue, stuck, n - 1), stuck)
  }

  /** Those entries that are in a set, in order. */
  function Among<T(==)>(queue: seq<T>, s: set<T>): (some: seq<T>) {
    if queue == [] then []
    else Among(queue[..|queue| - 1], s) + if queue[|queue| - 1] in s then [queue[|queue| - 1]] else []
  }

  lemma AmongOneMore<T>(queue: seq<T>, x: T, s: set<T>)
    ensures Among(queue + [x], s) == Among(queue, s) + if x in s then [x] else []
  {
    assert (queue + [x])[..|queue|] == queue;
  }

  lemma {:induction false} AmongMeans<T>(queue: seq<T>, s: set<T>, x: T)
    ensures x in Among(queue, s) <==> x in queue && x in s
    decreases |queue|
  {
    if queue != [] {
      AmongMeans(queue[..|queue| - 1], s, x);
      assert queue == queue[..|queue| - 1] + [queue[|queue| - 1]];
    }
  }

  // What a turn does to a queue whose front is known.
  lemma TurnOf<T>(first: T, rest: seq<T>, stuck: set<T>)
    ensures Turn([first] + rest, stuck) == rest + if first in stuck then [first] else []
  {
    assert ([first] + rest)[1..] == rest;
  }

  /** As long as the loop has not come round, what is left of the queue comes before what was put back. */
  lemma {:induction false} FirstRound<T>(queue: seq<T>, stuck: set<T>, n: nat)
    requires n <= |queue|
    ensures Rotated(queue, stuck, n) == queue[n..] + Among(queue[..n], stuck)
    decreases n
  {
    if n > 0 {
      var x := queue[n - 1];
      FirstRound(queue, stuck, n - 1);
      var back := Among(queue[..n - 1], stuck);
      assert queue[n - 1..] + back == [x] + (queue[n..] + back);
      TurnOf(x, queue[n..] + back, stuck);
      assert queue[..n] == queue[..n - 1] + [x];
      AmongOneMore(queue[..n - 1], x, stuck);
    }
  }

  lemma {:induction false} RotatedOn<T>(queue: seq<T>, stuck: set<T>, n: nat, m: nat)
    ensures Rotated(queue, stuck, n + m) == Rotated(Rotated(queue, stuck, n), stuck, m)
    decreases m
  {
    if m > 0 { RotatedOn(queue, stuck, n, m - 1); }
  }

  /** A queue cut at a point, with the two parts exchanged. */
  function Turned<T>(queue: seq<T>, p: nat): (queue': seq<T>)
    requires p <= |queue|
  {
    queue[p..] + queue[..p]
  }

  /** Where a full circle of `n` stands after `m` steps. */
  function Point(m: nat, n: nat): (p: nat)
    requires n > 0
    ensures p < n
  {
    if m == 0 then 0
    else
      var p := Point(m - 1, n);
      if p + 1 == n then 0 else p + 1
  }

  lemma {:induction false} PointIsRemainder(m: nat, n: nat)
    requires n > 0
    ensures Point(m, n) == m % n
    decreases m
  {
    if m == 0 {
      Arithmetic.ModUnique(0, 0, 0, n);
    } else {
      PointIsRemainder(m - 1, n);
      if n == 1 { Arithmetic.ModUnique(m, m, 0, 1); } else { Arithmetic.RemainderCarries(m - 1, 1, n); }
    }
  }

  lemma TurnTurned<T>(queue: seq<T>, stuck: set<T>, p: nat)
    requires p < |queue| && queue[p] in stuck
    ensures Turn(Turned(queue, p), stuck) == Turned(queue, if p + 1 == |queue| then 0 else p + 1)
  {
    assert Turned(queue, p) == [queue[p]] + (queue[p + 1..] + queue[..p]);
    TurnOf(queue[p], queue[p + 1..] + queue[..p], stuck);
    assert queue[p + 1..] + queue[..p] + [queue[p]] == queue[p + 1..] + queue[..p + 1];
  }

  /** A queue of stuck entries only goes round. */
  lemma {:induction false} LaterRounds<T>(queue: seq<T>, stuck: set<T>, m: nat)
    requires queue != [] && forall x :: x in queue ==> x in stuck
    ensures Rotated(queue, stuck, m) == Turned(queue, Point(m, |queue|))
    decreases m
  {
    if m == 0 {
      assert Turned(queue, 0) == queue;
    } else {
      LaterRounds(queue, stuck, m - 1);
      TurnTurned(queue, stuck, Point(m - 1, |queue|));
    }
  }

  /** Where the stuck entries are cut after `n` turns; beyond a full round this is the remainder of the turns. */
  function TurningPoint<T(==)>(queue: seq<T>, stuck: set<T>, n: nat): (p: nat)
    requires Among(queue, stuck) != []
  {
    if n <= |queue| then |Among(queue[..n], stuck)| else Point(n - |queue|, |Among(queue, stuck)|)
  }

  lemma {:induction false} AmongBoth<T>(a: seq<T>, b: seq<T>, s: set<T>)
    ensures Among(a + b, s) == Among(a, s) + Among(b, s)
    decreases |b|
  {
    if b == [] {
      assert a + b == a;
    } else {
      var front, last := b[..|b| - 1], b[|b| - 1];
      AmongBoth(a, front, s);
      assert a + b == (a + front) + [last];
      AmongOneMore(a + front, last, s);
    }
  }

  lemma FullRound<T>(queue: seq<T>, stuck: set<T>)
    ensures Rotated(queue, stuck, |queue|) == Among(queue, stuck)
  {
    FirstRound(queue, stuck, |queue|);
    assert queue[..|queue|] == queue;
  }

  lemma OnlyStuckLeft<T>(queue: seq<T>, stuck: set<T>)
    ensures forall x :: x in Among(queue, stuck) ==> x in stuck
  {
    forall x | x in Among(queue, stuck) ensures x in stuck { AmongMeans(queue, stuck, x); }
  }

  /** After a full round only stuck entries are left, and they only go round. */
  lemma AfterFirstRound<T>(queue: seq<T>, stuck: set<T>, m: nat)
    ensures var u, left := Among(queue, stuck), Rotated(queue, stuck, |queue| + m);
            && (u == [] ==> left == [])
            && (u != [] ==> left == Turned(u, Point(m, |u|)))
  {
    FullRound(queue, stuck);
    RotatedOn(queue, stuck, |queue|, m);
    var u := Among(queue, stuck);
    if u == [] {
      EmptyStays(stuck, m);
    } else {
      OnlyStuckLeft(queue, stuck);
      LaterRounds(u, stuck, m);
    }
  }

  lemma {:induction false} EmptyStays<T>(stuck: set<T>, n: nat)
    ensures Rotated([], stuck, n) == []
    decreases n
  {
    if n > 0 { EmptyStays(stuck, n - 1); }
  }

  lemma TurnedIsSame<T>(queue: seq<T>, p: nat)
    requires p <= |queue|
    ensures multiset(Turned(queue, p)) == multiset(queue)
    ensures forall x :: x in Turned(queue, p) <==> x in queue
  {
    assert queue == queue[..p] + queue[p..];
    assert multiset(Turned(queue, p)) == multiset(queue);
    forall x ensures x in Turned(queue, p) <==> x in queue {
      assert x in multiset(Turned(queue, p)) <==> x in multiset(queue);
    }
  }

  lemma LateAreStuck<T>(queue: seq<T>, stuck: set<T>, n: nat, m: nat)
    requires n == |queue| + m
    ensures forall x :: x in Rotated(queue, stuck, n) ==> x in stuck
    ensures multiset(Rotated(queue, stuck, n)) == multiset(Among(queue, stuck))
  {
    AfterFirstRound(queue, stuck, m);
    OnlyStuckLeft(queue, stuck);
    var u := Among(queue, stuck);
    if u != [] { TurnedIsSame(u, Point(m, |u|)); }
  }

  lemma TurnedEarly<T>(queue: seq<T>, stuck: set<T>, n: nat)
    requires n <= |queue|
    ensures var a, b := Among(queue[..n], stuck), Among(queue[n..], stuck);
            Among(queue, stuck) == a + b && Among(Rotated(queue, stuck, n), stuck) == b + a
  {
    var front, rest := queue[..n], queue[n..];
    FirstRound(queue, stuck, n);
    assert queue == front + rest;
    PartsExchanged(front, rest, stuck);
  }

  lemma PartsExchanged<T>(front: seq<T>, rest: seq<T>, s: set<T>)
    ensures Among(front + rest, s) == Among(front, s) + Among(rest, s)
    ensures Among(rest + Among(front, s), s) == Among(rest, s) + Among(front, s)
  {
    AmongBoth(front, rest, s);
    AmongBoth(rest, Among(front, s), s);
    AmongTwice(front, s);
  }

  lemma TurnedLate<T>(queue: seq<T>, stuck: set<T>, m: nat)
    requires Among(queue, stuck) != []
    ensures var u := Among(queue, stuck);
            Among(Rotated(queue, stuck, |queue| + m), stuck) == Turned(u, Point(m, |u|))
  {
    var u := Among(queue, stuck);
    AfterFirstRound(queue, stuck, m);
    OnlyStuckLeft(queue, stuck);
    TurnedIsSame(u, Point(m, |u|));
    AmongAll(Turned(u, Point(m, |u|)), stuck);
  }

  /** Either way, the stuck entries are cut at the turning point and the two parts exchanged. */
  lemma StuckAreTurned<T>(queue: seq<T>, stuck: set<T>, n: nat)
    requires Among(queue, stuck) != []
    ensures TurningPoint(queue, stuck, n) <= |Among(queue, stuck)|
    ensures Among(Rotated(queue, stuck, n), stuck) == Turned(Among(queue, stuck), TurningPoint(queue, stuck, n))
  {
    if n <= |queue| {
      TurnedEarly(queue, stuck, n);
      var a, b := Among(queue[..n], stuck), Among(queue[n..], stuck);
      assert (a + b)[..|a|] == a && (a + b)[|a|..] == b;
    } else {
      TurnedLate(queue, stuck, n - |queue|);
    }
  }

  lemma {:induction false} AmongAll<T>(queue: seq<T>, s: set<T>)
    requires forall x :: x in queue ==> x in s
    ensures Among(queue, s) == queue
    decreases |queue|
  {
    if queue != [] {
      AmongAll(queue[..|queue| - 1], s);
      assert queue == queue[..|queue| - 1] + [queue[|queue| - 1]];
    }
  }

  lemma AmongTwice<T>(queue: seq<T>, s: set<T>)
    ensures Among(Among(queue, s), s) == Among(queue, s)
  {
    OnlyStuckLeft(queue, s);
    AmongAll(Among(queue, s), s);
  }

  lemma {:induction false} FromQueue<T>(q: seq<T>, stuck: set<T>, n: nat)
    ensures forall x :: x in Rotated(q, stuck, n) ==> x in q
    decreases n
  {
    if n > 0 { FromQueue(q, stuck, n - 1); }
  }

  lemma FrontFromQueue<T>(q: seq<T>, stuck: set<T>, n: nat)
    requires Rotated(q, stuck, n) != []
    ensures Rotated(q, stuck, n)[0] in q
  {
    FromQueue(q, stuck, n);
  }

  // ─── whether the loop ends by itself ───────────────────────────────────────

  lemma {:induction false} StuckStays<T>(queue: seq<T>, stuck: set<T>, x: T, n: nat)
    requires x in queue && x in stuck
    ensures x in Rotated(queue, stuck, n)
    decreases n
  {
    if n > 0 {
      StuckStays(queue, stuck, x, n - 1);
      var before := Rotated(queue, stuck, n - 1);
      assert before == [before[0]] + before[1..];
      TurnOf(before[0], before[1..], stuck);
    }
  }

  ghost predicate RunsEmpty<T>(queue: seq<T>, stuck: set<T>) {
    exists n: nat :: Rotated(queue, stuck, n) == []
  }

  lemma RunsEmptyIff<T>(queue: seq<T>, stuck: set<T>)
    ensures RunsEmpty(queue, stuck) <==> forall x :: x in queue ==> x !in stuck
  {
    if x :| x in queue && x in stuck {
      forall n: nat ensures Rotated(queue, stuck, n) != [] {
        StuckStays(queue, stuck, x, n);
      }
    } else {
      FullRound(queue, stuck);
      if Among(queue, stuck) != [] {
        AmongMeans(queue, stuck, Among(queue, stuck)[0]);
        assert false;
      }
      assert Rotated(queue, stuck, |queue|) == [];
    }
  }

  // ─── a drain that keeps what is stuck ──────────────────────────────────────

  /** Those entries that are not in a set, in order. */
  function Apart<T(==)>(queue: seq<T>, s: set<T>): (some: seq<T>) {
    if queue == [] then []
    else Apart(queue[..|queue| - 1], s) + if queue[|queue| - 1] in s then [] else [queue[|queue| - 1]]
  }

  lemma ApartOneMore<T>(queue: seq<T>, x: T, s: set<T>)
    ensures Apart(queue + [x], s) == Apart(queue, s) + if x in s then [] else [x]
  {
    assert (queue + [x])[..|queue|] == queue;
  }

  // One more entry taken off a queue, behind what was settled and kept before.
  lemma OneMoreTaken<T>(done: seq<T>, kept: seq<T>, q: seq<T>, s: set<T>, n: nat)
    requires n < |q|
    ensures done + Apart(q[..n], s) + (if q[n] in s then [] else [q[n]]) == done + Apart(q[..n + 1], s)
    ensures kept + Among(q[..n], s) + (if q[n] in s then [q[n]] else []) == kept + Among(q[..n + 1], s)
  {
    assert q[..n + 1] == q[..n] + [q[n]];
    ApartOneMore(q[..n], q[n], s);
    AmongOneMore(q[..n], q[n], s);
    Grouped(done, Apart(q[..n], s), if q[n] in s then [] else [q[n]]);
    Grouped(kept, Among(q[..n], s), if q[n] in s then [q[n]] else []);
  }

  lemma OneMoreOf<T>(es: seq<T>, x: T, a: seq<T>, b: seq<T>)
    requires multiset(es) == multiset(a) + multiset(b)
    ensures multiset(es + [x]) == multiset(a + [x]) + multiset(b)
    ensures multiset(es + [x]) == multiset(a) + multiset(b + [x])
  {
  }

  lemma {:induction false} PartsAddUp<T>(queue: seq<T>, s: set<T>)
    ensures multiset(queue) == multiset(Apart(queue, s)) + multiset(Among(queue, s))
    decreases |queue|
  {
    if queue != [] {
      var front, last := queue[..|queue| - 1], queue[|queue| - 1];
      PartsAddUp(front, s);
      OneMoreOf(front, last, Apart(front, s), Among(front, s));
      assert queue == front + [last];
      if last in s {
        assert Among(queue, s) == Among(front, s) + [last] && Apart(queue, s) == Apart(front, s);
      } else {
        assert Apart(queue, s) == Apart(front, s) + [last] && Among(queue, s) == Among(front, s);
      }
    }
  }

  /** What a turn takes after `n` turns, and what is settled and left then. */
  lemma OneTurn<T>(queue: seq<T>, stuck: set<T>, n: nat)
    requires Rotated(queue, stuck, n) != []
    ensures var r := Rotated(queue, stuck, n);
            && (n < |queue| ==> r[0] == queue[n])
            && (n >= |queue| ==> r[0] in stuck)
            && Rotated(queue, stuck, n + 1) == r[1..] + if r[0] in stuck then [r[0]] else []
  {
    var r := Rotated(queue, stuck, n);
    if n < |queue| {
      FirstRound(queue, stuck, n);
    } else {
      LateAreStuck(queue, stuck, n, n - |queue|);
      assert r[0] in r;
    }
  }

  lemma SettledInTurn<T>(queue: seq<T>, stuck: set<T>, n: nat)
    requires Rotated(queue, stuck, n) != []
    ensures var x := Rotated(queue, stuck, n)[0];
            Apart(queue[..Min(n + 1, |queue|)], stuck) ==
              Apart(queue[..Min(n, |queue|)], stuck) + if x in stuck then [] else [x]
  {
    OneTurn(queue, stuck, n);
    if n < |queue| {
      assert queue[..n + 1] == queue[..n] + [queue[n]];
      ApartOneMore(queue[..n], queue[n], stuck);
    }
  }

  predicate Free<T(==)>(queue: seq<T>, stuck: set<T>) {
    forall x :: x in queue ==> x !in stuck
  }

  lemma FreeTurn<T>(queue: seq<T>, stuck: set<T>, n: nat)
    requires Free(queue, stuck) && n <= |queue|
    ensures Rotated(queue, stuck, n) == queue[n..]
  {
    FirstRound(queue, stuck, n);
    var back := Among(queue[..n], stuck);
    if back != [] {
      AmongMeans(queue[..n], stuck, back[0]);
      assert false;
    }
  }

  /** What is settled, kept and left of a retained queue and another behind it. */
  datatype Yield<T> = Yield(done: seq<T>, kept: seq<T>, rest: seq<T>)

  function WorkedOff<T(==)>(q: seq<T>, n: nat, reached: seq<T>, rest: seq<T>, stuck: set<T>): (o: Yield<T>) {
    Yield(Apart(q[..Min(n, |q|)], stuck) + Apart(reached, stuck),
          Rotated(q, stuck, n) + Among(reached, stuck),
          rest)
  }

  lemma RetainedAddUp<T>(q: seq<T>, n: nat, stuck: set<T>)
    ensures multiset(q) == multiset(Apart(q[..Min(n, |q|)], stuck)) + multiset(Rotated(q, stuck, n))
  {
    var front, rest := q[..Min(n, |q|)], q[Min(n, |q|)..];
    PartsAddUp(front, stuck);
    assert q == front + rest;
    if n <= |q| {
      FirstRound(q, stuck, n);
      PutTogether(front, rest);
      PutTogether(rest, Among(front, stuck));
    } else {
      assert front == q;
      LateAreStuck(q, stuck, n, n - |q|);
    }
  }

  lemma ThreeWays<T>(q: seq<T>, a: seq<T>, b: seq<T>, t: seq<T>, a': seq<T>, b': seq<T>, rest: seq<T>)
    requires multiset(q) == multiset(a) + multiset(b) && multiset(t) == multiset(a') + multiset(b')
    ensures multiset(q) + multiset(t + rest) == multiset(a + a') + multiset(b + b') + multiset(rest)
  {
    PutTogether(t, rest);
    PutTogether(a, a');
    PutTogether(b, b');
  }

  lemma WorkedOffAddsUp<T>(q: seq<T>, n: nat, reached: seq<T>, rest: seq<T>, stuck: set<T>)
    ensures var o := WorkedOff(q, n, reached, rest, stuck);
            multiset(q) + multiset(reached + rest) == multiset(o.done) + multiset(o.kept) + multiset(o.rest)
  {
    RetainedAddUp(q, n, stuck);
    PartsAddUp(reached, stuck);
    ThreeWays(q, Apart(q[..Min(n, |q|)], stuck), Rotated(q, stuck, n),
              reached, Apart(reached, stuck), Among(reached, stuck), rest);
  }
}
