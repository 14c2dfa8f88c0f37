/** A worker's delivery phases are runs of the delivery protocol: message by message, and in the same order. */
module WorkerDelivery {
  import D = Delivery
  import opened ActorSlots
  import opened Queues
  import opened Routing

  // ─── how the two relate ────────────────────────────────────────────────────

  /** What worker `w` goes by is what the protocol knows of it. */
  ghost predicate Viewed(s: D.State, w: nat, view: View) {
    && view.id == w && view.addressMap == s.addressMap
    && (forall a :: a in view.keys <==> D.InPool(s, a) && a in s.home && s.home[a] == w)
  }

  /** The same messages, as envelopes and as the protocol names them. */
  predicate Same(es: seq<Envelope>, ms: seq<D.Msg>) {
    |es| == |ms| && forall i :: 0 <= i < |es| ==> es[i].dest == ms[i].dest
  }

  /** These have come in at the back of a place since. */
  predicate Added(before: seq<D.Msg>, after: seq<D.Msg>, es: seq<Envelope>) {
    before <= after && Same(es, after[|before|..])
  }

  predicate SameRest(s0: D.State, s: D.State) {
    s.addressMap == s0.addressMap && s.home == s0.home && s.stage == s0.stage
  }

  /** What has been retained, is left of one queue, was delivered and was dropped since `s0`, on both sides. */
  ghost predicate Linked(
    s0: D.State, s: D.State, w: nat, source: D.Place, q: seq<Envelope>, t: seq<Envelope>,
    landed: seq<Envelope>, dropped: seq<Envelope>)
  {
    && SameRest(s0, s)
    && Same(q, D.At(s, D.Deferred(w))) && Same(t, D.At(s, source))
    && (forall a :: Added(D.At(s0, D.Mailbox(a)), D.At(s, D.Mailbox(a)), Own(landed, a)))
    && Added(D.At(s0, D.Dropped), D.At(s, D.Dropped), dropped)
  }

  predicate Feeds(source: D.Place, w: nat) {
    source == D.Transfer(w) || source == D.Pending(w)
  }

  // ─── one message ───────────────────────────────────────────────────────────

  /** The worker and the protocol agree on what becomes of a message. */
  lemma FateIsSettling(s: D.State, w: nat, view: View, m: D.Msg)
    requires Viewed(s, w, view)
    ensures FateOf(view, m.dest) == Landing <==> D.Settling(s, w, m) == D.Mailbox(m.dest)
    ensures FateOf(view, m.dest) == Waiting <==> D.Settling(s, w, m) == D.Deferred(w)
    ensures FateOf(view, m.dest) == Dropping <==> D.Settling(s, w, m) == D.Dropped
  {
  }

  lemma SameTail(es: seq<Envelope>, ms: seq<D.Msg>)
    requires Same(es, ms) && es != []
    ensures Same(es[1..], ms[1..]) && es[0].dest == ms[0].dest
  {
  }

  lemma SameOneMore(es: seq<Envelope>, ms: seq<D.Msg>, e: Envelope, m: D.Msg)
    requires Same(es, ms) && e.dest == m.dest
    ensures Same(es + [e], ms + [m])
  {
  }

  lemma AddedOneMore(before: seq<D.Msg>, after: seq<D.Msg>, es: seq<Envelope>, e: Envelope, m: D.Msg)
    requires Added(before, after, es) && e.dest == m.dest
    ensures Added(before, after + [m], es + [e])
  {
    assert (after + [m])[|before|..] == after[|before|..] + [m];
    SameOneMore(es, after[|before|..], e, m);
  }

  lemma OwnOneMore(es: seq<Envelope>, e: Envelope, a: Address)
    ensures Own(es + [e], a) == Own(es, a) + if e.dest == a then [e] else []
  {
    assert (es + [e])[..|es|] == es;
  }

  // Where everything is after the front of a queue was taken.
  lemma TakenFrom(s: D.State, source: D.Place, to: D.Place, p: D.Place)
    requires D.At(s, source) != []
    ensures var ms := D.At(s, source);
            D.At(D.Move(s, source, 0, to), p) ==
              (if p == source then ms[1..] else D.At(s, p)) + if p == to then [ms[0]] else []
  {
    assert D.Without(D.At(s, source), 0) == D.At(s, source)[1..];
    if source != to { D.MovedQueue(s, source, 0, to, p); }
  }

  /** A place after one more message has come to `to`. */
  lemma MailboxesAfter(
    s0: D.State, s: D.State, source: D.Place, to: D.Place, landed: seq<Envelope>, e: Envelope, a: Address)
    requires D.At(s, source) != [] && e.dest == D.At(s, source)[0].dest && !source.Mailbox?
    requires to.Mailbox? ==> to.actor == e.dest
    requires Added(D.At(s0, D.Mailbox(a)), D.At(s, D.Mailbox(a)), Own(landed, a))
    ensures var landed' := landed + if to.Mailbox? then [e] else [];
            Added(D.At(s0, D.Mailbox(a)), D.At(D.Move(s, source, 0, to), D.Mailbox(a)), Own(landed', a))
  {
    TakenFrom(s, source, to, D.Mailbox(a));
    OwnOneMore(landed, e, a);
    if to == D.Mailbox(a) {
      AddedOneMore(D.At(s0, to), D.At(s, to), Own(landed, a), e, D.At(s, source)[0]);
    } else {
      assert landed + [] == landed;
    }
  }

  lemma DroppedAfter(s0: D.State, s: D.State, source: D.Place, to: D.Place, dropped: seq<Envelope>, e: Envelope)
    requires D.At(s, source) != [] && e.dest == D.At(s, source)[0].dest && !source.Dropped?
    requires Added(D.At(s0, D.Dropped), D.At(s, D.Dropped), dropped)
    ensures var dropped' := dropped + if to.Dropped? then [e] else [];
            Added(D.At(s0, D.Dropped), D.At(D.Move(s, source, 0, to), D.Dropped), dropped')
  {
    TakenFrom(s, source, to, D.Dropped);
    if to.Dropped? {
      AddedOneMore(D.At(s0, to), D.At(s, to), dropped, e, D.At(s, source)[0]);
    } else {
      assert dropped + [] == dropped;
    }
  }

  function When(fate: Fate, wanted: Fate, e: Envelope): (es: seq<Envelope>) {
    if fate == wanted then [e] else []
  }

  // What a step makes of the queues, by the fate of the message taken.
  lemma RetainedAfter(s: D.State, w: nat, to: D.Place, q: seq<Envelope>)
    requires q != [] && Same(q, D.At(s, D.Deferred(w)))
    ensures Same(q[1..] + (if to == D.Deferred(w) then [q[0]] else []),
                 D.At(D.Move(s, D.Deferred(w), 0, to), D.Deferred(w)))
  {
    var ms := D.At(s, D.Deferred(w));
    TakenFrom(s, D.Deferred(w), to, D.Deferred(w));
    SameTail(q, ms);
    if to == D.Deferred(w) { SameOneMore(q[1..], ms[1..], q[0], ms[0]); }
  }

  lemma KeptAfter(s: D.State, w: nat, source: D.Place, to: D.Place, q: seq<Envelope>, e: Envelope)
    requires Feeds(source, w) && D.At(s, source) != [] && e.dest == D.At(s, source)[0].dest
    requires Same(q, D.At(s, D.Deferred(w)))
    ensures Same(q + (if to == D.Deferred(w) then [e] else []),
                 D.At(D.Move(s, source, 0, to), D.Deferred(w)))
  {
    TakenFrom(s, source, to, D.Deferred(w));
    if to == D.Deferred(w) { SameOneMore(q, D.At(s, to), e, D.At(s, source)[0]); }
  }

  /** A turn over the retained envelopes is a step of the protocol. */
  lemma RetainedStep(
    s0: D.State, s: D.State, w: nat, view: View, source: D.Place, q: seq<Envelope>, t: seq<Envelope>,
    landed: seq<Envelope>, dropped: seq<Envelope>)
    requires Viewed(s0, w, view) && Feeds(source, w) && q != [] && Linked(s0, s, w, source, q, t, landed, dropped)
    ensures D.Enabled(s, D.Take(D.Deferred(w)))
    ensures var fate := FateOf(view, q[0].dest);
            Linked(s0, D.Next(s, D.Take(D.Deferred(w))), w, source, q[1..] + When(fate, Waiting, q[0]), t,
                   landed + When(fate, Landing, q[0]), dropped + When(fate, Dropping, q[0]))
  {
    var e, m := q[0], D.At(s, D.Deferred(w))[0];
    var to := D.Settling(s, w, m);
    FateIsSettling(s, w, view, m);
    RetainedAfter(s, w, to, q);
    TakenFrom(s, D.Deferred(w), to, source);
    forall a ensures Added(D.At(s0, D.Mailbox(a)), D.At(D.Move(s, D.Deferred(w), 0, to), D.Mailbox(a)),
                           Own(landed + When(FateOf(view, e.dest), Landing, e), a)) {
      MailboxesAfter(s0, s, D.Deferred(w), to, landed, e, a);
    }
    DroppedAfter(s0, s, D.Deferred(w), to, dropped, e);
  }

  /** Taking up a queued or staged envelope is a step of the protocol. */
  lemma QueuedStep(
    s0: D.State, s: D.State, w: nat, view: View, source: D.Place, q: seq<Envelope>, t: seq<Envelope>,
    landed: seq<Envelope>, dropped: seq<Envelope>)
    requires Viewed(s0, w, view) && Feeds(source, w) && t != [] && Linked(s0, s, w, source, q, t, landed, dropped)
    ensures D.Enabled(s, D.Take(source))
    ensures var fate := FateOf(view, t[0].dest);
            Linked(s0, D.Next(s, D.Take(source)), w, source, q + When(fate, Waiting, t[0]), t[1..],
                   landed + When(fate, Landing, t[0]), dropped + When(fate, Dropping, t[0]))
  {
    var e, m := t[0], D.At(s, source)[0];
    var to := D.Settling(s, w, m);
    FateIsSettling(s, w, view, m);
    KeptAfter(s, w, source, to, q, e);
    TakenFrom(s, source, to, source);
    SameTail(t, D.At(s, source));
    forall a ensures Added(D.At(s0, D.Mailbox(a)), D.At(D.Move(s, source, 0, to), D.Mailbox(a)),
                           Own(landed + When(FateOf(view, e.dest), Landing, e), a)) {
      MailboxesAfter(s0, s, source, to, landed, e, a);
    }
    DroppedAfter(s0, s, source, to, dropped, e);
  }

  // ─── a whole phase ─────────────────────────────────────────────────────────

  lemma {:induction false} RunOneMore(s: D.State, steps: seq<D.Step>, step: D.Step)
    requires D.Runs(s, steps) && D.Enabled(D.Run(s, steps), step)
    ensures D.Runs(s, steps + [step]) && D.Run(s, steps + [step]) == D.Next(D.Run(s, steps), step)
    decreases |steps|
  {
    if steps == [] {
      assert [] + [step] == [step] && [step][1..] == [];
    } else {
      RunOneMore(D.Next(s, steps[0]), steps[1..], step);
      assert (steps + [step])[1..] == steps[1..] + [step];
    }
  }

  lemma LinkedAtFirst(s: D.State, w: nat, source: D.Place, q: seq<Envelope>, t: seq<Envelope>)
    requires Same(q, D.At(s, D.Deferred(w))) && Same(t, D.At(s, source))
    ensures Linked(s, s, w, source, q, t, [], [])
  {
  }

  lemma OneMoreTurn(view: View, q: seq<Envelope>, n: nat)
    returns (r: seq<Envelope>, landed: seq<Envelope>, dropped: seq<Envelope>)
    requires Rotated(q, StuckEnvelopes(view, q), n) != []
    ensures r == Rotated(q, StuckEnvelopes(view, q), n) && r != []
    ensures landed == Settled(view, q, n, Landing) && dropped == Settled(view, q, n, Dropping)
    ensures var fate := FateOf(view, r[0].dest);
            && Rotated(q, StuckEnvelopes(view, q), n + 1) == r[1..] + When(fate, Waiting, r[0])
            && Settled(view, q, n + 1, Landing) == landed + When(fate, Landing, r[0])
            && Settled(view, q, n + 1, Dropping) == dropped + When(fate, Dropping, r[0])
  {
    r := Rotated(q, StuckEnvelopes(view, q), n);
    landed, dropped := Settled(view, q, n, Landing), Settled(view, q, n, Dropping);
    RetainedTurn(view, q, n);
    SettledOneMore(view, q, n, Landing);
    SettledOneMore(view, q, n, Dropping);
  }

  /** The loop over the retained envelopes, turn by turn. */
  lemma {:induction false} RetainedRun(
    s: D.State, w: nat, view: View, source: D.Place, q: seq<Envelope>, t: seq<Envelope>, n: nat)
    returns (steps: seq<D.Step>)
    requires Viewed(s, w, view) && Feeds(source, w)
    requires Same(q, D.At(s, D.Deferred(w))) && Same(t, D.At(s, source))
    requires forall i :: 0 <= i < n ==> Rotated(q, StuckEnvelopes(view, q), i) != []
    ensures D.Runs(s, steps)
    ensures Linked(s, D.Run(s, steps), w, source, Rotated(q, StuckEnvelopes(view, q), n), t,
                   Settled(view, q, n, Landing), Settled(view, q, n, Dropping))
    decreases n
  {
    if n == 0 {
      steps := [];
      LinkedAtFirst(s, w, source, q, t);
    } else {
      steps := RetainedRun(s, w, view, source, q, t, n - 1);
      var r, landed, dropped := OneMoreTurn(view, q, n - 1);
      RetainedStep(s, D.Run(s, steps), w, view, source, r, t, landed, dropped);
      RunOneMore(s, steps, D.Take(D.Deferred(w)));
      steps := steps + [D.Take(D.Deferred(w))];
    }
  }

  /** The loop over a queue, envelope by envelope. */
  lemma {:induction false} QueuedRun(
    s: D.State, before: seq<D.Step>, w: nat, view: View, source: D.Place, q: seq<Envelope>, t: seq<Envelope>,
    landed: seq<Envelope>, dropped: seq<Envelope>, k: nat)
    returns (steps: seq<D.Step>)
    requires Viewed(s, w, view) && Feeds(source, w) && k <= |t| && D.Runs(s, before)
    requires Linked(s, D.Run(s, before), w, source, q, t, landed, dropped)
    ensures D.Runs(s, steps)
    ensures Linked(s, D.Run(s, steps), w, source, q + Fated(view, t[..k], Waiting), t[k..],
                   landed + Fated(view, t[..k], Landing), dropped + Fated(view, t[..k], Dropping))
    decreases k
  {
    if k == 0 {
      steps := before;
      assert q + [] == q && landed + [] == landed && dropped + [] == dropped && t[0..] == t;
    } else {
      steps := QueuedRun(s, before, w, view, source, q, t, landed, dropped, k - 1);
      var e, taken := t[k - 1], t[..k - 1];
      QueuedStep(s, D.Run(s, steps), w, view, source, q + Fated(view, taken, Waiting), t[k - 1..],
                 landed + Fated(view, taken, Landing), dropped + Fated(view, taken, Dropping));
      RunOneMore(s, steps, D.Take(source));
      steps := steps + [D.Take(source)];
      TakenInTurn(t, k, e);
      Regrouped(view, q, taken, e, Waiting);
      Regrouped(view, landed, taken, e, Landing);
      Regrouped(view, dropped, taken, e, Dropping);
    }
  }

  lemma TakenInTurn(t: seq<Envelope>, k: nat, e: Envelope)
    requires 0 < k <= |t| && e == t[k - 1]
    ensures t[..k] == t[..k - 1] + [e] && t[k - 1..][1..] == t[k..] && t[k - 1..][0] == e
  {
  }

  lemma Regrouped(view: View, before: seq<Envelope>, taken: seq<Envelope>, e: Envelope, fate: Fate)
    ensures before + Fated(view, taken, fate) + When(FateOf(view, e.dest), fate, e) ==
              before + Fated(view, taken + [e], fate)
  {
    FatedOneMore(view, taken, e, fate);
    Grouped(before, Fated(view, taken, fate), When(FateOf(view, e.dest), fate, e));
  }

  lemma TurnsFindOne(view: View, q: seq<Envelope>, budget: nat)
    ensures forall i :: 0 <= i < Turns(AllCanSettle(view, q), |q|, budget) ==>
              Rotated(q, StuckEnvelopes(view, q), i) != []
  {
    forall i | 0 <= i < Turns(AllCanSettle(view, q), |q|, budget)
      ensures Rotated(q, StuckEnvelopes(view, q), i) != []
    {
      if AllCanSettle(view, q) { FreeTurns(view, q, i); } else { StuckNeverEnds(view, q, i); }
    }
  }

  /**
   The transfer phase of a worker is a run of the delivery protocol that leaves the same messages retained
   and queued, and has delivered the same to each actor and dropped the same, in the same order.
   */
  lemma DrainIsRun(s: D.State, w: nat, view: View, q: seq<Envelope>, t: seq<Envelope>, budget: nat)
    returns (steps: seq<D.Step>)
    requires Viewed(s, w, view) && Same(q, D.At(s, D.Deferred(w))) && Same(t, D.At(s, D.Transfer(w)))
    ensures D.Runs(s, steps)
    ensures var d := Drain(view, q, t, budget);
            Linked(s, D.Run(s, steps), w, D.Transfer(w), d.deferred, d.transfers, d.landed, d.dropped)
  {
    var free := AllCanSettle(view, q);
    var n, k := Turns(free, |q|, budget), Reach(free, |q|, |t|, budget);
    TurnsFindOne(view, q, budget);
    steps := RetainedRun(s, w, view, D.Transfer(w), q, t, n);
    steps := QueuedRun(s, steps, w, view, D.Transfer(w), Rotated(q, StuckEnvelopes(view, q), n), t,
                       Settled(view, q, n, Landing), Settled(view, q, n, Dropping), k);
  }

  /** So is the delivery of what was staged. */
  lemma FlushIsRun(s: D.State, w: nat, view: View, q: seq<Envelope>, staged: seq<Envelope>)
    returns (steps: seq<D.Step>)
    requires Viewed(s, w, view) && Same(q, D.At(s, D.Deferred(w))) && Same(staged, D.At(s, D.Pending(w)))
    ensures D.Runs(s, steps)
    ensures Linked(s, D.Run(s, steps), w, D.Pending(w), q + Fated(view, staged, Waiting), [],
                   Fated(view, staged, Landing), Fated(view, staged, Dropping))
  {
    LinkedAtFirst(s, w, D.Pending(w), q, staged);
    steps := QueuedRun(s, [], w, view, D.Pending(w), q, staged, [], [], |staged|);
    assert staged[..|staged|] == staged && staged[|staged|..] == [];
    assert [] + Fated(view, staged, Landing) == Fated(view, staged, Landing);
    assert [] + Fated(view, staged, Dropping) == Fated(view, staged, Dropping);
  }

  // ─── what the protocol's laws say of a worker ──────────────────────────────

  lemma HomeOfQueued(s: D.State, w: nat, p: D.Place, es: seq<Envelope>, e: Envelope)
    requires D.Inv(s) && Same(es, D.At(s, p)) && e in es && (p == D.Deferred(w) || p == D.Transfer(w))
    ensures e.dest in s.stage && s.home[e.dest] == w
  {
    var i :| 0 <= i < |es| && es[i] == e;
    D.FoundWhereItIs(s, p, i);
    assert D.PlaceOk(s, D.At(s, p)[i], p);
  }

  lemma DroppedWasQueued(view: View, q: seq<Envelope>, t: seq<Envelope>, budget: nat, e: Envelope)
    requires e in Drain(view, q, t, budget).dropped
    ensures e in q || e in t
  {
    var free := AllCanSettle(view, q);
    var n, k := Turns(free, |q|, budget), Reach(free, |q|, |t|, budget);
    FatedMeans(view, q[..Min(n, |q|)], Dropping, e);
    FatedMeans(view, t[..k], Dropping, e);
  }

  /** In every reachable state, a worker drops a message only if its actor has been removed. */
  lemma OnlyRemovedMiss(
    history: seq<D.Step>, w: nat, view: View, q: seq<Envelope>, t: seq<Envelope>, budget: nat, e: Envelope)
    requires D.Runs(D.Init(), history)
    requires var s := D.Run(D.Init(), history);
             Viewed(s, w, view) && Same(q, D.At(s, D.Deferred(w))) && Same(t, D.At(s, D.Transfer(w)))
    requires e in Drain(view, q, t, budget).dropped
    ensures var s := D.Run(D.Init(), history); e.dest in s.stage && s.stage[e.dest].Removed?
  {
    var s := D.Run(D.Init(), history);
    D.InitInv();
    D.RunKeepsInv(D.Init(), history);
    DroppedWasQueued(view, q, t, budget, e);
    if e in q { HomeOfQueued(s, w, D.Deferred(w), q, e); } else { HomeOfQueued(s, w, D.Transfer(w), t, e); }
    DrainSifts(view, q, t, budget, e);
    assert e.dest !in s.addressMap;
  }

  // ─── who is here ───────────────────────────────────────────────────────────

  /** Taking up a spawn request installs the actor on both sides. */
  lemma InstallIsStep(s: D.State, w: nat, view: View, a: Address)
    requires D.Inv(s) && Viewed(s, w, view) && D.Enabled(s, D.Install(a)) && s.home[a] == w
    ensures Viewed(D.Next(s, D.Install(a)), w, view.(keys := view.keys + {a}))
  {
  }

  /** Removing a dead actor takes it out of the pool and out of the map on both sides. */
  lemma RemovalIsStep(s: D.State, w: nat, view: View, a: Address)
    requires D.Inv(s) && Viewed(s, w, view) && D.Enabled(s, D.Remove(a)) && s.home[a] == w
    ensures Viewed(D.Next(s, D.Remove(a)), w, View(view.keys - {a}, view.addressMap - {a}, w))
  {
  }
}
