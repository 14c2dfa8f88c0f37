/** What callbacks do besides answering: the messages they send and the children they spawn. */
module Callbacks {
  import opened ActorSlots
  import opened Queues
  import opened Routing

  /** What a callback may do besides: send, spawn a child on this worker, resume an actor. */
  datatype Effect = Send(envelope: Envelope) | Spawn(child: Address) | Wake(actor: Address)

  /** The address map after the first `n` effects: a child is mapped here before its request is queued. */
  function MapAfter(addressMap: map<Address, nat>, id: nat, effects: seq<Effect>, n: nat): (m: map<Address, nat>)
    requires n <= |effects|
  {
    if n == 0 then addressMap
    else
      var m := MapAfter(addressMap, id, effects, n - 1);
      if effects[n - 1].Spawn? then m[effects[n - 1].child := id] else m
  }

  /** What one effect stages for this worker. */
  function StagedNow(addressMap: map<Address, nat>, id: nat, effect: Effect): (es: seq<Envelope>) {
    match effect
    case Send(e) => if MappedHere(addressMap, id, e.dest) then [e] else []
    case Spawn(_) => []
    case Wake(a) => [Envelope(a, Resume)]
  }

  /** What the first `n` effects stage for this worker, in order; other sends leave it. */
  function StagedBy(addressMap: map<Address, nat>, id: nat, effects: seq<Effect>, n: nat): (es: seq<Envelope>)
    requires n <= |effects|
  {
    if n == 0 then []
    else StagedBy(addressMap, id, effects, n - 1)
         + StagedNow(MapAfter(addressMap, id, effects, n - 1), id, effects[n - 1])
  }

  function SpawnedBy(effects: seq<Effect>, n: nat): (children: seq<Address>)
    requires n <= |effects|
  {
    if n == 0 then []
    else SpawnedBy(effects, n - 1) + if effects[n - 1].Spawn? then [effects[n - 1].child] else []
  }

  lemma {:induction false} MapIsLocal(addressMap: map<Address, nat>, id: nat, first: seq<Effect>, more: seq<Effect>,
      n: nat)
    requires n <= |first|
    ensures MapAfter(addressMap, id, first + more, n) == MapAfter(addressMap, id, first, n)
    decreases n
  {
    if n > 0 { MapIsLocal(addressMap, id, first, more, n - 1); }
  }

  lemma StagedAlike(m: map<Address, nat>, id: nat, a: seq<Effect>, b: seq<Effect>, n: nat)
    requires n < |a| && n < |b| && a[n] == b[n] && MapAfter(m, id, a, n) == MapAfter(m, id, b, n)
    requires StagedBy(m, id, a, n) == StagedBy(m, id, b, n)
    ensures StagedBy(m, id, a, n + 1) == StagedBy(m, id, b, n + 1)
  {
  }

  lemma {:induction false} StagedIsLocal(addressMap: map<Address, nat>, id: nat, first: seq<Effect>, more: seq<Effect>,
      n: nat)
    requires n <= |first|
    ensures StagedBy(addressMap, id, first + more, n) == StagedBy(addressMap, id, first, n)
    decreases n
  {
    if n > 0 {
      StagedIsLocal(addressMap, id, first, more, n - 1);
      MapIsLocal(addressMap, id, first, more, n - 1);
      StagedAlike(addressMap, id, first + more, first, n - 1);
    }
  }

  lemma {:induction false} SpawnedInTurn(first: seq<Effect>, more: seq<Effect>, n: nat)
    requires n <= |first| + |more|
    ensures n <= |first| ==> SpawnedBy(first + more, n) == SpawnedBy(first, n)
    ensures n > |first| ==> SpawnedBy(first + more, n) == SpawnedBy(first, |first|) + SpawnedBy(more, n - |first|)
    decreases n
  {
    if n > 0 {
      SpawnedInTurn(first, more, n - 1);
      if n > |first| { assert (first + more)[n - 1] == more[n - 1 - |first|]; }
    }
  }

  lemma {:induction false} MapInTurn(addressMap: map<Address, nat>, id: nat, first: seq<Effect>, more: seq<Effect>,
      n: nat)
    requires n <= |more|
    ensures MapAfter(addressMap, id, first + more, |first| + n) ==
              MapAfter(MapAfter(addressMap, id, first, |first|), id, more, n)
    decreases n
  {
    if n == 0 {
      MapIsLocal(addressMap, id, first, more, |first|);
    } else {
      MapInTurn(addressMap, id, first, more, n - 1);
      assert (first + more)[|first| + n - 1] == more[n - 1];
    }
  }

  lemma StagedStep(m: map<Address, nat>, m': map<Address, nat>, id: nat, both: seq<Effect>, i: nat, more: seq<Effect>,
      j: nat, before: seq<Envelope>)
    requires i < |both| && j < |more| && both[i] == more[j] && MapAfter(m, id, both, i) == MapAfter(m', id, more, j)
    requires StagedBy(m, id, both, i) == before + StagedBy(m', id, more, j)
    ensures StagedBy(m, id, both, i + 1) == before + StagedBy(m', id, more, j + 1)
  {
    Grouped(before, StagedBy(m', id, more, j), StagedNow(MapAfter(m', id, more, j), id, more[j]));
  }

  /** What comes first is staged first: the effects of two callbacks in turn are those of both together. */
  lemma {:induction false} StagedInTurn(addressMap: map<Address, nat>, id: nat, first: seq<Effect>, more: seq<Effect>,
      n: nat)
    requires n <= |more|
    ensures StagedBy(addressMap, id, first + more, |first| + n) ==
              StagedBy(addressMap, id, first, |first|)
              + StagedBy(MapAfter(addressMap, id, first, |first|), id, more, n)
    decreases n
  {
    if n == 0 {
      StagedIsLocal(addressMap, id, first, more, |first|);
    } else {
      StagedInTurn(addressMap, id, first, more, n - 1);
      MapInTurn(addressMap, id, first, more, n - 1);
      StagedStep(addressMap, MapAfter(addressMap, id, first, |first|), id, first + more, |first| + n - 1, more, n - 1,
                 StagedBy(addressMap, id, first, |first|));
    }
  }

  /** What a callback may change of a worker. */
  datatype Touch = Touch(addressMap: map<Address, nat>, pendingLocal: seq<Envelope>, spawns: seq<Address>)

  /** These effects lead from one to the other. */
  predicate Leads(id: nat, effects: seq<Effect>, before: Touch, after: Touch) {
    && after.addressMap == MapAfter(before.addressMap, id, effects, |effects|)
    && after.pendingLocal == before.pendingLocal + StagedBy(before.addressMap, id, effects, |effects|)
    && after.spawns == before.spawns + SpawnedBy(effects, |effects|)
  }

  lemma MapOn(id: nat, first: seq<Effect>, more: seq<Effect>, addressMap: map<Address, nat>)
    ensures var both := first + more;
            MapAfter(addressMap, id, both, |both|) ==
                MapAfter(MapAfter(addressMap, id, first, |first|), id, more, |more|)
  {
    assert |first + more| == |first| + |more|;
    MapInTurn(addressMap, id, first, more, |more|);
  }

  lemma StagedOn(id: nat, first: seq<Effect>, more: seq<Effect>, addressMap: map<Address, nat>)
    returns (p: seq<Envelope>, q: seq<Envelope>)
    ensures p == StagedBy(addressMap, id, first, |first|)
    ensures q == StagedBy(MapAfter(addressMap, id, first, |first|), id, more, |more|)
    ensures var both := first + more; StagedBy(addressMap, id, both, |both|) == p + q
  {
    StagedInTurn(addressMap, id, first, more, |more|);
    p := StagedBy(addressMap, id, first, |first|);
    q := StagedBy(MapAfter(addressMap, id, first, |first|), id, more, |more|);
  }

  lemma SpawnedOn(first: seq<Effect>, more: seq<Effect>, spawns: seq<Address>)
    ensures var both := first + more;
            spawns + SpawnedBy(first, |first|) + SpawnedBy(more, |more|) == spawns + SpawnedBy(both, |both|)
  {
    SpawnedInTurn(first, more, |first| + |more|);
    Grouped(spawns, SpawnedBy(first, |first|), SpawnedBy(more, |more|));
    if more == [] { assert first + more == first; }
  }

  lemma LeadsOn(id: nat, first: seq<Effect>, more: seq<Effect>, a: Touch, b: Touch, c: Touch)
    requires Leads(id, first, a, b) && Leads(id, more, b, c)
    ensures Leads(id, first + more, a, c)
  {
    MapOn(id, first, more, a.addressMap);
    var p, q := StagedOn(id, first, more, a.addressMap);
    Grouped(a.pendingLocal, p, q);
    SpawnedOn(first, more, a.spawns);
  }

  lemma {:induction false} ChildStaysMapped(addressMap: map<Address, nat>, id: nat, effects: seq<Effect>, i: nat,
      n: nat)
    requires i < n <= |effects| && effects[i].Spawn?
    ensures MappedHere(MapAfter(addressMap, id, effects, n), id, effects[i].child)
    decreases n
  {
    if i < n - 1 { ChildStaysMapped(addressMap, id, effects, i, n - 1); }
  }

  /** A child can be written to as soon as it is spawned, within the same callback. */
  lemma SendToChildIsStaged(addressMap: map<Address, nat>, id: nat, effects: seq<Effect>, i: nat, j: nat)
    requires i < j < |effects| && effects[i].Spawn? && effects[j].Send? && effects[j].envelope.dest == effects[i].child
    ensures StagedBy(addressMap, id, effects, j + 1) == StagedBy(addressMap, id, effects, j) + [effects[j].envelope]
  {
    ChildStaysMapped(addressMap, id, effects, i, j);
  }
}
