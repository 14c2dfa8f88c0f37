/**
 The cursor protocol of a byte ring as seen by two processes sharing memory: one producer, one
 consumer, and one access to a shared cursor or a data byte per step. A loaded cursor goes stale as
 soon as it is loaded, so a schedule may interleave the two sides between any two accesses.
 */
module RingProtocol {
  import Arithmetic
  import opened Bytes
  import opened Options

  /** Where the producer stands; `seen` and the cursors it carries are as they were loaded. */
  datatype Producer =
    | PIdle
    | PSizing(commit: nat)
    | PCopying(start: nat, bytes: seq<Byte>, copied: nat, seen: nat)
    | PPublishing(bytes: seq<Byte>, at: nat)

  datatype Consumer =
    | CIdle
    | CSizing(commit: nat)
    | CCopying(from: nat, len: nat, out: seq<Byte>, seenCommit: nat)
    | CClosing(out: seq<Byte>, commit: nat)
    | CReleasing(out: seq<Byte>, count: nat, at: nat)

  /**
   `producerTest` and `consumerTest` hold the commit cursor a side has loaded when it is half-way
   through the cursor test. `corrupt` records that a loaded pair of cursors failed the test, or that a
   reservation was no longer the next span. `sent` is the stream published so far and `received` the
   stream handed back by the consumer.
   */
  datatype State = State(
    capacity: nat,
    data: seq<Byte>,
    commit: nat,
    consume: nat,
    producer: Producer,
    producerTest: Option<nat>,
    consumer: Consumer,
    consumerTest: Option<nat>,
    corrupt: bool,
    sent: seq<Byte>,
    received: seq<Byte>)

  datatype Action =
    | PTestCommit | PTestConsume
    | PLoad | PReserve(bytes: seq<Byte>) | PCopy | PClose | PPublish | PAbandon
    | CTestCommit | CTestConsume
    | CLoad | CRead(len: nat) | CCopy | CClose | CCheck(count: nat) | CRelease | CAbandon

  function Init(capacity: nat): (s: State) {
    State(capacity, seq(capacity, _ => 0), 0, 0, PIdle, None, CIdle, None, false, [], [])
  }

  /** The cursor test every operation repeats before it touches memory. */
  predicate CursorsOk(commit: nat, consume: nat, capacity: nat) {
    consume <= commit && commit - consume <= capacity
  }

  /** Notes whether a loaded pair of cursors passes the test. */
  function Judge(s: State, commit: nat, consume: nat): (s': State) {
    s.(corrupt := s.corrupt || !CursorsOk(commit, consume, s.capacity))
  }

  /** One access by the producer; it is one thread, so a test under way is finished first. */
  function ProducerNext(s: State, a: Action): (s': State) {
    if s.producerTest.Some? then
      if a.PTestConsume? then Judge(s, s.producerTest.value, s.consume).(producerTest := None) else s
    else
      match (a, s.producer)
      case (PTestCommit, _) => s.(producerTest := Some(s.commit))
      case (PLoad, PIdle) => s.(producer := PSizing(s.commit))
      case (PReserve(bytes), PSizing(commit)) =>
        var s1 := Judge(s, commit, s.consume);
        if commit + |bytes| <= s.consume + s.capacity
        then s1.(producer := PCopying(commit, bytes, 0, s.consume)) else s1.(producer := PIdle)
      case (PCopy, PCopying(start, bytes, copied, seen)) =>
        if copied < |bytes| && 0 < s.capacity == |s.data|
        then s.(data := s.data[(start + copied) % s.capacity := bytes[copied]],
                producer := PCopying(start, bytes, copied + 1, seen))
        else s
      case (PClose, PCopying(start, bytes, copied, _)) =>
        if copied == |bytes|
        then s.(corrupt := s.corrupt || start != s.commit, producer := PPublishing(bytes, s.commit)) else s
      case (PPublish, PPublishing(bytes, at)) =>
        s.(commit := at + |bytes|, sent := s.sent + bytes, producer := PIdle)
      case (PAbandon, _) => s.(producer := PIdle)
      case _ => s
  }

  function ConsumerNext(s: State, a: Action): (s': State) {
    if s.consumerTest.Some? then
      if a.CTestConsume? then Judge(s, s.consumerTest.value, s.consume).(consumerTest := None) else s
    else
      match (a, s.consumer)
      case (CTestCommit, _) => s.(consumerTest := Some(s.commit))
      case (CLoad, CIdle) => s.(consumer := CSizing(s.commit))
      case (CRead(len), CSizing(commit)) =>
        var s1 := Judge(s, commit, s.consume);
        if s.consume + len <= commit
        then s1.(consumer := CCopying(s.consume, len, [], commit)) else s1.(consumer := CIdle)
      case (CCopy, CCopying(from, len, out, seen)) =>
        if |out| < len && 0 < s.capacity == |s.data|
        then s.(consumer := CCopying(from, len, out + [s.data[(from + |out|) % s.capacity]], seen))
        else s
      case (CClose, CCopying(_, len, out, _)) =>
        if |out| == len then s.(consumer := CClosing(out, s.commit)) else s
      case (CCheck(count), CClosing(out, commit)) =>
        var s1 := Judge(s, commit, s.consume);
        if count <= |out| && s.consume + count <= commit
        then s1.(consumer := CReleasing(out, count, s.consume)) else s1.(consumer := CIdle)
      case (CRelease, CReleasing(out, count, at)) =>
        if count <= |out|
        then s.(consume := at + count, received := s.received + out[..count], consumer := CIdle) else s
      case (CAbandon, _) => s.(consumer := CIdle)
      case _ => s
  }

  predicate ByProducer(a: Action) {
    a.PTestCommit? || a.PTestConsume? || a.PLoad? || a.PReserve? || a.PCopy? || a.PClose? || a.PPublish? || a.PAbandon?
  }

  /** One access to shared memory; an action that is not enabled leaves the state alone. */
  function Next(s: State, a: Action): (s': State) {
    if ByProducer(a) then ProducerNext(s, a) else ConsumerNext(s, a)
  }

  /** The state after a whole schedule, in which either side may be suspended anywhere. */
  function Run(s: State, schedule: seq<Action>): (s': State)
    decreases |schedule|
  {
    if schedule == [] then s else Run(Next(s, schedule[0]), schedule[1..])
  }

  /** The buffer still holds the part of the stream that is not yet released. */
  ghost predicate UnreadIntact(data: seq<Byte>, consume: nat, sent: seq<Byte>)
    requires 0 < |data|
  {
    forall p {:trigger sent[p]} :: consume <= p < |sent| ==> data[p % |data|] == sent[p]
  }

  /** The first `n` bytes lie in the buffer from stream position `at` on. */
  ghost predicate Placed(data: seq<Byte>, at: nat, bytes: seq<Byte>, n: nat)
    requires 0 < |data| && n <= |bytes|
  {
    forall i {:trigger bytes[i]} :: 0 <= i < n ==> data[(at + i) % |data|] == bytes[i]
  }

  // The producer alone moves its cursor, so what it has loaded of that cursor is never stale.
  ghost predicate ProducerInv(data: seq<Byte>, commit: nat, consume: nat, producer: Producer, test: Option<nat>)
    requires 0 < |data|
  {
    && (test.Some? ==> test.value == commit)
    && match producer
       case PIdle => true
       case PSizing(loaded) => loaded == commit
       case PCopying(start, bytes, copied, seen) =>
         && start == commit && copied <= |bytes| && seen <= consume && commit + |bytes| <= seen + |data|
         && Placed(data, commit, bytes, copied)
       case PPublishing(bytes, at) =>
         at == commit && commit + |bytes| <= consume + |data| && Placed(data, commit, bytes, |bytes|)
  }

  // What the consumer has loaded of the other cursor may be stale, but never lies behind its own.
  ghost predicate ConsumerInv(sent: seq<Byte>, consume: nat, consumer: Consumer, test: Option<nat>) {
    && (test.Some? ==> consume <= test.value <= |sent|)
    && match consumer
       case CIdle => true
       case CSizing(loaded) => consume <= loaded <= |sent|
       case CCopying(from, len, out, loaded) =>
         && from == consume && |out| <= len && consume + len <= loaded <= |sent|
         && out == sent[consume .. consume + |out|]
       case CClosing(out, loaded) =>
         consume + |out| <= loaded <= |sent| && out == sent[consume .. consume + |out|]
       case CReleasing(out, count, at) =>
         && at == consume && count <= |out| && consume + |out| <= |sent|
         && out == sent[consume .. consume + |out|]
  }

  /** What holds of the shared memory and the two streams, whatever the two sides are doing. */
  ghost predicate StreamsInv(s: State) {
    && 0 < s.capacity == |s.data|
    && s.commit == |s.sent|
    && CursorsOk(s.commit, s.consume, s.capacity)
    && s.received == s.sent[..s.consume]
    && !s.corrupt
    && UnreadIntact(s.data, s.consume, s.sent)
  }

  ghost predicate Inv(s: State) {
    && StreamsInv(s)
    && ProducerInv(s.data, s.commit, s.consume, s.producer, s.producerTest)
    && ConsumerInv(s.sent, s.consume, s.consumer, s.consumerTest)
  }

  /**
   The pair of cursors a side has loaded, one after the other and with any number of steps of the
   other side in between, passes the test whenever the loads are paired.
   */
  lemma LoadedPairPasses(s: State)
    requires Inv(s)
    ensures s.producerTest.Some? ==> CursorsOk(s.producerTest.value, s.consume, s.capacity)
    ensures s.producer.PSizing? ==> CursorsOk(s.producer.commit, s.consume, s.capacity)
    ensures s.consumerTest.Some? ==> CursorsOk(s.consumerTest.value, s.consume, s.capacity)
    ensures s.consumer.CSizing? || s.consumer.CClosing? ==> CursorsOk(s.consumer.commit, s.consume, s.capacity)
  {
  }

  /** Property P2: the slot a producer writes next never holds a byte the consumer has yet to release. */
  lemma CopyMissesUnread(s: State, p: nat)
    requires Inv(s)
    requires s.producer.PCopying? && s.producer.copied < |s.producer.bytes|
    requires s.consume <= p < s.commit + s.producer.copied
    ensures (s.commit + s.producer.copied) % s.capacity != p % s.capacity
  {
    Arithmetic.RemaindersDiffer(p, s.commit + s.producer.copied, s.capacity);
  }

  lemma CopyKeepsInv(s: State)
    requires Inv(s)
    ensures Inv(Next(s, PCopy))
  {
    var s' := Next(s, PCopy);
    if s' != s {
      var bytes, n := s.producer.bytes, s.producer.copied;
      forall p | s.consume <= p < s.commit ensures s'.data[p % s.capacity] == s.sent[p] {
        CopyMissesUnread(s, p);
      }
      forall i | 0 <= i < n + 1 ensures s'.data[(s.commit + i) % s.capacity] == bytes[i] {
        if i < n {
          assert s.data[(s.commit + i) % s.capacity] == bytes[i];
          CopyMissesUnread(s, s.commit + i);
        }
      }
      assert Placed(s'.data, s.commit, bytes, n + 1);
    }
  }

  lemma PublishKeepsInv(s: State)
    requires Inv(s)
    ensures Inv(Next(s, PPublish)) && s.sent <= Next(s, PPublish).sent
  {
    var s' := Next(s, PPublish);
    if s' != s {
      forall p | s.consume <= p < |s'.sent| ensures s.data[p % s.capacity] == s'.sent[p] {
        if p < s.commit {
          assert s.data[p % s.capacity] == s.sent[p];
        } else {
          var i := p - s.commit;
          assert s.data[(s.commit + i) % s.capacity] == s.producer.bytes[i];
        }
      }
      assert UnreadIntact(s.data, s.consume, s'.sent);
    }
  }

  lemma ReadKeepsInv(s: State)
    requires Inv(s)
    ensures Inv(Next(s, CCopy))
  {
    var s' := Next(s, CCopy);
    if s' != s {
      var p := s.consume + |s.consumer.out|;
      assert s.data[p % s.capacity] == s.sent[p];
      assert s.sent[s.consume .. p + 1] == s.sent[s.consume .. p] + [s.sent[p]];
    }
  }

  lemma ReleaseKeepsInv(s: State)
    requires Inv(s)
    ensures Inv(Next(s, CRelease)) && s.received <= Next(s, CRelease).received
  {
    var s' := Next(s, CRelease);
    if s' != s {
      var end := s.consume + s.consumer.count;
      assert s.consumer.out[..s.consumer.count] == s.sent[s.consume .. end];
      assert s.sent[..end] == s.sent[..s.consume] + s.sent[s.consume .. end];
    }
  }

  lemma ProducerLoadsKeepInv(s: State, a: Action)
    requires Inv(s) && ByProducer(a) && !a.PCopy? && !a.PPublish?
    ensures Inv(Next(s, a)) && Next(s, a).sent == s.sent
  {
    LoadedPairPasses(s);
    var s' := Next(s, a);
    assert s' == s.(producer := s'.producer, producerTest := s'.producerTest);
  }

  lemma ConsumerLoadsKeepInv(s: State, a: Action)
    requires Inv(s) && !ByProducer(a) && !a.CCopy? && !a.CRelease?
    ensures Inv(Next(s, a)) && Next(s, a).received == s.received
  {
    LoadedPairPasses(s);
    var s' := Next(s, a);
    assert s' == s.(consumer := s'.consumer, consumerTest := s'.consumerTest);
  }

  lemma ProducerKeepsInv(s: State, a: Action)
    requires Inv(s) && ByProducer(a)
    ensures Inv(Next(s, a)) && Next(s, a).capacity == s.capacity
    ensures s.sent <= Next(s, a).sent && s.received == Next(s, a).received
  {
    match a
    case PCopy => CopyKeepsInv(s);
    case PPublish => PublishKeepsInv(s);
    case _ => ProducerLoadsKeepInv(s, a);
  }

  lemma ConsumerKeepsInv(s: State, a: Action)
    requires Inv(s) && !ByProducer(a)
    ensures Inv(Next(s, a)) && Next(s, a).capacity == s.capacity
    ensures s.sent == Next(s, a).sent && s.received <= Next(s, a).received
  {
    match a
    case CCopy => ReadKeepsInv(s);
    case CRelease => ReleaseKeepsInv(s);
    case _ => ConsumerLoadsKeepInv(s, a);
  }

  lemma NextKeepsInv(s: State, a: Action)
    requires Inv(s)
    ensures Inv(Next(s, a)) && Next(s, a).capacity == s.capacity
    ensures s.sent <= Next(s, a).sent && s.received <= Next(s, a).received
  {
    if ByProducer(a) { ProducerKeepsInv(s, a); } else { ConsumerKeepsInv(s, a); }
  }

  lemma {:induction false} RunKeepsInv(s: State, schedule: seq<Action>)
    requires Inv(s)
    ensures Inv(Run(s, schedule))
    ensures Run(s, schedule).capacity == s.capacity
    ensures s.sent <= Run(s, schedule).sent && s.received <= Run(s, schedule).received
    decreases |schedule|
  {
    if schedule != [] {
      NextKeepsInv(s, schedule[0]);
      RunKeepsInv(Next(s, schedule[0]), schedule[1..]);
    }
  }

  /**
   Property P1 for every schedule of either length: what the consumer has released is exactly the
   beginning of what the producer has published, byte for byte, and no cursor test, on cursors loaded
   one after the other, ever fails.
   */
  lemma ExactlyOnceInOrder(capacity: nat, schedule: seq<Action>)
    requires capacity > 0
    ensures var s := Run(Init(capacity), schedule);
            && s.consume <= |s.sent| == s.commit <= s.consume + capacity
            && s.received == s.sent[..s.consume]
            && !s.corrupt
  {
    RunKeepsInv(Init(capacity), schedule);
  }

  /** Under every schedule, a pair of cursors loaded one after the other passes the test when it is judged. */
  lemma PairsLoadedApartPass(capacity: nat, schedule: seq<Action>)
    requires capacity > 0
    ensures var s := Run(Init(capacity), schedule);
            && (s.producerTest.Some? ==> CursorsOk(s.producerTest.value, s.consume, capacity))
            && (s.producer.PSizing? ==> CursorsOk(s.producer.commit, s.consume, capacity))
            && (s.consumerTest.Some? ==> CursorsOk(s.consumerTest.value, s.consume, capacity))
            && (s.consumer.CSizing? || s.consumer.CClosing? ==> CursorsOk(s.consumer.commit, s.consume, capacity))
  {
    RunKeepsInv(Init(capacity), schedule);
    LoadedPairPasses(Run(Init(capacity), schedule));
  }

  /** Both streams only ever grow: a byte once delivered is never delivered again or taken back. */
  lemma StreamsOnlyGrow(capacity: nat, schedule: seq<Action>, more: seq<Action>)
    requires capacity > 0
    ensures var s := Run(Init(capacity), schedule);
            && s.sent <= Run(s, more).sent
            && s.received <= Run(s, more).received
  {
    RunKeepsInv(Init(capacity), schedule);
    RunKeepsInv(Run(Init(capacity), schedule), more);
  }

  /** Property P2 for every schedule: the next producer write leaves every unread byte in place. */
  lemma UnreadNeverOverwritten(capacity: nat, schedule: seq<Action>, p: nat)
    requires capacity > 0
    requires var s := Run(Init(capacity), schedule); s.consume <= p < s.commit
    ensures var s := Run(Init(capacity), schedule);
            var s' := Next(s, PCopy);
            && |s'.data| == capacity && p < |s.sent|
            && s'.data[p % capacity] == s.sent[p]
  {
    RunKeepsInv(Init(capacity), schedule);
    CopyKeepsInv(Run(Init(capacity), schedule));
  }
}
