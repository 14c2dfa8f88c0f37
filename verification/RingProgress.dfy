/**
 What the operations of a byte ring achieve: carried out step by step, and with whatever the other side
 does in between, a read and release hands over exactly the bytes asked for, and a write publishes them.
 */
module RingProgress {
  import opened Bytes
  import opened Options
  import opened RingProtocol

  // ─── reading and releasing ─────────────────────────────────────────────────

  /** The consumer's accesses, in order: load, size, copy `n` bytes, load again, check and release `m` of them. */
  function ConsumerScript(n: nat, m: nat, k: nat): (a: Action) {
    if k == 0 then CLoad
    else if k == 1 then CRead(n)
    else if k < n + 2 then CCopy
    else if k == n + 2 then CClose
    else if k == n + 3 then CCheck(m)
    else CRelease
  }

  /**
   The consumer's part of a schedule is the script from its `k`th access on, with whole cursor tests
   anywhere between; the producer's part is arbitrary.
   */
  predicate ConsumerFollows(schedule: seq<Action>, n: nat, m: nat, k: nat, testing: bool)
    decreases |schedule|
  {
    if schedule == [] then k == n + 5 && !testing
    else
      var a, rest := schedule[0], schedule[1..];
      if ByProducer(a) then ConsumerFollows(rest, n, m, k, testing)
      else if testing then a.CTestConsume? && ConsumerFollows(rest, n, m, k, false)
      else if a.CTestCommit? then ConsumerFollows(rest, n, m, k, true)
      else k < n + 5 && a == ConsumerScript(n, m, k) && ConsumerFollows(rest, n, m, k + 1, false)
  }

  /** Where the consumer stands after `k` accesses of its script, begun in `s0`. */
  ghost predicate ConsumerAt(s0: State, n: nat, m: nat, k: nat, testing: bool, s: State) {
    && Inv(s) && s0.sent <= s.sent && (testing <==> s.consumerTest.Some?) && k <= n + 5
    && (k < n + 5 ==> s.consume == s0.consume)
    && (k == 0 ==> s.consumer.CIdle?)
    && (k == 1 ==> s.consumer.CSizing? && s0.consume + n <= s.consumer.commit)
    && (2 <= k < n + 3 ==> s.consumer.CCopying? && s.consumer.len == n && |s.consumer.out| == k - 2)
    && (k == n + 3 ==> s.consumer.CClosing? && |s.consumer.out| == n)
    && (k == n + 4 ==> s.consumer.CReleasing? && |s.consumer.out| == n && s.consumer.count == m)
    && (k == n + 5 ==> s.consumer.CIdle? && s.consume == s0.consume + m)
  }

  lemma ProducerLeavesConsumer(s0: State, n: nat, m: nat, k: nat, testing: bool, s: State, a: Action)
    requires ConsumerAt(s0, n, m, k, testing, s) && ByProducer(a)
    ensures ConsumerAt(s0, n, m, k, testing, Next(s, a))
  {
    ProducerKeepsInv(s, a);
  }

  lemma TestLeavesConsumer(s0: State, n: nat, m: nat, k: nat, testing: bool, s: State)
    requires ConsumerAt(s0, n, m, k, testing, s)
    ensures ConsumerAt(s0, n, m, k, !testing, Next(s, if testing then CTestConsume else CTestCommit))
  {
    ConsumerKeepsInv(s, if testing then CTestConsume else CTestCommit);
  }

  lemma ConsumerMovesOn(s0: State, n: nat, m: nat, k: nat, s: State)
    requires ConsumerAt(s0, n, m, k, false, s) && m <= n && s0.consume + n <= |s0.sent| && k < n + 5
    ensures ConsumerAt(s0, n, m, k + 1, false, Next(s, ConsumerScript(n, m, k)))
  {
    ConsumerKeepsInv(s, ConsumerScript(n, m, k));
  }

  lemma {:induction false} ConsumerGoesThrough(s0: State, n: nat, m: nat, k: nat, testing: bool, s: State,
      schedule: seq<Action>)
    requires ConsumerAt(s0, n, m, k, testing, s) && m <= n && s0.consume + n <= |s0.sent|
    requires ConsumerFollows(schedule, n, m, k, testing)
    ensures ConsumerAt(s0, n, m, n + 5, false, Run(s, schedule))
    decreases |schedule|
  {
    if schedule != [] {
      var a, rest := schedule[0], schedule[1..];
      if ByProducer(a) {
        ProducerLeavesConsumer(s0, n, m, k, testing, s, a);
        ConsumerGoesThrough(s0, n, m, k, testing, Next(s, a), rest);
      } else if testing || a.CTestCommit? {
        TestLeavesConsumer(s0, n, m, k, testing, s);
        ConsumerGoesThrough(s0, n, m, k, !testing, Next(s, a), rest);
      } else {
        ConsumerMovesOn(s0, n, m, k, s);
        ConsumerGoesThrough(s0, n, m, k + 1, false, Next(s, a), rest);
      }
    }
  }

  /**
   From every reachable state in which the consumer is idle: whatever the producer does meanwhile, reading
   `n` of the unread bytes and releasing `m` of them moves the cursor by `m` and hands over exactly the
   next `m` bytes of the stream.
   */
  lemma ReleasedIsHandedOver(capacity: nat, history: seq<Action>, n: nat, m: nat, schedule: seq<Action>)
    requires capacity > 0
    requires var s := Run(Init(capacity), history);
             s.consumer.CIdle? && s.consumerTest.None? && s.consume + n <= |s.sent|
    requires m <= n && ConsumerFollows(schedule, n, m, 0, false)
    ensures var s := Run(Init(capacity), history);
            var s' := Run(s, schedule);
            && s'.consumer.CIdle? && s'.consume == s.consume + m
            && s'.received == s.received + s.sent[s.consume .. s.consume + m]
  {
    var s := Run(Init(capacity), history);
    RunKeepsInv(Init(capacity), history);
    ConsumerGoesThrough(s, n, m, 0, false, s, schedule);
    var s' := Run(s, schedule);
    assert s'.sent[..s.consume + m] == s.sent[..s.consume] + s.sent[s.consume .. s.consume + m];
  }

  /** A read is refused exactly if it asks for more than was published when the cursor was loaded. */
  lemma ReadRefusedIff(s: State, len: nat)
    requires Inv(s) && s.consumerTest.None? && s.consumer.CSizing?
    ensures var s' := Next(s, CRead(len));
            && s' == s.(consumer := s'.consumer)
            && (s'.consumer.CIdle? <==> len > s.consumer.commit - s.consume)
            && (s'.consumer.CCopying? <==> len <= s.consumer.commit - s.consume)
  {
    LoadedPairPasses(s);
  }

  // ─── reserving, writing and publishing ─────────────────────────────────────

  function ProducerScript(bytes: seq<Byte>, k: nat): (a: Action) {
    if k == 0 then PLoad
    else if k == 1 then PReserve(bytes)
    else if k < |bytes| + 2 then PCopy
    else if k == |bytes| + 2 then PClose
    else PPublish
  }

  predicate ProducerFollows(schedule: seq<Action>, bytes: seq<Byte>, k: nat, testing: bool)
    decreases |schedule|
  {
    if schedule == [] then k == |bytes| + 4 && !testing
    else
      var a, rest := schedule[0], schedule[1..];
      if !ByProducer(a) then ProducerFollows(rest, bytes, k, testing)
      else if testing then a.PTestConsume? && ProducerFollows(rest, bytes, k, false)
      else if a.PTestCommit? then ProducerFollows(rest, bytes, k, true)
      else k < |bytes| + 4 && a == ProducerScript(bytes, k) && ProducerFollows(rest, bytes, k + 1, false)
  }

  ghost predicate ProducerAt(s0: State, bytes: seq<Byte>, k: nat, testing: bool, s: State) {
    && Inv(s) && s.capacity == s0.capacity && s0.consume <= s.consume
    && (testing <==> s.producerTest.Some?) && k <= |bytes| + 4
    && (k < |bytes| + 4 ==> s.sent == s0.sent)
    && (k == 0 ==> s.producer.PIdle?)
    && (k == 1 ==> s.producer.PSizing?)
    && (2 <= k < |bytes| + 3 ==> s.producer.PCopying? && s.producer.bytes == bytes && s.producer.copied == k - 2)
    && (k == |bytes| + 3 ==> s.producer.PPublishing? && s.producer.bytes == bytes)
    && (k == |bytes| + 4 ==> s.producer.PIdle? && s.sent == s0.sent + bytes)
  }

  lemma ConsumerLeavesProducer(s0: State, bytes: seq<Byte>, k: nat, testing: bool, s: State, a: Action)
    requires ProducerAt(s0, bytes, k, testing, s) && !ByProducer(a)
    ensures ProducerAt(s0, bytes, k, testing, Next(s, a))
  {
    ConsumerKeepsInv(s, a);
  }

  lemma TestLeavesProducer(s0: State, bytes: seq<Byte>, k: nat, testing: bool, s: State)
    requires ProducerAt(s0, bytes, k, testing, s)
    ensures ProducerAt(s0, bytes, k, !testing, Next(s, if testing then PTestConsume else PTestCommit))
  {
    ProducerKeepsInv(s, if testing then PTestConsume else PTestCommit);
  }

  lemma ProducerMovesOn(s0: State, bytes: seq<Byte>, k: nat, s: State)
    requires ProducerAt(s0, bytes, k, false, s) && k < |bytes| + 4
    requires |s0.sent| + |bytes| <= s0.consume + s0.capacity
    ensures ProducerAt(s0, bytes, k + 1, false, Next(s, ProducerScript(bytes, k)))
  {
    ProducerKeepsInv(s, ProducerScript(bytes, k));
  }

  lemma {:induction false} ProducerGoesThrough(s0: State, bytes: seq<Byte>, k: nat, testing: bool, s: State,
      schedule: seq<Action>)
    requires ProducerAt(s0, bytes, k, testing, s) && |s0.sent| + |bytes| <= s0.consume + s0.capacity
    requires ProducerFollows(schedule, bytes, k, testing)
    ensures ProducerAt(s0, bytes, |bytes| + 4, false, Run(s, schedule))
    decreases |schedule|
  {
    if schedule != [] {
      var a, rest := schedule[0], schedule[1..];
      if !ByProducer(a) {
        ConsumerLeavesProducer(s0, bytes, k, testing, s, a);
        ProducerGoesThrough(s0, bytes, k, testing, Next(s, a), rest);
      } else if testing || a.PTestCommit? {
        TestLeavesProducer(s0, bytes, k, testing, s);
        ProducerGoesThrough(s0, bytes, k, !testing, Next(s, a), rest);
      } else {
        ProducerMovesOn(s0, bytes, k, s);
        ProducerGoesThrough(s0, bytes, k + 1, false, Next(s, a), rest);
      }
    }
  }

  /**
   From every reachable state in which the producer is idle and the bytes fit into the free space: whatever
   the consumer does meanwhile, reserving, writing and publishing them adds exactly them to the stream.
   */
  lemma WrittenIsPublished(capacity: nat, history: seq<Action>, bytes: seq<Byte>, schedule: seq<Action>)
    requires capacity > 0
    requires var s := Run(Init(capacity), history);
             s.producer.PIdle? && s.producerTest.None? && |s.sent| + |bytes| <= s.consume + capacity
    requires ProducerFollows(schedule, bytes, 0, false)
    ensures var s := Run(Init(capacity), history);
            var s' := Run(s, schedule);
            s'.producer.PIdle? && s'.sent == s.sent + bytes && s'.commit == s.commit + |bytes|
  {
    var s := Run(Init(capacity), history);
    RunKeepsInv(Init(capacity), history);
    ProducerGoesThrough(s, bytes, 0, false, s, schedule);
    RunKeepsInv(s, schedule);
  }

  /** A reservation is refused exactly if the bytes do not fit into what is free when the cursor is loaded. */
  lemma ReserveRefusedIff(s: State, bytes: seq<Byte>)
    requires Inv(s) && s.producerTest.None? && s.producer.PSizing?
    ensures var s', free := Next(s, PReserve(bytes)), s.capacity - (|s.sent| - |s.received|);
            && s' == s.(producer := s'.producer)
            && (s'.producer.PIdle? <==> |bytes| > free)
            && (s'.producer.PCopying? <==> |bytes| <= free)
  {
    LoadedPairPasses(s);
  }

  // ─── what counts as corrupt, and what is given up ──────────────────────────

  /** No ring of this capacity can stand with these cursors. */
  predicate Impossible(commit: nat, consume: nat, capacity: nat) {
    commit < consume || consume + capacity < commit
  }

  /** The action compares a pair of cursors no ring can stand with, or closes a write that is no longer at the end. */
  predicate Finds(s: State, a: Action) {
    match a
    case PTestConsume => s.producerTest.Some? && Impossible(s.producerTest.value, s.consume, s.capacity)
    case CTestConsume => s.consumerTest.Some? && Impossible(s.consumerTest.value, s.consume, s.capacity)
    case PReserve(_) =>
      s.producerTest.None? && s.producer.PSizing? && Impossible(s.producer.commit, s.consume, s.capacity)
    case CRead(_) => s.consumerTest.None? && s.consumer.CSizing? && Impossible(s.consumer.commit, s.consume, s.capacity)
    case CCheck(_) =>
      s.consumerTest.None? && s.consumer.CClosing? && Impossible(s.consumer.commit, s.consume, s.capacity)
    case PClose =>
      && s.producerTest.None? && s.producer.PCopying? && s.producer.copied == |s.producer.bytes|
      && s.producer.start != s.commit
    case _ => false
  }

  /** In any state at all, sound or not, a ring is found corrupt exactly by the loads that show it. */
  lemma CorruptIff(s: State, a: Action)
    ensures Next(s, a).corrupt <==> s.corrupt || Finds(s, a)
  {
  }

  /**
   A handle that tests its ring finds out: the cursors it loads, with whatever the other side does in
   between, are judged as they were loaded.
   */
  lemma {:induction false} TestFindsIff(s: State, between: seq<Action>)
    requires s.consumerTest.None? && forall i :: 0 <= i < |between| ==> ByProducer(between[i])
    ensures var t := Run(Next(s, CTestCommit), between);
            && t.consumerTest == Some(s.commit) && t.consume == s.consume
            && (Next(t, CTestConsume).corrupt <==> t.corrupt || Impossible(s.commit, s.consume, s.capacity))
            && Next(t, CTestConsume).consumerTest.None?
  {
    ProducerLeavesTest(Next(s, CTestCommit), between);
  }

  lemma {:induction false} ProducerLeavesTest(s: State, schedule: seq<Action>)
    requires forall i :: 0 <= i < |schedule| ==> ByProducer(schedule[i])
    ensures var t := Run(s, schedule);
            t.consumerTest == s.consumerTest && t.consume == s.consume && t.capacity == s.capacity
    decreases |schedule|
  {
    if schedule != [] { ProducerLeavesTest(Next(s, schedule[0]), schedule[1..]); }
  }

  /**
   A write or a read given up at any point leaves the streams, both cursors and the other side as they
   were, and the handle can begin anew.
   */
  lemma GivenUpLeavesTheStreams(capacity: nat, history: seq<Action>)
    requires capacity > 0
    ensures var s := Run(Init(capacity), history);
            && (s.producerTest.None? ==> Next(s, PAbandon) == s.(producer := PIdle))
            && (s.consumerTest.None? ==> Next(s, CAbandon) == s.(consumer := CIdle))
            && Inv(Next(s, PAbandon)) && Inv(Next(s, CAbandon))
            && Next(s, PAbandon).sent == s.sent && Next(s, CAbandon).received == s.received
  {
    RunKeepsInv(Init(capacity), history);
    var s := Run(Init(capacity), history);
    ProducerKeepsInv(s, PAbandon);
    ConsumerKeepsInv(s, CAbandon);
  }
}
