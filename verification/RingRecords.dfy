/** Records over the interleaved ring: what a consumer that parses its stream gets out of any schedule. */
module RingRecords {
  import opened Framing
  import P = RingProtocol

  /**
   If what the producer publishes is a run of records, however it is cut into reservations, then under
   every schedule the bytes the consumer has released hold a beginning of those records, each with its
   kind and payload, none torn, and every record that lies wholly in them.
   */
  lemma RecordsSurviveEverySchedule(capacity: nat, schedule: seq<P.Action>, rs: seq<Record>)
    requires capacity > 0 && AllFit(rs, capacity)
    requires P.Run(P.Init(capacity), schedule).sent <= EncodeAll(rs)
    ensures var s := P.Run(P.Init(capacity), schedule);
            WholeBefore(rs, ParseAll(s.received, capacity), s.consume)
  {
    P.ExactlyOnceInOrder(capacity, schedule);
    var s := P.Run(P.Init(capacity), schedule);
    assert s.received == s.sent[..s.consume] == EncodeAll(rs)[..s.consume];
    AnyCutYieldsWholeRecords(rs, s.consume, capacity);
  }
}
