/** Windows onto a circular buffer: what a wrapped copy reads and writes. */
module Wrapping {
  import Arithmetic
  import opened Bytes

  /** The `len` bytes starting at stream position `pos`, wherever they wrap. */
  function Window(d: seq<Byte>, pos: nat, len: nat): (w: seq<Byte>)
    requires |d| > 0
    ensures |w| == len
  {
    seq(len, i requires 0 <= i < len => d[(pos + i) % |d|])
  }

  /** How far slot `j` lies after slot `start`, going round. */
  function Distance(j: nat, start: nat, capacity: nat): (k: nat)
    requires j < capacity && start < capacity
    ensures k < capacity
  {
    if start <= j then j - start else j + capacity - start
  }

  /** The buffer after `bytes` have been copied in at stream position `pos`. */
  function Overwrite(d: seq<Byte>, pos: nat, bytes: seq<Byte>): (d': seq<Byte>)
    requires 0 < |d|
    ensures |d'| == |d|
  {
    seq(|d|, j requires 0 <= j < |d| =>
      var k := Distance(j, pos % |d|, |d|);
      if k < |bytes| then bytes[k] else d[j])
  }

  /** A copy is read back whole, wherever it wrapped. */
  lemma WindowOfOverwrite(d: seq<Byte>, pos: nat, bytes: seq<Byte>)
    requires 0 < |d| && |bytes| <= |d|
    ensures Window(Overwrite(d, pos, bytes), pos, |bytes|) == bytes
  {
    var w := Window(Overwrite(d, pos, bytes), pos, |bytes|);
    forall i | 0 <= i < |bytes| ensures w[i] == bytes[i] {
      Arithmetic.RemainderCarries(pos, i, |d|);
    }
  }

  lemma FarFromCopy(p: nat, pos: nat, len: nat, capacity: nat)
    requires 0 < capacity && p < pos && pos + len <= p + capacity
    ensures Distance(p % capacity, pos % capacity, capacity) >= len
  {
    var k := Distance(p % capacity, pos % capacity, capacity);
    if k < len {
      Arithmetic.RemainderCarries(pos, k, capacity);
      Arithmetic.RemaindersDiffer(p, pos + k, capacity);
    }
  }

  /** A copy leaves alone every stream position that is still within one capacity of its end. */
  lemma OverwriteMisses(d: seq<Byte>, pos: nat, bytes: seq<Byte>, from: nat, n: nat)
    requires 0 < |d|
    requires from + n <= pos && pos + |bytes| <= from + |d|
    ensures Window(Overwrite(d, pos, bytes), from, n) == Window(d, from, n)
  {
    var w, w' := Window(d, from, n), Window(Overwrite(d, pos, bytes), from, n);
    forall i | 0 <= i < n ensures w'[i] == w[i] {
      FarFromCopy(from + i, pos, |bytes|, |d|);
    }
  }

  /** Copying in two blocks, up to the end of the buffer and then from its start, is one wrapped copy. */
  lemma OverwriteIsTwoBlocks(d: seq<Byte>, start: nat, bytes: seq<Byte>, first: nat, pos: nat)
    requires 0 < |d| && |bytes| <= |d| && start == pos % |d|
    requires first == if |bytes| <= |d| - start then |bytes| else |d| - start
    ensures var d1 := d[..start] + bytes[..first] + d[start + first..];
            bytes[first..] + d1[|bytes| - first..] == Overwrite(d, pos, bytes)
  {
  }

  lemma WindowSplits(d: seq<Byte>, pos: nat, a: nat, b: nat)
    requires 0 < |d|
    ensures Window(d, pos, a + b) == Window(d, pos, a) + Window(d, pos + a, b)
  {
  }

  lemma WindowInWindow(d: seq<Byte>, pos: nat, len: nat, a: nat, n: nat)
    requires 0 < |d| && a + n <= len
    ensures Window(d, pos + a, n) == Window(d, pos, len)[a .. a + n]
  {
  }

  lemma GlueWindows(d: seq<Byte>, pos: nat, a: seq<Byte>, b: seq<Byte>)
    requires 0 < |d|
    requires Window(d, pos, |a|) == a && Window(d, pos + |a|, |b|) == b
    ensures Window(d, pos, |a| + |b|) == a + b
  {
    WindowSplits(d, pos, |a|, |b|);
  }

  lemma SecondCopyJoins(d: seq<Byte>, pos: nat, a: seq<Byte>, b: seq<Byte>)
    requires 0 < |d| && |a| + |b| <= |d| && Window(d, pos, |a|) == a
    ensures Window(Overwrite(d, pos + |a|, b), pos, |a| + |b|) == a + b
  {
    OverwriteMisses(d, pos + |a|, b, pos, |a|);
    WindowOfOverwrite(d, pos + |a|, b);
    GlueWindows(Overwrite(d, pos + |a|, b), pos, a, b);
  }

  /** Two copies side by side read back as one. */
  lemma AdjacentCopies(d: seq<Byte>, pos: nat, a: seq<Byte>, b: seq<Byte>)
    requires 0 < |d| && |a| + |b| <= |d|
    ensures Window(Overwrite(Overwrite(d, pos, a), pos + |a|, b), pos, |a| + |b|) == a + b
  {
    WindowOfOverwrite(d, pos, a);
    SecondCopyJoins(Overwrite(d, pos, a), pos, a, b);
  }

  lemma AdjacentCopiesMiss(d: seq<Byte>, pos: nat, a: seq<Byte>, b: seq<Byte>, from: nat, n: nat)
    requires 0 < |d|
    requires from + n <= pos && pos + |a| + |b| <= from + |d|
    ensures Window(Overwrite(Overwrite(d, pos, a), pos + |a|, b), from, n) == Window(d, from, n)
  {
    OverwriteMisses(d, pos, a, from, n);
    OverwriteMisses(Overwrite(d, pos, a), pos + |a|, b, from, n);
  }

  lemma SpanAt(d: seq<Byte>, pos: nat, len: nat, start: nat, first: nat, i: nat)
    requires 0 < |d| && len <= |d| && i < len && start == pos % |d|
    requires first == if len <= |d| - start then len else |d| - start
    ensures (d[start .. start + first] + d[.. len - first])[i] == d[(pos + i) % |d|]
  {
    Arithmetic.RemainderCarries(pos, i, |d|);
  }

  /** The two pieces of a wrapped range, in order, are the window. */
  lemma SpansAreWindow(d: seq<Byte>, pos: nat, len: nat)
    requires 0 < |d| && len <= |d|
    ensures var start := pos % |d|;
            var first := if len <= |d| - start then len else |d| - start;
            d[start .. start + first] + d[.. len - first] == Window(d, pos, len)
  {
    var start := pos % |d|;
    var first := if len <= |d| - start then len else |d| - start;
    var spans := d[start .. start + first] + d[.. len - first];
    forall i | 0 <= i < len ensures spans[i] == Window(d, pos, len)[i] {
      SpanAt(d, pos, len, start, first, i);
    }
  }
}

/** One installed ring in shared memory, the two endpoints that use it, and record transfer. */
module ByteRing {
  import opened Bytes
  import opened Framing
  import opened Options
  import opened Wrapping

  const RING_MAGIC: nat := 0x4752_5753
  const RING_VERSION: nat := 1

  datatype Role = Producer | Consumer

  datatype RingHandle = RingHandle(capacity: nat, generation: nat)

  datatype Header = Header(magic: nat, version: nat, reserved: nat, capacity: nat, generation: nat)

  datatype Reservation = Reservation(start: nat, len: nat, generation: nat)

  /** The next complete record, located but not yet released. */
  datatype RecordCursor = RecordCursor(
    kind: RecordKind, payloadStart: nat, payloadLen: nat, recordStart: nat, recordLen: nat, generation: nat)

  datatype WritableRecord = WritableRecord(reservation: Reservation, payloadStart: nat, payloadLen: nat)

  datatype HeaderError =
    | BadMagic(found: nat)
    | UnsupportedVersion(found: nat, supported: nat)
    | ReservedBytesNotZero
    | CapacityMismatch(header: nat, handle: nat)
    | GenerationMismatch(header: nat, handle: nat)
    | CommitBelowConsume(commit: nat, consume: nat)
    | ReadableExceedsCapacity(commit: nat, consume: nat, capacity: nat)

  datatype FlowError =
    | InsufficientSpace(requested: nat, free: nat)
    | BeyondCommitted(requested: nat, readable: nat)
    | StaleReservation(reservation: nat, ring: nat)
    | RoleViolation(role: Role)
    | Corrupt(header: HeaderError)
    | PinnedRecordMoved(expected: nat, found: nat)
    | BadKind(byte: Byte)
    | BadLength(len: nat, capacity: nat)
    | LengthExceedsWire(len: nat)

  datatype Result<+T> = Ok(value: T) | Err(error: FlowError)

  /** The error names what is wrong with the header, and nothing laid out before it is wrong. */
  predicate FirstWrong(h: Header, info: RingHandle, e: HeaderError) {
    match e
    case BadMagic(found) => found == h.magic != RING_MAGIC
    case UnsupportedVersion(found, supported) => h.magic == RING_MAGIC &&
        found == h.version != supported == RING_VERSION
    case ReservedBytesNotZero => h.magic == RING_MAGIC && h.version == RING_VERSION && h.reserved != 0
    case CapacityMismatch(header, handle) =>
      && h.magic == RING_MAGIC && h.version == RING_VERSION && h.reserved == 0
      && header == h.capacity != handle == info.capacity
    case _ => false
  }

  function ValidateFixed(h: Header, info: RingHandle): (e: Option<HeaderError>)
    ensures e.None? <==>
              h.magic == RING_MAGIC && h.version == RING_VERSION && h.reserved == 0 && h.capacity == info.capacity
    ensures e.Some? ==> FirstWrong(h, info, e.value)
  {
    if h.magic != RING_MAGIC then Some(BadMagic(h.magic))
    else if h.version != RING_VERSION then Some(UnsupportedVersion(h.version, RING_VERSION))
    else if h.reserved != 0 then Some(ReservedBytesNotZero)
    else if h.capacity != info.capacity then Some(CapacityMismatch(h.capacity, info.capacity))
    else None
  }

  function ValidateCursors(commit: nat, consume: nat, capacity: nat): (e: Option<HeaderError>)
    ensures e.None? <==> consume <= commit <= consume + capacity
    ensures e == Some(CommitBelowConsume(commit, consume)) <==> commit < consume
    ensures e == Some(ReadableExceedsCapacity(commit, consume, capacity)) <==> consume + capacity < commit
  {
    if commit < consume then Some(CommitBelowConsume(commit, consume))
    else if commit - consume > capacity then Some(ReadableExceedsCapacity(commit, consume, capacity))
    else None
  }

  /** The buffer after a prefix and a payload were copied in side by side. */
  ghost function RecordCopied(d: seq<Byte>, at: nat, r: Record): (d': seq<Byte>)
    requires 0 < |d|
    ensures |d'| == |d|
  {
    Overwrite(Overwrite(d, at, Prefix(r.kind, |r.payload|)), at + RECORD_HEADER_LEN, r.payload)
  }

  lemma RecordReadsBack(d: seq<Byte>, at: nat, r: Record)
    requires 0 < |d| && RECORD_HEADER_LEN + |r.payload| <= |d|
    ensures Window(RecordCopied(d, at, r), at, RECORD_HEADER_LEN + |r.payload|) == Encode(r)
  {
    AdjacentCopies(d, at, Prefix(r.kind, |r.payload|), r.payload);
  }

  lemma RecordMisses(d: seq<Byte>, at: nat, r: Record, from: nat, n: nat)
    requires 0 < |d| && from + n <= at && at + RECORD_HEADER_LEN + |r.payload| <= from + |d|
    ensures Window(RecordCopied(d, at, r), from, n) == Window(d, from, n)
  {
    AdjacentCopiesMiss(d, at, Prefix(r.kind, |r.payload|), r.payload, from, n);
  }

  /**
   The memory of one lease. `sent` is the stream published so far; `records` and `taken` are the
   records that stream holds when it is framed, and how many of them have been released.
   */
  class Ring {
    var header: Header
    var commit: nat
    var consume: nat
    const data: array<Byte>
    ghost var sent: seq<Byte>
    ghost var records: seq<Record>
    ghost var taken: nat

    constructor Install(capacity: nat, generation: nat)
      requires capacity > 0 && generation > 0
      ensures fresh(data) && data.Length == capacity
      ensures header == Header(RING_MAGIC, RING_VERSION, 0, capacity, generation)
      ensures Streams() && Framed() && sent == [] && records == []
    {
      header := Header(RING_MAGIC, RING_VERSION, 0, capacity, generation);
      commit, consume := 0, 0;
      data := new Byte[capacity](_ => 0);
      sent, records, taken := [], [], 0;
    }

    /** The unread part of the published stream is what the buffer holds between the cursors. */
    ghost predicate Streams()
      reads this, data
    {
      && data.Length > 0
      && commit == |sent|
      && consume <= commit <= consume + data.Length
      && Window(data[..], consume, commit - consume) == sent[consume..]
    }

    /** The stream is a run of whole records and the consumer stands between two of them. */
    ghost predicate Framed()
      reads this
    {
      && sent == EncodeAll(records)
      && taken <= |records|
      && consume == |EncodeAll(records[..taken])|
      && AllFit(records, data.Length)
    }

    lemma UnreadIsEncoded()
      requires Framed()
      ensures consume <= |sent| && sent[consume..] == EncodeAll(records[taken..])
    {
      EncodeAllAppends(records[..taken], records[taken..]);
      assert records == records[..taken] + records[taken..];
    }

    // The consumer finds the next record whole, or nothing at all.
    lemma NextUnread()
      requires Framed()
      ensures consume <= |sent|
      ensures taken == |records| ==> sent[consume..] == []
      ensures taken < |records| ==>
                var p := ParseNext(sent[consume..], data.Length);
                && p == Complete(records[taken].kind, |records[taken].payload|)
                && PayloadOf(sent[consume..], p) == records[taken].payload
                && consume + |Encode(records[taken])| == |EncodeAll(records[..taken + 1])|
    {
      UnreadIsEncoded();
      if taken < |records| {
        var r, rest := records[taken], records[taken + 1..];
        assert records[taken..][1..] == rest;
        ParseEncoded(r, EncodeAll(rest), data.Length);
        EncodeAllAppends(records[..taken], [r]);
        assert records[..taken + 1] == records[..taken] + [r];
        assert EncodeAll([r]) == Encode(r) + EncodeAll([]);
      }
    }

    lemma DropFromUnread(n: nat)
      requires Streams() && consume + n <= commit
      ensures Window(data[..], consume + n, commit - consume - n) == sent[consume + n..]
    {
      WindowInWindow(data[..], consume, commit - consume, n, commit - consume - n);
    }

    // The same, told of the bytes in the buffer rather than of the stream.
    lemma NextInBuffer()
      requires Streams() && Framed()
      ensures var unread := Window(data[..], consume, commit - consume);
              && (taken == |records| ==> ParseNext(unread, data.Length) == Incomplete)
              && (taken < |records| ==>
                    var r := records[taken];
                    && ParseNext(unread, data.Length) == Complete(r.kind, |r.payload|)
                    && Window(data[..], consume + RECORD_HEADER_LEN, |r.payload|) == r.payload
                    && consume + RECORD_HEADER_LEN + |r.payload| == |EncodeAll(records[..taken + 1])|)
    {
      NextUnread();
      if taken < |records| {
        WindowInWindow(data[..], consume, commit - consume, RECORD_HEADER_LEN, |records[taken].payload|);
      }
    }
  }

  class Endpoint {
    const ring: Ring
    const info: RingHandle
    const role: Role

    constructor Attach(ring: Ring, info: RingHandle, role: Role)
      ensures this.ring == ring && this.info == info && this.role == role
    {
      this.ring := ring;
      this.info := info;
      this.role := role;
    }

    /** What attaching established: the lease holds the whole data region, and it is not empty. */
    predicate Attached() {
      ring.data.Length == info.capacity > 0
    }

    /** Why an operation reserved for `needed` would be refused before it touches memory. */
    function Refusal(needed: Role): (e: Option<FlowError>)
      reads ring
      ensures e.None? ==> ring.consume <= ring.commit <= ring.consume + info.capacity
      ensures e.None? <==>
                && role == needed && ValidateFixed(ring.header, info).None?
                && ring.consume <= ring.commit <= ring.consume + info.capacity
      ensures e == Some(RoleViolation(role)) <==> role != needed
      ensures role == needed && ValidateFixed(ring.header, info).Some? ==>
                e == Some(Corrupt(ValidateFixed(ring.header, info).value))
      ensures e.Some? && role == needed && ValidateFixed(ring.header, info).None? ==>
                e.value.Corrupt? && (e.value.header.CommitBelowConsume? <==> ring.commit < ring.consume)
    {
      if role != needed then Some(RoleViolation(role))
      else if ValidateFixed(ring.header, info).Some? then Some(Corrupt(ValidateFixed(ring.header, info).value))
      else if ValidateCursors(ring.commit, ring.consume, info.capacity).Some?
      then Some(Corrupt(ValidateCursors(ring.commit, ring.consume, info.capacity).value))
      else None
    }

    function StaleGeneration(expected: nat): (e: Option<FlowError>)
      reads ring
      ensures e.None? <==> ring.header.generation == expected
    {
      if ring.header.generation != expected then Some(StaleReservation(expected, ring.header.generation)) else None
    }

    /** As `Refusal`, for the operations that also fence the generation. */
    function FencedRefusal(needed: Role): (e: Option<FlowError>)
      reads ring
      ensures e.None? <==> Refusal(needed).None? && ring.header.generation == info.generation
      ensures Refusal(needed).Some? ==> e == Refusal(needed)
    {
      if Refusal(needed).Some? then Refusal(needed)
      else if ring.header.generation != info.generation
      then Some(Corrupt(GenerationMismatch(ring.header.generation, info.generation)))
      else None
    }

    /** Why a reservation cannot be used: the ring is not this handle's to write, or it changed hands since. */
    function ReservationRefusal(reservation: Reservation): (e: Option<FlowError>)
      reads ring
      ensures e.None? <==> Accepted(reservation)
      ensures Refusal(Producer).Some? ==> e == Refusal(Producer)
    {
      if Refusal(Producer).Some? then Refusal(Producer) else StaleGeneration(reservation.generation)
    }

    /** What a reservation must pass before it is used: role, header, cursors and generation. */
    predicate Accepted(reservation: Reservation)
      reads ring
    {
      Refusal(Producer).None? && ring.header.generation == reservation.generation
    }

    /** The reservation is the producer's next span and lies in space the consumer has released. */
    predicate Current(reservation: Reservation)
      reads ring
    {
      reservation.start == ring.commit && ring.commit + reservation.len <= ring.consume + info.capacity
    }

    ghost function Readable(): (bytes: seq<Byte>)
      reads ring, ring.data
      requires Attached() && ring.consume <= ring.commit
    {
      Window(ring.data[..], ring.consume, ring.commit - ring.consume)
    }

    // ─── wrapped copies ──────────────────────────────────────────────────────

    method CopyBlock(at: nat, bytes: seq<Byte>)
      requires at + |bytes| <= ring.data.Length
      modifies ring.data
      ensures ring.data[..] == old(ring.data[..at]) + bytes + old(ring.data[at + |bytes|..])
    {
      for i := 0 to |bytes|
        invariant ring.data[..] == old(ring.data[..at]) + bytes[..i] + old(ring.data[at + i..])
      {
        ring.data[at + i] := bytes[i];
        assert ring.data[..] == old(ring.data[..at]) + bytes[..i + 1] + old(ring.data[at + i + 1..]);
      }
    }

    method CopyInto(pos: nat, bytes: seq<Byte>)
      requires Attached() && |bytes| <= info.capacity
      modifies ring.data
      ensures ring.data[..] == Overwrite(old(ring.data[..]), pos, bytes)
    {
      var start := pos % info.capacity;
      var first := if |bytes| <= info.capacity - start then |bytes| else info.capacity - start;
      ghost var d := ring.data[..];
      CopyBlock(start, bytes[..first]);
      ghost var d1 := ring.data[..];
      assert d1 == d[..start] + bytes[..first] + d[start + first..];
      CopyBlock(0, bytes[first..]);
      assert ring.data[..] == bytes[first..] + d1[|bytes| - first..];
      OverwriteIsTwoBlocks(d, start, bytes, first, pos);
    }

    method ReadSpans(pos: nat, len: nat) returns (first: seq<Byte>, second: seq<Byte>)
      requires Attached() && len <= info.capacity
      ensures first + second == Window(ring.data[..], pos, len)
      ensures |second| == 0 <==> pos % info.capacity + len <= info.capacity
    {
      var start := pos % info.capacity;
      var cut := if len <= info.capacity - start then len else info.capacity - start;
      SpansAreWindow(ring.data[..], pos, len);
      first, second := ring.data[start .. start + cut], ring.data[.. len - cut];
      assert first == ring.data[..][start .. start + cut] && second == ring.data[..][.. len - cut];
    }

    method CopyOut(pos: nat, len: nat) returns (bytes: seq<Byte>)
      requires Attached() && len <= info.capacity
      ensures bytes == Window(ring.data[..], pos, len)
    {
      var first, second := ReadSpans(pos, len);
      bytes := first + second;
    }

    // ─── producer side ───────────────────────────────────────────────────────

    /** Property P7: refused exactly when the free space is short, naming the exact free amount. */
    method Reserve(len: nat) returns (r: Result<Reservation>)
      requires Attached()
      ensures FencedRefusal(Producer).Some? ==> r == Err(FencedRefusal(Producer).value)
      ensures FencedRefusal(Producer).None? ==>
                var free := ring.consume + info.capacity - ring.commit;
                r == if len <= free then Ok(Reservation(ring.commit, len, info.generation))
                     else Err(InsufficientSpace(len, free))
    {
      if FencedRefusal(Producer).Some? { return Err(FencedRefusal(Producer).value); }
      var used := ring.commit - ring.consume;
      var free := info.capacity - used;
      if len > free { return Err(InsufficientSpace(len, free)); }
      return Ok(Reservation(ring.commit, len, info.generation));
    }

    method Write(reservation: Reservation, bytes: seq<Byte>) returns (r: Result<()>)
      requires Attached() && (Accepted(reservation) ==> |bytes| == reservation.len <= info.capacity)
      modifies ring.data
      ensures r.Err? ==> ring.data[..] == old(ring.data[..]) && ReservationRefusal(reservation) == Some(r.error)
      ensures r.Ok? <==> Accepted(reservation)
      ensures r.Ok? ==> Window(ring.data[..], reservation.start, |bytes|) == bytes
      ensures old(ring.Streams()) && Current(reservation) ==> ring.Streams()
    {
      if Refusal(Producer).Some? { return Err(Refusal(Producer).value); }
      if StaleGeneration(reservation.generation).Some? { return Err(StaleGeneration(reservation.generation).value); }
      CopyInto(reservation.start, bytes);
      WindowOfOverwrite(old(ring.data[..]), reservation.start, bytes);
      if Current(reservation) {
        OverwriteMisses(old(ring.data[..]), ring.commit, bytes, ring.consume, ring.commit - ring.consume);
      }
      return Ok(());
    }

    /** Publishes whatever the reserved span holds; a reservation of another generation changes nothing. */
    method Commit(reservation: Reservation) returns (r: Result<()>)
      requires Attached() && (Accepted(reservation) ==> Current(reservation))
      modifies ring`commit, ring`sent
      ensures r.Ok? <==> old(Accepted(reservation))
      ensures r.Err? ==>
                && ring.commit == old(ring.commit) && ring.sent == old(ring.sent)
                && old(ReservationRefusal(reservation)) == Some(r.error)
      ensures r.Ok? ==>
                && ring.commit == old(ring.commit) + reservation.len
                && ring.sent == old(ring.sent) + Window(ring.data[..], reservation.start, reservation.len)
      ensures old(ring.Streams()) ==> ring.Streams()
    {
      if Refusal(Producer).Some? { return Err(Refusal(Producer).value); }
      if StaleGeneration(reservation.generation).Some? { return Err(StaleGeneration(reservation.generation).value); }
      ghost var d := ring.data[..];
      ghost var span := Window(d, reservation.start, reservation.len);
      WindowSplits(d, ring.consume, ring.commit - ring.consume, reservation.len);
      ring.commit := ring.commit + reservation.len;
      ring.sent := ring.sent + span;
      assert old(ring.Streams()) ==> ring.sent[ring.consume..] == old(ring.sent[ring.consume..]) + span;
      return Ok(());
    }

    // ─── consumer side ───────────────────────────────────────────────────────

    /** On a sound ring the bytes read are the published stream from the consume cursor on. */
    method Read(len: nat) returns (r: Result<seq<Byte>>)
      requires Attached()
      ensures Refusal(Consumer).Some? ==> r == Err(Refusal(Consumer).value)
      ensures Refusal(Consumer).None? ==>
                r == if len <= ring.commit - ring.consume then Ok(Readable()[..len])
                     else Err(BeyondCommitted(len, ring.commit - ring.consume))
      ensures ring.Streams() && r.Ok? ==> r.value == ring.sent[ring.consume .. ring.consume + len]
    {
      if Refusal(Consumer).Some? { return Err(Refusal(Consumer).value); }
      var readable := ring.commit - ring.consume;
      if len > readable { return Err(BeyondCommitted(len, readable)); }
      var bytes := CopyOut(ring.consume, len);
      WindowInWindow(ring.data[..], ring.consume, readable, 0, len);
      return Ok(bytes);
    }

    method Consume(len: nat) returns (r: Result<()>)
      requires Attached()
      modifies ring`consume
      ensures old(Refusal(Consumer)).Some? ==> r == Err(old(Refusal(Consumer)).value)
      ensures old(Refusal(Consumer)).None? ==>
                r == if len <= ring.commit - old(ring.consume) then Ok(())
                     else Err(BeyondCommitted(len, ring.commit - old(ring.consume)))
      ensures ring.consume == old(ring.consume) + if r.Ok? then len else 0
      ensures old(ring.Streams()) ==> ring.Streams()
    {
      if Refusal(Consumer).Some? { return Err(Refusal(Consumer).value); }
      var readable := ring.commit - ring.consume;
      if len > readable { return Err(BeyondCommitted(len, readable)); }
      if ring.Streams() { ring.DropFromUnread(len); }
      ring.consume := ring.consume + len;
      return Ok(());
    }

    // ─── records ─────────────────────────────────────────────────────────────

    /** Copies one prefix and one payload side by side into the span the producer is about to publish. */
    method CopyRecord(kind: RecordKind, bytes: seq<Byte>)
      requires Attached() && RECORD_HEADER_LEN + |bytes| <= info.capacity
      modifies ring.data
      ensures Window(ring.data[..], ring.commit, RECORD_HEADER_LEN + |bytes|) == Encode(Record(kind, bytes))
      ensures old(ring.Streams()) && ring.commit + RECORD_HEADER_LEN + |bytes| <= ring.consume + info.capacity ==>
                ring.Streams()
    {
      var at := ring.commit;
      ghost var d := ring.data[..];
      CopyInto(at, Prefix(kind, |bytes|));
      CopyInto(at + RECORD_HEADER_LEN, bytes);
      assert ring.data[..] == RecordCopied(d, at, Record(kind, bytes));
      RecordReadsBack(d, at, Record(kind, bytes));
      if ring.consume <= at && at + RECORD_HEADER_LEN + |bytes| <= ring.consume + info.capacity {
        RecordMisses(d, at, Record(kind, bytes), ring.consume, at - ring.consume);
      }
    }

    /** Why a record of this length would not be accepted right now. */
    function SendRefusal(len: nat): (e: Option<FlowError>)
      reads ring
      ensures e.None? ==> Refusal(Producer).None? && RECORD_HEADER_LEN + len <= info.capacity
      ensures e.None? <==>
                && RECORD_HEADER_LEN + len <= info.capacity && FencedRefusal(Producer).None?
                && ring.commit + RECORD_HEADER_LEN + len <= ring.consume + info.capacity
      ensures e == Some(BadLength(len, info.capacity)) <==> RECORD_HEADER_LEN + len > info.capacity
    {
      if RECORD_HEADER_LEN + len > info.capacity then Some(BadLength(len, info.capacity))
      else if FencedRefusal(Producer).Some? then FencedRefusal(Producer)
      else
        var free := ring.consume + info.capacity - ring.commit;
        if RECORD_HEADER_LEN + len > free then Some(InsufficientSpace(RECORD_HEADER_LEN + len, free)) else None
    }

    /** Frames and publishes one record: all of it becomes readable, or none of it. */
    method SendRecord(kind: RecordKind, bytes: seq<Byte>) returns (r: Result<()>)
      requires Attached()
      modifies ring`commit, ring`sent, ring`records, ring.data
      ensures old(SendRefusal(|bytes|)).Some? ==>
                && r == Err(old(SendRefusal(|bytes|)).value)
                && ring.sent == old(ring.sent) && ring.commit == old(ring.commit) && ring.records == old(ring.records)
                && ring.data[..] == old(ring.data[..])
      ensures old(SendRefusal(|bytes|)).None? ==>
                && r.Ok?
                && ring.sent == old(ring.sent) + Encode(Record(kind, bytes))
                && ring.commit == old(ring.commit) + RECORD_HEADER_LEN + |bytes|
                && ring.records == old(ring.records) + [Record(kind, bytes)]
      ensures old(ring.Streams()) ==> ring.Streams()
      ensures old(ring.Framed()) && |bytes| < U32_LIMIT ==> ring.Framed()
    {
      if RECORD_HEADER_LEN + |bytes| > info.capacity { return Err(BadLength(|bytes|, info.capacity)); }
      var reserved := Reserve(RECORD_HEADER_LEN + |bytes|);
      if reserved.Err? { return Err(reserved.error); }
      CopyRecord(kind, bytes);
      r := Commit(reserved.value);
      PublishRecord(Record(kind, bytes));
    }

    // Records in the ghost history that the bytes just published were one whole record.
    ghost method PublishRecord(record: Record)
      modifies ring`records
      ensures ring.records == old(ring.records) + [record]
      ensures ring.sent == EncodeAll(old(ring.records)) + Encode(record)
              ==> ring.sent == EncodeAll(ring.records)
      ensures ring.taken <= |old(ring.records)| ==> ring.records[..ring.taken] == old(ring.records)[..ring.taken]
    {
      EncodeAllAppends(ring.records, [record]);
      assert EncodeAll([record]) == Encode(record) + EncodeAll([]);
      ring.records := ring.records + [record];
    }

    /** Writes the prefix of a record whose payload the caller will fill in place. */
    method ReserveRecord(kind: RecordKind, len: nat) returns (r: Result<WritableRecord>)
      requires Attached()
      modifies ring.data
      ensures len >= U32_LIMIT ==> r == Err(LengthExceedsWire(len))
      ensures len < U32_LIMIT && SendRefusal(len).Some? ==> r == Err(SendRefusal(len).value)
      ensures r.Err? ==> ring.data[..] == old(ring.data[..])
      ensures len < U32_LIMIT && SendRefusal(len).None? ==>
                && r.Ok?
                && r.value.reservation == Reservation(ring.commit, RECORD_HEADER_LEN + len, info.generation)
                && r.value.payloadStart == ring.commit + RECORD_HEADER_LEN && r.value.payloadLen == len
                && Window(ring.data[..], ring.commit, RECORD_HEADER_LEN) == Prefix(kind, len)
      ensures old(ring.Streams()) ==> ring.Streams()
    {
      if len >= U32_LIMIT { return Err(LengthExceedsWire(len)); }
      if RECORD_HEADER_LEN + len > info.capacity { return Err(BadLength(len, info.capacity)); }
      var reserved := Reserve(RECORD_HEADER_LEN + len);
      if reserved.Err? { return Err(reserved.error); }
      var at := ring.commit;
      CopyInto(at, Prefix(kind, len));
      WindowOfOverwrite(old(ring.data[..]), at, Prefix(kind, len));
      OverwriteMisses(old(ring.data[..]), at, Prefix(kind, len), ring.consume, at - ring.consume);
      return Ok(WritableRecord(reserved.value, at + RECORD_HEADER_LEN, len));
    }

    /** Fills the payload span through the two mutable pieces of the reservation. */
    method FillPayload(w: WritableRecord, bytes: seq<Byte>)
      requires Attached() && |bytes| == w.payloadLen && RECORD_HEADER_LEN + |bytes| <= info.capacity
      requires w.payloadStart == ring.commit + RECORD_HEADER_LEN
      requires w.reservation.len == RECORD_HEADER_LEN + w.payloadLen && Current(w.reservation)
      modifies ring.data
      ensures Window(ring.data[..], w.payloadStart, |bytes|) == bytes
      ensures Window(ring.data[..], ring.commit, RECORD_HEADER_LEN) ==
                old(Window(ring.data[..], ring.commit, RECORD_HEADER_LEN))
      ensures old(ring.Streams()) ==> ring.Streams()
    {
      ghost var d := ring.data[..];
      CopyInto(w.payloadStart, bytes);
      WindowOfOverwrite(d, w.payloadStart, bytes);
      OverwriteMisses(d, w.payloadStart, bytes, ring.commit, RECORD_HEADER_LEN);
      if ring.consume <= ring.commit {
        OverwriteMisses(d, w.payloadStart, bytes, ring.consume, ring.commit - ring.consume);
      }
    }

    /** Publishing a filled reservation has the same effect on the stream as sending the record. */
    method CommitRecord(w: WritableRecord, ghost kind: RecordKind) returns (r: Result<()>)
      requires Attached() && Current(w.reservation)
      requires w.payloadStart == ring.commit + RECORD_HEADER_LEN
      requires w.reservation.len == RECORD_HEADER_LEN + w.payloadLen
      requires Window(ring.data[..], ring.commit, RECORD_HEADER_LEN) == Prefix(kind, w.payloadLen)
      modifies ring`commit, ring`sent, ring`records
      ensures r.Ok? <==> old(Refusal(Producer)).None? && ring.header.generation == w.reservation.generation
      ensures r.Err? ==>
                ring.sent == old(ring.sent) && ring.commit == old(ring.commit) && ring.records == old(ring.records)
      ensures r.Ok? ==>
                var record := Record(kind, Window(ring.data[..], w.payloadStart, w.payloadLen));
                && ring.sent == old(ring.sent) + Encode(record)
                && ring.commit == old(ring.commit) + RECORD_HEADER_LEN + w.payloadLen
                && ring.records == old(ring.records) + [record]
      ensures old(ring.Streams()) ==> ring.Streams()
      ensures old(ring.Framed()) && w.payloadLen < U32_LIMIT && RECORD_HEADER_LEN + w.payloadLen <= info.capacity ==>
                ring.Framed()
    {
      WindowSplits(ring.data[..], ring.commit, RECORD_HEADER_LEN, w.payloadLen);
      r := Commit(w.reservation);
      if r.Ok? { PublishRecord(Record(kind, Window(ring.data[..], w.payloadStart, w.payloadLen))); }
    }

    /** What the consumer will be told about the next record, from memory alone. */
    ghost function Outlook(fenced: bool): (o: Result<Option<RecordCursor>>)
      reads ring, ring.data
      requires Attached()
    {
      var refusal := if fenced then FencedRefusal(Consumer) else Refusal(Consumer);
      if refusal.Some? then Err(refusal.value)
      else
        match ParseNext(Readable(), info.capacity)
        case Incomplete => Ok(None)
        case InvalidKind(b) => Err(BadKind(b))
        case LengthExceedsCapacity(len) => Err(BadLength(len, info.capacity))
        case Complete(kind, len) =>
          Ok(Some(RecordCursor(kind, ring.consume + RECORD_HEADER_LEN, len,
                               ring.consume, RECORD_HEADER_LEN + len, info.generation)))
    }

    // On a framed ring the outlook is the next record sent, or nothing when all have been released.
    lemma OutlookIsNextRecord(fenced: bool)
      requires Attached() && ring.Streams() && ring.Framed()
      requires if fenced then FencedRefusal(Consumer).None? else Refusal(Consumer).None?
      ensures ring.taken == |ring.records| ==> Outlook(fenced) == Ok(None)
      ensures ring.taken < |ring.records| ==>
                var r := ring.records[ring.taken];
                && Outlook(fenced) ==
                   Ok(Some(RecordCursor(r.kind, ring.consume + RECORD_HEADER_LEN, |r.payload|,
                                        ring.consume, RECORD_HEADER_LEN + |r.payload|, info.generation)))
                && Window(ring.data[..], ring.consume + RECORD_HEADER_LEN, |r.payload|) == r.payload
                && ring.consume + RECORD_HEADER_LEN + |r.payload| == |EncodeAll(ring.records[..ring.taken + 1])|
    {
      ring.NextInBuffer();
    }

    /** Locates the next complete record without releasing it; the basis of every consumer path. */
    method LocateRecord(fenced: bool) returns (r: Result<Option<RecordCursor>>)
      requires Attached()
      ensures r == Outlook(fenced)
    {
      if Refusal(Consumer).Some? { return Err(Refusal(Consumer).value); }
      if fenced && FencedRefusal(Consumer).Some? { return Err(FencedRefusal(Consumer).value); }
      var readable := ring.commit - ring.consume;
      if readable < RECORD_HEADER_LEN { return Ok(None); }
      var prefix := CopyOut(ring.consume, RECORD_HEADER_LEN);
      WindowInWindow(ring.data[..], ring.consume, readable, 0, RECORD_HEADER_LEN);
      assert prefix[1..RECORD_HEADER_LEN] == Readable()[1..RECORD_HEADER_LEN];
      var kind := KindFromByte(prefix[0]);
      if kind.None? { return Err(BadKind(prefix[0])); }
      var len := FromLe32(prefix[1..RECORD_HEADER_LEN]);
      if RECORD_HEADER_LEN + len > info.capacity { return Err(BadLength(len, info.capacity)); }
      if readable < RECORD_HEADER_LEN + len { return Ok(None); }
      return Ok(Some(RecordCursor(kind.value, ring.consume + RECORD_HEADER_LEN, len,
                                  ring.consume, RECORD_HEADER_LEN + len, info.generation)));
    }

    /** Why a located record can no longer be used: the ring changed hands or it was released. */
    function CursorRefusal(c: RecordCursor): (e: Option<FlowError>)
      reads ring
      ensures e.None? <==>
                Refusal(Consumer).None? && ring.header.generation == c.generation && ring.consume == c.recordStart
      ensures Refusal(Consumer).Some? ==> e == Refusal(Consumer)
      ensures Refusal(Consumer).None? && ring.header.generation != c.generation ==> e.value.StaleReservation?
    {
      if Refusal(Consumer).Some? then Refusal(Consumer)
      else if StaleGeneration(c.generation).Some? then StaleGeneration(c.generation)
      else if ring.consume != c.recordStart then Some(PinnedRecordMoved(c.recordStart, ring.consume))
      else None
    }

    /** Copies part of a located record; the count is cut short only by the end of the payload. */
    method CopyRecordRange(c: RecordCursor, offset: nat, room: nat) returns (r: Result<seq<Byte>>)
      requires Attached() && c.payloadLen <= info.capacity
      ensures CursorRefusal(c).Some? ==> r == Err(CursorRefusal(c).value)
      ensures CursorRefusal(c).None? && offset > c.payloadLen ==> r == Err(BeyondCommitted(offset, c.payloadLen))
      ensures CursorRefusal(c).None? && offset <= c.payloadLen ==>
                var end := if room <= c.payloadLen - offset then offset + room else c.payloadLen;
                r == Ok(Window(ring.data[..], c.payloadStart, c.payloadLen)[offset .. end])
    {
      if CursorRefusal(c).Some? { return Err(CursorRefusal(c).value); }
      if offset > c.payloadLen { return Err(BeyondCommitted(offset, c.payloadLen)); }
      var count := if room <= c.payloadLen - offset then room else c.payloadLen - offset;
      var bytes := CopyOut(c.payloadStart + offset, count);
      WindowInWindow(ring.data[..], c.payloadStart, c.payloadLen, offset, count);
      return Ok(bytes);
    }

    /** Releases a located record; dropping a pinned record does the same. */
    method ReleaseRecord(c: RecordCursor) returns (r: Result<()>)
      requires Attached()
      modifies ring`consume, ring`taken
      ensures old(CursorRefusal(c)).Some? ==>
                && r == Err(old(CursorRefusal(c)).value)
                && ring.consume == old(ring.consume) && ring.taken == old(ring.taken)
      ensures old(CursorRefusal(c)).None? ==>
                r.Ok? && ring.consume == c.recordStart + c.recordLen && ring.taken == old(ring.taken) + 1
      ensures old(ring.Streams() && ring.Framed() && Outlook(true) == Ok(Some(c))) ==> ring.Streams() && ring.Framed()
    {
      if CursorRefusal(c).Some? { return Err(CursorRefusal(c).value); }
      Advance(c, true);
      return Ok(());
    }

    // Where the record ends that was located, and what is left behind it.
    lemma NextRecordEnds(c: RecordCursor, fenced: bool)
      requires Attached() && c.recordStart == ring.consume
      requires ring.Streams() && ring.Framed() && Outlook(fenced) == Ok(Some(c))
      ensures ring.taken < |ring.records| && ring.consume + c.recordLen <= ring.commit
      ensures ring.consume + c.recordLen == |EncodeAll(ring.records[..ring.taken + 1])|
      ensures Window(ring.data[..], ring.consume + c.recordLen, ring.commit - ring.consume - c.recordLen) ==
                ring.sent[ring.consume + c.recordLen..]
    {
      OutlookIsNextRecord(fenced);
      ring.DropFromUnread(c.recordLen);
    }

    // The one store both releasing paths end in.
    method Advance(c: RecordCursor, ghost fenced: bool)
      requires Attached() && c.recordStart == ring.consume
      modifies ring`consume, ring`taken
      ensures ring.consume == c.recordStart + c.recordLen && ring.taken == old(ring.taken) + 1
      ensures old(ring.Streams() && ring.Framed() && Outlook(fenced) == Ok(Some(c))) ==> ring.Streams() && ring.Framed()
    {
      if ring.Streams() && ring.Framed() && Outlook(fenced) == Ok(Some(c)) { NextRecordEnds(c, fenced); }
      ring.consume, ring.taken := c.recordStart + c.recordLen, ring.taken + 1;
    }

    /** On a framed ring, what is located is the next record sent, and nothing is only if none is left. */
    lemma LocatedIsNext(fenced: bool)
      requires Attached() && ring.Streams() && ring.Framed() && Outlook(fenced).Ok?
      ensures Outlook(fenced).value.None? <==> ring.taken == |ring.records|
      ensures Outlook(fenced).value.Some? ==>
                var c := Outlook(fenced).value.value;
                ring.records[ring.taken] == Record(c.kind, Window(ring.data[..], c.payloadStart, c.payloadLen))
    {
      OutlookIsNextRecord(fenced);
    }

    /** What was taken is the next record sent, or nothing if none was left; either way the ring stays framed. */
    twostate predicate TookNext(new r: Result<Option<Record>>)
      reads ring, ring.data
    {
      old(ring.Streams() && ring.Framed()) ==>
        && ring.Streams() && ring.Framed()
        && (r.Ok? ==>
              r.value ==
                if old(ring.taken == |ring.records|) then None else Some(old(ring.records[ring.taken])))
    }

    /** The located payload is handed over and its record released; if none is, nothing changes. */
    twostate predicate TookLocated(fenced: bool, new r: Result<Option<Record>>)
      requires Attached()
      reads ring, ring.data
    {
      match old(Outlook(fenced))
      case Err(e) => r == Err(e) && ring.consume == old(ring.consume) && ring.taken == old(ring.taken)
      case Ok(None) => r == Ok(None) && ring.consume == old(ring.consume) && ring.taken == old(ring.taken)
      case Ok(Some(c)) =>
        && r == Ok(Some(Record(c.kind, Window(ring.data[..], c.payloadStart, c.payloadLen))))
        && ring.consume == c.recordStart + c.recordLen
        && ring.taken == old(ring.taken) + 1
    }

    // The end of every path that found a record.
    method HandOver(c: RecordCursor, payload: seq<Byte>, ghost fenced: bool) returns (r: Result<Option<Record>>)
      requires Attached() && Outlook(fenced) == Ok(Some(c)) && c.recordStart == ring.consume
      requires payload == Window(ring.data[..], c.payloadStart, c.payloadLen)
      modifies ring`consume, ring`taken
      ensures TookNext(r)
      ensures r == Ok(Some(Record(c.kind, payload)))
      ensures ring.consume == c.recordStart + c.recordLen && ring.taken == old(ring.taken) + 1
    {
      if ring.Streams() && ring.Framed() { LocatedIsNext(fenced); }
      Advance(c, fenced);
      return Ok(Some(Record(c.kind, payload)));
    }

    /** The copying path. */
    method RecvRecord() returns (r: Result<Option<Record>>)
      requires Attached()
      modifies ring`consume, ring`taken
      ensures TookLocated(false, r) && TookNext(r)
    {
      if ring.Streams() && ring.Framed() && Outlook(false).Ok? { LocatedIsNext(false); }
      var located := LocateRecord(false);
      if located.Err? { return Err(located.error); }
      if located.value.None? { return Ok(None); }
      var c := located.value.value;
      var payload := CopyOut(c.payloadStart, c.payloadLen);
      r := HandOver(c, payload, false);
    }

    /** The release of a pinned or a partially copied record, which is always the located one. */
    method ReleaseTaken(c: RecordCursor, payload: seq<Byte>) returns (r: Result<Option<Record>>)
      requires Attached() && Outlook(true) == Ok(Some(c)) && CursorRefusal(c).None?
      requires payload == Window(ring.data[..], c.payloadStart, c.payloadLen)
      modifies ring`consume, ring`taken
      ensures TookNext(r)
      ensures r == Ok(Some(Record(c.kind, payload)))
      ensures ring.consume == c.recordStart + c.recordLen && ring.taken == old(ring.taken) + 1
    {
      if ring.Streams() && ring.Framed() { LocatedIsNext(true); }
      var _ := ReleaseRecord(c);
      return Ok(Some(Record(c.kind, payload)));
    }

    /** The pinned path: the payload is borrowed in its two spans, then the record is released. */
    method TakePinned() returns (r: Result<Option<Record>>)
      requires Attached()
      modifies ring`consume, ring`taken
      ensures TookLocated(true, r) && TookNext(r)
    {
      if ring.Streams() && ring.Framed() && Outlook(true).Ok? { LocatedIsNext(true); }
      var located := LocateRecord(true);
      if located.Err? { return Err(located.error); }
      if located.value.None? { return Ok(None); }
      var c := located.value.value;
      var first, second := ReadSpans(c.payloadStart, c.payloadLen);
      r := ReleaseTaken(c, first + second);
    }

    /** Copies a located payload through destinations of any sizes. */
    method CopyInRanges(c: RecordCursor) returns (payload: seq<Byte>)
      requires Attached() && c.payloadLen <= info.capacity && CursorRefusal(c).None?
      ensures payload == Window(ring.data[..], c.payloadStart, c.payloadLen)
    {
      payload := [];
      while |payload| < c.payloadLen
        invariant |payload| <= c.payloadLen
        invariant payload == Window(ring.data[..], c.payloadStart, c.payloadLen)[..|payload|]
        decreases c.payloadLen - |payload|
      {
        var room: nat :| room > 0;
        var part := CopyRecordRange(c, |payload|, room);
        payload := payload + part.value;
      }
    }

    /** The partial-copy path: ranges of any sizes until the payload is complete, then the release. */
    method TakeInRanges() returns (r: Result<Option<Record>>)
      requires Attached()
      modifies ring`consume, ring`taken
      ensures TookLocated(true, r) && TookNext(r)
    {
      if ring.Streams() && ring.Framed() && Outlook(true).Ok? { LocatedIsNext(true); }
      var located := LocateRecord(true);
      if located.Err? { return Err(located.error); }
      if located.value.None? { return Ok(None); }
      var c := located.value.value;
      var payload := CopyInRanges(c);
      r := ReleaseTaken(c, payload);
    }
  }
}
