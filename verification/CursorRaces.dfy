/**
 What an endpoint may touch when its peer rewrites the shared cursors at will. Every operation tests
 one pair of loaded cursors and then works with a second pair, so the test says nothing about the pair
 that is used; each operation is given here by the values its loads return.
 */
module CursorRaces {
  import opened ByteRing
  import opened Framing
  import opened Options

  const WORD: nat := 0x1_0000_0000_0000_0000

  /** Whether the build stops at an arithmetic overflow or lets it wrap. */
  datatype Build = Checked | Wrapping

  datatype Cursors = Cursors(commit: nat, consume: nat)

  /** The pair the test saw, and the pair loaded after it. */
  datatype Loads = Loads(tested: Cursors, used: Cursors)

  /** A wrapped copy of `len` bytes at stream position `pos`. */
  datatype Access = Access(pos: nat, len: nat)

  datatype Outcome = Refused | Stopped | Granted(access: Access)

  function Minus(a: nat, b: nat, build: Build): (d: Option<nat>)
    requires a < WORD && b < WORD
    ensures d.Some? ==> d.value < WORD
  {
    if b <= a then Some(a - b) else if build.Wrapping? then Some(a + WORD - b) else None
  }

  predicate Words(c: Cursors) {
    c.commit < WORD && c.consume < WORD
  }

  predicate Passes(c: Cursors, capacity: nat) {
    ValidateCursors(c.commit, c.consume, capacity).None?
  }

  // ─── the operations ────────────────────────────────────────────────────────

  function ReadAt(capacity: nat, l: Loads, len: nat, build: Build): (o: Outcome)
    requires Words(l.used)
  {
    if !Passes(l.tested, capacity) then Refused
    else
      var readable := Minus(l.used.commit, l.used.consume, build);
      if readable.None? then Stopped
      else if len > readable.value then Refused
      else Granted(Access(l.used.consume, len))
  }

  /** The span a reservation gives the producer to write. */
  function ReserveAt(capacity: nat, l: Loads, len: nat, build: Build): (o: Outcome)
    requires Words(l.used) && capacity < WORD
  {
    if !Passes(l.tested, capacity) then Refused
    else
      var used := Minus(l.used.commit, l.used.consume, build);
      if used.None? then Stopped
      else
        var free := Minus(capacity, used.value, build);
        if free.None? then Stopped
        else if len > free.value then Refused
        else Granted(Access(l.used.commit, len))
  }

  /** What a consumer copies of the next record, `announced` being the length its prefix turns out to hold. */
  function RecordReadAt(capacity: nat, l: Loads, announced: nat, build: Build): (touched: seq<Access>)
    requires Words(l.used)
  {
    var prefix := ReadAt(capacity, l, RECORD_HEADER_LEN, build);
    if !prefix.Granted? then []
    else if RECORD_HEADER_LEN + announced > capacity then [prefix.access]
    else if !ReadAt(capacity, l, RECORD_HEADER_LEN + announced, build).Granted? then [prefix.access]
    else [prefix.access, Access(l.used.consume + RECORD_HEADER_LEN, announced)]
  }

  /** What a producer copies of a record; the length is tested against the capacity before anything else. */
  function RecordWriteAt(capacity: nat, l: Loads, len: nat, build: Build): (touched: seq<Access>)
    requires Words(l.used) && capacity < WORD
  {
    if RECORD_HEADER_LEN + len > capacity then []
    else
      var span := ReserveAt(capacity, l, RECORD_HEADER_LEN + len, build);
      if !span.Granted? then []
      else [Access(span.access.pos, RECORD_HEADER_LEN), Access(span.access.pos + RECORD_HEADER_LEN, len)]
  }

  // ─── what a copy touches ───────────────────────────────────────────────────

  /** Both blocks of the copy, up to the end of the region and then from its start, lie inside the region. */
  predicate InBounds(capacity: nat, a: Access)
    requires capacity > 0
  {
    var start := a.pos % capacity;
    var first := if a.len <= capacity - start then a.len else capacity - start;
    start + first <= capacity && a.len - first <= capacity
  }

  lemma InBoundsIff(capacity: nat, a: Access)
    requires capacity > 0
    ensures InBounds(capacity, a) <==> a.pos % capacity + a.len <= 2 * capacity
    ensures a.len <= capacity ==> InBounds(capacity, a)
  {
  }

  predicate AllInBounds(capacity: nat, touched: seq<Access>)
    requires capacity > 0
  {
    forall i :: 0 <= i < |touched| ==> InBounds(capacity, touched[i])
  }

  predicate Bounded(capacity: nat, o: Outcome)
    requires capacity > 0
  {
    o.Granted? ==> InBounds(capacity, o.access)
  }

  // ─── the raw calls ─────────────────────────────────────────────────────────

  /** The read stays inside the region whatever the producer's cursor is when it is loaded again. */
  ghost predicate ReadIsBounded(capacity: nat, tested: Cursors, consume: nat, len: nat, build: Build)
    requires capacity > 0 && consume < WORD
  {
    forall commit: nat {:trigger Cursors(commit, consume)} :: commit < WORD ==>
      Bounded(capacity, ReadAt(capacity, Loads(tested, Cursors(commit, consume)), len, build))
  }

  /** The written span stays inside the region whatever the consumer's cursor is when it is loaded again. */
  ghost predicate ReserveIsBounded(capacity: nat, tested: Cursors, commit: nat, len: nat, build: Build)
    requires 0 < capacity < WORD && commit < WORD
  {
    forall consume: nat {:trigger Cursors(commit, consume)} :: consume < WORD ==>
      Bounded(capacity, ReserveAt(capacity, Loads(tested, Cursors(commit, consume)), len, build))
  }

  /** The commit cursor that makes exactly `len` bytes look readable. */
  function TemptingCommit(consume: nat, len: nat): (commit: nat)
    requires consume < WORD && len < WORD
    ensures commit < WORD
    ensures Minus(commit, consume, Wrapping) == Some(len)
    ensures consume + len < WORD ==> Minus(commit, consume, Checked) == Some(len)
  {
    if consume + len < WORD then consume + len else consume + len - WORD
  }

  /** The consume cursor that makes exactly `len` bytes look free. */
  function TemptingConsume(commit: nat, capacity: nat, len: nat): (consume: nat)
    requires commit < WORD && 0 < capacity < WORD && capacity < len < WORD
    ensures consume < WORD
    ensures var used := Minus(commit, consume, Wrapping);
            used.Some? && Minus(capacity, used.value, Wrapping) == Some(len)
  {
    var excess := len - capacity;
    if commit + excess < WORD then commit + excess else commit + excess - WORD
  }

  /**
   Property P5 for `read`: the region is never left if and only if the read, starting where the
   consumer stands, ends within two rounds of the ring. Where overflow stops the program it is also
   safe if the length cannot be reached by any cursor value.
   */
  lemma ReadBoundedIff(capacity: nat, tested: Cursors, consume: nat, len: nat, build: Build)
    requires capacity > 0 && consume < WORD && len < WORD && Passes(tested, capacity)
    ensures ReadIsBounded(capacity, tested, consume, len, build) <==>
              consume % capacity + len <= 2 * capacity || (build.Checked? && consume + len >= WORD)
  {
    InBoundsIff(capacity, Access(consume, len));
    if consume + len < WORD || build.Wrapping? {
      var commit := TemptingCommit(consume, len);
      var tempted := Loads(tested, Cursors(commit, consume));
      assert ReadAt(capacity, tempted, len, build) == Granted(Access(consume, len));
    }
  }

  /**
   Property P5 for `reserve` and the `write` that follows: where overflow stops the program the region
   is never left; where it wraps, if and only if the span ends within two rounds of the ring.
   */
  lemma ReserveBoundedIff(capacity: nat, tested: Cursors, commit: nat, len: nat, build: Build)
    requires 0 < capacity < WORD && commit < WORD && len < WORD && Passes(tested, capacity)
    ensures ReserveIsBounded(capacity, tested, commit, len, build) <==>
              build.Checked? || commit % capacity + len <= 2 * capacity
  {
    InBoundsIff(capacity, Access(commit, len));
    if build.Wrapping? && len > capacity {
      var consume := TemptingConsume(commit, capacity, len);
      var tempted := Loads(tested, Cursors(commit, consume));
      assert ReserveAt(capacity, tempted, len, build) == Granted(Access(commit, len));
    }
  }

  /** No length up to the capacity ever leaves the region, in either build and whatever both loads return. */
  lemma UpToCapacityIsBounded(capacity: nat, l: Loads, len: nat, build: Build)
    requires 0 < capacity < WORD && len <= capacity && Words(l.used)
    ensures Bounded(capacity, ReadAt(capacity, l, len, build))
    ensures Bounded(capacity, ReserveAt(capacity, l, len, build))
  {
    InBoundsIff(capacity, Access(l.used.consume, len));
    InBoundsIff(capacity, Access(l.used.commit, len));
  }

  /** An empty ring of eight bytes: the test passes, the commit cursor moves, and a read of 17 leaves the region. */
  lemma RawCallsCanLeaveTheRegion()
    ensures var l := Loads(Cursors(0, 0), Cursors(17, 0));
            Passes(l.tested, 8) && ReadAt(8, l, 17, Checked) == Granted(Access(0, 17)) && !InBounds(8, Access(0, 17))
    ensures var l := Loads(Cursors(0, 0), Cursors(0, 9));
            Passes(l.tested, 8) && ReserveAt(8, l, 17, Wrapping) == Granted(Access(0, 17))
  {
    InBoundsIff(8, Access(0, 17));
  }

  // ─── records ───────────────────────────────────────────────────────────────

  /** A record is written inside the region whatever the peer does to the cursors. */
  lemma RecordWriteIsBounded(capacity: nat, l: Loads, len: nat, build: Build)
    requires 0 < capacity < WORD && Words(l.used)
    ensures AllInBounds(capacity, RecordWriteAt(capacity, l, len, build))
  {
    InBoundsIff(capacity, Access(l.used.commit, RECORD_HEADER_LEN));
    InBoundsIff(capacity, Access(l.used.commit + RECORD_HEADER_LEN, len));
  }

  ghost predicate RecordReadIsBounded(capacity: nat, build: Build)
    requires capacity > 0
  {
    forall l: Loads, announced: nat :: Words(l.used) ==>
        AllInBounds(capacity, RecordReadAt(capacity, l, announced, build))
  }

  /**
   A record is read inside the region, whatever the peer does to the cursors and whatever prefix it
   wrote, if and only if the ring has at least four bytes: below that the prefix itself may not fit.
   */
  lemma RecordReadBoundedIff(capacity: nat, build: Build)
    requires capacity > 0
    ensures RecordReadIsBounded(capacity, build) <==> capacity >= 4
  {
    if capacity >= 4 {
      forall l: Loads, announced: nat | Words(l.used)
        ensures AllInBounds(capacity, RecordReadAt(capacity, l, announced, build))
      {
        InBoundsIff(capacity, Access(l.used.consume, RECORD_HEADER_LEN));
        InBoundsIff(capacity, Access(l.used.consume + RECORD_HEADER_LEN, announced));
      }
    } else {
      var at := capacity - 1;
      var l := Loads(Cursors(at, at), Cursors(at + RECORD_HEADER_LEN, at));
      var touched := RecordReadAt(capacity, l, 0, build);
      InBoundsIff(capacity, Access(at, RECORD_HEADER_LEN));
      assert touched[0] == Access(at, RECORD_HEADER_LEN);
      assert !AllInBounds(capacity, touched);
    }
  }

  // ─── a peer that keeps still ───────────────────────────────────────────────

  /** If both loads return the same pair, neither build overflows, and what is granted is what the cursors leave. */
  lemma QuietPeer(capacity: nat, c: Cursors, len: nat, build: Build)
    requires 0 < capacity < WORD && Words(c) && Passes(c, capacity)
    ensures ReadAt(capacity, Loads(c, c), len, build) ==
              if len <= c.commit - c.consume then Granted(Access(c.consume, len)) else Refused
    ensures ReserveAt(capacity, Loads(c, c), len, build) ==
              if len <= c.consume + capacity - c.commit then Granted(Access(c.commit, len)) else Refused
    ensures Bounded(capacity, ReadAt(capacity, Loads(c, c), len, build))
    ensures Bounded(capacity, ReserveAt(capacity, Loads(c, c), len, build))
  {
    InBoundsIff(capacity, Access(c.consume, len));
    InBoundsIff(capacity, Access(c.commit, len));
  }
}
