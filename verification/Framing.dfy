/** Bytes, and the two integer conversions the ring header and the record prefix rely on. */
module Bytes {

  type Byte = b: int | 0 <= b < 256

  const U32_LIMIT: nat := 0x1_0000_0000

  /** Little-endian bytes of a length cast to 32 bits: the cast drops every higher bit. */
  function Le32(n: nat): (bytes: seq<Byte>)
    ensures |bytes| == 4
  {
    var m := n % U32_LIMIT;
    [m % 256, m / 256 % 256, m / 65536 % 256, m / 16777216]
  }

  function FromLe32(bytes: seq<Byte>): (n: nat)
    requires |bytes| == 4
    ensures n < U32_LIMIT
  {
    var b0: int, b1: int, b2: int, b3: int := bytes[0], bytes[1], bytes[2], bytes[3];
    b0 + 256 * b1 + 65536 * b2 + 16777216 * b3
  }

  /** The cast keeps a length exactly when the length fits 32 bits. */
  lemma Le32RoundTrip(n: nat)
    ensures FromLe32(Le32(n)) == n % U32_LIMIT
    ensures FromLe32(Le32(n)) == n <==> n < U32_LIMIT
  {
    var m := n % U32_LIMIT;
    assert m / 256 == m / 65536 * 256 + m / 256 % 256;
    assert m / 65536 == m / 16777216 * 256 + m / 65536 % 256;
  }
}

/** Record framing over the byte stream: a kind byte, a 32-bit length, then the payload. */
module Framing {
  import opened Bytes
  import opened Options

  datatype RecordKind = Data | Eof | Fault

  datatype Record = Record(kind: RecordKind, payload: seq<Byte>)

  const RECORD_HEADER_LEN: nat := 5

  function KindToByte(kind: RecordKind): (b: Byte) {
    match kind
    case Data => 1
    case Eof => 2
    case Fault => 3
  }

  function KindFromByte(b: Byte): (kind: Option<RecordKind>)
    ensures forall k :: kind == Some(k) <==> b == KindToByte(k)
  {
    if b == 1 then Some(Data) else if b == 2 then Some(Eof) else if b == 3 then Some(Fault) else None
  }

  function Prefix(kind: RecordKind, len: nat): (bytes: seq<Byte>)
    ensures |bytes| == RECORD_HEADER_LEN
  {
    [KindToByte(kind)] + Le32(len)
  }

  function Encode(r: Record): (bytes: seq<Byte>)
    ensures |bytes| == RECORD_HEADER_LEN + |r.payload|
  {
    Prefix(r.kind, |r.payload|) + r.payload
  }

  function EncodeAll(rs: seq<Record>): (bytes: seq<Byte>)
    decreases |rs|
  {
    if rs == [] then [] else Encode(rs[0]) + EncodeAll(rs[1..])
  }

  /** What a consumer learns from the bytes it may read: a whole record, nothing yet, or a bad prefix. */
  datatype Parsed =
    | Incomplete
    | InvalidKind(byte: Byte)
    | LengthExceedsCapacity(len: nat)
    | Complete(kind: RecordKind, len: nat)

  function ParseNext(readable: seq<Byte>, capacity: nat): (p: Parsed)
    ensures p.Complete? ==> RECORD_HEADER_LEN + p.len <= |readable|
  {
    if |readable| < RECORD_HEADER_LEN then Incomplete
    else
      var kind := KindFromByte(readable[0]);
      var len := FromLe32(readable[1..RECORD_HEADER_LEN]);
      if kind.None? then InvalidKind(readable[0])
      else if RECORD_HEADER_LEN + len > capacity then LengthExceedsCapacity(len)
      else if |readable| < RECORD_HEADER_LEN + len then Incomplete
      else Complete(kind.value, len)
  }

  function PayloadOf(readable: seq<Byte>, p: Parsed): (payload: seq<Byte>)
    requires p.Complete? && RECORD_HEADER_LEN + p.len <= |readable|
  {
    readable[RECORD_HEADER_LEN .. RECORD_HEADER_LEN + p.len]
  }

  /** Every record a consumer can take out of a stretch of stream, in order. */
  function ParseAll(readable: seq<Byte>, capacity: nat): (rs: seq<Record>)
    decreases |readable|
  {
    var p := ParseNext(readable, capacity);
    if p.Complete? then
      [Record(p.kind, PayloadOf(readable, p))] + ParseAll(readable[RECORD_HEADER_LEN + p.len..], capacity)
    else []
  }

  /** A record the ring can carry without losing its length. */
  predicate Fits(r: Record, capacity: nat) {
    RECORD_HEADER_LEN + |r.payload| <= capacity && |r.payload| < U32_LIMIT
  }

  predicate AllFit(rs: seq<Record>, capacity: nat) {
    forall i :: 0 <= i < |rs| ==> Fits(rs[i], capacity)
  }

  // The prefix of an encoded record reads back as its kind and its length modulo 2^32.
  lemma PrefixOfEncoded(r: Record, rest: seq<Byte>)
    ensures var s := Encode(r) + rest;
            && s[0] == KindToByte(r.kind)
            && FromLe32(s[1..RECORD_HEADER_LEN]) == |r.payload| % U32_LIMIT
  {
    var s := Encode(r) + rest;
    assert s[1..RECORD_HEADER_LEN] == Le32(|r.payload|);
    Le32RoundTrip(|r.payload|);
  }

  /** The bytes on the wire: kinds 1, 2 and 3, the length with its lowest byte first, and the payload as it is. */
  lemma WireFormat(r: Record)
    requires |r.payload| < U32_LIMIT
    ensures var b := Encode(r);
            && b[0] == (if r.kind == Data then 1 else if r.kind == Eof then 2 else 3)
            && b[1] as int + 256 * b[2] as int + 65536 * b[3] as int + 16777216 * b[4] as int == |r.payload|
            && b[5..] == r.payload
  {
    PrefixOfEncoded(r, []);
    assert Encode(r) + [] == Encode(r);
  }

  /** What is said of the bytes readable now, unless that is to wait, holds whatever bytes follow. */
  lemma ParseIsFinal(readable: seq<Byte>, more: seq<Byte>, capacity: nat)
    requires ParseNext(readable, capacity) != Incomplete
    ensures ParseNext(readable + more, capacity) == ParseNext(readable, capacity)
  {
    assert (readable + more)[1..RECORD_HEADER_LEN] == readable[1..RECORD_HEADER_LEN];
  }

  predicate CompletesIn(readable: seq<Byte>, more: seq<Byte>, capacity: nat) {
    more != [] && |readable + more| <= capacity && ParseNext(readable + more, capacity).Complete?
  }

  /** Behind a whole prefix the reader waits exactly if more bytes, as many as the ring can hold, make a record. */
  lemma WaitsIff(readable: seq<Byte>, capacity: nat)
    requires RECORD_HEADER_LEN <= |readable|
    ensures ParseNext(readable, capacity) == Incomplete <==>
              !ParseNext(readable, capacity).Complete? && exists more :: CompletesIn(readable, more, capacity)
  {
    if ParseNext(readable, capacity) == Incomplete {
      var len := FromLe32(readable[1..RECORD_HEADER_LEN]);
      var more := Zeros(RECORD_HEADER_LEN + len - |readable|);
      assert (readable + more)[1..RECORD_HEADER_LEN] == readable[1..RECORD_HEADER_LEN];
      assert CompletesIn(readable, more, capacity);
    }
    if more :| CompletesIn(readable, more, capacity) && ParseNext(readable, capacity) != Incomplete {
      ParseIsFinal(readable, more, capacity);
    }
  }

  lemma ParseEncoded(r: Record, rest: seq<Byte>, capacity: nat)
    requires Fits(r, capacity)
    ensures var s := Encode(r) + rest;
            && ParseNext(s, capacity) == Complete(r.kind, |r.payload|)
            && PayloadOf(s, ParseNext(s, capacity)) == r.payload
            && s[|Encode(r)|..] == rest
  {
    PrefixOfEncoded(r, rest);
    assert (Encode(r) + rest)[RECORD_HEADER_LEN .. RECORD_HEADER_LEN + |r.payload|] == r.payload;
  }

  /** Property P9: a record whose last byte is not readable yet stays invisible. */
  lemma TornIsInvisible(r: Record, cut: nat, capacity: nat)
    requires Fits(r, capacity)
    requires cut < |Encode(r)|
    ensures ParseNext(Encode(r)[..cut], capacity) == Incomplete
  {
    if RECORD_HEADER_LEN <= cut {
      PrefixOfEncoded(r, []);
      assert Encode(r) + [] == Encode(r);
      assert Encode(r)[..cut][1..RECORD_HEADER_LEN] == Encode(r)[1..RECORD_HEADER_LEN];
    }
  }

  lemma ParseAllStep(r: Record, rest: seq<Byte>, capacity: nat)
    requires Fits(r, capacity)
    ensures ParseAll(Encode(r) + rest, capacity) == [r] + ParseAll(rest, capacity)
  {
    ParseEncoded(r, rest, capacity);
  }

  lemma {:induction false} RecordsRoundTrip(rs: seq<Record>, capacity: nat)
    requires AllFit(rs, capacity)
    ensures ParseAll(EncodeAll(rs), capacity) == rs
    decreases |rs|
  {
    if rs != [] {
      ParseAllStep(rs[0], EncodeAll(rs[1..]), capacity);
      RecordsRoundTrip(rs[1..], capacity);
    }
  }

  lemma Reassociate(a: seq<Byte>, b: seq<Byte>, c: seq<Byte>)
    ensures a + (b + c) == (a + b) + c
  {
  }

  lemma {:induction false} EncodeAllAppends(rs: seq<Record>, more: seq<Record>)
    ensures EncodeAll(rs + more) == EncodeAll(rs) + EncodeAll(more)
    decreases |rs|
  {
    if rs == [] {
      assert rs + more == more;
    } else {
      EncodeAllAppends(rs[1..], more);
      assert (rs + more)[1..] == rs[1..] + more;
      Reassociate(Encode(rs[0]), EncodeAll(rs[1..]), EncodeAll(more));
    }
  }

  /** `got` is the records of `rs` whose last byte lies before the cut, and no more. */
  ghost predicate WholeBefore(rs: seq<Record>, got: seq<Record>, cut: nat) {
    && got <= rs
    && |EncodeAll(got)| <= cut
    && (|got| < |rs| ==> cut < |EncodeAll(rs[..|got| + 1])|)
  }

  lemma WholeBeforeOneMore(rs: seq<Record>, got: seq<Record>, cut: nat)
    requires rs != [] && WholeBefore(rs[1..], got, cut)
    ensures WholeBefore(rs, [rs[0]] + got, |Encode(rs[0])| + cut)
  {
    assert EncodeAll([rs[0]]) == Encode(rs[0]);
    EncodeAllAppends([rs[0]], got);
    if |got| < |rs[1..]| {
      EncodeAllAppends([rs[0]], rs[1..][..|got| + 1]);
      assert rs[..|got| + 2] == [rs[0]] + rs[1..][..|got| + 1];
    }
  }

  /**
   Wherever the stream is cut, the reader gets a prefix of the records sent: exactly those whose
   last byte lies before the cut, none torn, none reordered.
   */
  lemma {:induction false} AnyCutYieldsWholeRecords(rs: seq<Record>, cut: nat, capacity: nat)
    requires AllFit(rs, capacity)
    requires cut <= |EncodeAll(rs)|
    ensures WholeBefore(rs, ParseAll(EncodeAll(rs)[..cut], capacity), cut)
    decreases |rs|
  {
    if rs != [] {
      var first, tail := Encode(rs[0]), EncodeAll(rs[1..]);
      if cut < |first| {
        assert EncodeAll(rs)[..cut] == first[..cut];
        TornIsInvisible(rs[0], cut, capacity);
        assert EncodeAll(rs[..1]) == first;
      } else {
        var left := cut - |first|;
        AnyCutYieldsWholeRecords(rs[1..], left, capacity);
        assert EncodeAll(rs)[..cut] == first + tail[..left];
        ParseAllStep(rs[0], tail[..left], capacity);
        WholeBeforeOneMore(rs, ParseAll(tail[..left], capacity), left);
      }
    }
  }

  /**
   A record written without a length test comes back whole exactly when its payload is shorter
   than 2^32 bytes; from there on the prefix understates the length.
   */
  lemma UncheckedLengthSurvivesIff(r: Record, capacity: nat)
    requires RECORD_HEADER_LEN + |r.payload| <= capacity
    ensures ParseNext(Encode(r), capacity) == Complete(r.kind, |r.payload|) <==> |r.payload| < U32_LIMIT
  {
    assert Encode(r) + [] == Encode(r);
    if |r.payload| < U32_LIMIT {
      ParseEncoded(r, [], capacity);
    } else {
      PrefixOfEncoded(r, []);
      assert FromLe32(Encode(r)[1..RECORD_HEADER_LEN]) < U32_LIMIT;
    }
  }

  function Zeros(n: nat): (bytes: seq<Byte>)
    ensures |bytes| == n && forall i :: 0 <= i < n ==> bytes[i] == 0
  {
    seq(n, _ => 0)
  }

  /** A payload of 2^32 bytes is taken for an empty record, and its bytes for the records that follow. */
  lemma OversizedPayloadIsLost(capacity: nat)
    requires RECORD_HEADER_LEN + U32_LIMIT <= capacity
    ensures var sent := Encode(Record(Data, Zeros(U32_LIMIT)));
            ParseNext(sent, capacity) == Complete(Data, 0) && ParseAll(sent, capacity) == [Record(Data, [])]
  {
    var r := Record(Data, Zeros(U32_LIMIT));
    var sent := Encode(r);
    assert sent + [] == sent;
    PrefixOfEncoded(r, []);
    assert KindFromByte(sent[0]) == Some(Data);
    var rest := sent[RECORD_HEADER_LEN..];
    assert rest == r.payload;
    assert ParseNext(rest, capacity) == InvalidKind(0);
    assert PayloadOf(sent, Complete(Data, 0)) == [];
  }
}
