/** Where a ring can be placed: alignment to both the arena's and the ring's own granularity. */
module Placement {
  import Arithmetic
  import opened Alignment
  import opened Options

  datatype Config = Config(ceiling: U64, baseAlignment: U64)

  datatype RingSpec = RingSpec(headerBytes: U64, dataBytes: U64, alignment: U64)

  /** The header sits at the start offset. */
  datatype Layout = Layout(startOffset: U64, dataOffset: U64, endOffset: U64, dataBytes: U64, alignment: U64)

  function LayoutAt(config: Config, spec: RingSpec, rangeStart: U64): (r: Option<Layout>) {
    var lcm := Lcm(config.baseAlignment, spec.alignment);
    if lcm.None? then None else
    var start := AlignUp(rangeStart, lcm.value);
    if start.None? then None else
    var afterHeader := CheckedAdd(start.value, spec.headerBytes);
    if afterHeader.None? then None else
    var data := AlignUp(afterHeader.value, lcm.value);
    if data.None? then None else
    var end := CheckedAdd(data.value, spec.dataBytes);
    if end.None? || end.value > config.ceiling then None
    else Some(Layout(start.value, data.value, end.value, spec.dataBytes, lcm.value))
  }

  /** Header at `s`, data at `d`, both aligned both ways, the data behind the header and ending at `e`. */
  predicate IsPlacement(config: Config, spec: RingSpec, s: nat, d: nat, e: nat) {
    && IsMultiple(s, config.baseAlignment) && IsMultiple(s, spec.alignment)
    && IsMultiple(d, config.baseAlignment) && IsMultiple(d, spec.alignment)
    && s + spec.headerBytes <= d
    && e == d + spec.dataBytes
  }

  /** A layout is a placement inside the arena, not before the range it was asked for. */
  lemma LayoutIsPlacement(config: Config, spec: RingSpec, rangeStart: U64)
    requires LayoutAt(config, spec, rangeStart).Some?
    ensures var l := LayoutAt(config, spec, rangeStart).value;
            && IsPlacement(config, spec, l.startOffset, l.dataOffset, l.endOffset)
            && rangeStart <= l.startOffset <= l.endOffset <= config.ceiling
  {
    var l := LayoutAt(config, spec, rangeStart).value;
    var lcm: nat := l.alignment;
    LcmIsCommonMultiple(config.baseAlignment, spec.alignment);
    AlignUpIsMultiple(rangeStart, lcm);
    AlignUpIsMultiple(l.startOffset + spec.headerBytes, lcm);
    MultipleOfMultiple(l.startOffset, lcm, config.baseAlignment);
    MultipleOfMultiple(l.startOffset, lcm, spec.alignment);
    MultipleOfMultiple(l.dataOffset, lcm, config.baseAlignment);
    MultipleOfMultiple(l.dataOffset, lcm, spec.alignment);
  }

  /** It is the lowest one: any placement from there on starts and ends no earlier. */
  lemma LayoutIsLowest(config: Config, spec: RingSpec, rangeStart: U64, s: nat, d: nat, e: nat)
    requires config.baseAlignment > 0 && spec.alignment > 0
    requires TrueLcm(config.baseAlignment, spec.alignment) <= U64_MAX
    requires IsPlacement(config, spec, s, d, e) && rangeStart <= s && e <= config.ceiling
    ensures LayoutAt(config, spec, rangeStart).Some?
    ensures var l := LayoutAt(config, spec, rangeStart).value;
            l.startOffset <= s && l.dataOffset <= d && l.endOffset <= e
  {
    var lcm := TrueLcm(config.baseAlignment, spec.alignment);
    LcmIsCommonMultiple(config.baseAlignment, spec.alignment);
    LcmDividesCommonMultiples(config.baseAlignment, spec.alignment, s);
    LcmDividesCommonMultiples(config.baseAlignment, spec.alignment, d);
    AlignUpIsLowest(rangeStart, lcm, s);
    var start := AlignUp(rangeStart, lcm).value;
    AlignUpIsLowest(start + spec.headerBytes, lcm, d);
  }

  /** Some placement lies between `from` and `to`. */
  ghost predicate Placeable(config: Config, spec: RingSpec, from: nat, to: nat) {
    exists s: nat, d: nat, e: nat :: IsPlacement(config, spec, s, d, e) && from <= s && e <= to
  }

  /** The one family of placements the allocator cannot see, because the common multiple is not a 64-bit number. */
  predicate LcmOverflows(config: Config, spec: RingSpec) {
    config.baseAlignment > 0 && spec.alignment > 0 && TrueLcm(config.baseAlignment, spec.alignment) > U64_MAX
  }

  // Past the overflow only offset zero is a common multiple, so only a header of no bytes can be placed.
  lemma OverflowedPlacement(config: Config, spec: RingSpec, s: nat, d: nat, e: nat)
    requires LcmOverflows(config, spec) && IsPlacement(config, spec, s, d, e) && e <= config.ceiling
    ensures s == 0 && d == 0 && spec.headerBytes == 0
  {
    LcmDividesCommonMultiples(config.baseAlignment, spec.alignment, s);
    LcmDividesCommonMultiples(config.baseAlignment, spec.alignment, d);
    MultipleBelow(s, TrueLcm(config.baseAlignment, spec.alignment));
    MultipleBelow(d, TrueLcm(config.baseAlignment, spec.alignment));
  }

  lemma MultipleBelow(n: nat, d: nat)
    requires IsMultiple(n, d) && n < d
    ensures n == 0
  {
    Arithmetic.ModUnique(n, 0, n, d);
  }

  /**
   Whether a ring fits somewhere between an offset and the end of a range: the layout test answers
   exactly, for every 64-bit specification, but for headerless rings at offset zero whose common
   alignment overflows.
   */
  lemma LayoutIsComplete(config: Config, spec: RingSpec, from: U64, to: U64)
    requires to <= config.ceiling
    ensures var l := LayoutAt(config, spec, from);
            var missed := LcmOverflows(config, spec) && from == 0 && spec.headerBytes == 0 && spec.dataBytes <= to;
            && (l.Some? && l.value.endOffset <= to ==> Placeable(config, spec, from, to))
            && (!(l.Some? && l.value.endOffset <= to) ==> (Placeable(config, spec, from, to) <==> missed))
  {
    var l := LayoutAt(config, spec, from);
    if l.Some? && l.value.endOffset <= to {
      LayoutIsPlacement(config, spec, from);
    } else {
      if Placeable(config, spec, from, to) {
        var s: nat, d: nat, e: nat :| IsPlacement(config, spec, s, d, e) && from <= s && e <= to;
        if LcmOverflows(config, spec) {
          OverflowedPlacement(config, spec, s, d, e);
        } else {
          LayoutIsLowest(config, spec, from, s, d, e);
        }
      }
      if LcmOverflows(config, spec) && from == 0 && spec.headerBytes == 0 && spec.dataBytes <= to {
        assert IsMultiple(0, config.baseAlignment) && IsMultiple(0, spec.alignment);
        assert IsPlacement(config, spec, 0, 0, spec.dataBytes);
      }
    }
  }

  /** A headerless ring that fits at offset zero and is turned away all the same. */
  lemma OverflowTurnsAway()
    ensures var config, spec := Config(4096, U64_MAX), RingSpec(0, 64, 2);
            LayoutAt(config, spec, 0).None? && Placeable(config, spec, 0, config.ceiling)
  {
    var config, spec := Config(4096, U64_MAX), RingSpec(0, 64, 2);
    assert Gcd(U64_MAX, 2) == Gcd(2, 1) == Gcd(1, 0) == 1;
    assert LcmOverflows(config, spec);
    LayoutIsComplete(config, spec, 0, 4096);
  }
}
