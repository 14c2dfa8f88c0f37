/** Byte ranges: coverage, order, total size, and the coalescing pass over a free list. */
module Ranges {

  datatype Range = Range(start: nat, end: nat)

  predicate Contains(r: Range, x: nat) {
    r.start <= x < r.end
  }

  /** No byte lies in both; an empty range is disjoint from everything. */
  predicate Disjoint(a: Range, b: Range) {
    a.start >= a.end || b.start >= b.end || a.end <= b.start || b.end <= a.start
  }

  function Size(r: Range): (n: nat) {
    if r.start <= r.end then r.end - r.start else 0
  }

  // Lists are read from the back, the way the coalescing pass builds them.
  function Last(rs: seq<Range>): (r: Range)
    requires rs != []
  {
    rs[|rs| - 1]
  }

  function Front(rs: seq<Range>): (f: seq<Range>)
    requires rs != []
    ensures |f| < |rs|
  {
    rs[..|rs| - 1]
  }

  predicate Covered(rs: seq<Range>, x: nat) {
    rs != [] && (Contains(Last(rs), x) || Covered(Front(rs), x))
  }

  function TotalSize(rs: seq<Range>): (n: nat) {
    if rs == [] then 0 else TotalSize(Front(rs)) + Size(Last(rs))
  }

  predicate Clear(rs: seq<Range>, r: Range) {
    rs != [] ==> Disjoint(Last(rs), r) && Clear(Front(rs), r)
  }

  /** Ascending, without overlap, every range non-empty, all of it within `bound`. */
  predicate Ordered(rs: seq<Range>, bound: int) {
    rs != [] ==> Last(rs).start < Last(rs).end <= bound && Ordered(Front(rs), Last(rs).start)
  }

  /** As `Ordered`, with a gap between neighbours: nothing left to coalesce. */
  predicate Separated(rs: seq<Range>, bound: int) {
    rs != [] ==> Last(rs).start < Last(rs).end <= bound && Separated(Front(rs), Last(rs).start - 1)
  }

  lemma PushUnfolds(rs: seq<Range>, r: Range)
    ensures Last(rs + [r]) == r && Front(rs + [r]) == rs
  {
  }

  // How each measure of a list grows when a range is pushed.
  lemma Push(rs: seq<Range>, r: Range, bound: int, x: nat)
    ensures Ordered(rs + [r], bound) <==> r.start < r.end <= bound && Ordered(rs, r.start)
    ensures Separated(rs + [r], bound) <==> r.start < r.end <= bound && Separated(rs, r.start - 1)
    ensures Covered(rs + [r], x) <==> Covered(rs, x) || Contains(r, x)
    ensures TotalSize(rs + [r]) == TotalSize(rs) + Size(r)
  {
    PushUnfolds(rs, r);
  }

  // ─── what the recursive predicates say of individual ranges ────────────────

  lemma {:induction false} CoveredMeans(rs: seq<Range>, x: nat)
    ensures Covered(rs, x) <==> exists r :: r in rs && Contains(r, x)
    decreases |rs|
  {
    if rs != [] {
      CoveredMeans(Front(rs), x);
      assert rs == Front(rs) + [Last(rs)];
    }
  }

  lemma {:induction false} OrderedMeans(rs: seq<Range>, bound: int)
    requires Ordered(rs, bound)
    ensures forall i :: 0 <= i < |rs| ==> rs[i].start < rs[i].end <= bound
    ensures forall i, j :: 0 <= i < j < |rs| ==> rs[i].end <= rs[j].start
    decreases |rs|
  {
    if rs != [] {
      OrderedMeans(Front(rs), Last(rs).start);
      assert forall i :: 0 <= i < |rs| - 1 ==> rs[i] == Front(rs)[i];
    }
  }

  lemma {:induction false} ClearMeans(rs: seq<Range>, r: Range)
    ensures Clear(rs, r) <==> forall q :: q in rs ==> Disjoint(q, r)
    decreases |rs|
  {
    if rs != [] {
      ClearMeans(Front(rs), r);
      assert rs == Front(rs) + [Last(rs)];
    }
  }

  lemma {:induction false} OrderedIsBounded(rs: seq<Range>, bound: int, x: nat)
    requires Ordered(rs, bound)
    ensures Covered(rs, x) ==> x < bound
    decreases |rs|
  {
    if rs != [] { OrderedIsBounded(Front(rs), Last(rs).start, x); }
  }

  // ─── carving an allocation out of one range ────────────────────────────────

  function Pieces(r: Range, start: nat, end: nat): (ps: seq<Range>) {
    (if r.start < start then [Range(r.start, start)] else []) + (if end < r.end then [Range(end, r.end)] else [])
  }

  function Carve(rs: seq<Range>, i: nat, start: nat, end: nat): (rs': seq<Range>)
    requires i < |rs|
  {
    rs[..i] + Pieces(rs[i], start, end) + rs[i + 1..]
  }

  // Carving the last range, spelt as pushes.
  lemma CarveLast(rs: seq<Range>, start: nat, end: nat)
    requires rs != []
    ensures var r := Last(rs);
            var left := if r.start < start then Front(rs) + [Range(r.start, start)] else Front(rs);
            Carve(rs, |rs| - 1, start, end) == if end < r.end then left + [Range(end, r.end)] else left
  {
  }

  lemma CarveEarlier(rs: seq<Range>, i: nat, start: nat, end: nat)
    requires i < |rs| - 1
    ensures Carve(rs, i, start, end) == Carve(Front(rs), i, start, end) + [Last(rs)]
  {
    assert rs[i + 1..] == Front(rs)[i + 1..] + [Last(rs)];
  }

  lemma LeftPiece(front: seq<Range>, from: nat, start: nat, x: nat)
    requires Ordered(front, from) && from <= start
    ensures var left := if from < start then front + [Range(from, start)] else front;
            && Ordered(left, start)
            && (Covered(left, x) <==> Covered(front, x) || from <= x < start)
            && TotalSize(left) == TotalSize(front) + (start - from)
  {
    Push(front, Range(from, start), start, x);
  }

  lemma RightPiece(left: seq<Range>, start: nat, end: nat, to: nat, bound: int, x: nat)
    requires Ordered(left, start) && start <= end <= to <= bound
    ensures var all := if end < to then left + [Range(end, to)] else left;
            && Ordered(all, bound)
            && (Covered(all, x) <==> Covered(left, x) || end <= x < to)
            && TotalSize(all) == TotalSize(left) + (to - end)
  {
    Loosen(left, start, end);
    Loosen(left, start, bound);
    Push(left, Range(end, to), bound, x);
  }

  lemma CarveLastTakesExactly(front: seq<Range>, r: Range, start: nat, end: nat, bound: int, x: nat)
    requires Ordered(front, r.start) && r.start < r.end <= bound
    requires r.start <= start <= end <= r.end
    ensures var rs := front + [r];
            var rs' := Carve(rs, |front|, start, end);
            && Ordered(rs', bound)
            && (Covered(rs', x) <==> Covered(rs, x) && !(start <= x < end))
            && TotalSize(rs') + (end - start) == TotalSize(rs)
  {
    var left := if r.start < start then front + [Range(r.start, start)] else front;
    PushUnfolds(front, r);
    CarveLast(front + [r], start, end);
    OrderedIsBounded(front, r.start, x);
    LeftPiece(front, r.start, start, x);
    RightPiece(left, start, end, r.end, bound, x);
    Push(front, r, bound, x);
  }

  /** Carving keeps the list ordered and takes away exactly the bytes of the allocation. */
  lemma {:induction false} CarveTakesExactly(rs: seq<Range>, i: nat, start: nat, end: nat, bound: int, x: nat)
    requires Ordered(rs, bound) && i < |rs|
    requires rs[i].start <= start <= end <= rs[i].end
    ensures Ordered(Carve(rs, i, start, end), bound)
    ensures Covered(Carve(rs, i, start, end), x) <==> Covered(rs, x) && !(start <= x < end)
    ensures TotalSize(Carve(rs, i, start, end)) + (end - start) == TotalSize(rs)
    decreases |rs|
  {
    var front, r := Front(rs), Last(rs);
    assert rs == front + [r];
    if i == |rs| - 1 {
      CarveLastTakesExactly(front, r, start, end, bound, x);
    } else {
      CarveEarlier(rs, i, start, end);
      assert rs[i] == front[i];
      CarveTakesExactly(front, i, start, end, r.start, x);
      Push(Carve(front, i, start, end), r, bound, x);
      OrderedMeans(front, r.start);
    }
  }

  lemma Loosen(rs: seq<Range>, bound: int, bound': int)
    requires Ordered(rs, bound) || (rs != [] && Ordered(rs, Last(rs).end) && Last(rs).end <= bound)
    requires bound <= bound'
    ensures Ordered(rs, bound')
  {
  }

  // ─── returning a range ─────────────────────────────────────────────────────

  /** Where a stable sort by start offset puts one more range into a list already sorted. */
  function InsertSorted(rs: seq<Range>, r: Range): (rs': seq<Range>) {
    if rs == [] || Last(rs).start <= r.start then rs + [r] else InsertSorted(Front(rs), r) + [Last(rs)]
  }

  /** The first `n` ranges, sorted. */
  function SortTo(rs: seq<Range>, n: nat): (rs': seq<Range>)
    requires n <= |rs|
  {
    if n == 0 then [] else InsertSorted(SortTo(rs, n - 1), rs[n - 1])
  }

  function SortByStart(rs: seq<Range>): (rs': seq<Range>) {
    SortTo(rs, |rs|)
  }

  lemma {:induction false} SortIsLocal(rs: seq<Range>, r: Range, n: nat)
    requires n <= |rs|
    ensures SortTo(rs + [r], n) == SortTo(rs, n)
    decreases n
  {
    if n > 0 {
      SortIsLocal(rs, r, n - 1);
      assert (rs + [r])[n - 1] == rs[n - 1];
      assert SortTo(rs + [r], n) == InsertSorted(SortTo(rs, n - 1), rs[n - 1]);
    }
  }

  lemma SortPush(rs: seq<Range>, r: Range)
    ensures SortByStart(rs + [r]) == InsertSorted(SortByStart(rs), r)
  {
    SortIsLocal(rs, r, |rs|);
  }

  lemma InsertAtEnd(rs: seq<Range>, r: Range)
    requires Ordered(rs, r.start)
    ensures InsertSorted(rs, r) == rs + [r]
  {
  }

  lemma {:induction false} OrderedStaysSorted(rs: seq<Range>, bound: int)
    requires Ordered(rs, bound)
    ensures SortByStart(rs) == rs
    decreases |rs|
  {
    if rs != [] {
      var front, last := Front(rs), Last(rs);
      OrderedStaysSorted(front, last.start);
      InsertAtEnd(front, last);
      assert rs == front + [last];
      SortPush(front, last);
    }
  }

  /** A range that overlaps nothing finds its place in the order. */
  lemma {:induction false} InsertKeepsOrder(rs: seq<Range>, r: Range, bound: int, x: nat)
    requires Ordered(rs, bound) && r.start < r.end <= bound && Clear(rs, r)
    ensures Ordered(InsertSorted(rs, r), bound)
    ensures Covered(InsertSorted(rs, r), x) <==> Covered(rs, x) || Contains(r, x)
    ensures TotalSize(InsertSorted(rs, r)) == TotalSize(rs) + Size(r)
    decreases |rs|
  {
    PushUnfolds(rs, r);
    if rs != [] && r.start < Last(rs).start {
      InsertKeepsOrder(Front(rs), r, Last(rs).start, x);
      PushUnfolds(InsertSorted(Front(rs), r), Last(rs));
    }
  }

  /** One step of the coalescing pass. */
  function Absorb(done: seq<Range>, r: Range): (done': seq<Range>) {
    if r.start == r.end then done
    else if done != [] && r.start <= Last(done).end then
      Front(done) + [Range(Last(done).start, if Last(done).end < r.end then r.end else Last(done).end)]
    else done + [r]
  }

  /** The pass over the first `n` ranges. */
  function CoalesceTo(rs: seq<Range>, n: nat): (rs': seq<Range>)
    requires n <= |rs|
  {
    if n == 0 then [] else Absorb(CoalesceTo(rs, n - 1), rs[n - 1])
  }

  function Coalesce(rs: seq<Range>): (rs': seq<Range>) {
    CoalesceTo(rs, |rs|)
  }

  lemma {:induction false} CoalesceIsLocal(rs: seq<Range>, r: Range, n: nat)
    requires n <= |rs|
    ensures CoalesceTo(rs + [r], n) == CoalesceTo(rs, n)
    decreases n
  {
    if n > 0 {
      CoalesceIsLocal(rs, r, n - 1);
      assert (rs + [r])[n - 1] == rs[n - 1];
      assert CoalesceTo(rs + [r], n) == Absorb(CoalesceTo(rs, n - 1), rs[n - 1]);
    }
  }

  lemma CoalescePush(rs: seq<Range>, r: Range)
    ensures Coalesce(rs + [r]) == Absorb(Coalesce(rs), r)
  {
    CoalesceIsLocal(rs, r, |rs|);
  }

  method CoalesceAll(rs: seq<Range>) returns (done: seq<Range>)
    ensures done == Coalesce(rs)
  {
    done := [];
    for i := 0 to |rs|
      invariant done == CoalesceTo(rs, i)
    {
      var range := rs[i];
      if range.start == range.end { continue; }
      if done != [] && range.start <= Last(done).end {
        var last := Last(done);
        done := Front(done) + [last.(end := if last.end < range.end then range.end else last.end)];
      } else {
        done := done + [range];
      }
    }
  }

  lemma AbsorbKeepsBytes(done: seq<Range>, r: Range, bound: int, x: nat)
    requires Separated(done, r.start) && r.start < r.end <= bound
    ensures var done' := Absorb(done, r);
            && Separated(done', bound)
            && done' != [] && Last(done').end == r.end
            && (Covered(done', x) <==> Covered(done, x) || Contains(r, x))
            && TotalSize(done') == TotalSize(done) + Size(r)
  {
    if done != [] && r.start <= Last(done).end {
      Push(Front(done), Range(Last(done).start, r.end), bound, x);
    } else {
      Push(done, r, bound, x);
    }
  }

  lemma CoalesceOneMore(front: seq<Range>, r: Range, bound: int, x: nat)
    requires r.start < r.end <= bound && Separated(Coalesce(front), r.start)
    ensures Separated(Coalesce(front + [r]), bound)
    ensures Covered(Coalesce(front + [r]), x) <==> Covered(Coalesce(front), x) || Contains(r, x)
    ensures TotalSize(Coalesce(front + [r])) == TotalSize(Coalesce(front)) + Size(r)
  {
    CoalescePush(front, r);
    AbsorbKeepsBytes(Coalesce(front), r, bound, x);
  }

  /** The pass leaves gaps between neighbours and neither loses nor gains a byte. */
  lemma {:induction false} CoalesceKeepsBytes(rs: seq<Range>, bound: int, x: nat)
    requires Ordered(rs, bound)
    ensures Separated(Coalesce(rs), bound)
    ensures Covered(Coalesce(rs), x) <==> Covered(rs, x)
    ensures TotalSize(Coalesce(rs)) == TotalSize(rs)
    decreases |rs|
  {
    if rs != [] {
      var front, last := Front(rs), Last(rs);
      CoalesceKeepsBytes(front, last.start, x);
      CoalesceOneMore(front, last, bound, x);
      assert rs == front + [last];
    }
  }

  // A returned range of no bytes is dropped by the pass.
  lemma {:induction false} EmptyRangeVanishes(rs: seq<Range>, r: Range)
    requires r.start == r.end
    ensures Coalesce(InsertSorted(rs, r)) == Coalesce(rs)
    decreases |rs|
  {
    if rs != [] && r.start < Last(rs).start {
      EmptyRangeVanishes(Front(rs), r);
      CoalescePush(InsertSorted(Front(rs), r), Last(rs));
      CoalescePush(Front(rs), Last(rs));
      assert rs == Front(rs) + [Last(rs)];
    } else {
      CoalescePush(rs, r);
    }
  }

  lemma {:induction false} SeparatedIsOrdered(rs: seq<Range>, bound: int)
    requires Separated(rs, bound)
    ensures Ordered(rs, bound)
    decreases |rs|
  {
    if rs != [] {
      SeparatedIsOrdered(Front(rs), Last(rs).start - 1);
      Loosen(Front(rs), Last(rs).start - 1, Last(rs).start);
    }
  }

  /** A coalesced free list that covers everything is the single whole range. */
  lemma WholeWhenCovered(rs: seq<Range>, ceiling: nat)
    requires ceiling > 0 && Separated(rs, ceiling)
    requires forall x :: 0 <= x < ceiling ==> Covered(rs, x)
    ensures rs == [Range(0, ceiling)]
  {
    SeparatedIsOrdered(rs, ceiling);
    assert Covered(rs, ceiling - 1);
    assert rs != [];
    OrderedIsBounded(Front(rs), Last(rs).start, ceiling - 1);
    if Last(rs).start > 0 {
      var gap := Last(rs).start - 1;
      assert Covered(rs, gap);
      SeparatedIsOrdered(Front(rs), gap);
      OrderedIsBounded(Front(rs), gap, gap);
    } else if Front(rs) != [] {
      assert false;
    }
  }

  // ─── lists in allocation order ─────────────────────────────────────────────

  /** No two ranges of the list share a byte. */
  predicate Apart(rs: seq<Range>) {
    rs != [] ==> Clear(Front(rs), Last(rs)) && Apart(Front(rs))
  }

  lemma PushApart(rs: seq<Range>, r: Range)
    ensures Apart(rs + [r]) <==> Apart(rs) && Clear(rs, r)
  {
    PushUnfolds(rs, r);
  }

  lemma PushClear(rs: seq<Range>, q: Range, r: Range)
    ensures Clear(rs + [q], r) <==> Clear(rs, r) && Disjoint(q, r)
  {
    PushUnfolds(rs, q);
  }

  lemma {:induction false} ApartMeans(rs: seq<Range>)
    requires Apart(rs)
    ensures forall i, j :: 0 <= i < j < |rs| ==> Disjoint(rs[i], rs[j])
    decreases |rs|
  {
    if rs != [] {
      ApartMeans(Front(rs));
      ClearMeans(Front(rs), Last(rs));
      assert forall i :: 0 <= i < |rs| - 1 ==> rs[i] == Front(rs)[i] && Front(rs)[i] in Front(rs);
    }
  }

  /** Sharing no byte with anything in the list is being disjoint from each member. */
  lemma {:induction false} ClearFromBytes(rs: seq<Range>, r: Range)
    requires forall x :: Contains(r, x) ==> !Covered(rs, x)
    ensures Clear(rs, r)
    decreases |rs|
  {
    if rs != [] {
      var q := Last(rs);
      var x := if q.start < r.start then r.start else q.start;
      assert Contains(r, x) ==> !Covered(rs, x);
      ClearFromBytes(Front(rs), r);
    }
  }

  lemma {:induction false} ClearSharesNoByte(rs: seq<Range>, r: Range, x: nat)
    requires Clear(rs, r)
    ensures !(Covered(rs, x) && Contains(r, x))
    decreases |rs|
  {
    if rs != [] { ClearSharesNoByte(Front(rs), r, x); }
  }

  function RemoveAt(rs: seq<Range>, i: nat): (rs': seq<Range>)
    requires i < |rs|
  {
    rs[..i] + rs[i + 1..]
  }

  lemma RemoveLast(rs: seq<Range>)
    requires rs != []
    ensures RemoveAt(rs, |rs| - 1) == Front(rs)
  {
    assert rs[|rs|..] == [];
  }

  lemma RemoveEarlier(rs: seq<Range>, i: nat)
    requires i < |rs| - 1
    ensures RemoveAt(rs, i) == RemoveAt(Front(rs), i) + [Last(rs)] && rs[i] == Front(rs)[i]
  {
    assert rs[i + 1..] == Front(rs)[i + 1..] + [Last(rs)];
  }

  lemma {:induction false} RemoveKeepsClear(rs: seq<Range>, i: nat, q: Range)
    requires i < |rs| && Clear(rs, q)
    ensures Clear(RemoveAt(rs, i), q) && Disjoint(rs[i], q)
    decreases |rs|
  {
    var front := Front(rs);
    if i == |rs| - 1 {
      RemoveLast(rs);
    } else {
      RemoveKeepsClear(front, i, q);
      RemoveEarlier(rs, i);
      PushClear(RemoveAt(front, i), Last(rs), q);
    }
  }

  /** Taking one range out of a list without overlaps uncovers exactly its bytes. */
  lemma {:induction false} RemoveTakesExactly(rs: seq<Range>, i: nat, x: nat)
    requires Apart(rs) && i < |rs|
    ensures Apart(RemoveAt(rs, i)) && Clear(RemoveAt(rs, i), rs[i])
    ensures Covered(rs, x) <==> Covered(RemoveAt(rs, i), x) || Contains(rs[i], x)
    ensures TotalSize(RemoveAt(rs, i)) + Size(rs[i]) == TotalSize(rs)
    decreases |rs|
  {
    var front, r := Front(rs), Last(rs);
    if i == |rs| - 1 {
      RemoveLast(rs);
    } else {
      RemoveTakesExactly(front, i, x);
      RemoveKeepsClear(front, i, r);
      RemoveEarlier(rs, i);
      Push(RemoveAt(front, i), r, 0, x);
      PushApart(RemoveAt(front, i), r);
      PushClear(RemoveAt(front, i), r, rs[i]);
    }
  }

  // ─── tiling ────────────────────────────────────────────────────────────────

  /** Free and taken ranges split `[0, ceiling)` between them: each byte belongs to exactly one range. */
  ghost predicate Tiles(free: seq<Range>, taken: seq<Range>, ceiling: nat) {
    && Ordered(free, ceiling)
    && Apart(taken)
    && (forall i :: 0 <= i < |taken| ==> taken[i].start <= taken[i].end <= ceiling)
    && (forall x: nat :: x < ceiling ==> (Covered(free, x) <==> !Covered(taken, x)))
    && TotalSize(free) + TotalSize(taken) == ceiling
  }

  lemma {:induction false} MemberCovers(rs: seq<Range>, i: nat, x: nat)
    requires i < |rs| && Contains(rs[i], x)
    ensures Covered(rs, x)
    decreases |rs|
  {
    if i < |rs| - 1 { MemberCovers(Front(rs), i, x); }
  }

  lemma TakenByte(free: seq<Range>, taken: seq<Range>, ceiling: nat, k: nat, r: Range, x: nat)
    requires Ordered(free, ceiling) && (Covered(free, x) <==> !Covered(taken, x))
    requires k < |free| && free[k].start <= r.start <= r.end <= free[k].end
    ensures Covered(Carve(free, k, r.start, r.end), x) <==> !Covered(taken + [r], x)
    ensures Contains(r, x) ==> !Covered(taken, x)
  {
    CarveTakesExactly(free, k, r.start, r.end, ceiling, x);
    Push(taken, r, 0, x);
    if Contains(r, x) { MemberCovers(free, k, x); }
  }

  lemma TakeKeepsTiling(free: seq<Range>, taken: seq<Range>, ceiling: nat, k: nat, r: Range)
    requires Tiles(free, taken, ceiling)
    requires k < |free| && free[k].start <= r.start <= r.end <= free[k].end
    ensures Tiles(Carve(free, k, r.start, r.end), taken + [r], ceiling)
  {
    OrderedMeans(free, ceiling);
    forall x: nat | x < ceiling
      ensures Covered(Carve(free, k, r.start, r.end), x) <==> !Covered(taken + [r], x)
      ensures Contains(r, x) ==> !Covered(taken, x)
    {
      TakenByte(free, taken, ceiling, k, r, x);
    }
    ClearFromBytes(taken, r);
    PushApart(taken, r);
    CarveTakesExactly(free, k, r.start, r.end, ceiling, 0);
    Push(taken, r, 0, 0);
  }

  /** Sorting the returned range in and coalescing. */
  function ReturnRange(free: seq<Range>, r: Range): (free': seq<Range>) {
    Coalesce(SortByStart(free + [r]))
  }

  lemma ReturnAddsExactly(free: seq<Range>, r: Range, bound: nat, x: nat)
    requires Ordered(free, bound) && r.start <= r.end <= bound && Clear(free, r)
    ensures Separated(ReturnRange(free, r), bound)
    ensures Covered(ReturnRange(free, r), x) <==> Covered(free, x) || Contains(r, x)
    ensures TotalSize(ReturnRange(free, r)) == TotalSize(free) + Size(r)
  {
    SortPush(free, r);
    OrderedStaysSorted(free, bound);
    if r.start == r.end {
      EmptyRangeVanishes(free, r);
      CoalesceKeepsBytes(free, bound, x);
    } else {
      InsertKeepsOrder(free, r, bound, x);
      CoalesceKeepsBytes(InsertSorted(free, r), bound, x);
    }
  }

  lemma ReturnKeepsTiling(free: seq<Range>, taken: seq<Range>, ceiling: nat, i: nat)
    requires Tiles(free, taken, ceiling) && i < |taken|
    ensures Tiles(ReturnRange(free, taken[i]), RemoveAt(taken, i), ceiling)
    ensures Separated(ReturnRange(free, taken[i]), ceiling)
  {
    var r, taken' := taken[i], RemoveAt(taken, i);
    var free' := ReturnRange(free, r);
    forall x: nat | Contains(r, x) ensures !Covered(free, x) {
      MemberCovers(taken, i, x);
    }
    ClearFromBytes(free, r);
    forall x: nat | x < ceiling
      ensures Covered(free', x) <==> !Covered(taken', x)
    {
      RemoveTakesExactly(taken, i, x);
      ReturnAddsExactly(free, r, ceiling, x);
      ClearSharesNoByte(taken', r, x);
    }
    RemoveTakesExactly(taken, i, 0);
    ReturnAddsExactly(free, r, ceiling, 0);
    SeparatedIsOrdered(free', ceiling);
  }
}
